# Food-ordering backend: the in-memory engine

This project models the engine behind the food-ordering REST backend and proves
properties about it. The engine is an in-memory data store that holds users, menu items and
orders. Four services sit on top of it:

- the order service: placement, access by owner or admin, and status changes;
- the menu service: validated create, read, update and delete of menu items;
- the user service: public profiles;
- the auth service: registration and login.

Modules, one per component of the source:

- `Results`: `Option`, `Result`, and the typed failures. Each failure carries the HTTP status it is
  thrown with: `InvalidInput` 400, `Unauthorized` 401, `Forbidden` 403, `NotFound` 404,
  `Conflict` 409, `Internal` 500.
- `Seqs`: `findIndex` and `filter` as functions on sequences, plus the "subsequence
  of" relation. That relation is how the listings state that store order is kept.
- `Text`: ASCII lower-casing, used for email comparison, and JavaScript truthiness of an
  optional string.
- `Entities`: the records. It also holds the six order states and their wire names
  (`ValidStatuses`).
- `DataStore`: the class `Store`. Its fields `users`, `menuItems` and `orders` are sequences
  that the methods reassign, where the source uses `push`, `splice` and indexed assignment.
  A counter `nextId` supplies fresh identities. `Valid()` says that every identity came from
  the counter and that no identity appears twice in a collection. Each mutating method states
  the complete new state of all three collections. `computeOrderTotal` is a loop proved equal
  to the function `Quote`.
- `Totals`: lemmas about pricing. Reordering the lines does not change the outcome, rounding
  moves a value by at most half a cent, and totals are non-negative.
- `OrderService`, `MenuService`, `UserService`, `AuthService`: the services.
  - Operations that change the store are methods with `modifies store`.
  - Pure reads are functions that `reads store`.
  - The caller is a value `Caller(id, role)`.
  - Every failure path returns `Fail(...)` with the source's status code.
- `Scenarios`: a client that walks one order through its lifecycle using only the contracts.
  A 9.50 burger is ordered twice for 19.00. Another user is forbidden to see the order, its
  owner cancels it, and an admin completes it. A menu item priced at −1 is refused.
  `Scenarios.InterleavedRegistrations` drives `Store.FindUserByEmail` and `Store.CreateUser`
  directly: two registrations for one email both pass the duplicate check before either inserts,
  and the email ends up stored twice.

Behaviour modelled as written:

- An admin may set any status from any status. There is no transition graph.
- `register` stores whatever role the request supplies, including `"admin"`. The role
  defaults to `"user"` only when the field is absent.
- `register` appends the user before the token is signed. So when no signing secret is
  configured, the call fails with 500 but the user stays stored (`AuthService.Register`
  states this).
- The status check of `updateStatus` (400) comes before the existence check (404). The price
  check of the menu service's `update` (400) comes before the store is touched.

## Model

| member | source | states |
|---|---|---|
| `DataStore.Store.constructor` | food_order_backend/src/models/datastore.js:8-12 | the store starts with three empty collections and satisfies its invariant |
| `DataStore.Store.CreateUser` | food_order_backend/src/models/datastore.js:15-19 | appends exactly one user with the given fields and a fresh identity; the earlier users and the other collections are unchanged |
| `DataStore.Store.UserIndexByEmail` | food_order_backend/src/models/datastore.js:21 | the position of the first user whose email equals the given one ignoring case, or -1 exactly when no user's email matches |
| `DataStore.Store.FindUserByEmail` | food_order_backend/src/models/datastore.js:20-22 | nothing is found exactly when no email matches ignoring case; otherwise the first matching user is returned |
| `DataStore.Store.UserIndexById` | food_order_backend/src/models/datastore.js:24 | the first position holding the identity, or -1 exactly when no user has it |
| `DataStore.Store.FindUserById` | food_order_backend/src/models/datastore.js:23-25 | nothing is found exactly when no user has the identity; otherwise the first stored user with that identity is returned |
| `DataStore.Store.ListUsers` | food_order_backend/src/models/datastore.js:26-28 | a copy: the same users, same length, same order |
| `DataStore.Store.CreateMenuItem` | food_order_backend/src/models/datastore.js:31-35 | appends exactly one item with the given fields and a fresh identity; availability is true unless the draft supplies it; existing items and other collections are unchanged |
| `DataStore.MenuIndex` | food_order_backend/src/models/datastore.js:37 | the first position holding the identity, or -1 exactly when no item has it |
| `DataStore.ApplyPatch` | food_order_backend/src/models/datastore.js:39 | each field present in the patch takes the patch's value; every other field, and always the identity, keeps the old value |
| `DataStore.Store.UpdateMenuItem` | food_order_backend/src/models/datastore.js:36-41 | an absent identity yields nothing and no change; otherwise only the first matching position changes, to the patched item, which is returned; the length and users/orders are preserved |
| `DataStore.Store.DeleteMenuItem` | food_order_backend/src/models/datastore.js:42-47 | false with no change exactly when the identity is absent; otherwise exactly the first matching item is removed and the rest keep their relative order |
| `DataStore.Store.GetMenuItem` | food_order_backend/src/models/datastore.js:48-50 | nothing exactly when no item has the identity; otherwise the first item with it |
| `DataStore.Store.ListMenuItems` | food_order_backend/src/models/datastore.js:51-53 | without the flag, all items as stored; with it, exactly the available items (each returned item is a stored available one and each stored available one is returned), in store order |
| `DataStore.Store.CreateOrder` | food_order_backend/src/models/datastore.js:56-61 | appends exactly one order for the given user, lines and total, in state pending, created and updated at the given time, with a fresh identity |
| `DataStore.Store.OrderIndex` | food_order_backend/src/models/datastore.js:72 | the first position holding the order identity, or -1 exactly when no order has it |
| `DataStore.Store.GetOrder` | food_order_backend/src/models/datastore.js:62-64 | nothing exactly when no order has the identity; otherwise the first order with it |
| `DataStore.Store.ListOrders` | food_order_backend/src/models/datastore.js:65-70 | exactly the orders matching the user criterion if given AND the status criterion if given and non-empty, in store order |
| `DataStore.Store.UpdateOrderStatus` | food_order_backend/src/models/datastore.js:71-76 | an absent identity yields nothing and no change; otherwise only that order's status and update time change (identity, owner, lines, total untouched) and all other orders stay the same |
| `DataStore.Store.ComputeOrderTotal` | food_order_backend/src/models/datastore.js:79-89 | the loop yields 400 when some line's item is missing or unavailable, and otherwise the rounded sum of price times quantity (`Quote`) |
| `Totals.SubtotalPermutation` | food_order_backend/src/models/datastore.js:80-87 | the unrounded sum of price times quantity is the same for any reordering of the lines |
| `Totals.AllOrderablePermutation` | food_order_backend/src/models/datastore.js:81-85 | whether some line is unpriceable does not depend on the order of the lines |
| `Totals.QuotePermutation` | food_order_backend/src/models/datastore.js:79-89 | the outcome of computing a total, failure or rounded sum, is invariant under reordering the lines |
| `Totals.Round2Bounds` | food_order_backend/src/models/datastore.js:88 | rounding to cents moves the sum by less than half a cent downwards and at most half a cent upwards |
| `Totals.Round2Idempotent` | food_order_backend/src/models/datastore.js:88 | a rounded total is already a whole number of cents |
| `Totals.QuoteNonNegative` | food_order_backend/src/models/datastore.js:79-89 | with non-negative prices and quantities of at least one, a computed total is non-negative |
| `Totals.UnknownItemFails` | food_order_backend/src/models/datastore.js:82-85 | one line naming an item not on the menu makes the whole computation fail with 400 |
| `Totals.BurgerExample` | food_order_backend/src/models/datastore.js:79-89 | two of a 9.50 item cost 19.00 |
| `Entities.ParseStatus` | food_order_backend/src/services/order.service.js:3 | a string names a state exactly when it is one of the six wire names, and the state found has that name |
| `Entities.ParseStatusName` | food_order_backend/src/services/order.service.js:3 | every state has one of the six names, and parsing it gives the state back |
| `Entities.StatusNameInjective` | food_order_backend/src/services/order.service.js:3 | two states with the same wire name are the same state |
| `OrderService.Normalize` | food_order_backend/src/services/order.service.js:14-17 | one line per requested line with the same item, in the same order; every quantity is at least 1, a missing or falsy quantity becomes 1, a quantity below 1 becomes exactly 1, and a quantity of at least 1 is kept |
| `OrderService.NormalizePermutation` | food_order_backend/src/services/order.service.js:14-17 | normalising a reordering of the request gives a reordering of the normalised lines |
| `OrderService.CreateOrderTotalOrderIndependent` | food_order_backend/src/services/order.service.js:14-18 | the price of an order, or its failure, does not depend on the order of the requested lines |
| `OrderService.CreateOrder` | food_order_backend/src/services/order.service.js:10-20 | missing or empty lines, or lines that cannot be priced, fail with 400 and store no order; otherwise exactly one order is appended for the caller, in state pending, with the normalised lines and the computed total; stored quantities stay at least 1 |
| `OrderService.GetOrder` | food_order_backend/src/services/order.service.js:26-33 | 404 exactly when the order is absent, 403 exactly when it exists and the caller is neither admin nor its owner, otherwise that order |
| `OrderService.ListOrders` | food_order_backend/src/services/order.service.js:39-44 | a non-admin sees only their own orders; with a non-empty status, only orders in that status; every order visible to the caller and matching the status is listed, in store order |
| `OrderService.UpdateStatus` | food_order_backend/src/services/order.service.js:50-66 | an unknown status fails with 400 before the existence check (404); an admin always succeeds; a non-admin succeeds exactly when they own the order, ask for cancelled and the order is pending; every other case is 403; failures leave the store unchanged, and success changes only that order's status and update time |
| `MenuService.List` | food_order_backend/src/services/menu.service.js:8-10 | all items, or exactly the available ones, in store order |
| `MenuService.Create` | food_order_backend/src/services/menu.service.js:16-25 | fails with 400 and no change exactly when the name is falsy, or the price is missing, NaN or negative; otherwise appends one item with that non-negative price, description defaulting to empty and availability to true; stored prices stay non-negative |
| `MenuService.Get` | food_order_backend/src/services/menu.service.js:31-35 | 404 exactly when no item has the identity, otherwise the first stored item with it |
| `MenuService.Update` | food_order_backend/src/services/menu.service.js:41-56 | a NaN or negative price fails with 400 before the store is touched; an absent identity fails with 404; it fails exactly in those two cases; success replaces only that item with the patched one, carrying the given price and availability; stored prices stay non-negative |
| `MenuService.Remove` | food_order_backend/src/services/menu.service.js:62-66 | 404 with no change exactly when the identity is absent; otherwise true, the item is removed in place and no item with that identity remains |
| `UserService.GetProfile` | food_order_backend/src/services/user.service.js:8-12 | 404 exactly when no user has the identity; otherwise that user's id, name, email and role (the result type has no password hash) |
| `UserService.ListUsers` | food_order_backend/src/services/user.service.js:18-20 | one public record per stored user, same length and order, each with that user's id, name, email and role |
| `AuthService.ClaimsOf` | food_order_backend/src/services/auth.service.js:10 | the token names the user's identity and a non-empty role, "user" when the stored role is empty |
| `AuthService.SignToken` | food_order_backend/src/services/auth.service.js:5-13 | fails with 500 exactly when no secret is configured; otherwise signs the user's claims with the secret |
| `AuthService.Register` | food_order_backend/src/services/auth.service.js:20-35 | a falsy name, email or password fails with 400 and adds no user; an email already stored ignoring case fails with 409 and adds no user; otherwise exactly one user is appended with the hashed password and the role defaulting to "user"; with no signing secret the call then fails with 500 and the user stays stored, otherwise the session returned holds the public user; case-insensitive distinctness of emails is preserved when registrations run one after another |
| `Scenarios.InterleavedRegistrations` | food_order_backend/src/services/auth.service.js:24-29 | two registrations for one email that both pass the duplicate check before either inserts leave two users with that email, so distinct emails are not kept |
| `AuthService.Login` | food_order_backend/src/services/auth.service.js:41-58 | a falsy email or password fails with 400; an unknown email or a failed password check fails with 401; a missing signing secret fails with 500; otherwise the session of the first user whose email matches ignoring case; the store is only read |
| `AuthService.FindUserByEmailIgnoresCase` | food_order_backend/src/models/datastore.js:20-22 | two emails equal ignoring case find the same user |
| `AuthService.LoginIgnoresCase` | food_order_backend/src/services/auth.service.js:41-58 | logging in gives the same outcome however the email's case is typed |
| `AuthService.LoginFindsRegisteredUser` | food_order_backend/src/services/auth.service.js:41-58 | while emails are distinct ignoring case, every stored user whose password checks logs in as themselves with any spelling of their email |

## Left out

- HTTP routing, controllers, middleware and API documentation are not modelled. The admin-only
  guard on menu mutations lives in the routes, so `MenuService` checks no role. Token
  verification is also outside the model: the caller arrives as a `Caller(id, role)` value.
- Password hashing, password checking and token signing are passed in as function
  parameters. They are treated as opaque, with no relation assumed between hashing and
  checking. The token lifetime is not modelled, and the signing secret is a parameter.
- `randomUUID` is replaced by a counter, so identities are natural numbers.
  - The `String(...)` coercion of requested item identities is the identity function.
  - JavaScript's falsy caller id is not modelled. If it could occur, the source's
    `if (filter.userId)` would drop the owner filter. The model never treats an identity as
    absent, including 0; in the source the caller id is the token's subject, a UUID string,
    which is never falsy.
- Timestamps (`new Date().toISOString()`) are parameters.
- Floating point is not modelled.
  - Prices, quantities and totals are exact reals, and `Math.round(x*100)/100` is
    `floor(x*100 + 0.5)/100` on reals. Binary rounding artefacts (such as 1.005) are not
    captured.
  - `Number(...)` is abstracted into input variants: a price is absent, NaN or a number, and a
    quantity is falsy or a number.
  - A quantity such as `"abc"` becomes NaN in the source and then runs through `Math.max` and
    the total as NaN. The model has no NaN quantity.
- JavaScript object-spread effects are not modelled:
  - a patch overwriting `id`;
  - an explicit `price: null` in an update being copied onto the item;
  - unknown request fields being stored;
  - caller fields overriding `status` on order creation.
- Email case-insensitivity covers ASCII letters only. `toLowerCase` folds all of Unicode.
- Requests whose fields have the wrong JSON type are not modelled. A non-string email, for
  example, makes the email lookup throw, and the source answers 500, once at least one user is
  stored. On an empty store the lookup never compares, so registration succeeds and stores that
  email; from then on every lookup by email throws. A request that is not an array of lines
  is modelled as a missing `items`.
- `Results.Failure` keeps only the kind of error and its status code. The messages are left out,
  among them the list of allowed statuses in a 400 on a status change and the shared
  "Invalid credentials" message of both 401 paths of login.
- Aliasing is not modelled: the source returns references to the stored objects, and the model
  returns values.
- `AuthService.Register` is modelled as one atomic step. In the source it awaits the password
  hash between the duplicate check and the insert, so two registrations for the same email can
  interleave there, both pass the 409 check, and the email ends up stored twice;
  `Scenarios.InterleavedRegistrations` shows that interleaving. Its preservation of distinct
  emails holds only for registrations that run one after another. Concurrency is otherwise not
  modelled.
- `DataStore.Store.ListMenuItems`, `DataStore.Store.ListOrders`, `MenuService.List` and
  `OrderService.ListOrders`: these state that each listed record is a stored one that matches,
  that every stored match is listed, and that store order is kept. They do not state how many
  times a record is repeated. `Store.Valid()` already makes identities unique, so no record is
  stored twice.
