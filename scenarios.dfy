/** A client of the services that relies on their contracts alone: the lifecycle of one order. */
module Scenarios {
  import opened Results
  import opened Entities
  import opened DataStore
  import MenuService
  import OrderService
  import Totals
  import AuthService

  /** A 9.50 burger goes on the menu and user 7 orders two of them. */
  method PlaceBurgerOrder(store: Store, now: Timestamp) returns (order: Order)
    requires store.Valid() && store.menuItems == [] && store.orders == []
    modifies store
    ensures store.Valid() && store.orders == [order]
    ensures order.userId == 7 && order.status == Pending && order.total == 19.0
  {
    var created := MenuService.Create(store, MenuService.MenuInput(Some("Burger"), None, MenuService.Price(9.5), None));
    assert created.Ok?;
    var burger := created.value;
    assert store.menuItems == [burger];
    var request := [OrderService.LineInput(burger.id, OrderService.Quantity(2.0))];
    assert OrderService.Normalize(request) == [Line(burger.id, 2.0)];
    Totals.BurgerExample(burger);
    var placed := OrderService.CreateOrder(store, 7, Some(request), now);
    order := placed.value;
  }

  /** Someone else may not look at the order; its owner cancels it once; an admin
      may still move it to any state. */
  method FollowOrder(store: Store, order: Order, now: Timestamp)
    requires store.Valid() && store.orders == [order]
    requires order.userId == 7 && order.status == Pending
    modifies store
    ensures store.Valid()
  {
    assert store.OrderIndex(order.id) == 0;
    var peek := OrderService.GetOrder(store, Caller(8, "user"), order.id);
    assert peek == Fail(Forbidden);

    var cancelled := OrderService.UpdateStatus(store, Caller(7, "user"), order.id, "cancelled", now);
    assert cancelled.Ok? && cancelled.value.status == Cancelled;
    assert store.orders == [cancelled.value] && cancelled.value.total == order.total;

    var reopen := OrderService.UpdateStatus(store, Caller(7, "user"), order.id, "pending", now);
    assert reopen == Fail(Forbidden);

    var completed := OrderService.UpdateStatus(store, Caller(1, "admin"), order.id, "completed", now);
    assert completed.Ok? && completed.value.status == Completed && completed.value.total == order.total;
  }

  method OrderLifecycle(now: Timestamp)
  {
    var store := new Store();
    var order := PlaceBurgerOrder(store, now);
    FollowOrder(store, order, now);
    var refused := MenuService.Create(store, MenuService.MenuInput(Some("Fries"), None, MenuService.Price(-1.0), None));
    assert refused == Fail(InvalidInput);
  }

  /** Two registrations for the same email whose steps interleave at the password hashing:
      both pass the duplicate check before either stores its user, so the email is stored
      twice. */
  method InterleavedRegistrations(store: Store, name: string, email: string, hashA: string, hashB: string)
    requires store.Valid() && store.users == []
    modifies store
    ensures store.Valid()
    ensures |store.users| == 2 && store.users[0].email == store.users[1].email == email
    ensures !AuthService.EmailsDistinct(store.users)
  {
    var seenByA := store.FindUserByEmail(email);
    var seenByB := store.FindUserByEmail(email);
    assert seenByA.None? && seenByB.None?;
    var a := store.CreateUser(name, email, hashA, "user");
    var b := store.CreateUser(name, email, hashB, "user");
    assert store.users == [a, b];
  }
}
