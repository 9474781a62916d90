/** The records the store holds and the identity of the caller of a service. */
module Entities {
  import opened Results

  /** Record identities. The store hands out fresh ones (the source uses random UUIDs). */
  type Id = nat

  /** An ISO-8601 timestamp, produced outside the model. */
  type Timestamp = string

  datatype User = User(id: Id, name: string, email: string, passwordHash: string, role: string)

  /** What the services reveal about a user: everything but the password hash. */
  datatype PublicUser = PublicUser(id: Id, name: string, email: string, role: string)

  function Public(u: User): PublicUser
  {
    PublicUser(u.id, u.name, u.email, u.role)
  }

  datatype MenuItem = MenuItem(id: Id, name: string, description: string, price: real, isAvailable: bool)

  /** One line of an order. */
  datatype Line = Line(menuItemId: Id, quantity: real)

  /** The six order states. */
  datatype Status = Pending | Confirmed | Preparing | OutForDelivery | Completed | Cancelled

  datatype Order = Order(id: Id, userId: Id, items: seq<Line>, total: real, status: Status,
                         createdAt: Timestamp, updatedAt: Timestamp)

  /** The authenticated caller of a service: the `{id, role}` the token carried. */
  datatype Caller = Caller(id: Id, role: string) {
    predicate IsAdmin() { role == "admin" }
  }

  /** The wire names of the six states, in the source's order. */
  const ValidStatuses: seq<string> :=
    ["pending", "confirmed", "preparing", "out_for_delivery", "completed", "cancelled"]

  function StatusName(s: Status): string
  {
    match s
    case Pending => "pending"
    case Confirmed => "confirmed"
    case Preparing => "preparing"
    case OutForDelivery => "out_for_delivery"
    case Completed => "completed"
    case Cancelled => "cancelled"
  }

  /** The state a wire name denotes; None for any string outside the six names. */
  function ParseStatus(s: string): (r: Option<Status>)
    ensures r.Some? <==> s in ValidStatuses
    ensures r.Some? ==> StatusName(r.value) == s
  {
    if s == "pending" then Some(Pending)
    else if s == "confirmed" then Some(Confirmed)
    else if s == "preparing" then Some(Preparing)
    else if s == "out_for_delivery" then Some(OutForDelivery)
    else if s == "completed" then Some(Completed)
    else if s == "cancelled" then Some(Cancelled)
    else None
  }

  /** Every state has a wire name, and parsing that name gives the state back. */
  lemma ParseStatusName(s: Status)
    ensures StatusName(s) in ValidStatuses
    ensures ParseStatus(StatusName(s)) == Some(s)
  {
  }

  /** The wire names are pairwise distinct, so a state is identified by its name. */
  lemma StatusNameInjective(s: Status, t: Status)
    ensures StatusName(s) == StatusName(t) <==> s == t
  {
  }
}
