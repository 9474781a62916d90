/** The in-memory store: three collections of records, the create, find, list,
    update and delete operations on them, and the pricing of an order. The store
    validates nothing; the services do. */
module DataStore {
  import opened Results
  import opened Entities
  import opened Seqs
  import opened Text

  /** The fields of a new menu item; `isAvailable` defaults to true when absent. */
  datatype MenuDraft = MenuDraft(name: string, description: string, price: real, isAvailable: Option<bool>)

  /** A partial update of a menu item: only the present fields are overwritten. */
  datatype MenuPatch = MenuPatch(name: Option<string>, description: Option<string>,
                                 price: Option<real>, isAvailable: Option<bool>)

  /** The criteria of an order listing; an absent criterion (or an empty status) is not applied. */
  datatype OrderFilter = OrderFilter(userId: Option<Id>, status: Option<string>)

  /** Merge of a patch into an item, field by field. The identity is never patched. */
  function ApplyPatch(m: MenuItem, p: MenuPatch): (r: MenuItem)
    ensures r.id == m.id
    ensures r.name == (if p.name.Some? then p.name.value else m.name)
    ensures r.description == (if p.description.Some? then p.description.value else m.description)
    ensures r.price == (if p.price.Some? then p.price.value else m.price)
    ensures r.isAvailable == (if p.isAvailable.Some? then p.isAvailable.value else m.isAvailable)
  {
    MenuItem(m.id, p.name.GetOr(m.name), p.description.GetOr(m.description),
             p.price.GetOr(m.price), p.isAvailable.GetOr(m.isAvailable))
  }

  predicate Matches(f: OrderFilter, o: Order)
  {
    && (f.userId.Some? ==> o.userId == f.userId.value)
    && (f.status.Some? && f.status.value != "" ==> StatusName(o.status) == f.status.value)
  }

  // ---- Pricing (computeOrderTotal) as functions of the menu ----

  /** Position of the first menu item with identity `id`, or -1. */
  function MenuIndex(menu: seq<MenuItem>, id: Id): (k: int)
    ensures -1 <= k < |menu|
    ensures k == -1 <==> forall j :: 0 <= j < |menu| ==> menu[j].id != id
    ensures 0 <= k ==> menu[k].id == id && forall j :: 0 <= j < k ==> menu[j].id != id
  {
    FindIndex(menu, (m: MenuItem) => m.id == id)
  }

  function FindMenuItem(menu: seq<MenuItem>, id: Id): (r: Option<MenuItem>)
  {
    var k := MenuIndex(menu, id);
    if k == -1 then None else Some(menu[k])
  }

  /** A line can be priced: its menu item exists and is available. */
  predicate Orderable(menu: seq<MenuItem>, line: Line)
  {
    var m := FindMenuItem(menu, line.menuItemId);
    m.Some? && m.value.isAvailable
  }

  predicate AllOrderable(menu: seq<MenuItem>, lines: seq<Line>)
  {
    forall i :: 0 <= i < |lines| ==> Orderable(menu, lines[i])
  }

  /** Unit price times quantity (zero for a line whose item is missing). */
  function LineAmount(menu: seq<MenuItem>, line: Line): real
  {
    match FindMenuItem(menu, line.menuItemId)
    case Some(m) => m.price * line.quantity
    case None => 0.0
  }

  /** The unrounded sum of the line amounts, accumulated front to back. */
  function Subtotal(menu: seq<MenuItem>, lines: seq<Line>): real
  {
    if |lines| == 0 then 0.0
    else Subtotal(menu, lines[..|lines| - 1]) + LineAmount(menu, lines[|lines| - 1])
  }

  /** `Math.round(x * 100) / 100`: Math.round rounds half-way cases up, i.e. floor(y + 0.5). */
  function Round2(x: real): real
  {
    ((x * 100.0 + 0.5).Floor as real) / 100.0
  }

  /** What computeOrderTotal yields: a 400 failure when some line cannot be priced,
      otherwise the rounded sum of the line amounts. */
  function Quote(menu: seq<MenuItem>, lines: seq<Line>): Result<real>
  {
    if AllOrderable(menu, lines) then Ok(Round2(Subtotal(menu, lines))) else Fail(InvalidInput)
  }

  class Store {
    var users: seq<User>
    var menuItems: seq<MenuItem>
    var orders: seq<Order>
    /** Supply of fresh identities; stands for randomUUID. */
    var nextId: Id

    /** Every identity was handed out by the supply and none is used twice in a collection. */
    ghost predicate Valid()
      reads this
    {
      && (forall i :: 0 <= i < |users| ==> users[i].id < nextId)
      && (forall i, j :: 0 <= i < j < |users| ==> users[i].id != users[j].id)
      && (forall i :: 0 <= i < |menuItems| ==> menuItems[i].id < nextId)
      && (forall i, j :: 0 <= i < j < |menuItems| ==> menuItems[i].id != menuItems[j].id)
      && (forall i :: 0 <= i < |orders| ==> orders[i].id < nextId)
      && (forall i, j :: 0 <= i < j < |orders| ==> orders[i].id != orders[j].id)
    }

    constructor ()
      ensures Valid()
      ensures users == [] && menuItems == [] && orders == []
    {
      users, menuItems, orders := [], [], [];
      nextId := 0;
    }

    // ---- Users ----

    method CreateUser(name: string, email: string, passwordHash: string, role: string) returns (u: User)
      requires Valid()
      modifies this
      ensures Valid()
      ensures u.name == name && u.email == email && u.passwordHash == passwordHash && u.role == role
      ensures forall v :: v in old(users) ==> v.id != u.id
      ensures users == old(users) + [u]
      ensures menuItems == old(menuItems) && orders == old(orders)
    {
      u := User(nextId, name, email, passwordHash, role);
      users := users + [u];
      nextId := nextId + 1;
    }

    /** Position of the first user whose email equals `email` ignoring case, or -1. */
    function UserIndexByEmail(email: string): (k: int)
      reads this
      ensures -1 <= k < |users|
      ensures k == -1 <==> forall j :: 0 <= j < |users| ==> Lower(users[j].email) != Lower(email)
      ensures 0 <= k ==>
        && Lower(users[k].email) == Lower(email)
        && forall j :: 0 <= j < k ==> Lower(users[j].email) != Lower(email)
    {
      FindIndex(users, (u: User) => Lower(u.email) == Lower(email))
    }

    function FindUserByEmail(email: string): (r: Option<User>)
      reads this
      ensures r.None? <==> forall j :: 0 <= j < |users| ==> Lower(users[j].email) != Lower(email)
      ensures r.Some? ==> r.value == users[UserIndexByEmail(email)]
    {
      var k := UserIndexByEmail(email);
      if k == -1 then None else Some(users[k])
    }

    /** Position of the first user with identity `id`, or -1. */
    function UserIndexById(id: Id): (k: int)
      reads this
      ensures -1 <= k < |users|
      ensures k == -1 <==> forall j :: 0 <= j < |users| ==> users[j].id != id
      ensures 0 <= k ==> users[k].id == id && forall j :: 0 <= j < k ==> users[j].id != id
    {
      FindIndex(users, (u: User) => u.id == id)
    }

    function FindUserById(id: Id): (r: Option<User>)
      reads this
      ensures r.None? <==> forall j :: 0 <= j < |users| ==> users[j].id != id
      ensures r.Some? ==> r.value.id == id && r.value == users[UserIndexById(id)]
    {
      var k := UserIndexById(id);
      if k == -1 then None else Some(users[k])
    }

    /** A copy of the user collection, in store order. */
    function ListUsers(): (r: seq<User>)
      reads this
      ensures |r| == |users| && forall i :: 0 <= i < |r| ==> r[i] == users[i]
    {
      users
    }

    // ---- Menu ----

    method CreateMenuItem(d: MenuDraft) returns (item: MenuItem)
      requires Valid()
      modifies this
      ensures Valid()
      ensures item.name == d.name && item.description == d.description && item.price == d.price
      ensures item.isAvailable == (d.isAvailable.None? || d.isAvailable.value)
      ensures forall m :: m in old(menuItems) ==> m.id != item.id
      ensures menuItems == old(menuItems) + [item]
      ensures users == old(users) && orders == old(orders)
    {
      item := MenuItem(nextId, d.name, d.description, d.price, d.isAvailable.GetOr(true));
      menuItems := menuItems + [item];
      nextId := nextId + 1;
    }

    /** Position of the item with identity `id`, or -1. */
    function MenuIndexOf(id: Id): int
      reads this
    {
      MenuIndex(menuItems, id)
    }

    method UpdateMenuItem(id: Id, patch: MenuPatch) returns (r: Option<MenuItem>)
      requires Valid()
      modifies this
      ensures Valid()
      ensures users == old(users) && orders == old(orders) && nextId == old(nextId)
      ensures old(MenuIndexOf(id)) == -1 ==> r.None? && menuItems == old(menuItems)
      ensures old(MenuIndexOf(id)) != -1 ==>
        var k := old(MenuIndexOf(id));
        && r == Some(ApplyPatch(old(menuItems[k]), patch))
        && menuItems == old(menuItems)[k := r.value]
    {
      var k := MenuIndexOf(id);
      if k == -1 {
        return None;
      }
      menuItems := menuItems[k := ApplyPatch(menuItems[k], patch)];
      r := Some(menuItems[k]);
    }

    method DeleteMenuItem(id: Id) returns (deleted: bool)
      requires Valid()
      modifies this
      ensures Valid()
      ensures users == old(users) && orders == old(orders) && nextId == old(nextId)
      ensures deleted <==> old(MenuIndexOf(id)) != -1
      ensures !deleted ==> menuItems == old(menuItems)
      ensures deleted ==>
        var k := old(MenuIndexOf(id));
        menuItems == old(menuItems)[..k] + old(menuItems)[k + 1..]
    {
      var k := MenuIndexOf(id);
      if k == -1 {
        return false;
      }
      ghost var before := menuItems;
      menuItems := menuItems[..k] + menuItems[k + 1..];
      forall i | 0 <= i < |menuItems|
        ensures menuItems[i] == before[if i < k then i else i + 1]
      {
      }
      deleted := true;
    }

    function GetMenuItem(id: Id): (r: Option<MenuItem>)
      reads this
      ensures r.None? <==> forall j :: 0 <= j < |menuItems| ==> menuItems[j].id != id
      ensures r.Some? ==> r.value == menuItems[MenuIndexOf(id)] && r.value.id == id
    {
      FindMenuItem(menuItems, id)
    }

    /** All items, or only the available ones, in store order. */
    function ListMenuItems(onlyAvailable: bool): (r: seq<MenuItem>)
      reads this
      ensures !onlyAvailable ==> r == menuItems
      ensures onlyAvailable ==>
        && (forall i :: 0 <= i < |r| ==> r[i] in menuItems && r[i].isAvailable)
        && (forall i :: 0 <= i < |menuItems| && menuItems[i].isAvailable ==> menuItems[i] in r)
      ensures SubseqOf(r, menuItems)
    {
      if onlyAvailable then Filter(menuItems, (m: MenuItem) => m.isAvailable)
      else SubseqRefl(menuItems); menuItems
    }

    // ---- Orders ----

    method CreateOrder(userId: Id, items: seq<Line>, total: real, now: Timestamp) returns (o: Order)
      requires Valid()
      modifies this
      ensures Valid()
      ensures o.userId == userId && o.items == items && o.total == total && o.status == Pending
      ensures o.createdAt == now && o.updatedAt == now
      ensures forall p :: p in old(orders) ==> p.id != o.id
      ensures orders == old(orders) + [o]
      ensures users == old(users) && menuItems == old(menuItems)
    {
      o := Order(nextId, userId, items, total, Pending, now, now);
      orders := orders + [o];
      nextId := nextId + 1;
    }

    /** Position of the first order with identity `id`, or -1. */
    function OrderIndex(id: Id): (k: int)
      reads this
      ensures -1 <= k < |orders|
      ensures k == -1 <==> forall j :: 0 <= j < |orders| ==> orders[j].id != id
      ensures 0 <= k ==> orders[k].id == id && forall j :: 0 <= j < k ==> orders[j].id != id
    {
      FindIndex(orders, (o: Order) => o.id == id)
    }

    function GetOrder(id: Id): (r: Option<Order>)
      reads this
      ensures r.None? <==> forall j :: 0 <= j < |orders| ==> orders[j].id != id
      ensures r.Some? ==> r.value == orders[OrderIndex(id)] && r.value.id == id
    {
      var k := OrderIndex(id);
      if k == -1 then None else Some(orders[k])
    }

    /** The orders matching every supplied criterion, in store order. */
    function ListOrders(f: OrderFilter): (r: seq<Order>)
      reads this
      ensures forall i :: 0 <= i < |r| ==> r[i] in orders && Matches(f, r[i])
      ensures forall i :: 0 <= i < |orders| && Matches(f, orders[i]) ==> orders[i] in r
      ensures SubseqOf(r, orders)
    {
      var byUser := if f.userId.Some? then Filter(orders, (o: Order) => o.userId == f.userId.value) else orders;
      var byStatus :=
        if f.status.Some? && f.status.value != ""
        then Filter(byUser, (o: Order) => StatusName(o.status) == f.status.value)
        else byUser;
      SubseqRefl(orders);
      SubseqRefl(byUser);
      SubseqTrans(byStatus, byUser, orders);
      byStatus
    }

    method UpdateOrderStatus(id: Id, status: Status, now: Timestamp) returns (r: Option<Order>)
      requires Valid()
      modifies this
      ensures Valid()
      ensures users == old(users) && menuItems == old(menuItems) && nextId == old(nextId)
      ensures old(OrderIndex(id)) == -1 ==> r.None? && orders == old(orders)
      ensures old(OrderIndex(id)) != -1 ==>
        var k := old(OrderIndex(id));
        && r == Some(old(orders[k]).(status := status, updatedAt := now))
        && orders == old(orders)[k := r.value]
    {
      var k := OrderIndex(id);
      if k == -1 {
        return None;
      }
      orders := orders[k := orders[k].(status := status, updatedAt := now)];
      r := Some(orders[k]);
    }

    /** computeOrderTotal: walks the lines in order, failing on the first one whose
        item is missing or unavailable, and otherwise accumulates price times quantity. */
    method ComputeOrderTotal(items: seq<Line>) returns (r: Result<real>)
      ensures r == Quote(menuItems, items)
    {
      var total := 0.0;
      for i := 0 to |items|
        invariant AllOrderable(menuItems, items[..i])
        invariant total == Subtotal(menuItems, items[..i])
      {
        var menu := GetMenuItem(items[i].menuItemId);
        if menu.None? || !menu.value.isAvailable {
          assert !Orderable(menuItems, items[i]);
          return Fail(InvalidInput);
        }
        assert items[..i + 1][..i] == items[..i];
        total := total + menu.value.price * items[i].quantity;
      }
      assert items[..|items|] == items;
      r := Ok(Round2(total));
    }
  }
}
