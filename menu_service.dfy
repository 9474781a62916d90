/** Validated create, read, update and delete of menu items. Only admins reach the
    mutating operations (a route guard outside this model); this service checks no role. */
module MenuService {
  import opened Results
  import opened Entities
  import opened Seqs
  import opened DataStore
  import opened Text

  /** A price field as `Number(price)` sees it: absent (undefined or null), not a
      number (NaN), or a number. */
  datatype PriceInput = NoPrice | NotANumber | Price(amount: real)

  /** The body of a create or update request; None is an absent field. The availability
      flag is the `Boolean(...)` of what was sent. */
  datatype MenuInput = MenuInput(name: Option<string>, description: Option<string>,
                                 price: PriceInput, isAvailable: Option<bool>)

  /** The price check of create and update: not NaN and not negative. */
  predicate AcceptablePrice(amount: real) { amount >= 0.0 }

  /** A price an update must refuse: present but NaN or negative. An absent price is left alone. */
  predicate PriceRejected(p: PriceInput)
  {
    p.NotANumber? || (p.Price? && !AcceptablePrice(p.amount))
  }

  /** Every stored price is non-negative. */
  ghost predicate PricesValid(menu: seq<MenuItem>)
  {
    forall i :: 0 <= i < |menu| ==> menu[i].price >= 0.0
  }

  /** All items, or only those available, in store order. */
  function List(store: Store, onlyAvailable: bool): (r: seq<MenuItem>)
    reads store
    ensures !onlyAvailable ==> r == store.menuItems
    ensures onlyAvailable ==>
      && (forall i :: 0 <= i < |r| ==> r[i] in store.menuItems && r[i].isAvailable)
      && (forall i :: 0 <= i < |store.menuItems| && store.menuItems[i].isAvailable ==> store.menuItems[i] in r)
    ensures SubseqOf(r, store.menuItems)
  {
    store.ListMenuItems(onlyAvailable)
  }

  method Create(store: Store, input: MenuInput) returns (r: Result<MenuItem>)
    requires store.Valid()
    modifies store
    ensures store.Valid()
    ensures store.users == old(store.users) && store.orders == old(store.orders)
    ensures r.Fail? <==> !Truthy(input.name) || !input.price.Price? || !AcceptablePrice(input.price.amount)
    ensures r.Fail? ==> r.failure == InvalidInput && store.menuItems == old(store.menuItems)
    ensures r.Ok? ==>
      && r.value.name == input.name.value
      && r.value.description == input.description.GetOr("")
      && r.value.price == input.price.amount && r.value.price >= 0.0
      && r.value.isAvailable == input.isAvailable.GetOr(true)
      && (forall m :: m in old(store.menuItems) ==> m.id != r.value.id)
      && store.menuItems == old(store.menuItems) + [r.value]
    ensures PricesValid(old(store.menuItems)) ==> PricesValid(store.menuItems)
  {
    if !Truthy(input.name) || input.price.NoPrice? {
      return Fail(InvalidInput);
    }
    if input.price.NotANumber? || input.price.amount < 0.0 {
      return Fail(InvalidInput);
    }
    var draft := MenuDraft(input.name.value, input.description.GetOr(""), input.price.amount,
                           Some(input.isAvailable.GetOr(true)));
    var item := store.CreateMenuItem(draft);
    r := Ok(item);
  }

  /** The item with identity `id`. */
  function Get(store: Store, id: Id): (r: Result<MenuItem>)
    reads store
    ensures r.Fail? <==> forall j :: 0 <= j < |store.menuItems| ==> store.menuItems[j].id != id
    ensures r.Fail? ==> r.failure == NotFound
    ensures r.Ok? ==> r.value.id == id && r.value == store.menuItems[store.MenuIndexOf(id)]
  {
    match store.GetMenuItem(id)
    case None => Fail(NotFound)
    case Some(item) => Ok(item)
  }

  /** The store patch an update request turns into, once its price has been checked. */
  function PatchOf(input: MenuInput): MenuPatch
  {
    MenuPatch(input.name, input.description,
              if input.price.Price? then Some(input.price.amount) else None,
              input.isAvailable)
  }

  method Update(store: Store, id: Id, input: MenuInput) returns (r: Result<MenuItem>)
    requires store.Valid()
    modifies store
    ensures store.Valid()
    ensures store.users == old(store.users) && store.orders == old(store.orders)
    // a bad price is refused before the store is touched
    ensures PriceRejected(input.price) ==> r == Fail(InvalidInput)
    ensures !PriceRejected(input.price) && old(store.MenuIndexOf(id)) == -1 ==> r == Fail(NotFound)
    ensures r.Fail? <==> PriceRejected(input.price) || old(store.MenuIndexOf(id)) == -1
    ensures r.Fail? ==> store.menuItems == old(store.menuItems)
    ensures r.Ok? ==>
      var k := old(store.MenuIndexOf(id));
      && 0 <= k
      && r.value == ApplyPatch(old(store.menuItems)[k], PatchOf(input))
      && (input.price.Price? ==> r.value.price == input.price.amount)
      && (input.isAvailable.Some? ==> r.value.isAvailable == input.isAvailable.value)
      && store.menuItems == old(store.menuItems)[k := r.value]
    ensures PricesValid(old(store.menuItems)) ==> PricesValid(store.menuItems)
  {
    if input.price.NotANumber? || (input.price.Price? && input.price.amount < 0.0) {
      return Fail(InvalidInput);
    }
    var updated := store.UpdateMenuItem(id, PatchOf(input));
    if updated.None? {
      return Fail(NotFound);
    }
    r := Ok(updated.value);
  }

  method Remove(store: Store, id: Id) returns (r: Result<bool>)
    requires store.Valid()
    modifies store
    ensures store.Valid()
    ensures store.users == old(store.users) && store.orders == old(store.orders)
    ensures r.Fail? <==> old(store.MenuIndexOf(id)) == -1
    ensures r.Fail? ==> r.failure == NotFound && store.menuItems == old(store.menuItems)
    ensures r.Ok? ==>
      var k := old(store.MenuIndexOf(id));
      && r.value
      && store.menuItems == old(store.menuItems)[..k] + old(store.menuItems)[k + 1..]
      && forall j :: 0 <= j < |store.menuItems| ==> store.menuItems[j].id != id
    ensures PricesValid(old(store.menuItems)) ==> PricesValid(store.menuItems)
  {
    ghost var before := store.menuItems;
    ghost var k := store.MenuIndexOf(id);
    var ok := store.DeleteMenuItem(id);
    if !ok {
      return Fail(NotFound);
    }
    forall j | 0 <= j < |store.menuItems|
      ensures store.menuItems[j] == before[if j < k then j else j + 1]
    {
    }
    r := Ok(true);
  }
}
