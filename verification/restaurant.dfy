/** The menu and order catalogue of `menu.js`: dishes with a checked name
    and price, menus that keep dish names unique, orders that pick dishes
    from a list of menus and keep a running total, and customers with a
    checked contact address and an order history. */
module Restaurant {
  import opened Results
  import opened Seqs
  import opened Text

  /** The error kinds thrown: the `DishNotFoundError` class (also used for a
      duplicate dish and for an invalid order) and a plain `Error`. */
  datatype MenuError = DishNotFoundError | GenericError

  datatype Dish = Dish(name: string, price: int)

  /** `new Dish(name, price)`: the name must keep a character after
      trimming, then the price must not be negative (zero is allowed). */
  function NewDish(name: string, price: int): (r: Result<Dish, MenuError>)
    ensures r.Ok? <==> HasNonWhitespace(name) && price >= 0
    ensures r.Err? ==> r.error == GenericError
    ensures r.Ok? ==> r.value == Dish(name, price)
  {
    BlankIffAllWhitespace(name);
    if IsBlank(name) then Err(GenericError)
    else if price < 0 then Err(GenericError)
    else Ok(Dish(name, price))
  }

  // ---------------------------------------------------------------------
  // Menus

  datatype Menu = Menu(dishes: seq<Dish>)

  /** Some dish of the menu has the name. */
  predicate HasDish(m: Menu, name: string) {
    exists i :: 0 <= i < |m.dishes| && m.dishes[i].name == name
  }

  /** No two dishes of the list share a name. */
  predicate UniqueNames(ds: seq<Dish>) {
    forall i, j :: 0 <= i < j < |ds| ==> ds[i].name != ds[j].name
  }

  /** `menu.dishes.find(d => d.name === name)`. */
  function Lookup(m: Menu, name: string): (r: Option<Dish>)
    ensures r.None? <==> !HasDish(m, name)
    ensures r.Some? ==> exists i :: 0 <= i < |m.dishes| && m.dishes[i] == r.value
                                    && m.dishes[i].name == name
                                    && forall j :: 0 <= j < i ==> m.dishes[j].name != name
  {
    match FirstIndex(m.dishes, (d: Dish) => d.name == name)
    case None => None
    case Some(i) => Some(m.dishes[i])
  }

  /** `Menu.addDish`: a dish whose name is already on the menu is refused;
      any other is appended. */
  function AddDish(m: Menu, dish: Dish): (r: Result<Menu, MenuError>)
    ensures r.Err? <==> HasDish(m, dish.name)
    ensures r.Err? ==> r.error == DishNotFoundError
    ensures r.Ok? ==> r.value.dishes == m.dishes + [dish]
  {
    if Lookup(m, dish.name).Some? then Err(DishNotFoundError)
    else Ok(Menu(m.dishes + [dish]))
  }

  /** `Menu.removeDish`: the first dish with the name is spliced out and the
      others keep their order; an absent name is an error. */
  function RemoveDish(m: Menu, name: string): (r: Result<Menu, MenuError>)
    ensures r.Err? <==> !HasDish(m, name)
    ensures r.Err? ==> r.error == DishNotFoundError
    ensures r.Ok? ==> exists k :: 0 <= k < |m.dishes| && m.dishes[k].name == name
                                  && (forall j :: 0 <= j < k ==> m.dishes[j].name != name)
                                  && r.value.dishes == m.dishes[..k] + m.dishes[k + 1..]
  {
    match FirstIndex(m.dishes, (d: Dish) => d.name == name)
    case None => Err(DishNotFoundError)
    case Some(k) => Ok(Menu(RemoveAt(m.dishes, k)))
  }

  /** Adding and removing keep the names of a menu unique. */
  lemma EditsKeepNamesUnique(m: Menu, dish: Dish, name: string)
    requires UniqueNames(m.dishes)
    ensures AddDish(m, dish).Ok? ==> UniqueNames(AddDish(m, dish).value.dishes)
    ensures RemoveDish(m, name).Ok? ==> UniqueNames(RemoveDish(m, name).value.dishes)
  {
    var r := RemoveDish(m, name);
    if r.Ok? {
      var k :| 0 <= k < |m.dishes| && r.value.dishes == m.dishes[..k] + m.dishes[k + 1..];
      var ds := r.value.dishes;
      forall i, j | 0 <= i < j < |ds|
        ensures ds[i].name != ds[j].name
      {
        var i' := if i < k then i else i + 1;
        var j' := if j < k then j else j + 1;
        assert ds[i] == m.dishes[i'] && ds[j] == m.dishes[j'];
      }
    }
  }

  /** Removing the dish just added gives back the menu it was added to. */
  lemma RemoveUndoesAdd(m: Menu, dish: Dish)
    requires AddDish(m, dish).Ok?
    ensures RemoveDish(AddDish(m, dish).value, dish.name) == Ok(m)
  {
    var m' := AddDish(m, dish).value;
    var r := RemoveDish(m', dish.name);
    assert m'.dishes[|m.dishes|] == dish;
    var k :| 0 <= k < |m'.dishes| && m'.dishes[k].name == dish.name
             && r.value.dishes == m'.dishes[..k] + m'.dishes[k + 1..];
    assert k == |m.dishes|;
    assert m'.dishes[..k] == m.dishes && m'.dishes[k + 1..] == [];
    assert r.value.dishes == m.dishes;
  }

  /** With unique names, removing a dish leaves no dish of that name. */
  lemma RemoveDishRemovesName(m: Menu, name: string)
    requires UniqueNames(m.dishes) && HasDish(m, name)
    ensures !HasDish(RemoveDish(m, name).value, name)
  {
    var ds := RemoveDish(m, name).value.dishes;
    var k :| 0 <= k < |m.dishes| && m.dishes[k].name == name
             && ds == m.dishes[..k] + m.dishes[k + 1..];
    forall i | 0 <= i < |ds|
      ensures ds[i].name != name
    {
      assert ds[i] == m.dishes[if i < k then i else i + 1];
    }
  }

  // ---------------------------------------------------------------------
  // Orders

  /** An order: the dishes picked so far and the running total. */
  datatype Order = Order(dishes: seq<Dish>, totalPrice: int)

  /** `new Order(customer)`. */
  const EmptyOrder := Order([], 0)

  /** The `menus` argument of `Order.addDish`: one menu, or an array of them. */
  datatype MenuArgument = SingleMenu(menu: Menu) | MenuList(menus: seq<Menu>)

  /** A single menu is treated as a one-element list. */
  function AsList(arg: MenuArgument): seq<Menu> {
    match arg
    case SingleMenu(m) => [m]
    case MenuList(ms) => ms
  }

  /** The search loop of `Order.addDish`: menus in list order, stopping at the
      first menu that has a dish with the name, which yields that menu's first
      such dish. */
  function FindInMenus(menus: seq<Menu>, name: string): (r: Option<Dish>)
    ensures r.None? <==> forall k :: 0 <= k < |menus| ==> !HasDish(menus[k], name)
    ensures r.Some? ==> exists k :: 0 <= k < |menus| && Lookup(menus[k], name) == r
                                    && forall j :: 0 <= j < k ==> !HasDish(menus[j], name)
  {
    if |menus| == 0 then None
    else
      match Lookup(menus[0], name)
      case Some(d) => Some(d)
      case None =>
        var rest := FindInMenus(menus[1..], name);
        assert forall k :: 1 <= k < |menus| ==> menus[k] == menus[1..][k - 1];
        rest
  }

  /** `Order.addDish`: a name found in no menu is an error; otherwise the dish
      found is appended and its price added to the total. */
  function OrderAddDish(o: Order, name: string, menus: MenuArgument): (r: Result<Order, MenuError>)
    ensures r.Err? <==> forall k :: 0 <= k < |AsList(menus)| ==> !HasDish(AsList(menus)[k], name)
    ensures r.Err? ==> r.error == DishNotFoundError
    ensures r.Ok? ==> exists d: Dish :: d.name == name
                                  && r.value == Order(o.dishes + [d], o.totalPrice + d.price)
                                  && FindInMenus(AsList(menus), name) == Some(d)
  {
    match FindInMenus(AsList(menus), name)
    case None => Err(DishNotFoundError)
    case Some(d) => Ok(Order(o.dishes + [d], o.totalPrice + d.price))
  }

  /** The sum of the prices of a list of dishes. */
  function SumPrices(ds: seq<Dish>): int {
    if |ds| == 0 then 0 else ds[0].price + SumPrices(ds[1..])
  }

  lemma {:induction false} SumPricesAppend(ds: seq<Dish>, d: Dish)
    ensures SumPrices(ds + [d]) == SumPrices(ds) + d.price
  {
    if |ds| > 0 {
      assert (ds + [d])[1..] == ds[1..] + [d];
      SumPricesAppend(ds[1..], d);
    }
  }

  /** The total of an order is the sum of the prices of its dishes: true of
      a new order and kept by every `addDish`. */
  lemma OrderTotalIsSumOfPrices(o: Order, name: string, menus: MenuArgument)
    requires o.totalPrice == SumPrices(o.dishes)
    ensures EmptyOrder.totalPrice == SumPrices(EmptyOrder.dishes)
    ensures OrderAddDish(o, name, menus).Ok? ==>
      OrderAddDish(o, name, menus).value.totalPrice == SumPrices(OrderAddDish(o, name, menus).value.dishes)
  {
    match FindInMenus(AsList(menus), name)
    case None =>
    case Some(d) => SumPricesAppend(o.dishes, d);
  }

  // ---------------------------------------------------------------------
  // Customers

  /** A restaurant customer. */
  datatype Customer = Customer(name: string, contactInfo: string, orderHistory: seq<Order>)

  /** `new Customer(name, contactInfo)`: the name must be non-empty (it is
      not trimmed here), then the contact must match the address pattern. */
  function NewCustomer(name: string, contactInfo: string): (r: Result<Customer, MenuError>)
    ensures r.Ok? <==> |name| > 0 && MatchesEmailPattern(contactInfo)
    ensures r.Err? ==> r.error == GenericError
    ensures r.Ok? ==> r.value == Customer(name, contactInfo, [])
  {
    IsEmailMatchesPattern(contactInfo);
    if |name| == 0 then Err(GenericError)
    else if !IsEmail(contactInfo) then Err(GenericError)
    else Ok(Customer(name, contactInfo, []))
  }

  /** The `order` argument of `placeOrder`: an order, or any other value. */
  datatype OrderArgument = AnOrder(order: Order) | NotAnOrder

  /** `placeOrder`: only an order is appended to the history. */
  function PlaceOrder(c: Customer, order: OrderArgument): (r: Result<Customer, MenuError>)
    ensures r.Err? <==> order.NotAnOrder?
    ensures r.Err? ==> r.error == DishNotFoundError
    ensures r.Ok? ==> r.value.name == c.name && r.value.contactInfo == c.contactInfo
    ensures r.Ok? ==> r.value.orderHistory == c.orderHistory + [order.order]
  {
    match order
    case NotAnOrder => Err(DishNotFoundError)
    case AnOrder(o) => Ok(c.(orderHistory := c.orderHistory + [o]))
  }
}
