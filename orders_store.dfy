/**
 * The orders store: orders of one service for one client, with a status that
 * is either "W toku" (in progress) or "Zakończone" (completed).
 */
module Orders {
  import opened Common
  import opened Keyed
  import opened Clients
  import opened Services

  /** The store's two-valued status. */
  datatype WorkStatus = InProgress | Completed
  {
    function Label(): string
    {
      match this
      case InProgress => "W toku"
      case Completed => "Zakończone"
    }
  }

  datatype Order = Order(id: int, client: Client, service: Service, status: WorkStatus)

  /** What `addOrder` receives: an order without its id. */
  datatype OrderInput = OrderInput(client: Client, service: Service, status: WorkStatus)

  function OrderId(o: Order): int { o.id }

  function SeedOrders(): (os: seq<Order>)
    ensures DistinctKeys(os, OrderId)
  {
    [ Order(1, Client(1, "Jan Kowalski", Some(""), None, None),
            Service(1, "Mycie zewnętrzne", 100), InProgress),
      Order(2, Client(2, "Anna Nowak", Some(""), None, None),
            Service(3, "Detailing wnętrza", 250), Completed) ]
  }

  /** `status === "W toku" ? "Zakończone" : "W toku"`. */
  function Toggle(s: WorkStatus): (r: WorkStatus)
    ensures r != s
    ensures s == InProgress <==> r == Completed
  {
    if s == InProgress then Completed else InProgress
  }

  /** The list after `addOrder(input)`. */
  function AddedOrders(os: seq<Order>, input: OrderInput): (r: seq<Order>)
    ensures |r| == |os| + 1 && r[..|os|] == os
    ensures r[|os|] == Order(r[|os|].id, input.client, input.service, input.status)
    ensures forall j :: 0 <= j < |os| ==> os[j].id < r[|os|].id
    ensures os == [] ==> r[0].id == 1
  {
    os + [Order(NextId(os, OrderId), input.client, input.service, input.status)]
  }

  /** The list after `toggleStatus(id)`: only the status of the first order with that id flips. */
  function ToggledOrders(os: seq<Order>, id: int): (r: seq<Order>)
    ensures |r| == |os|
    ensures (forall j :: 0 <= j < |os| ==> os[j].id != id) ==> r == os
    ensures forall j :: 0 <= j < |os| ==>
              r[j].id == os[j].id && r[j].client == os[j].client && r[j].service == os[j].service
    ensures forall j :: 0 <= j < |os| && r[j].status != os[j].status ==>
              os[j].id == id && (forall k :: 0 <= k < j ==> os[k].id != id) && r[j].status == Toggle(os[j].status)
    ensures forall j :: 0 <= j < |os| && os[j].id == id && (forall k :: 0 <= k < j ==> os[k].id != id) ==>
              r[j].status == Toggle(os[j].status)
  {
    match FirstIndexOf(os, OrderId, id)
    case None => os
    case Some(i) => os[i := os[i].(status := Toggle(os[i].status))]
  }

  /** Toggling the same order twice restores the original list. */
  lemma ToggleTwiceRestores(os: seq<Order>, id: int)
    ensures ToggledOrders(ToggledOrders(os, id), id) == os
  {
    var once := ToggledOrders(os, id);
    match FirstIndexOf(os, OrderId, id)
    case None =>
    case Some(i) =>
      assert FirstIndexOf(once, OrderId, id) == Some(i) by {
        var f := FirstIndexOf(once, OrderId, id);
        assert f.Some? && f.value <= i;
        assert forall j :: 0 <= j < i ==> once[j] == os[j];
      }
  }

  /** With distinct ids, toggling an order that is present flips exactly that order's status. */
  lemma ToggleFlipsMatching(os: seq<Order>, id: int, i: nat)
    requires DistinctKeys(os, OrderId)
    requires i < |os| && os[i].id == id
    ensures ToggledOrders(os, id)[i].status == Toggle(os[i].status)
    ensures forall j :: 0 <= j < |os| && j != i ==> ToggledOrders(os, id)[j] == os[j]
  {
    var f := FirstIndexOf(os, OrderId, id);
    assert f == Some(i);
  }

  class OrdersStore {
    var orders: seq<Order>

    ghost predicate Valid()
      reads this
    {
      DistinctKeys(orders, OrderId)
    }

    constructor ()
      ensures Valid()
      ensures orders == SeedOrders()
    {
      orders := SeedOrders();
    }

    method AddOrder(input: OrderInput)
      requires Valid()
      modifies this
      ensures Valid()
      ensures orders == AddedOrders(old(orders), input)
    {
      var newId := if |orders| > 0 then MaxKey(orders, OrderId) + 1 else 1;
      orders := orders + [Order(newId, input.client, input.service, input.status)];
    }

    method ToggleStatus(orderId: int)
      requires Valid()
      modifies this
      ensures Valid()
      ensures orders == ToggledOrders(old(orders), orderId)
    {
      var found := FirstIndexOf(orders, OrderId, orderId);
      if found.Some? {
        var i := found.value;
        var order := orders[i];
        order := order.(status := if order.status == InProgress then Completed else InProgress);
        orders := orders[i := order];
      }
    }
  }
}
