/**
 * The orders page's derived values: the id-descending listing, the single
 * expanded order, and the status change it sends to the store.
 */
module OrdersPage {
  import opened Common
  import opened OrderRecords

  /** Keys never increase along the sequence. */
  predicate KeysDescending<T>(xs: seq<T>, key: T -> int)
  {
    forall i, j :: 0 <= i < j < |xs| ==> key(xs[i]) >= key(xs[j])
  }

  /** Puts `x` in front of the first element whose key is not greater, which keeps equal keys in input order. */
  function InsertByKey<T(==)>(x: T, sorted: seq<T>, key: T -> int): (r: seq<T>)
    requires KeysDescending(sorted, key)
    ensures KeysDescending(r, key)
    ensures multiset(r) == multiset(sorted) + multiset{x}
    ensures |r| == |sorted| + 1
    ensures key(r[0]) == if |sorted| == 0 || key(x) >= key(sorted[0]) then key(x) else key(sorted[0])
  {
    if |sorted| == 0 || key(x) >= key(sorted[0]) then [x] + sorted
    else
      var head, tail := sorted[0], sorted[1..];
      var rest := InsertByKey(x, tail, key);
      assert sorted == [head] + tail;
      assert key(rest[0]) <= key(head);
      assert forall i :: 0 < i < |rest| ==> key(rest[i]) <= key(rest[0]);
      [head] + rest
  }

  function OrderId(o: PageOrder): int
  {
    o.id
  }

  /** `slice().sort((a, b) => b.id - a.id)`: a sorted copy, largest id first; the store's sequence is a value and stays as it was. */
  function SortByIdDesc(os: seq<PageOrder>): (r: seq<PageOrder>)
    ensures KeysDescending(r, OrderId)
    ensures multiset(r) == multiset(os)
    ensures |r| == |os|
  {
    if |os| == 0 then []
    else
      assert os == [os[0]] + os[1..];
      InsertByKey(os[0], SortByIdDesc(os[1..]), OrderId)
  }

  /** The first listed order has the largest id of all. */
  lemma FirstHasLargestId(os: seq<PageOrder>)
    requires |os| > 0
    ensures forall o :: o in os ==> SortByIdDesc(os)[0].id >= o.id
  {
    var r := SortByIdDesc(os);
    forall o | o in os ensures r[0].id >= o.id {
      assert o in multiset(os);
      assert o in multiset(r);
      var j :| 0 <= j < |r| && r[j] == o;
    }
  }

  /** `toggleExpand`: clicking the expanded order collapses it, clicking another expands that one instead. */
  function ToggleExpand(expanded: Option<int>, id: int): (r: Option<int>)
    ensures r == None <==> expanded == Some(id)
    ensures r != None ==> r == Some(id)
  {
    if expanded == Some(id) then None else Some(id)
  }

  /** Clicking the same order twice gets back to where it started unless another order was open. */
  lemma ToggleExpandTwice(expanded: Option<int>, id: int)
    ensures ToggleExpand(ToggleExpand(expanded, id), id) == expanded <==> (expanded == None || expanded == Some(id))
  {
  }

  /** `handleStatusChange`: an update of that order carrying only the new status. */
  function StatusChange(order: PageOrder, newStatus: Status): (call: OrderCall)
    ensures call.UpdateOrder? && call.id == order.id
    ensures call.patch.status == Some(newStatus)
    ensures call.patch.client == None && call.patch.services == None && call.patch.notes == None
  {
    UpdateOrder(order.id, OrderPatch(None, None, Some(newStatus), None))
  }
}
