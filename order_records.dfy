/**
 * The order record the orders page, the order dialog and the dashboard work
 * with: several services per order, six workflow statuses, a creation date
 * and notes, and the calls those screens make on the orders store.
 */
module OrderRecords {
  import opened Common
  import opened Clients
  import opened Services

  /** The six workflow statuses. */
  datatype Status = New | Accepted | InProgress | AwaitingPickup | Completed | Cancelled
  {
    /** The status text shown and stored by the application. */
    function Label(): string
    {
      match this
      case New => "Nowe"
      case Accepted => "Przyjęte"
      case InProgress => "W toku"
      case AwaitingPickup => "Czeka na odbiór"
      case Completed => "Zakończone"
      case Cancelled => "Anulowane"
    }
  }

  /** The status choices offered by the orders page and the order dialog, in display order. */
  function StatusOptions(): (r: seq<Status>)
    ensures |r| == 6
    ensures forall i, j :: 0 <= i < j < |r| ==> r[i] != r[j]
    ensures r[0] == New && r[5] == Cancelled
  {
    [New, Accepted, InProgress, AwaitingPickup, Completed, Cancelled]
  }

  /** Distinct statuses have distinct labels, so the labels identify the status. */
  lemma LabelsDistinct(s: Status, t: Status)
    ensures s.Label() == t.Label() <==> s == t
  {
  }

  /** Every status is offered. */
  lemma StatusOptionsComplete(s: Status)
    ensures s in StatusOptions()
  {
    var options := StatusOptions();
    match s {
      case New => assert options[0] == s;
      case Accepted => assert options[1] == s;
      case InProgress => assert options[2] == s;
      case AwaitingPickup => assert options[3] == s;
      case Completed => assert options[4] == s;
      case Cancelled => assert options[5] == s;
    }
  }

  /** An order as the pages see it. */
  datatype PageOrder = PageOrder(
    id: int,
    client: Client,
    services: seq<Service>,
    status: Status,
    createdAt: string,
    notes: Option<string>)

  /** The order's total: its services' prices summed from the left, starting at 0. */
  function TotalPrice(services: seq<Service>): (t: int)
    ensures |services| == 0 ==> t == 0
    ensures |services| == 1 ==> t == services[0].price
    ensures (forall i :: 0 <= i < |services| ==> services[i].price >= 0) ==> t >= 0
  {
    if |services| == 0 then 0 else TotalPrice(services[..|services| - 1]) + services[|services| - 1].price
  }

  /** The total of a concatenation is the sum of the totals; the empty total is 0. */
  lemma {:induction false} TotalPriceAppend(a: seq<Service>, b: seq<Service>)
    ensures TotalPrice(a + b) == TotalPrice(a) + TotalPrice(b)
    ensures TotalPrice([]) == 0
    decreases |b|
  {
    if |b| > 0 {
      assert (a + b)[..|a + b| - 1] == a + b[..|b| - 1];
      TotalPriceAppend(a, b[..|b| - 1]);
    } else {
      assert a + b == a;
    }
  }

  /** With non-negative prices the total is non-negative and at least every single price. */
  lemma {:induction false} TotalPriceBounds(services: seq<Service>)
    requires forall i :: 0 <= i < |services| ==> services[i].price >= 0
    ensures TotalPrice(services) >= 0
    ensures forall i :: 0 <= i < |services| ==> services[i].price <= TotalPrice(services)
  {
    if |services| > 0 {
      var init := services[..|services| - 1];
      TotalPriceBounds(init);
      forall i | 0 <= i < |services| ensures services[i].price <= TotalPrice(services) {
        if i < |services| - 1 {
          assert services[i] == init[i];
        }
      }
    }
  }

  /** Fields an order update may carry; absent fields are left as they are. */
  datatype OrderPatch = OrderPatch(
    client: Option<Option<Client>>,
    services: Option<seq<Service>>,
    status: Option<Status>,
    notes: Option<string>)

  /** A new order's fields; the client is `None` when the chosen id matched no client. */
  datatype NewOrder = NewOrder(client: Option<Client>, services: seq<Service>, status: Status, notes: string)

  /** A call the screens make on the orders store. */
  datatype OrderCall =
    | UpdateOrder(id: int, patch: OrderPatch)
    | AddOrder(order: NewOrder)
    | DeleteOrder(id: int)
}
