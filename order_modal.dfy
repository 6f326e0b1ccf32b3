/**
 * The order dialog: its four form fields, the service-selection toggle, and
 * the store calls its save and delete buttons make.
 */
module OrderModal {
  import opened Common
  import opened Keyed
  import opened Clients
  import opened Services
  import opened OrderRecords

  datatype Mode = AddMode | EditMode | DeleteMode

  function IdOf(id: int): int
  {
    id
  }

  /** `toggleService`'s functional update: drop `id` if it is selected, append it otherwise. */
  function Toggled(ids: seq<int>, id: int): (r: seq<int>)
    ensures id in r <==> id !in ids
    ensures forall other :: other != id ==> (other in r <==> other in ids)
  {
    if id in ids then Without(ids, IdOf, id) else ids + [id]
  }

  /** Toggling the same id twice restores the selection as a set. */
  lemma ToggleTwiceSameMembers(ids: seq<int>, id: int)
    ensures forall x :: x in Toggled(Toggled(ids, id), id) <==> x in ids
  {
  }

  /** Selecting a service and then deselecting it gives back exactly the earlier list. */
  lemma ToggleTwiceRestores(ids: seq<int>, id: int)
    requires id !in ids
    ensures Toggled(Toggled(ids, id), id) == ids
  {
    WithoutAppend(ids, [id], IdOf, id);
    WithoutAbsent(ids, IdOf, id);
    assert Without([id], IdOf, id) == [];
  }

  /** Toggling never introduces a duplicate id. */
  lemma ToggleKeepsDistinct(ids: seq<int>, id: int)
    requires DistinctKeys(ids, IdOf)
    ensures DistinctKeys(Toggled(ids, id), IdOf)
  {
    if id in ids {
      WithoutKeepsDistinct(ids, IdOf, id);
    }
  }

  /** `services.filter(s => serviceIds.includes(s.id))`: the selected services in store order. */
  function SelectedServices(services: seq<Service>, ids: seq<int>): (r: seq<Service>)
    ensures |r| <= |services|
    ensures forall s :: s in r <==> s in services && s.id in ids
  {
    if |services| == 0 then []
    else (if services[0].id in ids then [services[0]] else []) + SelectedServices(services[1..], ids)
  }

  /** The selection follows store order: selecting from two lists one after the other gives the two selections one after the other. */
  lemma {:induction false} SelectedInStoreOrder(a: seq<Service>, b: seq<Service>, ids: seq<int>)
    ensures SelectedServices(a + b, ids) == SelectedServices(a, ids) + SelectedServices(b, ids)
  {
    if |a| == 0 {
      assert a + b == b;
    } else {
      assert (a + b)[1..] == a[1..] + b;
      SelectedInStoreOrder(a[1..], b, ids);
    }
  }

  /** `clients.find(c => c.id === clientId)`: the first client with that id, if any. */
  function FindClient(clients: seq<Client>, id: int): (r: Option<Client>)
    ensures r.Some? <==> exists i :: 0 <= i < |clients| && clients[i].id == id
    ensures r.Some? ==> r.value in clients && r.value.id == id
  {
    match FirstIndexOf(clients, ClientId, id)
    case None => None
    case Some(i) => Some(clients[i])
  }

  /** The dialog's form state. `clientId` is `None` for the empty choice. */
  class OrderForm {
    var clientId: Option<int>
    var serviceIds: seq<int>
    var status: Status
    var notes: string

    /** The `useState` initialisers. */
    constructor ()
      ensures clientId == None && serviceIds == [] && status == Accepted && notes == ""
    {
      clientId := None;
      serviceIds := [];
      status := Accepted;
      notes := "";
    }

    /** The effect run whenever the order, the mode or the open flag changes. */
    method Init(order: Option<PageOrder>, mode: Mode)
      modifies this
      ensures order.Some? && mode != AddMode ==>
        && clientId == Some(order.value.client.id)
        && |serviceIds| == |order.value.services|
        && (forall i :: 0 <= i < |serviceIds| ==> serviceIds[i] == order.value.services[i].id)
        && status == order.value.status
        && notes == order.value.notes.GetOr("")
      ensures !(order.Some? && mode != AddMode) ==>
        clientId == None && serviceIds == [] && status == Accepted && notes == ""
    {
      if order.Some? && mode != AddMode {
        var o := order.value;
        clientId := Some(o.client.id);
        serviceIds := seq(|o.services|, i requires 0 <= i < |o.services| => o.services[i].id);
        status := o.status;
        notes := o.notes.GetOr("");
      } else {
        clientId := None;
        serviceIds := [];
        status := Accepted;
        notes := "";
      }
    }

    /** A click on a service's checkbox. */
    method ToggleService(id: int)
      modifies this`serviceIds
      ensures serviceIds == Toggled(old(serviceIds), id)
      ensures DistinctKeys(old(serviceIds), IdOf) ==> DistinctKeys(serviceIds, IdOf)
    {
      if DistinctKeys(serviceIds, IdOf) {
        ToggleKeepsDistinct(serviceIds, id);
      }
      serviceIds := Toggled(serviceIds, id);
    }

    /** JavaScript falsiness of the client choice: empty, or the id 0. */
    predicate NoClientChosen()
      reads this
    {
      clientId.None? || clientId == Some(0)
    }

    /**
     * The save button: with no client or no service chosen nothing happens;
     * otherwise an update (edit mode with an order) or an add (add mode) is
     * issued with the chosen client, the selected store services, the status
     * and the notes, and the dialog closes.
     */
    method HandleSave(clients: seq<Client>, services: seq<Service>, order: Option<PageOrder>, mode: Mode)
      returns (call: Option<OrderCall>, closes: bool)
      ensures NoClientChosen() || serviceIds == [] ==> call == None && !closes
      ensures !(NoClientChosen() || serviceIds == []) ==> closes
      ensures call.Some? <==> !(NoClientChosen() || serviceIds == []) && (mode == AddMode || (mode == EditMode && order.Some?))
      ensures call.Some? && call.value.UpdateOrder? ==>
        && mode == EditMode && order.Some? && call.value.id == order.value.id
        && call.value.patch == OrderPatch(Some(FindClient(clients, clientId.value)),
                                          Some(SelectedServices(services, serviceIds)), Some(status), Some(notes))
      ensures call.Some? && call.value.AddOrder? ==>
        && mode == AddMode
        && call.value.order == NewOrder(FindClient(clients, clientId.value), SelectedServices(services, serviceIds), status, notes)
      ensures call.Some? ==> !call.value.DeleteOrder?
    {
      if NoClientChosen() || |serviceIds| == 0 {
        return None, false;
      }
      var client := FindClient(clients, clientId.value);
      var selected := SelectedServices(services, serviceIds);
      if order.Some? && mode == EditMode {
        call := Some(UpdateOrder(order.value.id, OrderPatch(Some(client), Some(selected), Some(status), Some(notes))));
      } else if mode == AddMode {
        call := Some(AddOrder(NewOrder(client, selected, status, notes)));
      } else {
        call := None;
      }
      closes := true;
    }
  }

  /** The delete button: deletes and closes only when an order is present. */
  function HandleDelete(order: Option<PageOrder>): (r: (Option<OrderCall>, bool))
    ensures r.0.Some? <==> order.Some?
    ensures r.1 <==> order.Some?
    ensures order.Some? ==> r.0 == Some(DeleteOrder(order.value.id))
  {
    if order.Some? then (Some(DeleteOrder(order.value.id)), true) else (None, false)
  }
}
