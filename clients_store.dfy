/**
 * The clients store: an in-memory list of clients with id allocation,
 * partial-patch update and delete by id.
 */
module Clients {
  import opened Common
  import opened Keyed

  datatype Client = Client(
    id: int,
    name: string,
    phone: Option<string>,
    email: Option<string>,
    notes: Option<string>)

  /** What `addClient` receives: a client without its id. */
  datatype ClientInput = ClientInput(
    name: string,
    phone: Option<string>,
    email: Option<string>,
    notes: Option<string>)

  /** What `updateClient` receives: every field optional; `None` means "not given". */
  datatype ClientPatch = ClientPatch(
    name: Option<string>,
    phone: Option<string>,
    email: Option<string>,
    notes: Option<string>)

  function ClientId(c: Client): int { c.id }

  /** The two clients every store starts with. */
  function SeedClients(): (cs: seq<Client>)
    ensures DistinctKeys(cs, ClientId)
  {
    [ Client(1, "Jan Kowalski", Some("123-456-789"), Some("jan@example.com"), Some("VIP klient")),
      Client(2, "Anna Nowak", Some("987-654-321"), Some("anna@example.com"), None) ]
  }

  function WithId(input: ClientInput, id: int): Client
  {
    Client(id, input.name, input.phone, input.email, input.notes)
  }

  /** The list after `addClient(input)`. */
  function AddedClients(cs: seq<Client>, input: ClientInput): (r: seq<Client>)
    ensures |r| == |cs| + 1 && r[..|cs|] == cs
    ensures r[|cs|] == WithId(input, r[|cs|].id)
    ensures forall j :: 0 <= j < |cs| ==> cs[j].id < r[|cs|].id
    ensures cs == [] ==> r[0].id == 1
  {
    cs + [WithId(input, NextId(cs, ClientId))]
  }

  /** A client with the defined fields of `p` written over it. */
  function Patched(c: Client, p: ClientPatch): (r: Client)
    ensures r.id == c.id
    ensures r.name == p.name.GetOr(c.name)
    ensures r.phone == (if p.phone.Some? then p.phone else c.phone)
    ensures r.email == (if p.email.Some? then p.email else c.email)
    ensures r.notes == (if p.notes.Some? then p.notes else c.notes)
  {
    Client(c.id, p.name.GetOr(c.name),
           if p.phone.Some? then p.phone else c.phone,
           if p.email.Some? then p.email else c.email,
           if p.notes.Some? then p.notes else c.notes)
  }

  /** The list after `updateClient(id, p)`: the first client with that id is patched. */
  function UpdatedClients(cs: seq<Client>, id: int, p: ClientPatch): (r: seq<Client>)
    ensures |r| == |cs|
    ensures forall j :: 0 <= j < |cs| ==> r[j].id == cs[j].id
    ensures (forall j :: 0 <= j < |cs| ==> cs[j].id != id) ==> r == cs
    ensures forall j :: 0 <= j < |cs| && r[j] != cs[j] ==>
              cs[j].id == id && (forall k :: 0 <= k < j ==> cs[k].id != id) && r[j] == Patched(cs[j], p)
    ensures forall j :: 0 <= j < |cs| && cs[j].id == id && (forall k :: 0 <= k < j ==> cs[k].id != id) ==>
              r[j] == Patched(cs[j], p)
  {
    match FirstIndexOf(cs, ClientId, id)
    case None => cs
    case Some(i) => cs[i := Patched(cs[i], p)]
  }

  /** With distinct ids, updating a present client patches exactly that client. */
  lemma UpdatePatchesMatching(cs: seq<Client>, id: int, p: ClientPatch, i: nat)
    requires DistinctKeys(cs, ClientId)
    requires i < |cs| && cs[i].id == id
    ensures UpdatedClients(cs, id, p) == cs[i := Patched(cs[i], p)]
  {
    assert FirstIndexOf(cs, ClientId, id) == Some(i);
  }

  /** The list after `deleteClient(id)`: the clients with another id, in order. */
  function DeletedClients(cs: seq<Client>, id: int): (r: seq<Client>)
    ensures |r| <= |cs|
    ensures forall c :: c in r <==> c in cs && c.id != id
  {
    Without(cs, ClientId, id)
  }

  /** One call on the store, for stating what any sequence of calls preserves. */
  datatype ClientOp =
    | AddOp(input: ClientInput)
    | UpdateOp(id: int, patch: ClientPatch)
    | DeleteOp(id: int)

  function ApplyOp(cs: seq<Client>, op: ClientOp): seq<Client>
  {
    match op
    case AddOp(input) => AddedClients(cs, input)
    case UpdateOp(id, p) => UpdatedClients(cs, id, p)
    case DeleteOp(id) => DeletedClients(cs, id)
  }

  function ApplyOps(cs: seq<Client>, ops: seq<ClientOp>): seq<Client>
    decreases |ops|
  {
    if ops == [] then cs else ApplyOps(ApplyOp(cs, ops[0]), ops[1..])
  }

  /** Each store call keeps client ids pairwise distinct. */
  lemma OpKeepsDistinct(cs: seq<Client>, op: ClientOp)
    requires DistinctKeys(cs, ClientId)
    ensures DistinctKeys(ApplyOp(cs, op), ClientId)
  {
    match op
    case AddOp(_) =>
    case UpdateOp(_, _) =>
    case DeleteOp(id) => WithoutKeepsDistinct(cs, ClientId, id);
  }

  /** Starting from the seed list, any sequence of calls leaves client ids pairwise distinct. */
  lemma {:induction false} IdsStayDistinct(ops: seq<ClientOp>)
    ensures DistinctKeys(ApplyOps(SeedClients(), ops), ClientId)
  {
    OpsKeepDistinct(SeedClients(), ops);
  }

  lemma {:induction false} OpsKeepDistinct(cs: seq<Client>, ops: seq<ClientOp>)
    requires DistinctKeys(cs, ClientId)
    ensures DistinctKeys(ApplyOps(cs, ops), ClientId)
    decreases |ops|
  {
    if ops != [] {
      OpKeepsDistinct(cs, ops[0]);
      OpsKeepDistinct(ApplyOp(cs, ops[0]), ops[1..]);
    }
  }

  /** Deleting removes every client with the id, keeps the others in order, and is idempotent. */
  lemma DeleteRemovesExactly(cs: seq<Client>, id: int)
    ensures forall c :: c in DeletedClients(cs, id) <==> c in cs && c.id != id
    ensures DeletedClients(DeletedClients(cs, id), id) == DeletedClients(cs, id)
    ensures forall a, b :: cs == a + b ==>
              DeletedClients(cs, id) == DeletedClients(a, id) + DeletedClients(b, id)
  {
    WithoutIdempotent(cs, ClientId, id);
    forall a, b | cs == a + b
      ensures DeletedClients(cs, id) == DeletedClients(a, id) + DeletedClients(b, id)
    {
      WithoutAppend(a, b, ClientId, id);
    }
  }

  /** The store object: `clients` is reassigned by every mutating call. */
  class ClientsStore {
    var clients: seq<Client>

    ghost predicate Valid()
      reads this
    {
      DistinctKeys(clients, ClientId)
    }

    constructor ()
      ensures Valid()
      ensures clients == SeedClients()
    {
      clients := SeedClients();
    }

    method AddClient(input: ClientInput)
      requires Valid()
      modifies this
      ensures Valid()
      ensures clients == AddedClients(old(clients), input)
    {
      var newId := if |clients| > 0 then MaxKey(clients, ClientId) + 1 else 1;
      clients := clients + [WithId(input, newId)];
    }

    method UpdateClient(id: int, updated: ClientPatch)
      requires Valid()
      modifies this
      ensures Valid()
      ensures clients == UpdatedClients(old(clients), id, updated)
    {
      var found := FirstIndexOf(clients, ClientId, id);
      if found.Some? {
        var i := found.value;
        var client := clients[i];
        if updated.name.Some? { client := client.(name := updated.name.value); }
        if updated.phone.Some? { client := client.(phone := updated.phone); }
        if updated.email.Some? { client := client.(email := updated.email); }
        if updated.notes.Some? { client := client.(notes := updated.notes); }
        clients := clients[i := client];
      }
    }

    method DeleteClient(id: int)
      requires Valid()
      modifies this
      ensures Valid()
      ensures clients == DeletedClients(old(clients), id)
    {
      clients := Without(clients, ClientId, id);
      WithoutKeepsDistinct(old(clients), ClientId, id);
    }
  }
}
