/**
 * The services store: the catalogue of services (name and price in złoty)
 * with id allocation, partial-patch update and delete by id.
 */
module Services {
  import opened Common
  import opened Keyed

  datatype Service = Service(id: int, name: string, price: int)

  /** What `addService` receives: a service without its id. */
  datatype ServiceInput = ServiceInput(name: string, price: int)

  /** What `updateService` receives; `None` means "not given". */
  datatype ServicePatch = ServicePatch(name: Option<string>, price: Option<int>)

  function ServiceId(s: Service): int { s.id }

  /** The three services every store starts with, ids 1, 2, 3. */
  function SeedServices(): (ss: seq<Service>)
    ensures DistinctKeys(ss, ServiceId)
    ensures |ss| == 3 && forall j :: 0 <= j < 3 ==> ss[j].id == j + 1
  {
    [ Service(1, "Mycie zewnętrzne", 100),
      Service(2, "Woskowanie", 200),
      Service(3, "Detailing wnętrza", 250) ]
  }

  /** The list after `addService(input)`. */
  function AddedServices(ss: seq<Service>, input: ServiceInput): (r: seq<Service>)
    ensures |r| == |ss| + 1 && r[..|ss|] == ss
    ensures r[|ss|].name == input.name && r[|ss|].price == input.price
    ensures forall j :: 0 <= j < |ss| ==> ss[j].id < r[|ss|].id
    ensures ss == [] ==> r[0].id == 1
  {
    ss + [Service(NextId(ss, ServiceId), input.name, input.price)]
  }

  /** A service with the defined fields of `p` written over it; the id never changes. */
  function Patched(s: Service, p: ServicePatch): (r: Service)
    ensures r.id == s.id
    ensures r.name == (if p.name.Some? then p.name.value else s.name)
    ensures r.price == (if p.price.Some? then p.price.value else s.price)
  {
    Service(s.id, p.name.GetOr(s.name), p.price.GetOr(s.price))
  }

  /** The list after `updateService(id, p)`: the first service with that id is patched. */
  function UpdatedServices(ss: seq<Service>, id: int, p: ServicePatch): (r: seq<Service>)
    ensures |r| == |ss|
    ensures forall j :: 0 <= j < |ss| ==> r[j].id == ss[j].id
    ensures (forall j :: 0 <= j < |ss| ==> ss[j].id != id) ==> r == ss
    ensures forall j :: 0 <= j < |ss| && r[j] != ss[j] ==>
              ss[j].id == id && (forall k :: 0 <= k < j ==> ss[k].id != id) && r[j] == Patched(ss[j], p)
    ensures forall j :: 0 <= j < |ss| && ss[j].id == id && (forall k :: 0 <= k < j ==> ss[k].id != id) ==>
              r[j] == Patched(ss[j], p)
  {
    match FirstIndexOf(ss, ServiceId, id)
    case None => ss
    case Some(i) => ss[i := Patched(ss[i], p)]
  }

  /** With distinct ids, updating a present service patches exactly that service. */
  lemma UpdatePatchesMatching(ss: seq<Service>, id: int, p: ServicePatch, i: nat)
    requires DistinctKeys(ss, ServiceId)
    requires i < |ss| && ss[i].id == id
    ensures UpdatedServices(ss, id, p) == ss[i := Patched(ss[i], p)]
  {
    assert FirstIndexOf(ss, ServiceId, id) == Some(i);
  }

  /** The list after `deleteService(id)`: the services with another id, in order. */
  function DeletedServices(ss: seq<Service>, id: int): (r: seq<Service>)
    ensures |r| <= |ss|
    ensures forall s :: s in r <==> s in ss && s.id != id
  {
    Without(ss, ServiceId, id)
  }

  datatype ServiceOp =
    | AddOp(input: ServiceInput)
    | UpdateOp(id: int, patch: ServicePatch)
    | DeleteOp(id: int)

  function ApplyOp(ss: seq<Service>, op: ServiceOp): seq<Service>
  {
    match op
    case AddOp(input) => AddedServices(ss, input)
    case UpdateOp(id, p) => UpdatedServices(ss, id, p)
    case DeleteOp(id) => DeletedServices(ss, id)
  }

  function ApplyOps(ss: seq<Service>, ops: seq<ServiceOp>): seq<Service>
    decreases |ops|
  {
    if ops == [] then ss else ApplyOps(ApplyOp(ss, ops[0]), ops[1..])
  }

  lemma {:induction false} OpsKeepDistinct(ss: seq<Service>, ops: seq<ServiceOp>)
    requires DistinctKeys(ss, ServiceId)
    ensures DistinctKeys(ApplyOps(ss, ops), ServiceId)
    decreases |ops|
  {
    if ops != [] {
      match ops[0] {
        case AddOp(_) =>
        case UpdateOp(_, _) =>
        case DeleteOp(id) => WithoutKeepsDistinct(ss, ServiceId, id);
      }
      OpsKeepDistinct(ApplyOp(ss, ops[0]), ops[1..]);
    }
  }

  /** Starting from the seed ids 1, 2, 3, any sequence of calls leaves service ids pairwise distinct. */
  lemma {:induction false} IdsStayDistinct(ops: seq<ServiceOp>)
    ensures DistinctKeys(ApplyOps(SeedServices(), ops), ServiceId)
  {
    OpsKeepDistinct(SeedServices(), ops);
  }

  /** Deleting removes exactly the services with the id, keeps the others in order, and is idempotent. */
  lemma DeleteRemovesExactly(ss: seq<Service>, id: int)
    ensures forall s :: s in DeletedServices(ss, id) <==> s in ss && s.id != id
    ensures DeletedServices(DeletedServices(ss, id), id) == DeletedServices(ss, id)
    ensures forall a, b :: ss == a + b ==>
              DeletedServices(ss, id) == DeletedServices(a, id) + DeletedServices(b, id)
  {
    WithoutIdempotent(ss, ServiceId, id);
    forall a, b | ss == a + b
      ensures DeletedServices(ss, id) == DeletedServices(a, id) + DeletedServices(b, id)
    {
      WithoutAppend(a, b, ServiceId, id);
    }
  }

  class ServicesStore {
    var services: seq<Service>

    ghost predicate Valid()
      reads this
    {
      DistinctKeys(services, ServiceId)
    }

    constructor ()
      ensures Valid()
      ensures services == SeedServices()
    {
      services := SeedServices();
    }

    method AddService(input: ServiceInput)
      requires Valid()
      modifies this
      ensures Valid()
      ensures services == AddedServices(old(services), input)
    {
      var newId := if |services| > 0 then MaxKey(services, ServiceId) + 1 else 1;
      services := services + [Service(newId, input.name, input.price)];
    }

    method UpdateService(serviceId: int, updated: ServicePatch)
      requires Valid()
      modifies this
      ensures Valid()
      ensures services == UpdatedServices(old(services), serviceId, updated)
    {
      var found := FirstIndexOf(services, ServiceId, serviceId);
      if found.Some? {
        var i := found.value;
        var service := services[i];
        if updated.name.Some? { service := service.(name := updated.name.value); }
        if updated.price.Some? { service := service.(price := updated.price.value); }
        services := services[i := service];
      }
    }

    method DeleteService(serviceId: int)
      requires Valid()
      modifies this
      ensures Valid()
      ensures services == DeletedServices(old(services), serviceId)
    {
      services := Without(services, ServiceId, serviceId);
      WithoutKeepsDistinct(old(services), ServiceId, serviceId);
    }
  }
}
