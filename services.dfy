/**
 * The service catalogue and the assignment of services to clients: the
 * public and personal listings, catalogue creation and partial update,
 * the assign route with its conflict check and upsert, and the update of
 * a client's service record.
 */
module Services {
  import opened Common
  import opened Schema
  import opened Collections

  // ----- orderings -----

  /** Code-point lexicographic order on names. */
  predicate LexLe(a: string, b: string)
    decreases |a|
  {
    |a| == 0 || (|b| > 0 && (a[0] < b[0] || (a[0] == b[0] && LexLe(a[1..], b[1..]))))
  }

  lemma {:induction false} LexLeTotal(a: string, b: string)
    ensures LexLe(a, b) || LexLe(b, a)
    decreases |a|
  {
    if |a| > 0 && |b| > 0 && a[0] == b[0] {
      LexLeTotal(a[1..], b[1..]);
    }
  }

  lemma {:induction false} LexLeTrans(a: string, b: string, c: string)
    requires LexLe(a, b) && LexLe(b, c)
    ensures LexLe(a, c)
    decreases |a|
  {
    if |a| > 0 && a[0] == b[0] && b[0] == c[0] {
      LexLeTrans(a[1..], b[1..], c[1..]);
    }
  }

  /** Two names each at most the other are the same name. */
  lemma {:induction false} LexLeAntisymmetric(a: string, b: string)
    requires LexLe(a, b) && LexLe(b, a)
    ensures a == b
    decreases |a|
  {
    if |a| > 0 {
      LexLeAntisymmetric(a[1..], b[1..]);
      assert a == [a[0]] + a[1..] && b == [b[0]] + b[1..];
    }
  }

  /** `orderBy: { name: 'asc' }`. */
  function ByName(): (Service, Service) -> bool
  {
    (a: Service, b: Service) => LexLe(a.name, b.name)
  }

  lemma ByNameTotal()
    ensures TotalPreorder(ByName())
  {
    forall a: Service, b: Service ensures ByName()(a, b) || ByName()(b, a) {
      LexLeTotal(a.name, b.name);
    }
    forall a: Service, b: Service, c: Service | ByName()(a, b) && ByName()(b, c) ensures ByName()(a, c) {
      LexLeTrans(a.name, b.name, c.name);
    }
  }

  /** `orderBy: { startDate: 'desc' }`. */
  function NewestFirst(): (ClientService, ClientService) -> bool
  {
    (a: ClientService, b: ClientService) => a.startDate >= b.startDate
  }

  // ----- listings -----

  function IsListed(): Service -> bool
  {
    (s: Service) => s.isActive
  }

  /** `GET /api/services`: the active catalogue entries, by name. */
  function PublicCatalog(services: seq<Service>): seq<Service>
  {
    SortBy(Filter(services, IsListed()), ByName())
  }

  /** The catalogue lists every active entry, no inactive one, each as often as it is stored, in name order. */
  lemma PublicCatalogSpec(services: seq<Service>)
    ensures SortedBy(PublicCatalog(services), ByName())
    ensures multiset(PublicCatalog(services)) == multiset(Filter(services, IsListed()))
    ensures forall s :: s in PublicCatalog(services) <==> s in services && s.isActive
  {
    ByNameTotal();
    SortBySorted(Filter(services, IsListed()), ByName());
    SortByPermutes(Filter(services, IsListed()), ByName());
    var f := Filter(services, IsListed());
    forall s ensures s in PublicCatalog(services) <==> s in f {
      assert s in PublicCatalog(services) <==> s in multiset(PublicCatalog(services));
      assert s in f <==> s in multiset(f);
    }
    forall s | s in services && s.isActive ensures s in f {
      var i :| 0 <= i < |services| && services[i] == s;
    }
  }

  function OwnActive(actor: Actor): ClientService -> bool
  {
    (c: ClientService) => c.userId == actor.id && c.status == Active
  }

  /** `GET /api/services/my`: the caller's ACTIVE records, newest start first. */
  function MyServices(records: seq<ClientService>, actor: Actor): seq<ClientService>
  {
    SortBy(Filter(records, OwnActive(actor)), NewestFirst())
  }

  /** Exactly the caller's active records, each once per copy stored, with non-increasing start dates. */
  lemma MyServicesSpec(records: seq<ClientService>, actor: Actor)
    ensures var r := MyServices(records, actor);
      forall i, j :: 0 <= i < j < |r| ==> r[i].startDate >= r[j].startDate
    ensures multiset(MyServices(records, actor)) == multiset(Filter(records, OwnActive(actor)))
    ensures forall c :: c in MyServices(records, actor) <==> c in records && c.userId == actor.id && c.status == Active
  {
    var f := Filter(records, OwnActive(actor));
    SortBySorted(f, NewestFirst());
    SortByPermutes(f, NewestFirst());
    forall c ensures c in MyServices(records, actor) <==> c in f {
      assert c in MyServices(records, actor) <==> c in multiset(MyServices(records, actor));
      assert c in f <==> c in multiset(f);
    }
    forall c | c in records && c.userId == actor.id && c.status == Active ensures c in f {
      var i :| 0 <= i < |records| && records[i] == c;
    }
  }

  // ----- the catalogue -----

  /** `req.body` of a catalogue entry or of its update; an absent or `null` field is `None`. */
  datatype ServiceBody = ServiceBody(
    name: Option<string>, description: Option<string>, priceType: Option<string>,
    price: Option<real>, features: Option<seq<string>>, isActive: Option<bool>)

  function HasId(id: string): Service -> bool
  {
    (s: Service) => s.id == id
  }

  /** `findUnique({ where: { id } })` on the catalogue. */
  function FindService(services: seq<Service>, id: string): (r: Option<nat>)
    ensures r.Some? ==> r.value < |services| && services[r.value].id == id
    ensures r.None? ==> forall i :: 0 <= i < |services| ==> services[i].id != id
  {
    FindIndex(services, HasId(id))
  }

  /**
   * `POST /api/services` (admin only). `newId` is the key the database
   * generates; a price type outside the enumeration and a key clash are
   * database errors.
   */
  method CreateService(db: Db, body: ServiceBody, newId: string) returns (r: Reply<Service>)
    requires db.Valid()
    modifies db`services
    ensures db.Valid()
    ensures !Truthy(body.name) || !Truthy(body.description) || !Truthy(body.priceType) || body.price.None? ==>
      r == Err(400, "Missing required fields") && db.services == old(db.services)
    ensures r.Ok? <==>
      && Truthy(body.name) && Truthy(body.description) && Truthy(body.priceType) && body.price.Some?
      && ParsePriceType(body.priceType.value).Some? && FindService(old(db.services), newId).None?
    ensures r.Err? && r.code != 400 ==> r == Err(500, Forwarded)
    ensures r.Err? ==> db.services == old(db.services)
    ensures r.Ok? ==>
      && r.code == 201
      && r.value == Service(newId, body.name.value, body.description.value, ParsePriceType(body.priceType.value).value,
                            body.price.value, body.features.GetOr([]), true)
      && db.services == old(db.services) + [r.value]
  {
    if !Truthy(body.name) || !Truthy(body.description) || !Truthy(body.priceType) || body.price.None? {
      return Err(400, "Missing required fields");
    }
    var kind := ParsePriceType(body.priceType.value);
    if kind.None? || FindService(db.services, newId).Some? {
      return Err(500, Forwarded);
    }
    var row := Service(newId, body.name.value, body.description.value, kind.value,
                       body.price.value, body.features.GetOr([]), true);
    db.services := db.services + [row];
    r := Ok(201, row);
  }

  /**
   * The `data` of `PUT /api/services/:id`: name, description, price type
   * and features when truthy (an array, even an empty one, is truthy),
   * price and the active flag whenever present. `None` when a truthy price
   * type names no member of the enumeration.
   */
  function PatchService(s: Service, b: ServiceBody): (r: Option<Service>)
    ensures r.None? <==> Truthy(b.priceType) && ParsePriceType(b.priceType.value).None?
    ensures r.Some? ==>
      && r.value.id == s.id
      && r.value.name == (if Truthy(b.name) then b.name.value else s.name)
      && r.value.description == (if Truthy(b.description) then b.description.value else s.description)
      && (Truthy(b.priceType) ==> PriceTypeName(r.value.priceType) == b.priceType.value)
      && (!Truthy(b.priceType) ==> r.value.priceType == s.priceType)
      && r.value.price == b.price.GetOr(s.price)
      && r.value.features == b.features.GetOr(s.features)
      && r.value.isActive == b.isActive.GetOr(s.isActive)
  {
    var kind := if Truthy(b.priceType) then ParsePriceType(b.priceType.value) else Some(s.priceType);
    if kind.None? then None
    else Some(s.(
      name := if Truthy(b.name) then b.name.value else s.name,
      description := if Truthy(b.description) then b.description.value else s.description,
      priceType := kind.value,
      price := b.price.GetOr(s.price),
      features := b.features.GetOr(s.features),
      isActive := b.isActive.GetOr(s.isActive)))
  }

  /** An update with no fields leaves the entry as it was. */
  lemma EmptyPatchIsIdentity(s: Service)
    ensures PatchService(s, ServiceBody(None, None, None, None, None, None)) == Some(s)
  {
  }

  /** `PUT /api/services/:id` (admin only); an unknown id is a database error. */
  method UpdateService(db: Db, id: string, body: ServiceBody) returns (r: Reply<Service>)
    requires db.Valid()
    modifies db`services
    ensures db.Valid()
    ensures FindService(old(db.services), id).None? ==> r == Err(500, Forwarded) && db.services == old(db.services)
    ensures FindService(old(db.services), id).Some? ==>
      var k := FindService(old(db.services), id).value;
      match PatchService(old(db.services)[k], body)
      case None => r == Err(500, Forwarded) && db.services == old(db.services)
      case Some(s) => r == Ok(200, s) && db.services == old(db.services)[k := s]
  {
    var k := FindService(db.services, id);
    if k.None? {
      return Err(500, Forwarded);
    }
    var patched := PatchService(db.services[k.value], body);
    if patched.None? {
      return Err(500, Forwarded);
    }
    db.services := db.services[k.value := patched.value];
    r := Ok(200, patched.value);
  }

  // ----- assignments -----

  /** `req.body` of an assignment; a missing or falsy user id is `None`. */
  datatype AssignBody = AssignBody(userId: Option<Id>, notes: Option<string>)

  function SamePair(userId: Id, serviceId: string): ClientService -> bool
  {
    (c: ClientService) => c.userId == userId && c.serviceId == serviceId
  }

  /** `findUnique({ where: { userId_serviceId } })`. */
  function FindPair(records: seq<ClientService>, userId: Id, serviceId: string): (r: Option<nat>)
    ensures r.Some? ==> r.value < |records| && records[r.value].userId == userId && records[r.value].serviceId == serviceId
    ensures r.None? ==> forall i :: 0 <= i < |records| ==> !(records[i].userId == userId && records[i].serviceId == serviceId)
  {
    FindIndex(records, SamePair(userId, serviceId))
  }

  /**
   * The upsert of an assignment: a new ACTIVE record with the notes, or the
   * existing one made ACTIVE again from `now` with no end date (absent
   * notes keep the old ones). The pair stays unique and its one record is
   * active from `now`.
   */
  function Assign(records: seq<ClientService>, userId: Id, serviceId: string, notes: Option<string>, now: Time): (r: seq<ClientService>)
    requires ClientServicesValid(records)
    ensures ClientServicesValid(r)
    ensures FindPair(records, userId, serviceId).None? ==>
      r == records + [ClientService(|records|, userId, serviceId, Active, now, None, notes)]
    ensures FindPair(records, userId, serviceId).Some? ==>
      var k := FindPair(records, userId, serviceId).value;
      && |r| == |records| && (forall i :: 0 <= i < |records| && i != k ==> r[i] == records[i])
      && r[k] == records[k].(status := Active, startDate := now, endDate := None, notes := if notes.Some? then notes else records[k].notes)
    ensures exists k :: (0 <= k < |r| && r[k].userId == userId && r[k].serviceId == serviceId
      && r[k].status == Active && r[k].startDate == now && r[k].endDate == None)
  {
    match FindPair(records, userId, serviceId)
    case None =>
      var row := ClientService(|records|, userId, serviceId, Active, now, None, notes);
      assert (records + [row])[|records|] == row;
      records + [row]
    case Some(k) =>
      var old_ := records[k];
      var row := old_.(status := Active, startDate := now, endDate := None, notes := if notes.Some? then notes else old_.notes);
      assert records[k := row][k] == row;
      records[k := row]
  }

  /**
   * `POST /api/services/:id/assign` (admin only). The guards run in order;
   * an ACTIVE record for the pair is a conflict; every failure leaves the
   * records as they were.
   */
  method AssignService(db: Db, serviceId: string, body: AssignBody, now: Time) returns (r: Reply<ClientService>)
    requires db.Valid()
    modifies db`clientServices
    ensures db.Valid()
    ensures body.userId.None? ==> r == Err(400, "User ID is required")
    ensures body.userId.Some? && FindService(db.services, serviceId).None? ==> r == Err(404, "Service not found")
    ensures body.userId.Some? && FindService(db.services, serviceId).Some? && body.userId.value >= |db.users| ==>
      r == Err(404, "User not found")
    ensures body.userId.Some? && FindService(db.services, serviceId).Some? && body.userId.value < |db.users| ==>
      var uid := body.userId.value;
      var existing := FindPair(old(db.clientServices), uid, serviceId);
      if existing.Some? && old(db.clientServices)[existing.value].status == Active then
        r == Err(400, "Service already assigned to this client")
      else
        && db.clientServices == Assign(old(db.clientServices), uid, serviceId, body.notes, now)
        && r.Ok? && r.code == 201
        && r.value.userId == uid && r.value.serviceId == serviceId && r.value.status == Active
        && r.value.startDate == now && r.value.endDate == None && r.value in db.clientServices
    ensures r.Err? ==> db.clientServices == old(db.clientServices)
  {
    if body.userId.None? {
      return Err(400, "User ID is required");
    }
    if FindService(db.services, serviceId).None? {
      return Err(404, "Service not found");
    }
    var uid := body.userId.value;
    if uid >= |db.users| {
      return Err(404, "User not found");
    }
    var existing := FindPair(db.clientServices, uid, serviceId);
    if existing.Some? && db.clientServices[existing.value].status == Active {
      return Err(400, "Service already assigned to this client");
    }
    var next := Assign(db.clientServices, uid, serviceId, body.notes, now);
    var k := if existing.Some? then existing.value else |db.clientServices|;
    db.clientServices := next;
    r := Ok(201, next[k]);
  }

  /** Assigning a pair twice in a row: the second attempt is the conflict. */
  lemma AssignTwiceConflicts(records: seq<ClientService>, userId: Id, serviceId: string, notes: Option<string>, now: Time)
    requires ClientServicesValid(records)
    ensures var after := Assign(records, userId, serviceId, notes, now);
      var again := FindPair(after, userId, serviceId);
      again.Some? && after[again.value].status == Active
  {
    var after := Assign(records, userId, serviceId, notes, now);
    var k :| 0 <= k < |after| && after[k].userId == userId && after[k].serviceId == serviceId
      && after[k].status == Active && after[k].startDate == now && after[k].endDate == None;
  }

  // ----- a client's service record -----

  /** `req.body` of `PUT /api/services/client/:id`. */
  datatype ClientPatchBody = ClientPatchBody(status: Option<string>, notes: Option<string>)

  /**
   * The `data` of the update: the status when truthy, the notes when
   * present, and `endDate = now` when the status is CANCELLED. `None` when
   * a truthy status names no member of the enumeration.
   */
  function PatchClientService(c: ClientService, b: ClientPatchBody, now: Time): (r: Option<ClientService>)
    ensures r.None? <==> Truthy(b.status) && ParseServiceStatus(b.status.value).None?
    ensures r.Some? ==>
      && r.value.(status := c.status, notes := c.notes, endDate := c.endDate) == c
      && (Truthy(b.status) ==> ServiceStatusName(r.value.status) == b.status.value)
      && (!Truthy(b.status) ==> r.value.status == c.status)
      && r.value.notes == (if b.notes.Some? then b.notes else c.notes)
      && r.value.endDate == (if b.status == Some("CANCELLED") then Some(now) else c.endDate)
  {
    var status := if Truthy(b.status) then ParseServiceStatus(b.status.value) else Some(c.status);
    if status.None? then None
    else Some(c.(
      status := status.value,
      notes := if b.notes.Some? then b.notes else c.notes,
      endDate := if b.status == Some("CANCELLED") then Some(now) else c.endDate))
  }

  /** A cancelled record that is assigned again is active with no end date, whatever its history. */
  lemma CancelThenReassign(records: seq<ClientService>, k: nat, now: Time, later: Time)
    requires ClientServicesValid(records) && k < |records|
    ensures var c := PatchClientService(records[k], ClientPatchBody(Some("CANCELLED"), None), now).value;
      var after := Assign(records[k := c], c.userId, c.serviceId, None, later);
      && c.status == ServiceStatus.Cancelled && c.endDate == Some(now)
      && |after| == |records| && after[k].status == Active && after[k].endDate == None && after[k].startDate == later
  {
    var c := PatchClientService(records[k], ClientPatchBody(Some("CANCELLED"), None), now).value;
    var patched := records[k := c];
    assert ClientServicesValid(patched);
    assert patched[k].userId == c.userId && patched[k].serviceId == c.serviceId;
  }

  /** `PUT /api/services/client/:id` (admin only); an unknown id is a database error. */
  method UpdateClientService(db: Db, id: Id, body: ClientPatchBody, now: Time) returns (r: Reply<ClientService>)
    requires db.Valid()
    modifies db`clientServices
    ensures db.Valid()
    ensures id >= |old(db.clientServices)| ==> r == Err(500, Forwarded) && db.clientServices == old(db.clientServices)
    ensures id < |old(db.clientServices)| ==>
      match PatchClientService(old(db.clientServices)[id], body, now)
      case None => r == Err(500, Forwarded) && db.clientServices == old(db.clientServices)
      case Some(c) => r == Ok(200, c) && db.clientServices == old(db.clientServices)[id := c]
  {
    if id >= |db.clientServices| {
      return Err(500, Forwarded);
    }
    var patched := PatchClientService(db.clientServices[id], body, now);
    if patched.None? {
      return Err(500, Forwarded);
    }
    db.clientServices := db.clientServices[id := patched.value];
    r := Ok(200, patched.value);
  }
}
