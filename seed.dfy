/**
 * The seeding script: the two accounts created only when their address is
 * new, and the catalogue entries upserted under a key made from each
 * name. Re-running the script changes nothing.
 */
module Seed {
  import opened Common
  import opened Schema
  import opened Text
  import Auth
  import Services

  // ----- the key of a catalogue entry -----

  /** A word of the name: no white space inside. */
  predicate SpaceFree(w: string)
  {
    forall j :: 0 <= j < |w| ==> !IsJsSpace(w[j])
  }

  /** `replace(/\s+/g, '-')`: every maximal run of white space becomes one '-'. */
  function Dashes(s: string): string
    decreases |s|
  {
    if s == [] then []
    else if IsJsSpace(s[0]) then ['-'] + Dashes(TrimStart(s[1..]))
    else [s[0]] + Dashes(s[1..])
  }

  /** The result has no white space, and besides the dashes only characters of s. */
  lemma {:induction false} DashesShape(s: string)
    ensures forall i :: 0 <= i < |Dashes(s)| ==> !IsJsSpace(Dashes(s)[i]) && (Dashes(s)[i] == '-' || Dashes(s)[i] in s)
    decreases |s|
  {
    if s != [] {
      var rest := if IsJsSpace(s[0]) then TrimStart(s[1..]) else s[1..];
      var c := if IsJsSpace(s[0]) then '-' else s[0];
      DashesShape(rest);
      assert Dashes(s) == [c] + Dashes(rest);
      ShapeCons(c, Dashes(rest), rest, s);
    }
  }

  /** A character that is a dash or comes from s, before a result built from a suffix of s. */
  lemma ShapeCons(c: char, t: string, rest: string, s: string)
    requires !IsJsSpace(c) && (c == '-' || c in s)
    requires |rest| <= |s| && rest == s[|s| - |rest|..]
    requires forall i :: 0 <= i < |t| ==> !IsJsSpace(t[i]) && (t[i] == '-' || t[i] in rest)
    ensures forall i :: 0 <= i < |[c] + t| ==> !IsJsSpace(([c] + t)[i]) && (([c] + t)[i] == '-' || ([c] + t)[i] in s)
  {
    forall i | 0 <= i < |[c] + t| ensures !IsJsSpace(([c] + t)[i]) && (([c] + t)[i] == '-' || ([c] + t)[i] in s) {
      if i > 0 && t[i - 1] != '-' {
        var k :| 0 <= k < |rest| && rest[k] == t[i - 1];
        assert rest[k] == s[|s| - |rest| + k];
      }
    }
  }

  /** Text without white space is kept as it is. */
  lemma {:induction false} DashesKeepsSpaceFree(s: string)
    requires SpaceFree(s)
    ensures Dashes(s) == s
    decreases |s|
  {
    if s != [] {
      assert SpaceFree(s[1..]) by {
        forall j | 0 <= j < |s[1..]| ensures !IsJsSpace(s[1..][j]) {
          assert s[1..][j] == s[j + 1];
        }
      }
      DashesKeepsSpaceFree(s[1..]);
      assert s == [s[0]] + s[1..];
    }
  }

  /** `name.toLowerCase().replace(/\s+/g, '-')`. */
  function Slug(name: string): string
  {
    Dashes(Lower(name))
  }

  /** A key holds no white space and no capital letter. */
  lemma SlugShape(name: string)
    ensures forall i :: 0 <= i < |Slug(name)| ==> !IsJsSpace(Slug(name)[i]) && LowerChar(Slug(name)[i]) == Slug(name)[i]
  {
    var v := Lower(name);
    DashesShape(v);
    forall i | 0 <= i < |Slug(name)| ensures LowerChar(Slug(name)[i]) == Slug(name)[i] {
      var c := Slug(name)[i];
      if c != '-' {
        var j :| 0 <= j < |v| && v[j] == c;
        LowerCharIdempotent(name[j]);
      }
    }
  }

  /** Making a key of a key gives the same key. */
  lemma SlugIdempotent(name: string)
    ensures Slug(Slug(name)) == Slug(name)
  {
    var s := Slug(name);
    SlugShape(name);
    assert Lower(s) == s;
    DashesKeepsSpaceFree(s);
  }

  /** Leading white space is dropped up to the first other character. */
  lemma {:induction false} TrimStartRun(sp: string, b: string)
    requires forall j :: 0 <= j < |sp| ==> IsJsSpace(sp[j])
    requires b != [] && !IsJsSpace(b[0])
    ensures TrimStart(sp + b) == b
    decreases |sp|
  {
    if sp == [] {
      assert sp + b == b;
    } else {
      assert (sp + b)[1..] == sp[1..] + b;
      TrimStartRun(sp[1..], b);
    }
  }

  /** A maximal run of white space between a word and the rest becomes one dash, however long the run. */
  lemma {:induction false} DashesRun(a: string, sp: string, b: string)
    requires SpaceFree(a) && sp != [] && forall j :: 0 <= j < |sp| ==> IsJsSpace(sp[j])
    requires b != [] && !IsJsSpace(b[0])
    ensures Dashes(a + sp + b) == a + "-" + Dashes(b)
    decreases |a|
  {
    if a == [] {
      assert a + sp + b == sp + b;
      DashesSpaceRun(sp, b);
    } else {
      DashesRun(a[1..], sp, b);
      DashesRunCons(a, sp, b);
    }
  }

  /** One more character of the word in front keeps the run's dash in place. */
  lemma DashesRunCons(a: string, sp: string, b: string)
    requires a != [] && !IsJsSpace(a[0])
    requires Dashes(a[1..] + sp + b) == a[1..] + "-" + Dashes(b)
    ensures Dashes(a + sp + b) == a + "-" + Dashes(b)
  {
    var x := a[1..] + sp + b;
    var d := "-" + Dashes(b);
    calc {
      Dashes(a + sp + b);
      { Regroup(a, sp + b); assert a + sp + b == a + (sp + b); assert x == a[1..] + (sp + b); }
      Dashes([a[0]] + x);
      { DashesCons(a[0], x); }
      [a[0]] + Dashes(x);
      { assert Dashes(x) == a[1..] + d; }
      [a[0]] + (a[1..] + d);
      { Regroup(a, d); }
      a + d;
    }
  }

  /** Splitting off the first character of a non-empty prefix. */
  lemma Regroup(a: string, rest: string)
    requires a != []
    ensures a + rest == [a[0]] + (a[1..] + rest)
  {
  }

  /** A character other than white space is kept as it is. */
  lemma DashesCons(c: char, rest: string)
    requires !IsJsSpace(c)
    ensures Dashes([c] + rest) == [c] + Dashes(rest)
  {
    assert ([c] + rest)[0] == c && ([c] + rest)[1..] == rest;
  }

  /** A run of white space in front of a word becomes one dash. */
  lemma DashesSpaceRun(sp: string, b: string)
    requires sp != [] && forall j :: 0 <= j < |sp| ==> IsJsSpace(sp[j])
    requires b != [] && !IsJsSpace(b[0])
    ensures Dashes(sp + b) == "-" + Dashes(b)
  {
    var s := sp + b;
    assert s[0] == sp[0] && s[1..] == sp[1..] + b;
    TrimStartRun(sp[1..], b);
    assert Dashes(s) == ['-'] + Dashes(TrimStart(s[1..]));
  }

  lemma {:induction false} JoinHead(ws: seq<string>, sep: string)
    requires |ws| > 0 && ws[0] != []
    ensures Join(ws, sep) != [] && Join(ws, sep)[0] == ws[0][0]
  {
  }

  /** Words of no white space joined by single spaces give those words joined by dashes. */
  lemma {:induction false} DashesJoin(ws: seq<string>)
    requires forall i :: 0 <= i < |ws| ==> ws[i] != [] && SpaceFree(ws[i])
    ensures Dashes(Join(ws, " ")) == Join(ws, "-")
  {
    if |ws| >= 2 {
      JoinHead(ws[1..], " ");
      DashesRun(ws[0], " ", Join(ws[1..], " "));
      DashesJoin(ws[1..]);
    } else if |ws| == 1 {
      DashesKeepsSpaceFree(ws[0]);
    }
  }

  /** A name whose lower-cased form is words joined by single spaces has those words joined by dashes as its key. */
  lemma SlugOfWords(name: string, ws: seq<string>)
    requires forall i :: 0 <= i < |ws| ==> ws[i] != [] && SpaceFree(ws[i])
    requires Lower(name) == Join(ws, " ")
    ensures Slug(name) == Join(ws, "-")
  {
    DashesJoin(ws);
  }

  // ----- upserting the catalogue -----

  /** One entry of the script's `services` array. */
  datatype ServiceSeed = ServiceSeed(name: string, description: string, priceType: PriceType, price: real, features: seq<string>)

  /** `update: service`: every field of the entry is written; key and active flag stay. */
  function Refresh(s: Service, x: ServiceSeed): (r: Service)
    ensures r.id == s.id && r.isActive == s.isActive
    ensures r.name == x.name && r.description == x.description && r.priceType == x.priceType
    ensures r.price == x.price && r.features == x.features
  {
    s.(name := x.name, description := x.description, priceType := x.priceType, price := x.price, features := x.features)
  }

  /** `create: { id: slug, ...service }`, active by default. */
  function Created(id: string, x: ServiceSeed): (r: Service)
    ensures r.id == id && r.isActive && Refresh(r, x) == r
  {
    Service(id, x.name, x.description, x.priceType, x.price, x.features, true)
  }

  /** An entry with the key the script computes for it. */
  datatype Keyed = Keyed(id: string, seed: ServiceSeed)

  function KeyAll(seeds: seq<ServiceSeed>): (r: seq<Keyed>)
    ensures |r| == |seeds| && forall i :: 0 <= i < |seeds| ==> r[i] == Keyed(Slug(seeds[i].name), seeds[i])
  {
    seq(|seeds|, i requires 0 <= i < |seeds| => Keyed(Slug(seeds[i].name), seeds[i]))
  }

  /** The last entry of the list whose key is `id`: the one whose fields end up stored. */
  function LastSeed(ks: seq<Keyed>, id: string): (r: Option<ServiceSeed>)
    ensures r.None? <==> forall i :: 0 <= i < |ks| ==> ks[i].id != id
  {
    if |ks| == 0 then None
    else if ks[|ks| - 1].id == id then Some(ks[|ks| - 1].seed)
    else LastSeed(ks[..|ks| - 1], id)
  }

  /** An existing entry after the run: refreshed from its last seed, if any. */
  function Expected(s: Service, ks: seq<Keyed>): Service
  {
    match LastSeed(ks, s.id)
    case None => s
    case Some(x) => Refresh(s, x)
  }

  /** Every key of the list is in the catalogue. */
  ghost predicate AllPresent(services: seq<Service>, ks: seq<Keyed>)
  {
    forall i :: 0 <= i < |ks| ==> Services.FindService(services, ks[i].id).Some?
  }

  /** Entries already there are refreshed in place. */
  ghost predicate Refreshed(before: seq<Service>, after: seq<Service>, ks: seq<Keyed>)
  {
    |before| <= |after| && forall k :: 0 <= k < |before| ==> after[k] == Expected(before[k], ks)
  }

  /** Entries added are created from the last seed of their key, a key that was new. */
  ghost predicate Added(before: seq<Service>, after: seq<Service>, ks: seq<Keyed>)
    requires |before| <= |after|
  {
    forall k :: |before| <= k < |after| ==>
      && LastSeed(ks, after[k].id).Some? && after[k] == Created(after[k].id, LastSeed(ks, after[k].id).value)
      && Services.FindService(before, after[k].id).None?
  }

  /** What a run leaves, relative to the catalogue `before`. */
  ghost predicate Seeded(before: seq<Service>, after: seq<Service>, ks: seq<Keyed>)
  {
    && Refreshed(before, after, ks)
    && Added(before, after, ks)
    && AllPresent(after, ks)
    && (AllPresent(before, ks) ==> |after| == |before|)
  }

  lemma LastSeedStep(ks: seq<Keyed>, i: nat, id: string)
    requires i < |ks|
    ensures LastSeed(ks[..i + 1], id) == if ks[i].id == id then Some(ks[i].seed) else LastSeed(ks[..i], id)
  {
    assert ks[..i + 1][..i] == ks[..i];
  }

  /** One upsert of the loop. */
  function Upsert(services: seq<Service>, k: Keyed): seq<Service>
  {
    match Services.FindService(services, k.id)
    case Some(j) => services[j := Refresh(services[j], k.seed)]
    case None => services + [Created(k.id, k.seed)]
  }

  lemma UpsertValid(services: seq<Service>, k: Keyed)
    requires ServicesValid(services)
    ensures ServicesValid(Upsert(services, k))
  {
  }

  /**
   * `prisma.service.upsert({ where: { id }, update, create })` for the
   * entry at position i: the loop's specification extends to one more entry.
   */
  method UpsertService(db: Db, ghost before: seq<Service>, ks: seq<Keyed>, i: nat)
    requires db.Valid() && i < |ks| && Seeded(before, db.services, ks[..i])
    modifies db`services
    ensures db.Valid()
    ensures db.services == Upsert(old(db.services), ks[i])
    ensures Seeded(before, db.services, ks[..i + 1])
  {
    UpsertValid(db.services, ks[i]);
    SeededStep(before, db.services, ks, i);
    db.services := Upsert(db.services, ks[i]);
  }

  /** The service-upsert loop of the script. */
  method SeedServices(db: Db, seeds: seq<ServiceSeed>)
    requires db.Valid()
    modifies db`services
    ensures db.Valid()
    ensures Seeded(old(db.services), db.services, KeyAll(seeds))
  {
    var ks := KeyAll(seeds);
    ghost var before := db.services;
    SeededEmpty(before, ks);
    for i := 0 to |ks|
      invariant db.Valid()
      invariant Seeded(before, db.services, ks[..i])
    {
      UpsertService(db, before, ks, i);
    }
    assert ks[..|ks|] == ks;
  }

  lemma SeededEmpty(before: seq<Service>, ks: seq<Keyed>)
    ensures Seeded(before, before, ks[..0])
  {
    assert ks[..0] == [];
  }

  lemma SeededStep(before: seq<Service>, prev: seq<Service>, ks: seq<Keyed>, i: nat)
    requires i < |ks| && Seeded(before, prev, ks[..i]) && ServicesValid(prev)
    ensures Seeded(before, Upsert(prev, ks[i]), ks[..i + 1])
  {
    StepRefreshed(before, prev, ks, i);
    StepAdded(before, prev, ks, i);
    StepPresent(before, prev, ks, i);
  }

  lemma StepRefreshed(before: seq<Service>, prev: seq<Service>, ks: seq<Keyed>, i: nat)
    requires i < |ks| && Refreshed(before, prev, ks[..i]) && ServicesValid(prev)
    ensures Refreshed(before, Upsert(prev, ks[i]), ks[..i + 1])
  {
    var next := Upsert(prev, ks[i]);
    var found := Services.FindService(prev, ks[i].id);
    forall k | 0 <= k < |before| ensures next[k] == Expected(before[k], ks[..i + 1]) {
      assert prev[k] == Expected(before[k], ks[..i]);
      assert prev[k].id == before[k].id;
      LastSeedStep(ks, i, before[k].id);
      if found.Some? && found.value == k {
        assert next[k] == Refresh(prev[k], ks[i].seed);
      } else {
        assert prev[k].id != ks[i].id;
        assert next[k] == prev[k];
      }
    }
  }

  lemma StepAdded(before: seq<Service>, prev: seq<Service>, ks: seq<Keyed>, i: nat)
    requires i < |ks| && Refreshed(before, prev, ks[..i]) && Added(before, prev, ks[..i]) && ServicesValid(prev)
    ensures Refreshed(before, Upsert(prev, ks[i]), ks[..i + 1])
    ensures Added(before, Upsert(prev, ks[i]), ks[..i + 1])
  {
    var next := Upsert(prev, ks[i]);
    var found := Services.FindService(prev, ks[i].id);
    StepRefreshed(before, prev, ks, i);
    forall k | |before| <= k < |next|
      ensures LastSeed(ks[..i + 1], next[k].id).Some? && next[k] == Created(next[k].id, LastSeed(ks[..i + 1], next[k].id).value)
      ensures Services.FindService(before, next[k].id).None?
    {
      if k < |prev| {
        LastSeedStep(ks, i, prev[k].id);
        if found.Some? && found.value == k {
          assert next[k] == Refresh(prev[k], ks[i].seed);
        } else {
          assert prev[k].id != ks[i].id;
          assert next[k] == prev[k];
        }
      } else {
        assert next[k] == Created(ks[i].id, ks[i].seed);
        LastSeedStep(ks, i, ks[i].id);
        FreshKeyNotBefore(before, prev, ks, i);
      }
    }
  }

  /** A key missing from the catalogue now was missing before the run. */
  lemma FreshKeyNotBefore(before: seq<Service>, prev: seq<Service>, ks: seq<Keyed>, i: nat)
    requires i < |ks| && Refreshed(before, prev, ks[..i])
    requires Services.FindService(prev, ks[i].id).None?
    ensures Services.FindService(before, ks[i].id).None?
  {
    forall k | 0 <= k < |before| ensures before[k].id != ks[i].id {
      assert prev[k] == Expected(before[k], ks[..i]);
      assert prev[k].id == before[k].id;
    }
  }

  lemma StepPresent(before: seq<Service>, prev: seq<Service>, ks: seq<Keyed>, i: nat)
    requires i < |ks| && Seeded(before, prev, ks[..i])
    ensures AllPresent(Upsert(prev, ks[i]), ks[..i + 1])
    ensures AllPresent(before, ks[..i + 1]) ==> |Upsert(prev, ks[i])| == |before|
  {
    StepAllPresent(before, prev, ks, i);
    if AllPresent(before, ks[..i + 1]) {
      StepSizeKept(before, prev, ks, i);
    }
  }

  lemma StepAllPresent(before: seq<Service>, prev: seq<Service>, ks: seq<Keyed>, i: nat)
    requires i < |ks| && Seeded(before, prev, ks[..i])
    ensures AllPresent(Upsert(prev, ks[i]), ks[..i + 1])
  {
    var next := Upsert(prev, ks[i]);
    var s1 := ks[..i + 1];
    forall t | 0 <= t < |s1| ensures Services.FindService(next, s1[t].id).Some? {
      if t < i {
        assert s1[t] == ks[..i][t];
        var found := Services.FindService(prev, s1[t].id).value;
        assert next[found].id == prev[found].id;
      } else {
        var k := Services.FindService(prev, ks[i].id);
        if k.Some? {
          assert next[k.value].id == ks[i].id;
        } else {
          assert next[|prev|].id == ks[i].id;
        }
      }
    }
  }

  lemma StepSizeKept(before: seq<Service>, prev: seq<Service>, ks: seq<Keyed>, i: nat)
    requires i < |ks| && Seeded(before, prev, ks[..i])
    requires AllPresent(before, ks[..i + 1])
    ensures |Upsert(prev, ks[i])| == |before|
  {
    var s1 := ks[..i + 1];
    forall t | 0 <= t < i ensures Services.FindService(before, ks[..i][t].id).Some? {
      assert ks[..i][t] == s1[t];
    }
    assert s1[i] == ks[i];
    var b := Services.FindService(before, ks[i].id).value;
    assert prev[b] == Expected(before[b], ks[..i]);
    assert prev[b].id == ks[i].id;
  }


  /** After one run every entry already carries what a second run would write. */
  lemma SeededIsStable(before: seq<Service>, after: seq<Service>, ks: seq<Keyed>)
    requires Seeded(before, after, ks)
    ensures forall k :: 0 <= k < |after| ==> Expected(after[k], ks) == after[k]
  {
    forall k | 0 <= k < |after| ensures Expected(after[k], ks) == after[k] {
      if k < |before| {
        assert after[k] == Expected(before[k], ks);
      }
    }
  }

  /** A catalogue the loop has already been run on is a fixed point of the loop. */
  lemma SecondRunIsIdentity(before: seq<Service>, once: seq<Service>, twice: seq<Service>, ks: seq<Keyed>)
    requires Seeded(before, once, ks) && Seeded(once, twice, ks)
    ensures twice == once
  {
    SeededIsStable(before, once, ks);
  }

  /** Running the loop a second time leaves the catalogue exactly as the first run left it. */
  method SeedServicesTwice(db: Db, seeds: seq<ServiceSeed>)
    requires db.Valid()
    modifies db`services
    ensures db.Valid()
    ensures Seeded(old(db.services), db.services, KeyAll(seeds))
  {
    ghost var before := db.services;
    SeedServices(db, seeds);
    ghost var once := db.services;
    SeedServices(db, seeds);
    SecondRunIsIdentity(before, once, db.services, KeyAll(seeds));
  }

  // ----- the two accounts -----

  /** `user.upsert({ where: { email }, update: {}, create })`: only a new address adds a row; an existing account is left as it is. */
  method SeedUser(db: Db, row: User)
    requires db.Valid() && row.id == |db.users|
    modifies db`users
    ensures db.Valid()
    ensures Auth.FindByEmail(old(db.users), row.email).Some? ==> db.users == old(db.users)
    ensures Auth.FindByEmail(old(db.users), row.email).None? ==> db.users == old(db.users) + [row]
    ensures Auth.FindByEmail(db.users, row.email).Some?
  {
    if Auth.FindByEmail(db.users, row.email).None? {
      db.users := db.users + [row];
      assert db.users[|db.users| - 1] == row;
    }
  }

  function AdminRow(id: Id): User
  {
    User(id, "pedro@pedroitsolutions.com", Hash("admin123456"), "Pedro", Some("Pedro IT Solutions"), None, Admin, None)
  }

  function DemoRow(id: Id): User
  {
    User(id, "demo@example.com", Hash("demo123456"), "Cliente Demo", Some("Demo Company LLC"), Some("555-123-4567"), Client, None)
  }

  /** A user found by address is still found once rows are appended. */
  lemma FoundAfterAppend(users: seq<User>, more: seq<User>, email: string)
    requires Auth.FindByEmail(users, email).Some?
    ensures Auth.FindByEmail(users + more, email).Some?
  {
    var k := Auth.FindByEmail(users, email).value;
    assert (users + more)[k] == users[k];
  }

  /** The whole script: the admin, the catalogue loop, the demo client. */
  method SeedAll(db: Db, seeds: seq<ServiceSeed>)
    requires db.Valid()
    modifies db`users, db`services
    ensures db.Valid()
    ensures Seeded(old(db.services), db.services, KeyAll(seeds))
    ensures Auth.FindByEmail(db.users, "pedro@pedroitsolutions.com").Some?
    ensures Auth.FindByEmail(db.users, "demo@example.com").Some?
  {
    SeedUser(db, AdminRow(|db.users|));
    SeedServices(db, seeds);
    ghost var mid := db.users;
    SeedUser(db, DemoRow(|db.users|));
    if db.users != mid {
      FoundAfterAppend(mid, [DemoRow(|mid|)], "pedro@pedroitsolutions.com");
    }
  }
}
