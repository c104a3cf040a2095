/**
 The Bolt buckets against the Postgres relation: step by step and over whole runs,
 both backends answer the same, and exactly when they would not.
 */
module Simulation {
  import opened Prelude
  import opened MappingKeys
  import opened RelationStore
  import opened BoltBackend

  /** Lists hold no duplicates, and an empty list is never stored. */
  ghost predicate Tidy(index: Index) {
    forall g | g in index :: index[g] != [] && NoDup(index[g])
  }

  predicate Claimed(index: Index, guid: string, m: Mapping) {
    m in Claims(index, guid)
  }

  function KeySet(rel: map<Mapping, string>): set<string> {
    set m | m in rel :: MappingKey(m)
  }

  /** The forward bucket holds the composite keys of the relation, with their owners. */
  ghost predicate ForwardAgrees(forward: map<string, string>, rel: map<Mapping, string>) {
    && forward.Keys == KeySet(rel)
    && (forall m | m in rel :: rel[m] != "" && Backed(forward, rel[m], m))
  }

  /** A user's list holds the mappings the relation gives that user. */
  ghost predicate ListsAgree(index: Index, rel: map<Mapping, string>) {
    && (forall g, m :: Claimed(index, g, m) <==> m in rel && rel[m] == g)
    && Tidy(index)
  }

  ghost predicate Agree(b: Buckets, rel: map<Mapping, string>) {
    ForwardAgrees(b.forward, rel) && ListsAgree(b.index, rel)
  }

  /** A Bolt bucket holds no empty key. */
  predicate NoEmptyKey(s: Bolt) {
    "" !in s.users && "" !in s.roles && "" !in s.perms
  }

  ghost predicate Simulates(s: Bolt, t: Tables) {
    && s.users == t.users && s.roles == t.roles && s.perms == t.perms
    && NoEmptyKey(s)
    && Agree(s.maps, t.rel)
    && NonColliding(t.rel.Keys)
  }

  /** The store operations that touch users, mappings or grants. */
  datatype Op =
    | CreateUser(guid: string, user: User)
    | UpdateUser(guid: string, user: User)
    | SetRoles(guid: string, grants: set<string>)
    | SetPermissions(guid: string, grants: set<string>)
    | SetMapping(m: Mapping, guid: string)
    | DeleteMapping(m: Mapping)
    | Merge(sources: seq<string>, guid: string, displayName: string, email: string)
    | Unmerge(guid: string)
    | DeleteUser(guid: string)
    | DeleteApp(appID: string)

  function UnmergeUsers(users: map<string, User>, guid: string): map<string, User> {
    if IsMerged(users, guid) then users[guid := users[guid].(mergedInto := "")] else users
  }

  function BoltStep(s: Bolt, op: Op): Bolt {
    match op
    case CreateUser(g, u) => s.(users := s.users[g := u])
    case UpdateUser(g, u) => s.(users := UpdatedUsers(s.users, g, u))
    case SetRoles(g, r) => s.(roles := PutGrants(s.roles, g, r))
    case SetPermissions(g, p) => s.(perms := PutGrants(s.perms, g, p))
    case SetMapping(m, g) => s.(maps := SetBuckets(s.maps, m, g))
    case DeleteMapping(m) => s.(maps := DeleteBuckets(s.maps, m))
    case Merge(sources, g, name, email) => MergeBolt(s, sources, g, MergedRecord(name, email))
    case Unmerge(g) => s.(users := UnmergeUsers(s.users, g))
    case DeleteUser(g) => s.(users := s.users - {g})
    case DeleteApp(a) => DeleteAppBolt(s, a)
  }

  function TableStep(t: Tables, op: Op): Tables {
    match op
    case CreateUser(g, u) => t.(users := t.users[g := u])
    case UpdateUser(g, u) => t.(users := UpdatedUsers(t.users, g, u))
    case SetRoles(g, r) => t.(roles := t.roles[g := r])
    case SetPermissions(g, p) => t.(perms := t.perms[g := p])
    case SetMapping(m, g) => t.(rel := t.rel[m := g])
    case DeleteMapping(m) => t.(rel := t.rel - {m})
    case Merge(sources, g, name, email) => MergeTables(t, sources, g, MergedRecord(name, email))
    case Unmerge(g) => t.(users := UnmergeUsers(t.users, g))
    case DeleteUser(g) => t.(users := t.users - {g})
    case DeleteApp(a) => DeleteAppTables(t, a)
  }

  /** An operation is a call of the Bolt store's own method. */
  method CallBolt(store: BoltStore, op: Op)
    requires op.Merge? ==> op.guid !in op.sources
    modifies store
    ensures store.State() == BoltStep(old(store.State()), op)
  {
    match op {
      case CreateUser(g, u) => store.CreateUser(g, u);
      case UpdateUser(g, u) => var _ := store.UpdateUser(g, u);
      case SetRoles(g, r) => var _ := store.SetUserRoles(g, r);
      case SetPermissions(g, p) => var _ := store.SetUserPermissions(g, p);
      case SetMapping(m, g) => var _ := store.SetIdentityMapping(m, g);
      case DeleteMapping(m) => store.DeleteIdentityMapping(m);
      case Merge(sources, g, name, email) => var _ := store.MergeUsers(sources, g, name, email);
      case Unmerge(g) => var _ := store.UnmergeUser(g);
      case DeleteUser(g) => store.DeleteUser(g);
      case DeleteApp(a) => store.DeleteApp(a);
    }
  }

  /** And of the Postgres store's. */
  method CallPostgres(store: PostgresStore, op: Op)
    requires op.Merge? ==> op.guid !in op.sources
    modifies store
    ensures store.State() == TableStep(old(store.State()), op)
  {
    match op {
      case CreateUser(g, u) => store.CreateUser(g, u);
      case UpdateUser(g, u) => var _ := store.UpdateUser(g, u);
      case SetRoles(g, r) => store.SetUserRoles(g, r);
      case SetPermissions(g, p) => store.SetUserPermissions(g, p);
      case SetMapping(m, g) => store.SetIdentityMapping(m, g);
      case DeleteMapping(m) => store.DeleteIdentityMapping(m);
      case Merge(sources, g, name, email) => var _ := store.MergeUsers(sources, g, name, email);
      case Unmerge(g) => var _ := store.UnmergeUser(g);
      case DeleteUser(g) => store.DeleteUser(g);
      case DeleteApp(a) => store.DeleteApp(a);
    }
  }

  /** A created user has a GUID, its own or a new UUID; the merged user gets a new UUID. */
  predicate MintsFresh(users: map<string, User>, op: Op) {
    && (op.CreateUser? ==> op.guid != "")
    && (op.Merge? ==> op.guid != "" && op.guid !in users && op.guid !in op.sources)
  }

  /** The new user's GUID holds no grants that the sources' union would have to be inserted over. */
  predicate GrantsFree(s: Bolt, sources: seq<string>, guid: string) {
    && (guid in s.roles ==> Gather(s.roles, Elements(sources)) == {})
    && (guid in s.perms ==> Gather(s.perms, Elements(sources)) == {})
  }

  /** What a caller can check before the call for both backends to do the same. */
  predicate SameOnBoth(s: Bolt, op: Op) {
    match op
    case SetRoles(g, _) => g != ""
    case SetPermissions(g, _) => g != ""
    case SetMapping(_, g) => g != ""
    case Merge(sources, g, _, _) => AllExist(s.users, sources) <==> GrantsFree(s, sources, g)
    case DeleteApp(a) => a != "" || OwnedBy(s.users, "") == {}
    case _ => true
  }

  function Touched(op: Op): set<Mapping> {
    if op.SetMapping? || op.DeleteMapping? then {op.m} else {}
  }

  // ---- One operation on the buckets ----

  lemma {:induction false} DroppingContains(ms: seq<Mapping>, out: set<Mapping>)
    ensures forall x :: x in Dropping(ms, out) <==> x in ms && x !in out
    ensures NoDup(ms) ==> NoDup(Dropping(ms, out))
  {
    if ms != [] {
      DroppingContains(ms[..|ms| - 1], out);
      assert ms == ms[..|ms| - 1] + [ms[|ms| - 1]];
    }
  }

  lemma RetractEffect(index: Index, guid: string, m: Mapping)
    ensures forall g, x :: Claimed(Retract(index, guid, m), g, x) <==> Claimed(index, g, x) && !(g == guid && x == m)
    ensures Tidy(index) ==> Tidy(Retract(index, guid, m))
  {
    if guid in index { DroppingContains(index[guid], {m}); }
  }

  lemma RecordEffect(index: Index, guid: string, m: Mapping)
    ensures forall g, x :: Claimed(Record(index, guid, m), g, x) <==> Claimed(index, g, x) || (g == guid && x == m)
    ensures Tidy(index) ==> Tidy(Record(index, guid, m))
  {
  }

  lemma KeySetAdd(rel: map<Mapping, string>, m: Mapping, guid: string)
    ensures KeySet(rel[m := guid]) == KeySet(rel) + {MappingKey(m)}
  {
    assert forall x :: x in rel[m := guid] <==> x in rel || x == m;
  }

  lemma KeySetRemove(rel: map<Mapping, string>, m: Mapping)
    requires m in rel && NonColliding(rel.Keys)
    ensures KeySet(rel - {m}) == KeySet(rel) - {MappingKey(m)}
  {
    forall k ensures k in KeySet(rel - {m}) <==> k in KeySet(rel) && k != MappingKey(m) {
      if k in KeySet(rel) {
        var x :| x in rel && MappingKey(x) == k;
        assert x in rel.Keys && m in rel.Keys;
        assert x == m || x in rel - {m};
      }
      if k in KeySet(rel - {m}) {
        var x :| x in rel - {m} && MappingKey(x) == k;
        assert x in rel.Keys && m in rel.Keys;
      }
    }
  }

  lemma OtherKept(forward: map<string, string>, rel: map<Mapping, string>, m: Mapping, x: Mapping)
    requires ForwardAgrees(forward, rel) && NonColliding(rel.Keys + {m}) && x in rel && x != m
    ensures MappingKey(x) != MappingKey(m) && rel[x] != "" && Backed(forward, rel[x], x)
  {
    assert x in rel.Keys + {m} && m in rel.Keys + {m};
  }

  lemma ForwardSet(forward: map<string, string>, rel: map<Mapping, string>, m: Mapping, guid: string)
    requires ForwardAgrees(forward, rel) && NonColliding(rel.Keys + {m}) && guid != ""
    ensures ForwardAgrees(forward[MappingKey(m) := guid], rel[m := guid])
  {
    KeySetAdd(rel, m, guid);
    forall x | x in rel && x != m ensures Backed(forward[MappingKey(m) := guid], rel[x], x) && rel[x] != "" {
      OtherKept(forward, rel, m, x);
    }
  }

  lemma ForwardDelete(forward: map<string, string>, rel: map<Mapping, string>, m: Mapping)
    requires ForwardAgrees(forward, rel) && NonColliding(rel.Keys) && m in rel
    ensures ForwardAgrees(forward - {MappingKey(m)}, rel - {m})
  {
    KeySetRemove(rel, m);
    forall x | x in rel - {m} ensures MappingKey(x) != MappingKey(m) && Backed(forward, rel[x], x) {
      assert x in rel.Keys && m in rel.Keys;
    }
  }

  /** In an agreeing store the owner of a key is the owner of the one mapping with that key. */
  lemma OwnerOf(b: Buckets, rel: map<Mapping, string>, m: Mapping)
    requires ForwardAgrees(b.forward, rel) && NonColliding(rel.Keys + {m})
    ensures MappingKey(m) in b.forward <==> m in rel
    ensures m in rel ==> b.forward[MappingKey(m)] == rel[m]
  {
    if MappingKey(m) in b.forward {
      var x :| x in rel && MappingKey(x) == MappingKey(m);
      assert x in rel.Keys + {m} && m in rel.Keys + {m};
    }
  }

  lemma AgreeSet(b: Buckets, rel: map<Mapping, string>, m: Mapping, guid: string)
    requires Agree(b, rel) && NonColliding(rel.Keys + {m}) && guid != ""
    ensures Agree(SetBuckets(b, m, guid), rel[m := guid])
  {
    OwnerOf(b, rel, m);
    ForwardSet(b.forward, rel, m, guid);
    var key := MappingKey(m);
    var prev := if key in b.forward then b.forward[key] else "";
    var kept := if prev != "" && prev != guid then Retract(b.index, prev, m) else b.index;
    RetractEffect(b.index, prev, m);
    RecordEffect(kept, guid, m);
    forall g, x ensures Claimed(Record(kept, guid, m), g, x) <==> x in rel[m := guid] && rel[m := guid][x] == g {
      assert Claimed(b.index, g, x) <==> x in rel && rel[x] == g;
    }
  }

  lemma AgreeDelete(b: Buckets, rel: map<Mapping, string>, m: Mapping)
    requires Agree(b, rel) && NonColliding(rel.Keys + {m})
    ensures Agree(DeleteBuckets(b, m), rel - {m})
  {
    OwnerOf(b, rel, m);
    if m !in rel {
      assert rel - {m} == rel;
    } else {
      assert rel.Keys + {m} == rel.Keys;
      ForwardDelete(b.forward, rel, m);
      ListsDelete(b.index, rel, m);
    }
  }

  lemma ListsDelete(index: Index, rel: map<Mapping, string>, m: Mapping)
    requires ListsAgree(index, rel) && m in rel
    ensures ListsAgree(Retract(index, rel[m], m), rel - {m})
  {
    RetractEffect(index, rel[m], m);
    forall g, x ensures Claimed(Retract(index, rel[m], m), g, x) <==> x in rel - {m} && (rel - {m})[x] == g {
      assert Claimed(index, g, x) <==> x in rel && rel[x] == g;
    }
  }

  /** What moving a list does: its keys are redirected, its entries join the target's list. */
  lemma MergeSourceLists(b: Buckets, rel: map<Mapping, string>, src: string, guid: string)
    requires ListsAgree(b.index, rel) && src != guid && src in b.index
    ensures ListsAgree(MergeSource(b, src, guid).index, Repointed(rel, {src}, guid))
  {
    var ms, index' := b.index[src], MergeSource(b, src, guid).index;
    var rel' := Repointed(rel, {src}, guid);
    AppendNewContains(Claims(b.index, guid), ms);
    forall g, x ensures Claimed(index', g, x) <==> x in rel' && rel'[x] == g {
      assert Claimed(b.index, g, x) <==> x in rel && rel[x] == g;
      assert Claimed(b.index, src, x) <==> x in rel && rel[x] == src;
    }
  }

  lemma MergeSourceForward(b: Buckets, rel: map<Mapping, string>, src: string, guid: string)
    requires Agree(b, rel) && NonColliding(rel.Keys) && src != guid && guid != "" && src in b.index
    ensures ForwardAgrees(MergeSource(b, src, guid).forward, Repointed(rel, {src}, guid))
  {
    var ms, rel' := b.index[src], Repointed(rel, {src}, guid);
    assert forall x :: Claimed(b.index, src, x) <==> x in rel && rel[x] == src;
    assert forall x :: x in ms <==> Claimed(b.index, src, x);
    assert KeysOf(ms) <= b.forward.Keys;
    forall x | x in rel' ensures rel'[x] != "" && Backed(Redirect(b.forward, KeysOf(ms), guid), rel'[x], x) {
      assert Backed(b.forward, rel[x], x);
      if MappingKey(x) in KeysOf(ms) {
        var y :| y in ms && MappingKey(y) == MappingKey(x);
        assert y in rel.Keys && x in rel.Keys;
        assert x == y;
      } else {
        assert x !in ms;
      }
    }
    assert rel'.Keys == rel.Keys;
  }

  lemma AgreeMergeSource(b: Buckets, rel: map<Mapping, string>, src: string, guid: string)
    requires Agree(b, rel) && NonColliding(rel.Keys) && src != guid && guid != ""
    ensures Agree(MergeSource(b, src, guid), Repointed(rel, {src}, guid))
  {
    if src !in b.index {
      assert forall x :: Claimed(b.index, src, x) <==> x in rel && rel[x] == src;
      assert Repointed(rel, {src}, guid) == rel;
    } else {
      MergeSourceLists(b, rel, src, guid);
      MergeSourceForward(b, rel, src, guid);
    }
  }

  lemma {:induction false} AgreeMergeSources(b: Buckets, rel: map<Mapping, string>, sources: seq<string>, guid: string)
    requires Agree(b, rel) && NonColliding(rel.Keys) && guid !in sources && guid != ""
    ensures Agree(MergeSources(b, sources, guid), Repointed(rel, Elements(sources), guid))
  {
    if sources == [] {
      assert Repointed(rel, Elements(sources), guid) == rel;
    } else {
      var most, src := sources[..|sources| - 1], sources[|sources| - 1];
      assert sources == most + [src];
      AgreeMergeSources(b, rel, most, guid);
      AgreeMergeSource(MergeSources(b, most, guid), Repointed(rel, Elements(most), guid), src, guid);
      RepointedMore(rel, Elements(most), src, guid);
      assert Elements(sources) == Elements(most) + {src};
    }
  }

  function Unowned(rel: map<Mapping, string>, gone: set<string>): map<Mapping, string> {
    map m | m in rel && rel[m] !in gone :: rel[m]
  }

  lemma AgreeDrop(b: Buckets, rel: map<Mapping, string>, gone: set<string>)
    requires Agree(b, rel) && NonColliding(rel.Keys)
    ensures Agree(DropUsers(b, gone), Unowned(rel, gone))
  {
    DropForward(b, rel, gone);
    var index', rel' := b.index - gone, Unowned(rel, gone);
    forall g, x ensures Claimed(index', g, x) <==> x in rel' && rel'[x] == g {
      assert Claims(index', g) == if g in gone then [] else Claims(b.index, g);
      assert Claimed(b.index, g, x) <==> x in rel && rel[x] == g;
    }
  }

  lemma HeldKey(b: Buckets, rel: map<Mapping, string>, x: Mapping)
    requires Agree(b, rel) && x in rel
    ensures rel[x] != "" && Backed(b.forward, rel[x], x) && ClaimsKey(b.index, rel[x], MappingKey(x))
  {
    assert Claimed(b.index, rel[x], x);
  }

  lemma DropForward(b: Buckets, rel: map<Mapping, string>, gone: set<string>)
    requires Agree(b, rel) && NonColliding(rel.Keys)
    ensures ForwardAgrees(DropUsers(b, gone).forward, Unowned(rel, gone))
  {
    var fwd', rel' := DropUsers(b, gone).forward, Unowned(rel, gone);
    forall x | x in rel' ensures rel'[x] != "" && Backed(fwd', rel'[x], x) {
      HeldKey(b, rel, x);
    }
    forall k | k in fwd' ensures k in KeySet(rel') {
      var x :| x in rel && MappingKey(x) == k;
      HeldKey(b, rel, x);
      assert x in rel';
    }
    assert forall k | k in KeySet(rel') :: exists x :: x in rel' && MappingKey(x) == k;
    assert fwd'.Keys == KeySet(rel');
  }

  // ---- One operation on both backends ----

  lemma OnlyMappingsMove(s: Bolt, t: Tables, maps: Buckets, rel: map<Mapping, string>)
    requires Simulates(s, t)
    ensures Simulates(s.(maps := maps), t.(rel := rel)) <==> Agree(maps, rel) && NonColliding(rel.Keys)
  {
  }

  lemma SetInStep(s: Bolt, t: Tables, m: Mapping, guid: string)
    requires Simulates(s, t) && NonColliding(t.rel.Keys + {m})
    ensures Simulates(s.(maps := SetBuckets(s.maps, m, guid)), t.(rel := t.rel[m := guid])) <==> guid != ""
  {
    var maps, rel := SetBuckets(s.maps, m, guid), t.rel[m := guid];
    OnlyMappingsMove(s, t, maps, rel);
    assert rel.Keys == t.rel.Keys + {m};
    assert Agree(maps, rel) <==> guid != "" by {
      if guid != "" {
        AgreeSet(s.maps, t.rel, m, guid);
      } else {
        assert m in rel && rel[m] == "";
      }
    }
  }

  lemma DeleteInStep(s: Bolt, t: Tables, m: Mapping)
    requires Simulates(s, t) && NonColliding(t.rel.Keys + {m})
    ensures Simulates(s.(maps := DeleteBuckets(s.maps, m)), t.(rel := t.rel - {m}))
  {
    AgreeDelete(s.maps, t.rel, m);
    assert (t.rel - {m}).Keys <= t.rel.Keys + {m};
  }

  lemma MergeSucceedsInStep(s: Bolt, t: Tables, sources: seq<string>, guid: string, record: User)
    requires Simulates(s, t) && guid != "" && guid !in s.users && guid !in sources
    requires AllExist(s.users, sources) && MergeInserts(t, Elements(sources), guid)
    ensures Simulates(MergeBolt(s, sources, guid, record), MergeTables(t, sources, guid, record))
  {
    AgreeMergeSources(s.maps, t.rel, sources, guid);
    assert Repointed(t.rel, Elements(sources), guid).Keys == t.rel.Keys;
  }

  /** A merge ends alike when it succeeds on both backends or is refused on both. */
  lemma MergeInStep(s: Bolt, t: Tables, op: Op)
    requires Simulates(s, t) && op.Merge? && MintsFresh(s.users, op)
    ensures Simulates(BoltStep(s, op), TableStep(t, op)) <==> SameOnBoth(s, op)
  {
    var inserts := MergeInserts(t, Elements(op.sources), op.guid);
    assert inserts <==> GrantsFree(s, op.sources, op.guid);
    if AllExist(s.users, op.sources) && inserts {
      MergeSucceedsInStep(s, t, op.sources, op.guid, MergedRecord(op.displayName, op.email));
    } else {
      assert op.guid in BoltStep(s, op).users <==> AllExist(s.users, op.sources);
      assert op.guid in TableStep(t, op).users <==> inserts;
    }
  }

  /** Calls on records and grants leave the mappings alone. */
  lemma RecordsInStep(s: Bolt, t: Tables, op: Op)
    requires Simulates(s, t) && MintsFresh(s.users, op)
    requires !op.SetMapping? && !op.DeleteMapping? && !op.Merge? && !op.DeleteApp?
    ensures Simulates(BoltStep(s, op), TableStep(t, op)) <==> SameOnBoth(s, op)
  {
    var s', t' := BoltStep(s, op), TableStep(t, op);
    assert s'.maps == s.maps && t'.rel == t.rel && s'.users == t'.users;
    match op {
      case SetRoles(guid, _) => assert guid == "" ==> "" in t'.roles;
      case SetPermissions(guid, _) => assert guid == "" ==> "" in t'.perms;
      case _ =>
    }
  }

  /** Both backends stay in step through an operation exactly when its guard holds. */
  lemma StepInStep(s: Bolt, t: Tables, op: Op)
    requires Simulates(s, t) && MintsFresh(s.users, op) && NonColliding(t.rel.Keys + Touched(op))
    ensures Simulates(BoltStep(s, op), TableStep(t, op)) <==> SameOnBoth(s, op)
  {
    if op.SetMapping? {
      SetInStep(s, t, op.m, op.guid);
    } else if op.DeleteMapping? {
      DeleteInStep(s, t, op.m);
    } else if op.Merge? {
      MergeInStep(s, t, op);
    } else if op.DeleteApp? {
      DeleteAppInStep(s, t, op.appID);
    } else {
      RecordsInStep(s, t, op);
    }
  }

  lemma DeleteAppInStep(s: Bolt, t: Tables, appID: string)
    requires Simulates(s, t)
    ensures Simulates(DeleteAppBolt(s, appID), DeleteAppTables(t, appID))
            <==> appID != "" || OwnedBy(s.users, "") == {}
  {
    var gone, locals := OwnedBy(s.users, appID), LocalUsers(t.users, appID);
    if appID != "" || OwnedBy(s.users, "") == {} {
      assert gone == locals;
      AgreeDrop(s.maps, t.rel, gone);
      assert DeleteAppTables(t, appID).rel == Unowned(t.rel, gone);
    } else {
      var g :| g in OwnedBy(s.users, "");
      assert g in DeleteAppTables(t, appID).users && g !in DeleteAppBolt(s, appID).users;
    }
  }

  /** ListAllMappings reports `m` for `guid`. */
  ghost predicate Listed(b: Buckets, known: map<string, Mapping>, m: Mapping, guid: string) {
    Backed(b.forward, guid, m) && SplitMappingKey(MappingKey(m), known) == Some(m)
  }

  /** The three queries have the same answers on both sides. */
  ghost predicate SameAnswers(b: Buckets, rel: map<Mapping, string>, known: map<string, Mapping>) {
    // ResolveMapping, for every pair that does not collide with a stored one
    && (forall m, g | NonColliding(rel.Keys + {m}) :: Backed(b.forward, g, m) <==> m in rel && rel[m] == g)
    // GetMappingsForUser
    && (forall g :: Elements(Claims(b.index, g)) == Owned(rel, g) && NoDup(Claims(b.index, g)))
    // ListAllMappings, whichever entry mappingSplits visited last
    && (forall m, g :: Listed(b, known, m, g) <==> m in rel && rel[m] == g)
  }

  lemma QueriesAgree(b: Buckets, rel: map<Mapping, string>, known: map<string, Mapping>)
    requires Agree(b, rel) && NonColliding(rel.Keys) && IsSplitTable(known, b.index)
    ensures SameAnswers(b, rel, known)
  {
    forall m, g | NonColliding(rel.Keys + {m}) ensures Backed(b.forward, g, m) <==> m in rel && rel[m] == g {
      OwnerOf(b, rel, m);
    }
    forall g ensures Elements(Claims(b.index, g)) == Owned(rel, g) {
      assert forall m :: m in Elements(Claims(b.index, g)) <==> Claimed(b.index, g, m);
    }
    forall m, g ensures Listed(b, known, m, g) <==> m in rel && rel[m] == g {
      ListingAgrees(b, rel, known, m, g);
    }
  }

  lemma ListingAgrees(b: Buckets, rel: map<Mapping, string>, known: map<string, Mapping>, m: Mapping, g: string)
    requires Agree(b, rel) && NonColliding(rel.Keys) && IsSplitTable(known, b.index)
    ensures Listed(b, known, m, g) <==> m in rel && rel[m] == g
  {
    if Backed(b.forward, g, m) {
      var x :| x in rel && MappingKey(x) == MappingKey(m);
      KnownIsStored(b, rel, known, x);
      assert Backed(b.forward, rel[x], x);
    }
    if m in rel { KnownIsStored(b, rel, known, m); }
  }

  lemma KnownIsStored(b: Buckets, rel: map<Mapping, string>, known: map<string, Mapping>, x: Mapping)
    requires Agree(b, rel) && NonColliding(rel.Keys) && IsSplitTable(known, b.index) && x in rel
    ensures MappingKey(x) in known && known[MappingKey(x)] == x
  {
    assert Claimed(b.index, rel[x], x);
    var k := MappingKey(x);
    var h :| h in b.index && known[k] in b.index[h];
    assert Claimed(b.index, h, known[k]);
    assert known[k] in rel.Keys && x in rel.Keys;
  }

  // ---- Whole runs ----

  function RunBolt(ops: seq<Op>): Bolt {
    if ops == [] then EMPTY_BOLT else BoltStep(RunBolt(ops[..|ops| - 1]), ops[|ops| - 1])
  }

  function RunTables(ops: seq<Op>): Tables {
    if ops == [] then EMPTY_TABLES else TableStep(RunTables(ops[..|ops| - 1]), ops[|ops| - 1])
  }

  /** Every merge of the run minted a new GUID. */
  ghost predicate FreshRun(ops: seq<Op>) {
    ops != [] ==>
      var most, last := ops[..|ops| - 1], ops[|ops| - 1];
      FreshRun(most) && MintsFresh(RunBolt(most).users, last)
  }

  /** Every call of the run met its guard. */
  ghost predicate GuardedRun(ops: seq<Op>) {
    ops != [] ==>
      var most, last := ops[..|ops| - 1], ops[|ops| - 1];
      GuardedRun(most) && SameOnBoth(RunBolt(most), last)
  }

  /** The mappings a run sets or deletes. */
  function InPlay(ops: seq<Op>): set<Mapping> {
    if ops == [] then {} else InPlay(ops[..|ops| - 1]) + Touched(ops[|ops| - 1])
  }

  /** No restriction on keys: every forward key is claimed by some entry of its owner's list. */
  ghost predicate Covered(b: Buckets) {
    forall k | k in b.forward :: ClaimsKey(b.index, b.forward[k], k)
  }

  /** For the mappings in play, a list contains exactly what the forward bucket backs. */
  ghost predicate IndexInStep(b: Buckets, inPlay: set<Mapping>) {
    && (forall g, m | m in inPlay :: Claimed(b.index, g, m) <==> Backed(b.forward, g, m))
    && Tidy(b.index)
  }

  /**
   Over every run whose keys do not collide and whose calls meet their guards,
   Bolt simulates the relation and answers every query as Postgres does.
   */
  lemma {:induction false} RunsInStep(ops: seq<Op>)
    requires FreshRun(ops) && GuardedRun(ops) && NonColliding(InPlay(ops))
    ensures Simulates(RunBolt(ops), RunTables(ops))
    ensures RunTables(ops).rel.Keys <= InPlay(ops)
    ensures forall known | IsSplitTable(known, RunBolt(ops).maps.index) ::
              SameAnswers(RunBolt(ops).maps, RunTables(ops).rel, known)
  {
    if ops != [] {
      var most, last := ops[..|ops| - 1], ops[|ops| - 1];
      RunsInStep(most);
      assert RunTables(most).rel.Keys + Touched(last) <= InPlay(ops);
      StepInStep(RunBolt(most), RunTables(most), last);
      KeysStayInPlay(RunTables(most), last);
    }
    forall known | IsSplitTable(known, RunBolt(ops).maps.index)
      ensures SameAnswers(RunBolt(ops).maps, RunTables(ops).rel, known)
    {
      QueriesAgree(RunBolt(ops).maps, RunTables(ops).rel, known);
    }
  }

  lemma KeysStayInPlay(t: Tables, op: Op)
    ensures TableStep(t, op).rel.Keys <= t.rel.Keys + Touched(op)
  {
  }

  /** What some relation over the mappings in play explains, with no guard on the calls. */
  ghost predicate Explained(b: Buckets, rel: map<Mapping, string>, inPlay: set<Mapping>) {
    Agree(b, rel) && rel.Keys <= inPlay
  }

  lemma ExplainedStep(s: Bolt, rel: map<Mapping, string>, op: Op, inPlay: set<Mapping>)
    returns (rel': map<Mapping, string>)
    requires Explained(s.maps, rel, inPlay) && NonColliding(inPlay) && Touched(op) <= inPlay && MintsFresh(s.users, op)
    ensures Explained(BoltStep(s, op).maps, rel', inPlay)
  {
    rel' := rel;
    assert rel.Keys <= inPlay;
    if op.SetMapping? {
      if op.guid != "" {
        AgreeSet(s.maps, rel, op.m, op.guid);
        rel' := rel[op.m := op.guid];
      }
    } else if op.DeleteMapping? {
      AgreeDelete(s.maps, rel, op.m);
      rel' := rel - {op.m};
    } else if op.Merge? {
      if AllExist(s.users, op.sources) {
        AgreeMergeSources(s.maps, rel, op.sources, op.guid);
        rel' := Repointed(rel, Elements(op.sources), op.guid);
      }
    } else if op.DeleteApp? {
      AgreeDrop(s.maps, rel, OwnedBy(s.users, op.appID));
      rel' := Unowned(rel, OwnedBy(s.users, op.appID));
    }
  }

  lemma {:induction false} ExplainedRun(ops: seq<Op>, inPlay: set<Mapping>) returns (rel: map<Mapping, string>)
    requires FreshRun(ops) && InPlay(ops) <= inPlay && NonColliding(inPlay)
    ensures Explained(RunBolt(ops).maps, rel, inPlay)
  {
    if ops == [] {
      rel := map[];
    } else {
      var most, last := ops[..|ops| - 1], ops[|ops| - 1];
      var r := ExplainedRun(most, inPlay);
      rel := ExplainedStep(RunBolt(most), r, last, inPlay);
    }
  }

  /**
   The reverse index stays in step with the forward bucket in EVERY run over these mappings
   exactly when no two of them share a composite key.
   */
  lemma IndexInStepIffNonColliding(inPlay: set<Mapping>)
    ensures (forall ops | FreshRun(ops) && InPlay(ops) <= inPlay :: IndexInStep(RunBolt(ops).maps, inPlay))
            <==> NonColliding(inPlay)
  {
    if NonColliding(inPlay) {
      forall ops | FreshRun(ops) && InPlay(ops) <= inPlay ensures IndexInStep(RunBolt(ops).maps, inPlay) {
        var rel := ExplainedRun(ops, inPlay);
        var b := RunBolt(ops).maps;
        forall g, m | m in inPlay ensures Claimed(b.index, g, m) <==> Backed(b.forward, g, m) {
          assert forall a | a in rel.Keys + {m} :: a in inPlay;
          OwnerOf(b, rel, m);
        }
      }
    } else {
      var x, y :| x in inPlay && y in inPlay && MappingKey(x) == MappingKey(y) && x != y;
      CollisionBreaksIndex(x, y, inPlay);
    }
  }

  /** Re-pointing under the other pair leaves the first owner's list entry behind. */
  lemma CollisionLeavesStale(x: Mapping, y: Mapping)
    requires MappingKey(x) == MappingKey(y) && x != y
    ensures var c := SetBuckets(SetBuckets(EMPTY_BOLT.maps, x, "first"), y, "second");
            Claimed(c.index, "first", x) && !Backed(c.forward, "first", x)
  {
    var b := SetBuckets(EMPTY_BOLT.maps, x, "first");
    assert Claims(EMPTY_BOLT.maps.index, "first") == [];
    assert b.index == EMPTY_BOLT.maps.index["first" := [] + [x]];
    assert [] + [x] == [x];
    assert b.index["first"] == [x] && b.forward[MappingKey(x)] == "first";
    DroppingContains([x], {y});
  }

  lemma CollisionBreaksIndex(x: Mapping, y: Mapping, inPlay: set<Mapping>)
    requires x in inPlay && y in inPlay && MappingKey(x) == MappingKey(y) && x != y
    ensures exists ops :: FreshRun(ops) && InPlay(ops) <= inPlay && !IndexInStep(RunBolt(ops).maps, inPlay)
  {
    var set1, set2 := SetMapping(x, "first"), SetMapping(y, "second");
    CollisionLeavesStale(x, y);
    LastOp([], set1);
    LastOp([set1], set2);
    assert [] + [set1] == [set1];
    var ops := [set1] + [set2];
    assert FreshRun(ops) && InPlay(ops) <= inPlay;
    assert Claimed(RunBolt(ops).maps.index, "first", x) && !Backed(RunBolt(ops).maps.forward, "first", x);
  }

  lemma LastOp(most: seq<Op>, last: Op)
    ensures var ops := most + [last];
            && RunBolt(ops) == BoltStep(RunBolt(most), last)
            && InPlay(ops) == InPlay(most) + Touched(last)
            && (FreshRun(ops) <==> FreshRun(most) && MintsFresh(RunBolt(most).users, last))
  {
    assert (most + [last])[..|most|] == most;
  }

  // ---- Coverage, with no hypothesis on keys ----

  lemma CoveredSet(b: Buckets, m: Mapping, guid: string)
    requires Covered(b)
    ensures Covered(SetBuckets(b, m, guid))
  {
    var key, b' := MappingKey(m), SetBuckets(b, m, guid);
    if guid != "" {
      var prev := if key in b.forward then b.forward[key] else "";
      var kept := if prev != "" && prev != guid then Retract(b.index, prev, m) else b.index;
      RetractEffect(b.index, prev, m);
      RecordEffect(kept, guid, m);
      forall k | k in b'.forward ensures ClaimsKey(b'.index, b'.forward[k], k) {
        if k == key {
          assert Claimed(b'.index, guid, m);
        } else {
          var x :| x in Claims(b.index, b.forward[k]) && MappingKey(x) == k;
          assert Claimed(b.index, b.forward[k], x) && Claimed(b'.index, b.forward[k], x);
        }
      }
    }
  }

  lemma CoveredDelete(b: Buckets, m: Mapping)
    requires Covered(b)
    ensures Covered(DeleteBuckets(b, m))
  {
    var key, b' := MappingKey(m), DeleteBuckets(b, m);
    if key in b.forward {
      RetractEffect(b.index, b.forward[key], m);
      forall k | k in b'.forward ensures ClaimsKey(b'.index, b'.forward[k], k) {
        var x :| x in Claims(b.index, b.forward[k]) && MappingKey(x) == k;
        assert Claimed(b.index, b.forward[k], x) && Claimed(b'.index, b.forward[k], x);
      }
    }
  }

  lemma CoveredMergeSource(b: Buckets, src: string, guid: string)
    requires Covered(b) && src != guid
    ensures Covered(MergeSource(b, src, guid))
  {
    if src in b.index {
      var ms, b' := b.index[src], MergeSource(b, src, guid);
      AppendNewContains(Claims(b.index, guid), ms);
      forall k | k in b'.forward ensures ClaimsKey(b'.index, b'.forward[k], k) {
        if k in KeysOf(ms) {
          var x :| x in ms && MappingKey(x) == k;
          assert x in Claims(b'.index, guid);
        } else {
          var x :| x in Claims(b.index, b.forward[k]) && MappingKey(x) == k;
          assert Claimed(b.index, b.forward[k], x) && Claimed(b'.index, b.forward[k], x);
        }
      }
    }
  }

  lemma {:induction false} CoveredMergeSources(b: Buckets, sources: seq<string>, guid: string)
    requires Covered(b) && guid !in sources
    ensures Covered(MergeSources(b, sources, guid))
  {
    if sources != [] {
      CoveredMergeSources(b, sources[..|sources| - 1], guid);
      CoveredMergeSource(MergeSources(b, sources[..|sources| - 1], guid), sources[|sources| - 1], guid);
    }
  }

  lemma CoveredDrop(b: Buckets, gone: set<string>)
    requires Covered(b)
    ensures Covered(DropUsers(b, gone))
  {
    var b' := DropUsers(b, gone);
    forall k | k in b'.forward ensures ClaimsKey(b'.index, b'.forward[k], k) {
      assert ClaimsKey(b.index, b.forward[k], k);
      assert Claims(b'.index, b.forward[k]) == Claims(b.index, b.forward[k]);
    }
  }

  lemma CoveredStep(s: Bolt, op: Op)
    requires Covered(s.maps) && MintsFresh(s.users, op)
    ensures Covered(BoltStep(s, op).maps)
  {
    match op {
      case SetMapping(m, g) => CoveredSet(s.maps, m, g);
      case DeleteMapping(m) => CoveredDelete(s.maps, m);
      case Merge(sources, g, _, _) => CoveredMergeSources(s.maps, sources, g);
      case DeleteApp(a) => CoveredDrop(s.maps, OwnedBy(s.users, a));
      case _ => assert BoltStep(s, op).maps == s.maps;
    }
  }

  /** Whatever keys are in play, colliding or not, every reachable store is covered. */
  lemma {:induction false} CoveredInEveryRun(ops: seq<Op>)
    requires FreshRun(ops)
    ensures Covered(RunBolt(ops).maps)
  {
    if ops != [] {
      CoveredInEveryRun(ops[..|ops| - 1]);
      CoveredStep(RunBolt(ops[..|ops| - 1]), ops[|ops| - 1]);
    }
  }
}
