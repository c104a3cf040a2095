/**
 The Bolt backend: a forward bucket from composite key to GUID, and a derived per-user list
 of mappings (the reverse index) that every writer must keep in step with it.
 */
module BoltBackend {
  import opened Prelude
  import opened MappingKeys
  import opened RelationStore

  type Index = map<string, seq<Mapping>>

  /** The two identity-mapping buckets. */
  datatype Buckets = Buckets(forward: map<string, string>, index: Index)

  datatype Bolt = Bolt(users: map<string, User>, maps: Buckets, roles: Grants, perms: Grants)

  const EMPTY_BOLT := Bolt(map[], Buckets(map[], map[]), map[], map[])

  /** GetMappingsForUser: a missing list reads as empty. */
  function Claims(index: Index, guid: string): seq<Mapping> {
    if guid in index then index[guid] else []
  }

  /** The list without the mappings in `out`, in order. */
  function Dropping(ms: seq<Mapping>, out: set<Mapping>): seq<Mapping> {
    if ms == [] then []
    else Dropping(ms[..|ms| - 1], out) + (if ms[|ms| - 1] in out then [] else [ms[|ms| - 1]])
  }

  /** The list with each mapping of `ms` that it lacks appended, in order. */
  function AppendNew(list: seq<Mapping>, ms: seq<Mapping>): seq<Mapping> {
    if ms == [] then list
    else
      var l := AppendNew(list, ms[..|ms| - 1]);
      if ms[|ms| - 1] in l then l else l + [ms[|ms| - 1]]
  }

  /** An empty list is never stored: its key is deleted instead. */
  function StoreList(index: Index, guid: string, ms: seq<Mapping>): Index {
    if ms == [] then index - {guid} else index[guid := ms]
  }

  function Retract(index: Index, guid: string, m: Mapping): Index {
    if guid in index then StoreList(index, guid, Dropping(index[guid], {m})) else index
  }

  function Record(index: Index, guid: string, m: Mapping): Index {
    if m in Claims(index, guid) then index else index[guid := Claims(index, guid) + [m]]
  }

  /** A write for the empty GUID fails: bbolt refuses an empty key, and the transaction rolls back. */
  function SetBuckets(b: Buckets, m: Mapping, guid: string): Buckets {
    var key := MappingKey(m);
    var prev := if key in b.forward then b.forward[key] else "";
    var kept := if prev != "" && prev != guid then Retract(b.index, prev, m) else b.index;
    if guid == "" then b else Buckets(b.forward[key := guid], Record(kept, guid, m))
  }

  function DeleteBuckets(b: Buckets, m: Mapping): Buckets {
    var key := MappingKey(m);
    if key !in b.forward then b
    else Buckets(b.forward - {key}, Retract(b.index, b.forward[key], m))
  }

  function KeysOf(ms: seq<Mapping>): set<string> {
    set m | m in ms :: MappingKey(m)
  }

  function Redirect(forward: map<string, string>, keys: set<string>, guid: string): map<string, string> {
    map k | k in forward.Keys + keys :: if k in keys then guid else forward[k]
  }

  function MoveClaims(b: Buckets, ms: seq<Mapping>, guid: string): Buckets {
    Buckets(Redirect(b.forward, KeysOf(ms), guid),
            if ms == [] then b.index else b.index[guid := AppendNew(Claims(b.index, guid), ms)])
  }

  function MergeSource(b: Buckets, src: string, guid: string): Buckets {
    if src !in b.index then b
    else
      var moved := MoveClaims(b, b.index[src], guid);
      Buckets(moved.forward, moved.index - {src})
  }

  function MergeSources(b: Buckets, sources: seq<string>, guid: string): Buckets {
    if sources == [] then b
    else MergeSource(MergeSources(b, sources[..|sources| - 1], guid), sources[|sources| - 1], guid)
  }

  /** Like every Put, a write of grants under the empty key fails. */
  function PutGrants(grants: Grants, guid: string, granted: set<string>): Grants {
    if guid == "" then grants else grants[guid := granted]
  }

  predicate AllExist(users: map<string, User>, sources: seq<string>) {
    forall s | s in sources :: s in users
  }

  function MergeBolt(s: Bolt, sources: seq<string>, guid: string, record: User): Bolt {
    if guid == "" || !AllExist(s.users, sources) then s
    else
      var from := Elements(sources);
      Bolt(MarkMerged(s.users, from, guid)[guid := record], MergeSources(s.maps, sources, guid),
           MergedGrants(s.roles, from, guid), MergedGrants(s.perms, from, guid))
  }

  /** Bolt compares the decoded field, so an empty app id matches every user without an owner. */
  function OwnedBy(users: map<string, User>, appID: string): set<string> {
    set g | g in users && users[g].ownerAppID == appID
  }

  predicate ClaimsKey(index: Index, guid: string, key: string) {
    exists m :: m in Claims(index, guid) && MappingKey(m) == key
  }

  /** The cascade deletes a forward entry only when the deleted user both claims and owns it. */
  function DropUsers(b: Buckets, gone: set<string>): Buckets {
    Buckets(map k | k in b.forward && !(b.forward[k] in gone && ClaimsKey(b.index, b.forward[k], k)) :: b.forward[k],
            b.index - gone)
  }

  function DeleteAppBolt(s: Bolt, appID: string): Bolt {
    var gone := OwnedBy(s.users, appID);
    s.(users := s.users - gone, maps := DropUsers(s.maps, gone))
  }

  /** An index entry is backed when the forward bucket sends its key to the list's owner. */
  predicate Backed(forward: map<string, string>, guid: string, m: Mapping) {
    MappingKey(m) in forward && forward[MappingKey(m)] == guid
  }

  function OwnedKeys(forward: map<string, string>, guid: string, ms: seq<Mapping>): set<string> {
    set m | m in ms && Backed(forward, guid, m) :: MappingKey(m)
  }

  function Stale(forward: map<string, string>, guid: string, ms: seq<Mapping>): set<Mapping> {
    set m | m in ms && !Backed(forward, guid, m)
  }

  function Pruned(b: Buckets, guid: string): seq<Mapping> {
    Dropping(Claims(b.index, guid), Stale(b.forward, guid, Claims(b.index, guid)))
  }

  /** A user whose list loses nothing is left alone; a list that loses everything is deleted. */
  function RepairBuckets(b: Buckets): Buckets {
    Buckets(b.forward,
            map g | g in b.index && (Stale(b.forward, g, b.index[g]) == {} || Pruned(b, g) != [])
              :: if Stale(b.forward, g, b.index[g]) == {} then b.index[g] else Pruned(b, g))
  }

  /** The index once the planned lists of the users in `written` are in place. */
  function Applied(index: Index, changes: map<string, seq<Mapping>>, written: set<string>): Index
    requires written <= changes.Keys
  {
    map g | g in index && (g in written ==> changes[g] != []) :: if g in written then changes[g] else index[g]
  }

  lemma PlanIsRepair(b: Buckets, changes: map<string, seq<Mapping>>)
    requires forall g :: g in changes <==> g in b.index && Stale(b.forward, g, b.index[g]) != {}
    requires forall g | g in changes :: changes[g] == Pruned(b, g)
    ensures Applied(b.index, changes, changes.Keys) == RepairBuckets(b).index
  {
    var a, r := Applied(b.index, changes, changes.Keys), RepairBuckets(b).index;
    forall g ensures (g in a <==> g in r) && (g in a ==> a[g] == r[g]) {
      if g in b.index { assert g in changes <==> Stale(b.forward, g, b.index[g]) != {}; }
    }
  }

  /** The table mappingSplits may build: every claimed key, filed with a mapping some list records for it. */
  ghost predicate IsSplitTable(known: map<string, Mapping>, index: Index) {
    && Rejoins(known)
    && (forall k | k in known :: exists g :: g in index && known[k] in index[g])
    && (forall g, m | g in index && m in index[g] :: MappingKey(m) in known)
  }

  class BoltStore {
    var users: map<string, User>
    var forward: map<string, string>
    var index: Index
    var roles: Grants
    var perms: Grants

    function State(): Bolt
      reads this
    {
      Bolt(users, Buckets(forward, index), roles, perms)
    }

    constructor ()
      ensures State() == EMPTY_BOLT
    {
      users, forward, index, roles, perms := map[], map[], map[], map[], map[];
    }

    method RemoveMappingFromIndex(guid: string, m: Mapping)
      modifies this`index
      ensures index == Retract(old(index), guid, m)
    {
      if guid !in index { return; }
      var mappings := index[guid];
      var filtered := [];
      for i := 0 to |mappings|
        invariant filtered == Dropping(mappings[..i], {m})
      {
        assert mappings[..i + 1][..i] == mappings[..i];
        if mappings[i] != m { filtered := filtered + [mappings[i]]; }
      }
      assert mappings[..|mappings|] == mappings;
      if filtered == [] { index := index - {guid}; } else { index := index[guid := filtered]; }
    }

    method AddMappingToIndex(guid: string, m: Mapping)
      modifies this`index
      ensures index == Record(old(index), guid, m)
    {
      var mappings := if guid in index then index[guid] else [];
      for i := 0 to |mappings|
        invariant m !in mappings[..i]
      {
        if mappings[i] == m { return; }
      }
      assert mappings[..|mappings|] == mappings;
      index := index[guid := mappings + [m]];
    }

    /** Re-pointing retracts the mapping from the previous owner's list in the same transaction. */
    method SetIdentityMapping(m: Mapping, guid: string) returns (ok: bool)
      modifies this`forward, this`index
      ensures ok == (guid != "")
      ensures Buckets(forward, index) == SetBuckets(old(Buckets(forward, index)), m, guid)
    {
      if guid == "" { return false; }
      var key := MappingKey(m);
      var prevOwner := if key in forward then forward[key] else "";
      forward := forward[key := guid];
      if prevOwner != "" && prevOwner != guid {
        RemoveMappingFromIndex(prevOwner, m);
      }
      AddMappingToIndex(guid, m);
      ok := true;
    }

    method DeleteIdentityMapping(m: Mapping)
      modifies this`forward, this`index
      ensures Buckets(forward, index) == DeleteBuckets(old(Buckets(forward, index)), m)
    {
      var key := MappingKey(m);
      if key !in forward { return; }
      var guid := forward[key];
      forward := forward - {key};
      RemoveMappingFromIndex(guid, m);
    }

    method SetUserRoles(guid: string, granted: set<string>) returns (ok: bool)
      modifies this`roles
      ensures ok == (guid != "") && roles == PutGrants(old(roles), guid, granted)
      ensures roles == if ok then old(roles)[guid := granted] else old(roles)
    {
      if guid == "" { return false; }
      roles := roles[guid := granted];
      ok := true;
    }

    method SetUserPermissions(guid: string, granted: set<string>) returns (ok: bool)
      modifies this`perms
      ensures ok == (guid != "") && perms == PutGrants(old(perms), guid, granted)
      ensures perms == if ok then old(perms)[guid := granted] else old(perms)
    {
      if guid == "" { return false; }
      perms := perms[guid := granted];
      ok := true;
    }

    /** Rolls everything back when a source does not exist. `guid` is a UUID drawn after the sources were named. */
    method MergeUsers(sources: seq<string>, guid: string, displayName: string, email: string) returns (ok: bool)
      requires guid !in sources
      modifies this
      ensures ok == (guid != "" && AllExist(old(users), sources))
      ensures State() == MergeBolt(old(State()), sources, guid, MergedRecord(displayName, email))
    {
      if guid == "" { return false; }
      var before := State();
      var record := MergedRecord(displayName, email);
      users := users[guid := record];
      var allRoles, allPerms := {}, {};
      ghost var start := Absorbing(users, roles, perms, {}, {});
      for i := 0 to |sources|
        invariant AllExist(before.users, sources[..i]) && users.Keys == before.users.Keys + {guid}
        invariant Buckets(forward, index) == MergeSources(before.maps, sources[..i], guid)
        invariant Absorbing(users, roles, perms, allRoles, allPerms) == AbsorbAll(start, sources[..i], guid)
      {
        var src := sources[i];
        if src !in users {
          users, forward, index, roles, perms :=
            before.users, before.maps.forward, before.maps.index, before.roles, before.perms;
          assert src in sources;
          return false;
        }
        MergeSourcesMore(before.maps, sources, i, guid);
        AbsorbAllMore(start, sources, i, guid);
        MoveSource(src, guid);
        allRoles, allPerms := AbsorbSource(src, guid, allRoles, allPerms);
      }
      assert sources[..|sources|] == sources;
      AbsorbAllIs(before.users, before.roles, before.perms, sources, guid, record);
      if allRoles != {} { roles := roles[guid := allRoles]; }
      if allPerms != {} { perms := perms[guid := allPerms]; }
      ok := true;
    }

    /** MergeUsers collects a source's roles and permissions, and marks the source as merged. */
    method AbsorbSource(src: string, guid: string, roles0: set<string>, perms0: set<string>)
      returns (allRoles: set<string>, allPerms: set<string>)
      requires src in users
      modifies this`users, this`roles, this`perms
      ensures Absorbing(users, roles, perms, allRoles, allPerms)
              == AbsorbOne(old(Absorbing(users, roles, perms, roles0, perms0)), src, guid)
    {
      allRoles, allPerms := roles0, perms0;
      if src in roles { allRoles := allRoles + roles[src]; }
      roles := roles - {src};
      if src in perms { allPerms := allPerms + perms[src]; }
      perms := perms - {src};
      users := users[src := users[src].(mergedInto := guid)];
    }

    /** The inner loop of MergeUsers: every claim of `src` is re-pointed and re-filed under `guid`. */
    method MoveSource(src: string, guid: string)
      requires src != guid
      modifies this`forward, this`index
      ensures Buckets(forward, index) == MergeSource(old(Buckets(forward, index)), src, guid)
    {
      if src !in index { return; }
      var mappings := index[src];
      ghost var b := Buckets(forward, index);
      for j := 0 to |mappings|
        invariant Buckets(forward, index) == MoveClaims(b, mappings[..j], guid)
      {
        MoveClaimsMore(b, mappings[..j], mappings[j], guid);
        assert mappings[..j + 1] == mappings[..j] + [mappings[j]];
        forward := forward[MappingKey(mappings[j]) := guid];
        AddMappingToIndex(guid, mappings[j]);
      }
      assert mappings[..|mappings|] == mappings;
      index := index - {src};
    }

    /** An upsert; a record that comes without a GUID is given a new one first. */
    method CreateUser(guid: string, user: User)
      modifies this`users
      ensures users == old(users)[guid := user]
    {
      users := users[guid := user];
    }

    /** The record alone goes; what else is filed under the GUID stays. */
    method DeleteUser(guid: string)
      modifies this`users
      ensures users == old(users) - {guid}
    {
      users := users - {guid};
    }

    method UpdateUser(guid: string, user: User) returns (ok: bool)
      modifies this`users
      ensures ok == (guid in old(users)) && users == UpdatedUsers(old(users), guid, user)
      ensures users == if ok then old(users)[guid := user] else old(users)
    {
      if guid !in users { return false; }
      users := users[guid := user];
      ok := true;
    }

    method UnmergeUser(guid: string) returns (ok: bool)
      modifies this`users
      ensures ok == IsMerged(old(users), guid)
      ensures users == if ok then old(users)[guid := old(users)[guid].(mergedInto := "")] else old(users)
    {
      if guid !in users || users[guid].mergedInto == "" { return false; }
      users := users[guid := users[guid].(mergedInto := "")];
      ok := true;
    }

    method DeleteApp(appID: string)
      modifies this`users, this`forward, this`index
      ensures State() == DeleteAppBolt(old(State()), appID)
    {
      ghost var before := State();
      var locals := set g | g in users && users[g].ownerAppID == appID;
      var todo := locals;
      while todo != {}
        invariant todo <= locals
        invariant users == before.users - (locals - todo)
        invariant Buckets(forward, index) == DropUsers(before.maps, locals - todo)
        decreases todo
      {
        var g :| g in todo;
        ghost var done := locals - todo;
        users := users - {g};
        DropUser(g);
        DropUsersStep(before.maps, done, g);
        todo := todo - {g};
        assert locals - todo == done + {g};
      }
    }

    method DropUser(guid: string)
      modifies this`forward, this`index
      ensures Buckets(forward, index) == DropUsers(old(Buckets(forward, index)), {guid})
    {
      ghost var b := Buckets(forward, index);
      DropUsersOne(b, guid);
      if guid !in index {
        assert OwnedKeys(forward, guid, []) == {} && index - {guid} == index;
        return;
      }
      var mappings := index[guid];
      for i := 0 to |mappings|
        invariant index == b.index
        invariant forward == b.forward - OwnedKeys(b.forward, guid, mappings[..i])
      {
        var key := MappingKey(mappings[i]);
        assert mappings[..i + 1] == mappings[..i] + [mappings[i]];
        if key in forward && forward[key] == guid { forward := forward - {key}; }
      }
      assert mappings[..|mappings|] == mappings;
      index := index - {guid};
    }

    method ResolveMapping(m: Mapping) returns (r: Option<string>)
      ensures r == if MappingKey(m) in forward then Some(forward[MappingKey(m)]) else None
    {
      var key := MappingKey(m);
      if key in forward { r := Some(forward[key]); } else { r := None; }
    }

    /** mappingSplits visits the lists in some order; a later entry for the same key wins. */
    method MappingSplits() returns (known: map<string, Mapping>)
      ensures IsSplitTable(known, index)
    {
      known := map[];
      var todo := index.Keys;
      while todo != {}
        invariant todo <= index.Keys
        invariant Rejoins(known)
        invariant forall k | k in known :: exists g :: g in index && known[k] in index[g]
        invariant forall g, m | g in index && g !in todo && m in index[g] :: MappingKey(m) in known
        decreases todo
      {
        var g :| g in todo;
        for i := 0 to |index[g]|
          invariant Rejoins(known)
          invariant forall k | k in known :: exists h :: h in index && known[k] in index[h]
          invariant forall h, m | h in index && h !in todo && m in index[h] :: MappingKey(m) in known
          invariant forall j | 0 <= j < i :: MappingKey(index[g][j]) in known
        {
          var m := index[g][i];
          assert m in index[g];
          known := known[MappingKey(m) := m];
        }
        todo := todo - {g};
      }
    }

    /** Every forward entry whose key can be split, once, with its owner. */
    method ListAllMappings() returns (rows: seq<(Mapping, string)>, ghost known: map<string, Mapping>)
      ensures IsSplitTable(known, index)
      ensures NoDup(rows)
      ensures forall m, g :: (m, g) in rows <==>
                MappingKey(m) in forward && forward[MappingKey(m)] == g
                  && SplitMappingKey(MappingKey(m), known) == Some(m)
    {
      rows := [];
      var table := MappingSplits();
      known := table;
      var todo := forward.Keys;
      while todo != {}
        invariant todo <= forward.Keys
        invariant NoDup(rows)
        invariant forall m, g :: (m, g) in rows <==>
                    && MappingKey(m) in forward.Keys - todo && forward[MappingKey(m)] == g
                    && SplitMappingKey(MappingKey(m), known) == Some(m)
        decreases todo
      {
        var k :| k in todo;
        var m := SplitKey(k, table);
        SplitRejoins(k, known);
        if m.Some? { rows := rows + [(m.value, forward[k])]; }
        todo := todo - {k};
      }
    }

    /**
     repairMappingIndex: the plan is collected from a read of both buckets, then written.
     With SA_SKIP_MAPPING_REPAIR=1 the plan is only reported.
     */
    method RepairMappingIndex(skip: bool)
      modifies this`index
      ensures Buckets(forward, index)
              == if skip then old(Buckets(forward, index)) else RepairBuckets(old(Buckets(forward, index)))
    {
      var changes := PlanRepair();
      if skip { return; }
      ghost var before := Buckets(forward, index);
      ApplyPlan(changes);
      PlanIsRepair(before, changes);
    }

    method ApplyPlan(changes: map<string, seq<Mapping>>)
      requires changes.Keys <= index.Keys
      modifies this`index
      ensures index == Applied(old(index), changes, changes.Keys)
    {
      ghost var before := index;
      var todo := changes.Keys;
      while todo != {}
        invariant todo <= changes.Keys
        invariant index == Applied(before, changes, changes.Keys - todo)
        decreases todo
      {
        var g :| g in todo;
        if changes[g] == [] { index := index - {g}; } else { index := index[g := changes[g]]; }
        todo := todo - {g};
      }
    }

    method PlanRepair() returns (changes: map<string, seq<Mapping>>)
      ensures forall g :: g in changes <==> g in index && Stale(forward, g, index[g]) != {}
      ensures forall g | g in changes :: changes[g] == Pruned(Buckets(forward, index), g)
    {
      changes := map[];
      var todo := index.Keys;
      while todo != {}
        invariant todo <= index.Keys
        invariant forall g :: g in changes <==> g in index && g !in todo && Stale(forward, g, index[g]) != {}
        invariant forall g | g in changes :: changes[g] == Pruned(Buckets(forward, index), g)
        decreases todo
      {
        var g :| g in todo;
        var mappings := index[g];
        var kept, dropped := [], [];
        ghost var stale := Stale(forward, g, mappings);
        for i := 0 to |mappings|
          invariant kept == Dropping(mappings[..i], stale)
          invariant forall m :: m in dropped <==> m in mappings[..i] && m in stale
        {
          assert mappings[..i + 1] == mappings[..i] + [mappings[i]] && mappings[..i + 1][..i] == mappings[..i];
          var key := MappingKey(mappings[i]);
          if key in forward && forward[key] == g {
            kept := kept + [mappings[i]];
          } else {
            dropped := dropped + [mappings[i]];
          }
        }
        assert mappings[..|mappings|] == mappings;
        if |dropped| > 0 {
          assert dropped[0] in stale;
          changes := changes[g := kept];
        } else {
          assert forall m | m in stale :: m in dropped;
        }
        todo := todo - {g};
      }
    }
  }

  lemma MergeSourcesMore(b: Buckets, sources: seq<string>, i: nat, guid: string)
    requires i < |sources|
    ensures MergeSources(b, sources[..i + 1], guid)
            == MergeSource(MergeSources(b, sources[..i], guid), sources[i], guid)
  {
    assert sources[..i + 1][..i] == sources[..i];
  }

  lemma MoveClaimsMore(b: Buckets, ms: seq<Mapping>, m: Mapping, guid: string)
    ensures MoveClaims(b, ms + [m], guid).forward == MoveClaims(b, ms, guid).forward[MappingKey(m) := guid]
    ensures MoveClaims(b, ms + [m], guid).index == Record(MoveClaims(b, ms, guid).index, guid, m)
  {
    KeysOfMore(ms, m);
    RedirectMore(b.forward, KeysOf(ms), MappingKey(m), guid);
    AppendNewMore(Claims(b.index, guid), ms, m);
  }

  lemma RedirectMore(forward: map<string, string>, keys: set<string>, k: string, guid: string)
    ensures Redirect(forward, keys + {k}, guid) == Redirect(forward, keys, guid)[k := guid]
  {
  }

  lemma KeysOfMore(ms: seq<Mapping>, m: Mapping)
    ensures KeysOf(ms + [m]) == KeysOf(ms) + {MappingKey(m)}
  {
    assert forall x :: x in ms + [m] <==> x in ms || x == m;
  }

  lemma AppendNewMore(list: seq<Mapping>, ms: seq<Mapping>, m: Mapping)
    ensures AppendNew(list, ms + [m]) == var l := AppendNew(list, ms); if m in l then l else l + [m]
    ensures AppendNew(list, ms + [m]) != []
  {
    assert (ms + [m])[..|ms|] == ms;
  }

  lemma {:induction false} AppendNewContains(list: seq<Mapping>, ms: seq<Mapping>)
    ensures forall x :: x in AppendNew(list, ms) <==> x in list || x in ms
    ensures NoDup(list) ==> NoDup(AppendNew(list, ms))
  {
    if ms != [] {
      AppendNewContains(list, ms[..|ms| - 1]);
      assert ms == ms[..|ms| - 1] + [ms[|ms| - 1]];
    }
  }

  lemma DropUsersOne(b: Buckets, guid: string)
    ensures DropUsers(b, {guid}).forward == b.forward - OwnedKeys(b.forward, guid, Claims(b.index, guid))
    ensures DropUsers(b, {guid}).index == b.index - {guid}
  {
    forall k ensures k in OwnedKeys(b.forward, guid, Claims(b.index, guid))
                     <==> k in b.forward && b.forward[k] == guid && ClaimsKey(b.index, guid, k)
    {
    }
  }

  lemma DropUsersStep(b: Buckets, done: set<string>, g: string)
    requires g !in done
    ensures DropUsers(DropUsers(b, done), {g}) == DropUsers(b, done + {g})
  {
    var c := DropUsers(b, done);
    assert Claims(c.index, g) == Claims(b.index, g);
    assert forall k :: ClaimsKey(c.index, g, k) <==> ClaimsKey(b.index, g, k);
    assert DropUsers(c, {g}).index == DropUsers(b, done + {g}).index;
    assert DropUsers(c, {g}).forward == DropUsers(b, done + {g}).forward;
  }

  /** A list grows at its end: what it held keeps its place. Other users' lists do not change. */
  lemma RecordGrowsAtTheEnd(index: Index, guid: string, m: Mapping)
    ensures Claims(index, guid) <= Claims(Record(index, guid, m), guid)
    ensures m in Claims(Record(index, guid, m), guid)
    ensures m !in Claims(index, guid) ==> |Claims(Record(index, guid, m), guid)| == |Claims(index, guid)| + 1
    ensures forall g | g != guid :: Claims(Record(index, guid, m), g) == Claims(index, g)
  {
  }

  /** Merging keeps a list's order too: what the target had stays in front, each new mapping comes after it. */
  lemma {:induction false} AppendNewGrowsAtTheEnd(list: seq<Mapping>, ms: seq<Mapping>)
    ensures list <= AppendNew(list, ms)
  {
    if ms != [] { AppendNewGrowsAtTheEnd(list, ms[..|ms| - 1]); }
  }
}
