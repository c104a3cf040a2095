/** Following merged_into: what ResolveUser finds on any store, and what a merge changes. */
module MergeGraph {
  import opened Prelude
  import opened MappingKeys
  import opened RelationStore
  import opened BoltBackend
  import opened Simulation

  type Users = map<string, User>

  datatype Resolution = Found(guid: string, user: User) | Missing(guid: string) | Cycle

  predicate HasEdge(users: Users, g: string) {
    g in users && users[g].mergedInto != ""
  }

  /** ResolveUser's walk from `g`, having already visited `seen`. */
  function Walk(users: Users, g: string, seen: set<string>): Resolution
    requires g in seen
    decreases users.Keys - (seen - {g})
  {
    if g !in users then Missing(g)
    else if users[g].mergedInto == "" then Found(g, users[g])
    else
      var next := users[g].mergedInto;
      if next in seen then Cycle
      else
        assert (seen + {next}) - {next} == seen;
        assert g in users.Keys - (seen - {g}) && g !in users.Keys - seen;
        Walk(users, next, seen + {next})
  }

  function Resolve(users: Users, g: string): Resolution {
    Walk(users, g, {g})
  }

  /** Terminates on every store, cyclic or not, reading no more users than there are, plus a missing one. */
  method ResolveUser(store: BoltStore, guid: string) returns (r: Resolution, ghost lookups: nat)
    ensures r == Resolve(store.users, guid)
    ensures lookups <= |store.users| + 1
  {
    lookups := 1;
    if guid !in store.users { return Missing(guid), 1; }
    var at := guid;
    var seen := {guid};
    while store.users[at].mergedInto != ""
      invariant at in store.users && at in seen && seen <= store.users.Keys
      invariant Walk(store.users, at, seen) == Resolve(store.users, guid)
      invariant lookups == |seen|
      decreases store.users.Keys - seen
    {
      var next := store.users[at].mergedInto;
      SubsetSize(seen, store.users.Keys);
      if next in seen { return Cycle, lookups; }
      seen := seen + {next};
      lookups := lookups + 1;
      if next !in store.users { return Missing(next), lookups; }
      at := next;
    }
    SubsetSize(seen, store.users.Keys);
    r := Found(at, store.users[at]);
  }

  // ---- What the walk means: trails through the merge graph ----

  /** A trail follows merged_into from one GUID to the next. */
  ghost predicate Trail(users: Users, path: seq<string>) {
    && path != []
    && forall i | 0 <= i < |path| - 1 :: HasEdge(users, path[i]) && users[path[i]].mergedInto == path[i + 1]
  }

  ghost predicate TrailFromTo(users: Users, path: seq<string>, g: string, t: string) {
    Trail(users, path) && path[0] == g && path[|path| - 1] == t
  }

  ghost predicate Leads(users: Users, g: string, t: string) {
    exists path :: TrailFromTo(users, path, g, t)
  }

  /** A trail that returns to a GUID it has visited. */
  ghost predicate Lasso(users: Users, path: seq<string>, g: string) {
    Trail(users, path) && path[0] == g && path[|path| - 1] in path[..|path| - 1]
  }

  ghost predicate Loops(users: Users, g: string) {
    exists path :: Lasso(users, path, g)
  }

  /** The outcome, stated without the walk. */
  ghost predicate Meaning(users: Users, g: string, r: Resolution) {
    match r
    case Found(t, u) => Leads(users, g, t) && t in users && users[t] == u && u.mergedInto == ""
    case Missing(t) => Leads(users, g, t) && t !in users
    case Cycle => Loops(users, g)
  }

  lemma {:induction false} WalkMeans(users: Users, path: seq<string>, g: string, seen: set<string>)
    requires Trail(users, path) && path[|path| - 1] == g && g in seen && seen == Elements(path)
    ensures Meaning(users, path[0], Walk(users, g, seen))
    decreases users.Keys - (seen - {g})
  {
    if HasEdge(users, g) {
      var next := users[g].mergedInto;
      var longer := path + [next];
      assert Trail(users, longer);
      if next in seen {
        assert longer[..|longer| - 1] == path;
        assert Lasso(users, longer, path[0]);
      } else {
        assert (seen + {next}) - {next} == seen;
        assert g in users.Keys - (seen - {g}) && g !in users.Keys - seen;
        assert Elements(longer) == seen + {next};
        WalkMeans(users, longer, next, seen + {next});
      }
    } else {
      assert TrailFromTo(users, path, path[0], g);
    }
  }

  /** Trails from one GUID never diverge. */
  lemma {:induction false} TrailsAgree(users: Users, p: seq<string>, q: seq<string>, i: nat)
    requires Trail(users, p) && Trail(users, q) && p[0] == q[0] && i < |p| && i < |q|
    ensures p[i] == q[i]
  {
    if i > 0 { TrailsAgree(users, p, q, i - 1); }
  }

  /** A trail that has ended cannot be outrun. */
  lemma StuckIsLongest(users: Users, p: seq<string>, q: seq<string>)
    requires Trail(users, p) && Trail(users, q) && p[0] == q[0] && !HasEdge(users, p[|p| - 1])
    ensures |q| <= |p|
    ensures !HasEdge(users, q[|q| - 1]) ==> q[|q| - 1] == p[|p| - 1]
  {
    if |q| > |p| {
      TrailsAgree(users, p, q, |p| - 1);
    } else {
      TrailsAgree(users, p, q, |q| - 1);
    }
  }

  /** A lasso extends for ever. */
  lemma {:induction false} LassoOutruns(users: Users, q: seq<string>, g: string, n: nat) returns (longer: seq<string>)
    requires Lasso(users, q, g)
    ensures Lasso(users, longer, g) && |longer| >= n
    decreases n - |q|
  {
    if |q| >= n {
      longer := q;
    } else {
      var last := |q| - 1;
      var i :| 0 <= i < last && q[..last][i] == q[last];
      var next := q[i + 1];
      var more := q + [next];
      assert Trail(users, more);
      assert more[..|more| - 1] == q;
      assert next in q;
      longer := LassoOutruns(users, more, g, n);
    }
  }

  lemma LoopsNeverEnd(users: Users, g: string, t: string)
    requires Loops(users, g) && Leads(users, g, t)
    ensures HasEdge(users, t)
  {
    var q :| Lasso(users, q, g);
    var p :| TrailFromTo(users, p, g, t);
    var longer := LassoOutruns(users, q, g, |p| + 1);
    if !HasEdge(users, t) { StuckIsLongest(users, p, longer); }
  }

  /** The walk finds the one outcome the merge graph has: where the chain ends, or that it never does. */
  lemma ResolveIffMeaning(users: Users, g: string, r: Resolution)
    ensures Resolve(users, g) == r <==> Meaning(users, g, r)
  {
    WalkMeans(users, [g], g, {g});
    var w := Resolve(users, g);
    if Meaning(users, g, r) && r != w {
      if r.Cycle? {
        LoopsNeverEnd(users, g, w.guid);
      } else if w.Cycle? {
        LoopsNeverEnd(users, g, r.guid);
      } else {
        var p :| TrailFromTo(users, p, g, r.guid);
        var q :| TrailFromTo(users, q, g, w.guid);
        StuckIsLongest(users, p, q);
      }
    }
  }

  // ---- What a merge changes ----

  ghost predicate ReachesAny(users: Users, g: string, sources: set<string>) {
    exists t :: t in sources && t in users && Leads(users, g, t)
  }

  /** A new GUID: no record, and nothing points at it. */
  ghost predicate Unseen(users: Users, guid: string) {
    guid != "" && guid !in users && forall g | g in users :: users[g].mergedInto != guid
  }

  function Merged(users: Users, sources: set<string>, guid: string, record: User): Users {
    MarkMerged(users, sources, guid)[guid := record]
  }

  /** The first source on a trail: the edges before it are the same after the merge. */
  lemma {:induction false} FirstSource(users: Users, path: seq<string>, sources: set<string>) returns (p: seq<string>)
    requires Trail(users, path) && path[|path| - 1] in sources
    ensures Trail(users, p) && p[0] == path[0] && p[|p| - 1] in sources
    ensures forall i | 0 <= i < |p| - 1 :: p[i] !in sources
    ensures p <= path
  {
    if i :| 0 <= i < |path| - 1 && path[i] in sources {
      p := FirstSource(users, path[..i + 1], sources);
    } else {
      p := path;
    }
  }

  lemma ReachedGoesToMerged(users: Users, sources: set<string>, guid: string, record: User, g: string)
    requires Unseen(users, guid) && record.mergedInto == "" && ReachesAny(users, g, sources)
    ensures Resolve(Merged(users, sources, guid, record), g) == Found(guid, record)
  {
    var t :| t in sources && t in users && Leads(users, g, t);
    var path :| TrailFromTo(users, path, g, t);
    var p := FirstSource(users, path, sources);
    var after := Merged(users, sources, guid, record);
    assert p[|p| - 1] in users by {
      var n := |p| - 1;
      assert p[n] == path[n];
      assert n < |path| - 1 ==> HasEdge(users, path[n]);
    }
    var q := p + [guid];
    assert TrailFromTo(after, q, g, guid) by {
      forall i | 0 <= i < |q| - 1 ensures HasEdge(after, q[i]) && after[q[i]].mergedInto == q[i + 1] {
        if i < |p| - 1 { assert HasEdge(users, p[i]) && after[p[i]] == users[p[i]]; }
      }
    }
    ResolveIffMeaning(after, g, Found(guid, record));
  }

  /** Off the sources' chains every trail is the same before and after. */
  lemma TrailKept(users: Users, sources: set<string>, guid: string, record: User, g: string, path: seq<string>)
    requires Unseen(users, guid) && g != guid && !ReachesAny(users, g, sources)
    requires Trail(users, path) && path[0] == g
    ensures Trail(Merged(users, sources, guid, record), path)
    ensures forall i | 0 <= i < |path| :: path[i] != guid && (path[i] in sources ==> path[i] !in users)
  {
    forall i | 0 <= i < |path| ensures path[i] != guid && (path[i] in sources ==> path[i] !in users) {
      assert TrailFromTo(users, path[..i + 1], g, path[i]);
      if i > 0 { assert HasEdge(users, path[i - 1]); }
    }
  }

  lemma UnreachedUnchanged(users: Users, sources: set<string>, guid: string, record: User, g: string)
    requires Unseen(users, guid) && record.mergedInto == "" && g != guid && !ReachesAny(users, g, sources)
    ensures Resolve(Merged(users, sources, guid, record), g) == Resolve(users, g)
  {
    var after, r := Merged(users, sources, guid, record), Resolve(users, g);
    ResolveIffMeaning(users, g, r);
    ResolveIffMeaning(after, g, r);
    if r.Cycle? {
      var path :| Lasso(users, path, g);
      TrailKept(users, sources, guid, record, g, path);
      assert Lasso(after, path, g);
    } else {
      var path :| TrailFromTo(users, path, g, r.guid);
      TrailKept(users, sources, guid, record, g, path);
      assert path[|path| - 1] != guid;
      assert TrailFromTo(after, path, g, r.guid);
    }
  }

  /** After a merge exactly the new user, and those whose chain reached a source, resolve to it; nobody else moves. */
  lemma MergeResolution(users: Users, sources: set<string>, guid: string, record: User, g: string)
    requires Unseen(users, guid) && record.mergedInto == ""
    ensures Resolve(Merged(users, sources, guid, record), g)
            == if g == guid || ReachesAny(users, g, sources) then Found(guid, record) else Resolve(users, g)
  {
    if g == guid {
    } else if ReachesAny(users, g, sources) {
      ReachedGoesToMerged(users, sources, guid, record, g);
    } else {
      UnreachedUnchanged(users, sources, guid, record, g);
    }
  }

  predicate Holds(grants: Grants, guid: string, x: string) {
    guid in grants && x in grants[guid]
  }

  /** The merged user holds exactly what some source held. */
  ghost predicate HoldsUnion(after: Grants, guid: string, before: Grants, sources: set<string>) {
    forall x :: Holds(after, guid, x) <==> exists src :: src in sources && Holds(before, src, x)
  }

  lemma UnionOfGrants(grants: Grants, sources: set<string>, guid: string)
    requires guid !in grants
    ensures HoldsUnion(MergedGrants(grants, sources, guid), guid, grants, sources)
    ensures forall src | src in sources :: src !in MergedGrants(grants, sources, guid) || src == guid
    ensures guid in MergedGrants(grants, sources, guid) <==> exists src, x :: src in sources && Holds(grants, src, x)
  {
    forall x ensures x in Gather(grants, sources) <==> exists src :: src in sources && Holds(grants, src, x) {
      if x in Gather(grants, sources) {
        var src :| src in sources && src in grants && x in grants[src];
        assert Holds(grants, src, x);
      }
    }
    var all := Gather(grants, sources);
    assert forall x :: Holds(MergedGrants(grants, sources, guid), guid, x) <==> x in all;
    if src, x :| src in sources && Holds(grants, src, x) { assert x in all; }
    if all != {} { var x :| x in all; }
  }

  /**
   A Bolt merge, end to end: every identity whose owner's chain reached a source now logs in as the new user,
   every other identity resolves as before, and the new user holds the union of the sources' grants.
   */
  lemma MergeMovesIdentities(s: Bolt, rel: map<Mapping, string>, sources: seq<string>, guid: string,
                             name: string, email: string, m: Mapping)
    requires Agree(s.maps, rel) && NonColliding(rel.Keys) && m in rel
    requires AllExist(s.users, sources) && Unseen(s.users, guid) && guid !in sources && guid !in rel.Values
    requires guid !in s.roles && guid !in s.perms
    ensures var from, key := Elements(sources), MappingKey(m);
            var after := MergeBolt(s, sources, guid, MergedRecord(name, email));
            && key in after.maps.forward
            && Resolve(after.users, after.maps.forward[key])
               == (if ReachesAny(s.users, rel[m], from) then Found(guid, MergedRecord(name, email))
                   else Resolve(s.users, rel[m]))
            && HoldsUnion(after.roles, guid, s.roles, from)
            && HoldsUnion(after.perms, guid, s.perms, from)
  {
    var from, record := Elements(sources), MergedRecord(name, email);
    var after := MergeBolt(s, sources, guid, record);
    AgreeMergeSources(s.maps, rel, sources, guid);
    UnionOfGrants(s.roles, from, guid);
    UnionOfGrants(s.perms, from, guid);
    var rel' := Repointed(rel, from, guid);
    assert Backed(after.maps.forward, rel'[m], m);
    assert rel[m] in rel.Values;
    MergeResolution(s.users, from, guid, record, rel'[m]);
    if rel[m] in from {
      assert TrailFromTo(s.users, [rel[m]], rel[m], rel[m]);
      assert Leads(s.users, rel[m], rel[m]);
    }
  }

  // ---- The record a merge creates, and what it leaves alone ----

  /** A bare user of that name and email: no password, account name, groups, owner or merge mark. */
  predicate IsBareUser(u: User, name: string, email: string) {
    && u.displayName == name && u.email == email
    && u.passwordHash == "" && u.samAccountName == "" && u.groups == [] && u.ownerAppID == "" && u.mergedInto == ""
  }

  predicate DiffersInMarkOnly(was: User, now: User, mark: string) {
    && now.mergedInto == mark
    && now.displayName == was.displayName && now.email == was.email && now.passwordHash == was.passwordHash
    && now.samAccountName == was.samAccountName && now.groups == was.groups && now.ownerAppID == was.ownerAppID
  }

  /** A source's record changes in its mark alone; records of users that are no source do not change. */
  ghost predicate RecordsFramed(was: Users, now: Users, sources: set<string>, guid: string) {
    && (forall g | g in was && g in sources :: g in now && DiffersInMarkOnly(was[g], now[g], guid))
    && (forall g | g !in sources && g != guid :: (g in now <==> g in was) && (g in was ==> now[g] == was[g]))
  }

  /** Nobody but the sources and the new user gains or loses a grant. */
  ghost predicate GrantsFramed(was: Grants, now: Grants, sources: set<string>, guid: string) {
    forall g | g !in sources && g != guid :: (g in now <==> g in was) && (g in was ==> now[g] == was[g])
  }

  /**
   After a successful merge on Bolt every source resolves to a new bare user of the given name and email; everybody
   else's record and grants are as before.
   */
  lemma MergeMakesUser(s: Bolt, sources: seq<string>, guid: string, name: string, email: string)
    requires AllExist(s.users, sources) && Unseen(s.users, guid) && guid !in sources
    ensures var after := MergeBolt(s, sources, guid, MergedRecord(name, email));
            && guid in after.users && IsBareUser(after.users[guid], name, email)
            && (forall src | src in sources :: Resolve(after.users, src) == Found(guid, after.users[guid]))
            && RecordsFramed(s.users, after.users, Elements(sources), guid)
            && GrantsFramed(s.roles, after.roles, Elements(sources), guid)
            && GrantsFramed(s.perms, after.perms, Elements(sources), guid)
  {
    var from, record := Elements(sources), MergedRecord(name, email);
    forall src | src in sources ensures Resolve(Merged(s.users, from, guid, record), src) == Found(guid, record) {
      SourceResolves(s.users, from, guid, record, src);
    }
  }

  /** The same on Postgres, for the sources that exist. */
  lemma PostgresMergeMakesUser(t: Tables, sources: seq<string>, guid: string, name: string, email: string)
    requires MergeInserts(t, Elements(sources), guid) && Unseen(t.users, guid) && guid !in sources
    ensures var after := MergeTables(t, sources, guid, MergedRecord(name, email));
            && guid in after.users && IsBareUser(after.users[guid], name, email)
            && (forall src | src in sources && src in t.users ::
                  Resolve(after.users, src) == Found(guid, after.users[guid]))
            && RecordsFramed(t.users, after.users, Elements(sources), guid)
            && GrantsFramed(t.roles, after.roles, Elements(sources), guid)
            && GrantsFramed(t.perms, after.perms, Elements(sources), guid)
            && (guid !in t.roles ==> HoldsUnion(after.roles, guid, t.roles, Elements(sources)))
            && (guid !in t.perms ==> HoldsUnion(after.perms, guid, t.perms, Elements(sources)))
  {
    var from, record := Elements(sources), MergedRecord(name, email);
    if guid !in t.roles { UnionOfGrants(t.roles, from, guid); }
    if guid !in t.perms { UnionOfGrants(t.perms, from, guid); }
    forall src | src in sources && src in t.users
      ensures Resolve(Merged(t.users, from, guid, record), src) == Found(guid, record) {
      SourceResolves(t.users, from, guid, record, src);
    }
  }

  lemma SourceResolves(users: Users, sources: set<string>, guid: string, record: User, src: string)
    requires Unseen(users, guid) && record.mergedInto == "" && src in sources && src in users
    ensures Resolve(Merged(users, sources, guid, record), src) == Found(guid, record)
  {
    assert TrailFromTo(users, [src], src, src);
    assert Leads(users, src, src);
    MergeResolution(users, sources, guid, record, src);
  }

  /** A Postgres merge never overwrites grants the new GUID already holds: it is refused and changes nothing. */
  lemma PostgresMergeKeepsGrants(t: Tables, sources: seq<string>, guid: string, record: User)
    requires guid !in sources
    requires exists src, x :: src in sources && ((guid in t.roles && Holds(t.roles, src, x))
                                                 || (guid in t.perms && Holds(t.perms, src, x)))
    ensures MergeTables(t, sources, guid, record) == t
  {
    var src, x :| src in sources && ((guid in t.roles && Holds(t.roles, src, x))
                                     || (guid in t.perms && Holds(t.perms, src, x)));
    var from := Elements(sources);
    assert Holds(t.roles, src, x) ==> x in Gather(t.roles, from);
    assert Holds(t.perms, src, x) ==> x in Gather(t.perms, from);
  }

  /** Every row of a source goes to the new user, every other row stays where it is, and none is lost. */
  lemma RowsFollowTheMerge(rel: map<Mapping, string>, sources: set<string>, guid: string, m: Mapping)
    ensures m in Repointed(rel, sources, guid) <==> m in rel
    ensures m in rel && rel[m] in sources ==> Repointed(rel, sources, guid)[m] == guid
    ensures m in rel && rel[m] !in sources ==> Repointed(rel, sources, guid)[m] == rel[m]
  {
  }

  /** An unmerged user resolves to itself again, with its own record, and nobody else's record moves. */
  lemma UnmergeRestores(users: Users, g: string)
    requires HasEdge(users, g)
    ensures var after := UnmergeUsers(users, g);
            && g in after && DiffersInMarkOnly(users[g], after[g], "") && Resolve(after, g) == Found(g, after[g])
            && after.Keys == users.Keys && forall other | other in users && other != g :: after[other] == users[other]
  {
  }
}
