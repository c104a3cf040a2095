/** When a packaged entry depends on the backend the deployment ran on: Postgres returns mapping rows in any order. */
module BackendBundles {
  import opened MappingKeys
  import opened RelationStore
  import opened Simulation
  import opened Bundling
  import Prelude
  import BoltBackend

  /** The deployment with the user's mappings listed in this order. */
  function Listing(h: Home, guid: string, mappings: seq<Mapping>): Home {
    h.(mappings := h.mappings[guid := mappings])
  }

  predicate IsLocal(m: Mapping) {
    m.provider == "local"
  }

  predicate IsAppLocal(m: Mapping) {
    HasPrefix(m.provider, "applocal:")
  }

  /** One login name whatever comes first: among the local names or, when there is none, among the app-local ones. */
  ghost predicate Unambiguous(ms: set<Mapping>) {
    if exists m | m in ms :: IsLocal(m) then
      forall a, b | a in ms && b in ms && IsLocal(a) && IsLocal(b) :: a.externalID == b.externalID
    else
      forall a, b | a in ms && b in ms && IsAppLocal(a) && IsAppLocal(b) :: a.externalID == b.externalID
  }

  lemma {:induction false} FirstIsSome(mappings: seq<Mapping>, provider: string, prefix: bool)
    ensures var first := FirstUnder(mappings, provider, prefix);
            var fits := (m: Mapping) => m.provider == provider || (prefix && HasPrefix(m.provider, provider));
            if first.None? then forall m | m in mappings :: !fits(m)
            else exists m | m in mappings :: fits(m) && m.externalID == first.value
  {
    if mappings != [] {
      FirstIsSome(mappings[1..], provider, prefix);
      assert forall m :: m in mappings <==> m == mappings[0] || m in mappings[1..];
    }
  }

  /** Which mapping names the user, in a given order. */
  lemma NameIsSome(u: User, mappings: seq<Mapping>)
    ensures var name := LocalUsername(u, mappings);
            if exists m | m in mappings :: IsLocal(m) then
              exists m | m in mappings :: IsLocal(m) && m.externalID == name
            else if exists m | m in mappings :: IsAppLocal(m) then
              exists m | m in mappings :: IsAppLocal(m) && m.externalID == name
            else name == if u.samAccountName != "" then u.samAccountName else u.email
  {
    FirstIsSome(mappings, "local", false);
    FirstIsSome(mappings, "applocal:", true);
  }

  lemma {:induction false} InSomeOrder(ms: set<Mapping>) returns (list: seq<Mapping>)
    ensures Prelude.NoDup(list) && Prelude.Elements(list) == ms
  {
    if ms == {} {
      list := [];
    } else {
      var m :| m in ms;
      var rest := InSomeOrder(ms - {m});
      list := [m] + rest;
      assert forall x :: x in list <==> x == m || x in Prelude.Elements(rest);
    }
  }

  /** An order in which `m` comes first. */
  lemma Leading(ms: set<Mapping>, m: Mapping) returns (list: seq<Mapping>)
    requires m in ms
    ensures Prelude.NoDup(list) && Prelude.Elements(list) == ms && list[..1] == [m]
  {
    var rest := InSomeOrder(ms - {m});
    list := [m] + rest;
    assert forall x :: x in list <==> x == m || x in Prelude.Elements(rest);
  }

  /** Every order of the mappings gives the user the same login name exactly when the mappings are unambiguous. */
  lemma NameIgnoresOrderIff(u: User, mappings: seq<Mapping>)
    ensures (forall rows | Prelude.NoDup(rows) && Prelude.Elements(rows) == Prelude.Elements(mappings) ::
               LocalUsername(u, rows) == LocalUsername(u, mappings))
            <==> Unambiguous(Prelude.Elements(mappings))
  {
    var ms := Prelude.Elements(mappings);
    if Unambiguous(ms) {
      forall rows | Prelude.NoDup(rows) && Prelude.Elements(rows) == ms
        ensures LocalUsername(u, rows) == LocalUsername(u, mappings)
      {
        assert forall m :: m in rows <==> m in ms;
        NameIsSome(u, rows);
        NameIsSome(u, mappings);
      }
    } else {
      var local := exists m | m in ms :: IsLocal(m);
      var a, b :| a in ms && b in ms && a.externalID != b.externalID
                  && if local then IsLocal(a) && IsLocal(b) else IsAppLocal(a) && IsAppLocal(b);
      var rowsA := Leading(ms, a);
      var rowsB := Leading(ms, b);
      LeaderNames(u, rowsA, local);
      LeaderNames(u, rowsB, local);
    }
  }

  lemma LeaderNames(u: User, rows: seq<Mapping>, local: bool)
    requires rows != []
    requires if local then IsLocal(rows[0]) else IsAppLocal(rows[0]) && forall m | m in rows :: !IsLocal(m)
    ensures LocalUsername(u, rows) == rows[0].externalID
  {
    FirstIsSome(rows, "local", false);
  }

  /** The user travels by a directory identity, not at all, or under a name no order can change. */
  ghost predicate OrderFree(h: Home, guid: string, u: User, ms: set<Mapping>) {
    || guid in h.unreadable
    || (u.ownerAppID == "" && HasDirectoryIdentity(u.samAccountName, ms))
    || u.passwordHash == ""
    || Unambiguous(ms)
  }

  lemma EntryDependsOnName(h: Home, guid: string, u: User, a: seq<Mapping>, b: seq<Mapping>)
    requires Prelude.Elements(a) == Prelude.Elements(b)
    ensures Classified(Listing(h, guid, a), guid, u) == Classified(Listing(h, guid, b), guid, u)
            <==> || guid in h.unreadable
                 || (u.ownerAppID == "" && HasDirectoryIdentity(u.samAccountName, Prelude.Elements(a)))
                 || u.passwordHash == ""
                 || LocalUsername(u, a) == LocalUsername(u, b)
  {
  }

  /**
   After any run in step, packaging from Postgres gives the user the entry packaging from Bolt gives, for EVERY order of
   the rows, if and only if the user travels by a directory identity, carries no password, or has no two rival names.
   */
  lemma SameEntryOnBothBackendsIff(ops: seq<Op>, h: Home, guid: string, u: User)
    requires FreshRun(ops) && GuardedRun(ops) && NonColliding(InPlay(ops))
    ensures var listed := BoltBackend.Claims(RunBolt(ops).maps.index, guid);
            var owned := Owned(RunTables(ops).rel, guid);
            (forall rows | Prelude.NoDup(rows) && Prelude.Elements(rows) == owned ::
               Classified(Listing(h, guid, rows), guid, u) == Classified(Listing(h, guid, listed), guid, u))
            <==> OrderFree(h, guid, u, owned)
  {
    RunsInStep(ops);
    var listed := BoltBackend.Claims(RunBolt(ops).maps.index, guid);
    var owned := Owned(RunTables(ops).rel, guid);
    assert forall m :: m in listed <==> Claimed(RunBolt(ops).maps.index, guid, m);
    assert Prelude.Elements(listed) == owned;
    EntryIgnoresOrderIff(h, guid, u, listed);
  }

  lemma EntryIgnoresOrderIff(h: Home, guid: string, u: User, listed: seq<Mapping>)
    ensures (forall rows | Prelude.NoDup(rows) && Prelude.Elements(rows) == Prelude.Elements(listed) ::
               Classified(Listing(h, guid, rows), guid, u) == Classified(Listing(h, guid, listed), guid, u))
            <==> OrderFree(h, guid, u, Prelude.Elements(listed))
  {
    NameIgnoresOrderIff(u, listed);
    forall rows | Prelude.NoDup(rows) && Prelude.Elements(rows) == Prelude.Elements(listed)
      ensures Classified(Listing(h, guid, rows), guid, u) == Classified(Listing(h, guid, listed), guid, u)
              <==> || guid in h.unreadable
                   || (u.ownerAppID == "" && HasDirectoryIdentity(u.samAccountName, Prelude.Elements(listed)))
                   || u.passwordHash == ""
                   || LocalUsername(u, rows) == LocalUsername(u, listed)
    {
      EntryDependsOnName(h, guid, u, rows, listed);
    }
    if guid !in h.unreadable
      && !(u.ownerAppID == "" && HasDirectoryIdentity(u.samAccountName, Prelude.Elements(listed)))
       && u.passwordHash != "" && !Unambiguous(Prelude.Elements(listed)) {
      var rows :| Prelude.NoDup(rows) && Prelude.Elements(rows) == Prelude.Elements(listed)
                  && LocalUsername(u, rows) != LocalUsername(u, listed);
    }
  }
}
