/**
 The Postgres backend: users, roles and permissions keyed by GUID, and identity mappings
 in ONE table whose primary key is (provider, external_id).
 Each SQL statement is one update of a map; a transaction is one method.
 */
module RelationStore {
  import opened Prelude
  import opened MappingKeys

  /** A user record, filed under its GUID. */
  datatype User = User(
    displayName: string,
    email: string,
    passwordHash: string,
    samAccountName: string,
    groups: seq<string>,
    mergedInto: string,
    ownerAppID: string)

  type Grants = map<string, set<string>>

  datatype Tables = Tables(users: map<string, User>, rel: map<Mapping, string>, roles: Grants, perms: Grants)

  const EMPTY_TABLES := Tables(map[], map[], map[], map[])

  function MergedRecord(displayName: string, email: string): User {
    User(displayName, email, "", "", [], "", "")
  }

  /** The mappings one user owns. */
  function Owned(rel: map<Mapping, string>, guid: string): set<Mapping> {
    set m | m in rel && rel[m] == guid
  }

  /** Everything granted to any of the sources. */
  function Gather(grants: Grants, sources: set<string>): set<string> {
    set s, r | s in sources && s in grants && r in grants[s] :: r
  }

  /** The sources lose their grants; the merged user gets the union, unless it is empty. */
  function MergedGrants(grants: Grants, sources: set<string>, guid: string): Grants {
    var all := Gather(grants, sources);
    if all == {} then grants - sources else (grants - sources)[guid := all]
  }

  /** Every source that exists now points at the merged user. */
  function MarkMerged(users: map<string, User>, sources: set<string>, guid: string): map<string, User> {
    map g | g in users :: if g in sources then users[g].(mergedInto := guid) else users[g]
  }

  function Repointed(rel: map<Mapping, string>, sources: set<string>, guid: string): map<Mapping, string> {
    map m | m in rel :: if rel[m] in sources then guid else rel[m]
  }

  /** The merged user's rows are plain INSERTs: one that is already there makes the transaction fail. */
  predicate MergeInserts(t: Tables, sources: set<string>, guid: string) {
    && guid !in t.users
    && (guid in t.roles ==> Gather(t.roles, sources) == {})
    && (guid in t.perms ==> Gather(t.perms, sources) == {})
  }

  function MergeTables(t: Tables, sources: seq<string>, guid: string, record: User): Tables {
    var s := Elements(sources);
    if !MergeInserts(t, s, guid) then t
    else
      Tables(MarkMerged(t.users, s, guid)[guid := record], Repointed(t.rel, s, guid),
             MergedGrants(t.roles, s, guid), MergedGrants(t.perms, s, guid))
  }

  /** The app-local users of an app. data->>'owner_app_id' is NULL for a user with no owner. */
  function LocalUsers(users: map<string, User>, appID: string): set<string> {
    set g | g in users && users[g].ownerAppID != "" && users[g].ownerAppID == appID
  }

  function DeleteAppTables(t: Tables, appID: string): Tables {
    var locals := LocalUsers(t.users, appID);
    t.(users := t.users - locals, rel := map m | m in t.rel && t.rel[m] !in locals :: t.rel[m])
  }

  /** The whole record is replaced, if there is one. */
  function UpdatedUsers(users: map<string, User>, guid: string, user: User): map<string, User> {
    if guid in users then users[guid := user] else users
  }

  /** Deleting a named app removes exactly its own users and the rows that point at one of them. */
  lemma DeleteAppIsExact(t: Tables, appID: string)
    ensures var after := DeleteAppTables(t, appID);
            && (forall g :: g in after.users
                  <==> g in t.users && (appID == "" || t.users[g].ownerAppID != appID))
            && (forall g | g in after.users :: after.users[g] == t.users[g])
            && (forall m :: m in after.rel
                  <==> m in t.rel && (t.rel[m] in t.users && appID != "" ==> t.users[t.rel[m]].ownerAppID != appID))
            && (forall m | m in after.rel :: after.rel[m] == t.rel[m])
            && after.roles == t.roles && after.perms == t.perms
  {
  }

  predicate IsMerged(users: map<string, User>, guid: string) {
    guid in users && users[guid].mergedInto != ""
  }

  class PostgresStore {
    var users: map<string, User>
    var rel: map<Mapping, string>
    var roles: Grants
    var perms: Grants

    function State(): Tables
      reads this
    {
      Tables(users, rel, roles, perms)
    }

    constructor ()
      ensures State() == EMPTY_TABLES
    {
      users, rel, roles, perms := map[], map[], map[], map[];
    }

    method SetIdentityMapping(m: Mapping, guid: string)
      modifies this`rel
      ensures rel == old(rel)[m := guid]
    {
      rel := rel[m := guid];
    }

    method DeleteIdentityMapping(m: Mapping)
      modifies this`rel
      ensures rel == old(rel) - {m}
    {
      rel := rel - {m};
    }

    method SetUserRoles(guid: string, granted: set<string>)
      modifies this`roles
      ensures roles == old(roles)[guid := granted]
    {
      roles := roles[guid := granted];
    }

    method SetUserPermissions(guid: string, granted: set<string>)
      modifies this`perms
      ensures perms == old(perms)[guid := granted]
    {
      perms := perms[guid := granted];
    }

    /**
     The new user, the re-pointing of every source's rows, and the union of the grants: one transaction, rolled back
     when an INSERT finds its row taken. `guid` is a UUID drawn after the sources were named.
     */
    method MergeUsers(sources: seq<string>, guid: string, displayName: string, email: string) returns (ok: bool)
      requires guid !in sources
      modifies this
      ensures ok == MergeInserts(old(State()), Elements(sources), guid)
      ensures State() == MergeTables(old(State()), sources, guid, MergedRecord(displayName, email))
    {
      if guid in users { return false; }
      var before := State();
      var record := MergedRecord(displayName, email);
      users := users[guid := record];
      var allRoles, allPerms := {}, {};
      ghost var start := Absorbing(users, roles, perms, {}, {});
      for i := 0 to |sources|
        invariant rel == RepointAll(before.rel, sources[..i], guid)
        invariant Absorbing(users, roles, perms, allRoles, allPerms) == AbsorbAll(start, sources[..i], guid)
      {
        RepointAllMore(before.rel, sources, i, guid);
        AbsorbAllMore(start, sources, i, guid);
        rel := Repointed(rel, {sources[i]}, guid);
        allRoles, allPerms := AbsorbSource(sources[i], guid, allRoles, allPerms);
      }
      assert sources[..|sources|] == sources;
      MergeEnds(before, sources, guid, record);
      if (allRoles != {} && guid in roles) || (allPerms != {} && guid in perms) {
        users, rel, roles, perms := before.users, before.rel, before.roles, before.perms;
        return false;
      }
      if allRoles != {} { roles := roles[guid := allRoles]; }
      if allPerms != {} { perms := perms[guid := allPerms]; }
      ok := true;
    }

    /** MergeUsers collects and deletes a source's roles and permissions, and marks the source if it exists. */
    method AbsorbSource(src: string, guid: string, roles0: set<string>, perms0: set<string>)
      returns (allRoles: set<string>, allPerms: set<string>)
      modifies this`users, this`roles, this`perms
      ensures Absorbing(users, roles, perms, allRoles, allPerms)
              == AbsorbOne(old(Absorbing(users, roles, perms, roles0, perms0)), src, guid)
    {
      allRoles, allPerms := roles0, perms0;
      if src in roles { allRoles := allRoles + roles[src]; }
      roles := roles - {src};
      if src in perms { allPerms := allPerms + perms[src]; }
      perms := perms - {src};
      if src in users { users := users[src := users[src].(mergedInto := guid)]; }
    }

    /** An upsert; a record that comes without a GUID is given a new one first. */
    method CreateUser(guid: string, user: User)
      modifies this`users
      ensures users == old(users)[guid := user]
    {
      users := users[guid := user];
    }

    /** The record alone goes; what else is filed under the GUID stays. */
    method DeleteUser(guid: string)
      modifies this`users
      ensures users == old(users) - {guid}
    {
      users := users - {guid};
    }

    method UpdateUser(guid: string, user: User) returns (ok: bool)
      modifies this`users
      ensures ok == (guid in old(users)) && users == UpdatedUsers(old(users), guid, user)
      ensures users == if ok then old(users)[guid := user] else old(users)
    {
      ok := guid in users;
      if ok { users := users[guid := user]; }
    }

    method UnmergeUser(guid: string) returns (ok: bool)
      modifies this`users
      ensures ok == IsMerged(old(users), guid)
      ensures users == if ok then old(users)[guid := old(users)[guid].(mergedInto := "")] else old(users)
    {
      ok := guid in users && users[guid].mergedInto != "";
      if ok { users := users[guid := users[guid].(mergedInto := "")]; }
    }

    method DeleteApp(appID: string)
      modifies this`users, this`rel
      ensures State() == DeleteAppTables(old(State()), appID)
    {
      var locals := set g | g in users && users[g].ownerAppID != "" && users[g].ownerAppID == appID;
      rel := map m | m in rel && rel[m] !in locals :: rel[m];
      users := users - locals;
    }
  }

  /** One more source: what it still holds joins the union, and it loses it. */
  lemma GatherMore(grants: Grants, was: set<string>, src: string)
    ensures var left := grants - was;
            && Gather(grants, was + {src}) == Gather(grants, was) + (if src in left then left[src] else {})
            && left - {src} == grants - (was + {src})
  {
    if src in was { assert was + {src} == was; }
  }

  /** What MergeUsers has written to the user-keyed tables, and collected, part way through. */
  datatype Absorbing = Absorbing(
    users: map<string, User>, roles: Grants, perms: Grants, allRoles: set<string>, allPerms: set<string>)

  function AbsorbOne(a: Absorbing, src: string, guid: string): Absorbing {
    Absorbing(if src in a.users then a.users[src := a.users[src].(mergedInto := guid)] else a.users,
              a.roles - {src}, a.perms - {src},
              if src in a.roles then a.allRoles + a.roles[src] else a.allRoles,
              if src in a.perms then a.allPerms + a.perms[src] else a.allPerms)
  }

  function AbsorbAll(a: Absorbing, sources: seq<string>, guid: string): Absorbing {
    if sources == [] then a
    else AbsorbOne(AbsorbAll(a, sources[..|sources| - 1], guid), sources[|sources| - 1], guid)
  }

  function RepointAll(rel: map<Mapping, string>, sources: seq<string>, guid: string): map<Mapping, string> {
    if sources == [] then rel
    else Repointed(RepointAll(rel, sources[..|sources| - 1], guid), {sources[|sources| - 1]}, guid)
  }

  lemma AbsorbAllMore(a: Absorbing, sources: seq<string>, i: nat, guid: string)
    requires i < |sources|
    ensures AbsorbAll(a, sources[..i + 1], guid) == AbsorbOne(AbsorbAll(a, sources[..i], guid), sources[i], guid)
  {
    assert sources[..i + 1][..i] == sources[..i];
  }

  lemma RepointAllMore(rel: map<Mapping, string>, sources: seq<string>, i: nat, guid: string)
    requires i < |sources|
    ensures RepointAll(rel, sources[..i + 1], guid)
            == Repointed(RepointAll(rel, sources[..i], guid), {sources[i]}, guid)
  {
    assert sources[..i + 1][..i] == sources[..i];
  }

  lemma {:induction false} AbsorbAllIs(users: map<string, User>, roles: Grants, perms: Grants,
                                       sources: seq<string>, guid: string, record: User)
    requires guid !in sources
    ensures var s := Elements(sources);
            AbsorbAll(Absorbing(users[guid := record], roles, perms, {}, {}), sources, guid)
            == Absorbing(MarkMerged(users, s, guid)[guid := record], roles - s, perms - s,
                         Gather(roles, s), Gather(perms, s))
  {
    if sources == [] {
      assert MarkMerged(users, {}, guid) == users;
    } else {
      var most, src := sources[..|sources| - 1], sources[|sources| - 1];
      AbsorbAllIs(users, roles, perms, most, guid, record);
      assert sources == most + [src];
      assert Elements(sources) == Elements(most) + {src};
      MarkMergedMore(users, Elements(most), src, guid, record);
      GatherMore(roles, Elements(most), src);
      GatherMore(perms, Elements(most), src);
    }
  }

  lemma {:induction false} RepointAllIs(rel: map<Mapping, string>, sources: seq<string>, guid: string)
    requires guid !in sources
    ensures RepointAll(rel, sources, guid) == Repointed(rel, Elements(sources), guid)
  {
    if sources != [] {
      var most, src := sources[..|sources| - 1], sources[|sources| - 1];
      RepointAllIs(rel, most, guid);
      assert sources == most + [src];
      assert Elements(sources) == Elements(most) + {src};
      RepointedMore(rel, Elements(most), src, guid);
    }
  }

  /** What the loop of MergeUsers leaves, and the grants it has collected. */
  lemma MergeEnds(t: Tables, sources: seq<string>, guid: string, record: User)
    requires guid !in sources
    ensures var s := Elements(sources);
            && RepointAll(t.rel, sources, guid) == Repointed(t.rel, s, guid)
            && AbsorbAll(Absorbing(t.users[guid := record], t.roles, t.perms, {}, {}), sources, guid)
               == Absorbing(MarkMerged(t.users, s, guid)[guid := record], t.roles - s, t.perms - s,
                            Gather(t.roles, s), Gather(t.perms, s))
            && (guid in t.roles - s <==> guid in t.roles) && (guid in t.perms - s <==> guid in t.perms)
  {
    RepointAllIs(t.rel, sources, guid);
    AbsorbAllIs(t.users, t.roles, t.perms, sources, guid, record);
  }

  lemma MarkMergedMore(users: map<string, User>, was: set<string>, src: string, guid: string, record: User)
    requires src != guid
    ensures var now := MarkMerged(users, was, guid)[guid := record];
            MarkMerged(users, was + {src}, guid)[guid := record]
            == if src in now then now[src := now[src].(mergedInto := guid)] else now
  {
  }

  lemma RepointedMore(rel: map<Mapping, string>, was: set<string>, src: string, guid: string)
    requires src != guid
    ensures Repointed(Repointed(rel, was, guid), {src}, guid) == Repointed(rel, was + {src}, guid)
  {
  }
}
