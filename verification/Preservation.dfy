/** A migrated user's token on the target app says what the source home app's token said. */
module Preservation {
  import opened Prelude
  import opened MappingKeys
  import opened RelationStore
  import opened TokenRoles
  import opened Bundling
  import opened Importing
  import opened ImportLaws

  /** The same roles, and exactly the permissions that follow from them. */
  ghost predicate CarriesOver(src: Token, dst: Token, g: Global) {
    && src.Granted? && dst.Granted?
    && dst.roles == src.roles
    && dst.permissions == SortedList(ListedUnder(g.rolePermissions, Elements(src.roles)))
  }

  /** Different role sets sort to different lists. */
  lemma SortedListInjective(a: set<string>, b: set<string>)
    ensures SortedList(a) == SortedList(b) <==> a == b
  {
    assert Elements(SortedList(a)) == a && Elements(SortedList(b)) == b;
  }

  /** A named app admits anybody it has a role for. */
  lemma GrantedToken(app: App, authz: AppAuthz, keys: set<string>, user: User, roles: set<string>)
    requires AssignedRoles(authz, keys, user.groups) == roles
    requires roles != {} || user.ownerAppID == app.appID
    ensures NamedAppToken(app, authz, keys, user)
            == Granted(SortedList(roles), SortedList(ListedUnder(authz.rolePermissions, roles)))
  {
  }

  lemma {:induction false} LastRolesExists(entries: seq<UserEntry>, e: UserEntry)
    requires e in entries && BearsRoles(e)
    ensures LastRoles(entries, e.key) != []
  {
    var n := |entries| - 1;
    if !(BearsRoles(entries[n]) && entries[n].key == e.key) {
      assert entries == entries[..n] + [entries[n]];
      LastRolesExists(entries[..n], e);
    }
  }

  lemma {:induction false} LastRolesSource(entries: seq<UserEntry>, key: string)
    requires LastRoles(entries, key) != []
    ensures exists e :: e in entries && BearsRoles(e) && e.key == key && LastRoles(entries, key) == e.roles
  {
    var n := |entries| - 1;
    if !(BearsRoles(entries[n]) && entries[n].key == key) {
      LastRolesSource(entries[..n], key);
      var e :| e in entries[..n] && BearsRoles(e) && e.key == key && LastRoles(entries, key) == e.roles;
      assert e in entries;
    }
  }

  lemma {:induction false} LastRolesNone(entries: seq<UserEntry>, key: string)
    requires forall i | 0 <= i < |entries| :: entries[i].key != key
    ensures LastRoles(entries, key) == []
  {
    if entries != [] { LastRolesNone(entries[..|entries| - 1], key); }
  }

  /** Everything one import needs to be well posed: a packaged bundle, a free named target, fresh GUIDs. */
  ghost predicate Migration(h: Home, homeAppID: string, c: Central, appID: string, defaultAppID: string,
                            carrySecret: bool, ids: seq<string>)
  {
    && ValidHome(h) && ValidApps(c.apps) && appID != defaultAppID && !InUse(AuthzOf(c, appID))
    && var b := Packaged(h, homeAppID);
    && |ids| == |b.users| && FreshIds(ids, c.users, c.rel)
    && (forall i | 0 <= i < |b.users| :: b.users[i].key !in ids)
    && AfterApply(c, b, appID, defaultAppID, carrySecret, ids).Ok?
  }

  ghost function Migrated(h: Home, homeAppID: string, c: Central, appID: string, defaultAppID: string,
                          carrySecret: bool, ids: seq<string>): Central
    requires Migration(h, homeAppID, c, appID, defaultAppID, carrySecret, ids)
  {
    AfterApply(c, Packaged(h, homeAppID), appID, defaultAppID, carrySecret, ids).value
  }

  /** The token a central user gets for the target. */
  ghost function TargetToken(c: Central, appID: string, guid: string): Token
    requires appID in c.apps && guid in c.users
  {
    NamedAppToken(c.apps[appID], AuthzOf(c, appID),
                  AssignmentKeys(guid, c.users[guid].samAccountName, Owned(c.rel, guid)), c.users[guid])
  }

  ghost function SourceToken(h: Home, homeAppID: string, guid: string): Token
    requires guid in h.users
  {
    HomeAppToken(HomeApp(h, homeAppID), h.global, guid, h.users[guid])
  }

  /** Only a row of the home app can turn a user away, and only one without explicit roles or another app's own. */
  lemma SourceDeniesIff(h: Home, homeAppID: string, guid: string)
    requires guid in h.users
    ensures SourceToken(h, homeAppID, guid).Denied?
            <==> && h.app.Some? && h.app.value.requireAssignment
                 && h.users[guid].ownerAppID != h.app.value.appID
                 && (forall r :: !Has(h.global.userRoles, guid, r))
  {
    HomeAppDeniesIff(HomeApp(h, homeAppID), h.global, guid, h.users[guid]);
  }

  /** The roles that end up under an entry's key are the entry's own: nobody overwrote them with others. */
  ghost predicate KeepsRoles(h: Home, homeAppID: string, e: UserEntry)
    requires ValidHome(h)
  {
    Elements(LastRoles(Packaged(h, homeAppID).users, e.key)) == Elements(e.roles)
  }

  /** The names a central user has after the move. */
  function KeysOf(c: Central, guid: string): set<string>
    requires guid in c.users
  {
    AssignmentKeys(guid, c.users[guid].samAccountName, Owned(c.rel, guid))
  }

  /**
   For a source user who has a role, and ANY central user: the target's token carries the source's over if and only if
   the source home app admits the user and the bundle grants exactly the source's roles under the central user's names.
   */
  lemma TokenCarriesOverIff(h: Home, homeAppID: string, c: Central, appID: string, defaultAppID: string,
                            carrySecret: bool, ids: seq<string>, source: string, target: string)
    requires Migration(h, homeAppID, c, appID, defaultAppID, carrySecret, ids)
    requires source in h.users && Travelling(h, homeAppID, source).Some?
    requires BearsRoles(Travelling(h, homeAppID, source).value)
    requires target in Migrated(h, homeAppID, c, appID, defaultAppID, carrySecret, ids).users
    ensures var after := Migrated(h, homeAppID, c, appID, defaultAppID, carrySecret, ids);
            var src, dst := SourceToken(h, homeAppID, source), TargetToken(after, appID, target);
            CarriesOver(src, dst, h.global)
            <==> && HomeAdmits(HomeApp(h, homeAppID), h.global, source, h.users[source])
                 && GrantedUnder(Packaged(h, homeAppID).users, KeysOf(after, target))
                    == Elements(Travelling(h, homeAppID, source).value.roles)
    ensures var after := Migrated(h, homeAppID, c, appID, defaultAppID, carrySecret, ids);
            GrantedUnder(Packaged(h, homeAppID).users, KeysOf(after, target)) != {} ==>
              TargetToken(after, appID, target).Granted?
  {
    var b := Packaged(h, homeAppID);
    var after := Migrated(h, homeAppID, c, appID, defaultAppID, carrySecret, ids);
    var e := Travelling(h, homeAppID, source).value;
    var user, keys := after.users[target], KeysOf(after, target);
    var roles := GrantedUnder(b.users, keys);
    TargetRoles(c, b, appID, defaultAppID, carrySecret, ids, keys, user.groups);
    assert AuthzOf(after, appID).rolePermissions == h.global.rolePermissions;
    assert e.roles == EffectiveRoles(h.global, source);
    assert e.roles[0] in Elements(e.roles);
    SortedListInjective(roles, Elements(e.roles));
    assert Elements(SortedList(Elements(e.roles))) == Elements(e.roles);
    if roles != {} || user.ownerAppID == after.apps[appID].appID {
      GrantedToken(after.apps[appID], AuthzOf(after, appID), keys, user, roles);
    }
  }

  /** A user bound to one key of the bundle is granted what ends up under it. */
  lemma BoundToOneKey(entries: seq<UserEntry>, keys: set<string>, key: string)
    requires key in keys && forall k | k in keys && k != key :: LastRoles(entries, k) == []
    ensures GrantedUnder(entries, keys) == Elements(LastRoles(entries, key))
  {
  }

  /**
   A directory user whose key nobody else in the bundle has, re-bound on the central to that key and to no other of the
   bundle: the token carries over exactly when the source admits the user.
   */
  lemma BoundUserCarriesOver(h: Home, homeAppID: string, c: Central, appID: string, defaultAppID: string,
                             carrySecret: bool, ids: seq<string>, source: string, target: string)
    requires Migration(h, homeAppID, c, appID, defaultAppID, carrySecret, ids)
    requires source in h.users && Travelling(h, homeAppID, source).Some?
    requires var e, entries := Travelling(h, homeAppID, source).value, Packaged(h, homeAppID).users;
             BearsRoles(e) && SoleEntry(entries, e)
    requires var after := Migrated(h, homeAppID, c, appID, defaultAppID, carrySecret, ids);
             var key := Travelling(h, homeAppID, source).value.key;
             && target in after.users && key in KeysOf(after, target)
             && forall k | k in KeysOf(after, target) && k != key :: LastRoles(Packaged(h, homeAppID).users, k) == []
    ensures var after := Migrated(h, homeAppID, c, appID, defaultAppID, carrySecret, ids);
            CarriesOver(SourceToken(h, homeAppID, source), TargetToken(after, appID, target), h.global)
            <==> HomeAdmits(HomeApp(h, homeAppID), h.global, source, h.users[source])
  {
    var after := Migrated(h, homeAppID, c, appID, defaultAppID, carrySecret, ids);
    var e, entries := Travelling(h, homeAppID, source).value, Packaged(h, homeAppID).users;
    TokenCarriesOverIff(h, homeAppID, c, appID, defaultAppID, carrySecret, ids, source, target);
    BoundToOneKey(entries, KeysOf(after, target), e.key);
    SourceHasEntry(h, homeAppID, h.listing, source);
    SoleEntryKeeps(entries, e);
  }

  /** The names of a freshly migrated local account: its GUID and its login. */
  lemma NewAccountKeys(appID: string, guid: string, key: string)
    requires guid != "" && key != ""
    ensures AssignmentKeys(guid, "", {LocalName(appID, key)}) == {guid, key}
  {
    var ms := {LocalName(appID, key)};
    assert (set m: Mapping | m in ms :: m.externalID) == {key};
  }

  /** No other role-bearing entry has this key. */
  ghost predicate SoleEntry(entries: seq<UserEntry>, e: UserEntry) {
    forall i | 0 <= i < |entries| && BearsRoles(entries[i]) && entries[i].key == e.key :: entries[i] == e
  }

  lemma SoleEntryKeeps(entries: seq<UserEntry>, e: UserEntry)
    requires e in entries && BearsRoles(e) && SoleEntry(entries, e)
    ensures LastRoles(entries, e.key) == e.roles
    ensures Materialized(e) ==> FirstFor(entries, e.key) < |entries| && entries[FirstFor(entries, e.key)] == e
  {
    LastRolesExists(entries, e);
    LastRolesSource(entries, e.key);
    var j :| 0 <= j < |entries| && entries[j] == e;
  }

  /** A local user of the source who has a role, under a login the target does not know yet. */
  ghost predicate Arriving(h: Home, homeAppID: string, c: Central, appID: string, source: string) {
    && source in h.users
    && var e := Travelling(h, homeAppID, source);
    && e.Some? && Materialized(e.value) && Unmapped(c.rel, LocalName(appID, e.value.key))
  }

  /**
   Such a user arrives as an account of the target app, which now lets local users in, under a new GUID and the old
   login; it has the source's password, name and email, provided nobody else in the bundle shares the key.
   */
  lemma LocalUserArrives(h: Home, homeAppID: string, c: Central, appID: string, defaultAppID: string, carrySecret: bool,
                         ids: seq<string>, source: string) returns (target: string)
    requires Migration(h, homeAppID, c, appID, defaultAppID, carrySecret, ids)
             && Arriving(h, homeAppID, c, appID, source)
    ensures var after := Migrated(h, homeAppID, c, appID, defaultAppID, carrySecret, ids);
            var e := Travelling(h, homeAppID, source).value;
            && var login := Mapping("applocal:" + appID, e.key);
            && login in after.rel && after.rel[login] == target
            && target !in c.users && target in after.users && after.users[target].ownerAppID == appID
            && appID in after.apps && after.apps[appID].allowLocalUsers
            && KeysOf(after, target) == {target, e.key}
            && LastRoles(Packaged(h, homeAppID).users, target) == []
            && (SoleEntry(Packaged(h, homeAppID).users, e) ==>
                  && after.users[target].passwordHash == h.users[source].passwordHash
                  && after.users[target].displayName == h.users[source].displayName
                  && after.users[target].email == h.users[source].email)
  {
    var b := Packaged(h, homeAppID);
    var e := Travelling(h, homeAppID, source).value;
    SourceHasEntry(h, homeAppID, h.listing, source);
    assert e in b.users && e.key in NewKeys(c.rel, appID, b.users);
    NewAccount(c, b, appID, defaultAppID, carrySecret, ids, e.key);
    target := ids[FirstFor(b.users, e.key)];
    NewAccountKeys(appID, target, e.key);
    assert target in ids;
    LastRolesNone(b.users, target);
    LocalLoginOpens(c, b, appID, defaultAppID, carrySecret, ids, e);
    if SoleEntry(b.users, e) { SoleEntryKeeps(b.users, e); }
  }

  /** Its token carries the source's over exactly when the source admits the user and no later entry has other roles. */
  lemma LocalUserCarriesOver(h: Home, homeAppID: string, c: Central, appID: string, defaultAppID: string,
                             carrySecret: bool, ids: seq<string>, source: string) returns (target: string)
    requires Migration(h, homeAppID, c, appID, defaultAppID, carrySecret, ids)
             && Arriving(h, homeAppID, c, appID, source)
    ensures var after := Migrated(h, homeAppID, c, appID, defaultAppID, carrySecret, ids);
            var m := LocalName(appID, Travelling(h, homeAppID, source).value.key);
            m in after.rel && after.rel[m] == target && target in after.users
    ensures var after := Migrated(h, homeAppID, c, appID, defaultAppID, carrySecret, ids);
            CarriesOver(SourceToken(h, homeAppID, source), TargetToken(after, appID, target), h.global)
            <==> && HomeAdmits(HomeApp(h, homeAppID), h.global, source, h.users[source])
                 && KeepsRoles(h, homeAppID, Travelling(h, homeAppID, source).value)
    ensures TargetToken(Migrated(h, homeAppID, c, appID, defaultAppID, carrySecret, ids), appID, target).Granted?
    ensures SoleEntry(Packaged(h, homeAppID).users, Travelling(h, homeAppID, source).value) ==>
              KeepsRoles(h, homeAppID, Travelling(h, homeAppID, source).value)
  {
    target := LocalUserArrives(h, homeAppID, c, appID, defaultAppID, carrySecret, ids, source);
    TokenCarriesOverIff(h, homeAppID, c, appID, defaultAppID, carrySecret, ids, source, target);
    SourceHasEntry(h, homeAppID, h.listing, source);
    var e, entries := Travelling(h, homeAppID, source).value, Packaged(h, homeAppID).users;
    BoundToOneKey(entries, {target, e.key}, e.key);
    LastRolesExists(entries, e);
    assert LastRoles(entries, e.key)[0] in GrantedUnder(entries, {target, e.key});
    if SoleEntry(entries, e) { SoleEntryKeeps(entries, e); }
  }

  /** Not admitted at home, yet granted on the target: a default-roles-only user behind require_assignment. */
  lemma DefaultRolesOnlyIsNotPreserved()
    ensures var u := User("Ann", "ann@example.org", "hash", "", [], "", "");
            var app := App("home", "", "", [], [], true, false, "", map[], "", "");
            var h := Home(None, Some(app), map["u" := u], ["u"], map["u" := [Mapping("local", "ann")]], {},
                          Global(map[], map[], ["viewer"], map[]), []);
            && ValidHome(h)
            && Travelling(h, "home", "u") == Some(LocalEntry(u, "ann", ["viewer"], []))
            && SourceToken(h, "home", "u") == Denied
  {
    var u := User("Ann", "ann@example.org", "hash", "", [], "", "");
    var ms := [Mapping("local", "ann")];
    assert ms[0] == Mapping("local", "ann");
    assert !IsDirectoryProvider("local") by {
      assert "local"[1] == 'o' && "ldap:"[1] == 'd';
    }
    assert !HasDirectoryIdentity("", Elements(ms));
    assert FirstUnder(ms, "local", false) == Some("ann");
    assert Elements(["u"]) == {"u"};
  }
}
