/** Which roles and permissions a token for an app carries. */
module TokenRoles {
  import opened Prelude
  import opened MappingKeys
  import opened RelationStore

  datatype App = App(
    appID: string,
    audience: string,
    secretHash: string,
    redirectURIs: seq<string>,
    corsOrigins: seq<string>,
    requireAssignment: bool,
    allowLocalUsers: bool,
    baseURL: string,
    displayName: map<string, string>,
    category: string,
    icon: string)

  /** One list of strings per key; a missing key reads as the empty list, as a Go map does. */
  type Lists = map<string, seq<string>>

  datatype AppAuthz = AppAuthz(
    roles: seq<string>,
    permissions: seq<string>,
    rolePermissions: Lists,
    userAssignments: Lists,
    groupAssignments: Lists)

  const NO_AUTHZ := AppAuthz([], [], map[], map[], map[])

  /** The deployment-wide stores the home app resolves from. */
  datatype Global = Global(userRoles: Lists, userPermissions: Lists, defaultRoles: seq<string>, rolePermissions: Lists)

  datatype Token = Denied | Granted(roles: seq<string>, permissions: seq<string>)

  function AppAudience(a: App): string {
    if a.audience != "" then a.audience else a.appID
  }

  function At(lists: Lists, key: string): seq<string> {
    if key in lists then lists[key] else []
  }

  /** Everything listed under any of the keys. */
  function ListedUnder(lists: Lists, keys: set<string>): set<string> {
    set k, x | k in keys && x in At(lists, k) :: x
  }

  lemma ListedUnderOneMore(lists: Lists, keys: set<string>, key: string)
    ensures ListedUnder(lists, keys + {key}) == ListedUnder(lists, keys) + Elements(At(lists, key))
  {
    forall x ensures x in ListedUnder(lists, keys + {key})
      <==> x in ListedUnder(lists, keys) + Elements(At(lists, key)) {
      if x in At(lists, key) { assert key in keys + {key}; }
    }
  }

  method AddListed(lists: Lists, keys: seq<string>, already: set<string>) returns (out: set<string>)
    ensures out == already + ListedUnder(lists, Elements(keys))
  {
    out := already;
    for i := 0 to |keys|
      invariant out == already + ListedUnder(lists, Elements(keys[..i]))
    {
      out := out + Elements(At(lists, keys[i]));
      ListedUnderOneMore(lists, Elements(keys[..i]), keys[i]);
      assert Elements(keys[..i + 1]) == Elements(keys[..i]) + {keys[i]};
    }
    assert keys[..|keys|] == keys;
  }

  /** Every name an app may know a user by. */
  function AssignmentKeys(guid: string, sam: string, mappings: set<Mapping>): set<string> {
    ({guid, sam} + set m | m in mappings :: m.externalID) - {""}
  }

  method UserAssignmentKeys(guid: string, user: User, mappings: seq<Mapping>) returns (keys: seq<string>)
    ensures NoDup(keys) && Elements(keys) == AssignmentKeys(guid, user.samAccountName, Elements(mappings))
  {
    keys := AddKey([], guid);
    keys := AddKey(keys, user.samAccountName);
    for i := 0 to |mappings|
      invariant NoDup(keys) && Elements(keys) == AssignmentKeys(guid, user.samAccountName, Elements(mappings[..i]))
    {
      keys := AddKey(keys, mappings[i].externalID);
      assert Elements(mappings[..i + 1]) == Elements(mappings[..i]) + {mappings[i]};
    }
    assert mappings[..|mappings|] == mappings;
  }

  method AddKey(keys: seq<string>, key: string) returns (out: seq<string>)
    requires NoDup(keys)
    ensures NoDup(out) && Elements(out) == Elements(keys) + ({key} - {""})
  {
    out := if key == "" || key in keys then keys else keys + [key];
  }

  /** The role set of a named app: direct and group assignments of that app alone. */
  function AssignedRoles(authz: AppAuthz, keys: set<string>, groups: seq<string>): set<string> {
    ListedUnder(authz.userAssignments, keys) + ListedUnder(authz.groupAssignments, Elements(groups))
  }

  ghost function NamedAppToken(app: App, authz: AppAuthz, keys: set<string>, user: User): Token {
    var roles := AssignedRoles(authz, keys, user.groups);
    if app.requireAssignment && roles == {} && user.ownerAppID != app.appID then Denied
    else Granted(SortedList(roles), SortedList(ListedUnder(authz.rolePermissions, roles)))
  }

  /** Explicit roles, or the default_roles baseline of a user who has none. */
  function EffectiveRoles(g: Global, guid: string): seq<string> {
    if At(g.userRoles, guid) == [] then g.defaultRoles else At(g.userRoles, guid)
  }

  /** The baseline does not satisfy require_assignment. */
  predicate HomeAdmits(app: App, g: Global, guid: string, user: User) {
    !app.requireAssignment || At(g.userRoles, guid) != [] || user.ownerAppID == app.appID
  }

  ghost function HomeAppToken(app: App, g: Global, guid: string, user: User): Token {
    if !HomeAdmits(app, g, guid, user) then Denied
    else
      var roles := Elements(EffectiveRoles(g, guid));
      var perms := ListedUnder(g.rolePermissions, roles) + Elements(At(g.userPermissions, guid));
      Granted(SortedList(roles), SortedList(perms))
  }

  method ResolveHomeAppRoles(app: App, g: Global, guid: string, user: User) returns (t: Token)
    ensures t == HomeAppToken(app, g, guid, user)
  {
    var gRoles := At(g.userRoles, guid);
    var granted := |gRoles| > 0;
    if app.requireAssignment && !granted && user.ownerAppID != app.appID { return Denied; }
    var roleSet := Elements(gRoles);
    if !granted {
      roleSet := roleSet + Elements(g.defaultRoles);
      assert roleSet == Elements(g.defaultRoles);
    }
    var roles := SortedKeys(roleSet);
    var permSet := AddListed(g.rolePermissions, roles, {});
    permSet := permSet + Elements(At(g.userPermissions, guid));
    var perms := SortedKeys(permSet);
    assert Elements(roles) == roleSet;
    assert permSet == ListedUnder(g.rolePermissions, roleSet) + Elements(At(g.userPermissions, guid));
    return Granted(roles, perms);
  }

  method ResolveTokenRoles(app: App, defaultAppID: string, g: Global, authz: AppAuthz,
                           guid: string, user: User, mappings: seq<Mapping>) returns (t: Token)
    ensures t == if app.appID == defaultAppID then HomeAppToken(app, g, guid, user)
                 else NamedAppToken(app, authz, AssignmentKeys(guid, user.samAccountName, Elements(mappings)), user)
  {
    if app.appID == defaultAppID {
      t := ResolveHomeAppRoles(app, g, guid, user);
      return;
    }
    var keys := UserAssignmentKeys(guid, user, mappings);
    var roleSet := AddListed(authz.userAssignments, keys, {});
    roleSet := AddListed(authz.groupAssignments, user.groups, roleSet);
    assert roleSet == AssignedRoles(authz, Elements(keys), user.groups);
    if app.requireAssignment && roleSet == {} && user.ownerAppID != app.appID { return Denied; }
    var roles := SortedKeys(roleSet);
    var permSet := AddListed(authz.rolePermissions, roles, {});
    var perms := SortedKeys(permSet);
    assert Elements(roles) == roleSet;
    assert permSet == ListedUnder(authz.rolePermissions, roleSet);
    return Granted(roles, perms);
  }

  // ---- What the answers mean ----

  /** The list under a key, when there is one, has the entry. */
  predicate Has(lists: Lists, key: string, x: string) {
    key in lists && x in lists[key]
  }

  /** A user is known by the GUID, the account name and every mapped name, and by nothing else. */
  lemma AssignmentKeysAre(guid: string, sam: string, mappings: set<Mapping>, key: string)
    ensures key in AssignmentKeys(guid, sam, mappings)
            <==> key != "" && (key == guid || key == sam || exists m :: m in mappings && m.externalID == key)
  {
  }

  /** The audience is the configured one, and the app's id only when none is configured. */
  lemma AudienceIs(a: App)
    ensures a.audience != "" ==> AppAudience(a) == a.audience
    ensures a.audience == "" ==> AppAudience(a) == a.appID
  {
  }

  /**
   A named app denies exactly when it requires assignment, the user is not its own, and nothing is assigned under any of
   the user's names or groups.
   */
  lemma NamedAppDeniesIff(app: App, authz: AppAuthz, keys: set<string>, user: User)
    ensures NamedAppToken(app, authz, keys, user).Denied?
            <==> && app.requireAssignment && user.ownerAppID != app.appID
                 && (forall k, r | k in keys :: !Has(authz.userAssignments, k, r))
                 && (forall g, r | g in user.groups :: !Has(authz.groupAssignments, g, r))
  {
    var roles := AssignedRoles(authz, keys, user.groups);
    RolesAre(authz, keys, user.groups);
    if roles == {} {
      forall k, r | k in keys ensures !Has(authz.userAssignments, k, r) { assert r !in roles; }
      forall g, r | g in user.groups ensures !Has(authz.groupAssignments, g, r) { assert r !in roles; }
    } else {
      var r :| r in roles;
    }
  }

  lemma RolesAre(authz: AppAuthz, keys: set<string>, groups: seq<string>)
    ensures forall r :: r in AssignedRoles(authz, keys, groups)
              <==> (exists k :: k in keys && Has(authz.userAssignments, k, r))
                   || (exists g :: g in groups && Has(authz.groupAssignments, g, r))
  {
    forall r ensures r in AssignedRoles(authz, keys, groups)
                     <==> (exists k :: k in keys && Has(authz.userAssignments, k, r))
                          || (exists g :: g in groups && Has(authz.groupAssignments, g, r)) {
      ListedUnderMeans(authz.userAssignments, keys, r);
      ListedUnderMeans(authz.groupAssignments, Elements(groups), r);
    }
  }

  lemma ListedUnderMeans(lists: Lists, keys: set<string>, x: string)
    ensures x in ListedUnder(lists, keys) <==> exists k :: k in keys && Has(lists, k, x)
  {
    if x in ListedUnder(lists, keys) {
      var k :| k in keys && x in At(lists, k);
      assert Has(lists, k, x);
    }
    if k :| k in keys && Has(lists, k, x) {
      assert x in At(lists, k);
    }
  }

  /**
   A granted token of a named app lists, in order and once each, exactly the roles assigned under the user's names and
   groups, and exactly the permissions the app's catalogue gives those roles.
   */
  lemma NamedAppGrants(app: App, authz: AppAuthz, keys: set<string>, user: User)
    requires NamedAppToken(app, authz, keys, user).Granted?
    ensures var t := NamedAppToken(app, authz, keys, user);
            && (forall i, j | 0 <= i < j < |t.roles| :: Before(t.roles[i], t.roles[j]))
            && (forall i, j | 0 <= i < j < |t.permissions| :: Before(t.permissions[i], t.permissions[j]))
            && (forall r :: r in t.roles
                  <==> (exists k :: k in keys && Has(authz.userAssignments, k, r))
                       || (exists g :: g in user.groups && Has(authz.groupAssignments, g, r)))
            && (forall p :: p in t.permissions <==> exists r :: r in t.roles && Has(authz.rolePermissions, r, p))
  {
    var t := NamedAppToken(app, authz, keys, user);
    var roles := AssignedRoles(authz, keys, user.groups);
    RolesAre(authz, keys, user.groups);
    assert Elements(t.roles) == roles;
    assert forall r :: r in t.roles <==> r in Elements(t.roles);
    forall p ensures p in t.permissions <==> exists r :: r in t.roles && Has(authz.rolePermissions, r, p) {
      ListedUnderMeans(authz.rolePermissions, roles, p);
      assert p in t.permissions <==> p in Elements(t.permissions);
    }
  }

  /** The home app denies exactly when it requires assignment, the user is not its own, and has no explicit role. */
  lemma HomeAppDeniesIff(app: App, g: Global, guid: string, user: User)
    ensures HomeAppToken(app, g, guid, user).Denied?
            <==> app.requireAssignment && user.ownerAppID != app.appID && forall r :: !Has(g.userRoles, guid, r)
  {
    if At(g.userRoles, guid) != [] {
      assert Has(g.userRoles, guid, At(g.userRoles, guid)[0]);
    }
  }

  /**
   A granted home token lists exactly the explicit roles, or the defaults of a user who has none, and exactly the
   permissions of those roles together with the user's direct ones.
   */
  lemma HomeAppGrants(app: App, g: Global, guid: string, user: User)
    requires HomeAppToken(app, g, guid, user).Granted?
    ensures var t := HomeAppToken(app, g, guid, user);
            && (forall i, j | 0 <= i < j < |t.roles| :: Before(t.roles[i], t.roles[j]))
            && (forall i, j | 0 <= i < j < |t.permissions| :: Before(t.permissions[i], t.permissions[j]))
            && (forall r :: r in t.roles
                  <==> if exists e :: Has(g.userRoles, guid, e) then Has(g.userRoles, guid, r) else r in g.defaultRoles)
            && (forall p :: p in t.permissions
                  <==> Has(g.userPermissions, guid, p) || exists r :: r in t.roles && Has(g.rolePermissions, r, p))
  {
    var t := HomeAppToken(app, g, guid, user);
    var roles := Elements(EffectiveRoles(g, guid));
    assert Elements(t.roles) == roles;
    if At(g.userRoles, guid) != [] {
      assert Has(g.userRoles, guid, At(g.userRoles, guid)[0]);
    }
    assert forall r :: r in t.roles <==> r in Elements(t.roles);
    forall p ensures p in t.permissions
                     <==> Has(g.userPermissions, guid, p) || exists r :: r in t.roles && Has(g.rolePermissions, r, p) {
      ListedUnderMeans(g.rolePermissions, roles, p);
      assert p in t.permissions <==> p in Elements(t.permissions);
    }
  }
}
