/**
 What an import guarantees: the dry run's numbers, idempotence, distinct audiences, and exactly which accounts appear.
 */
module ImportLaws {
  import opened Prelude
  import opened MappingKeys
  import opened RelationStore
  import opened TokenRoles
  import opened Bundling
  import opened Importing

  // ---- The dry run's numbers are the numbers the operator gets ----

  lemma {:induction false} BlockedIff(entries: seq<UserEntry>, problem: Option<Reason>)
    ensures BlockedIn(entries, problem) == []
            <==> problem.None? || forall i | 0 <= i < |entries| :: entries[i].kind != KindAD
  {
    if entries != [] {
      var n := |entries| - 1;
      BlockedIff(entries[..n], problem);
      assert forall i | 0 <= i < n :: entries[..n][i] == entries[i];
      if forall i | 0 <= i < n :: entries[..n][i].kind != KindAD {
        assert forall i | 0 <= i < n :: entries[i].kind != KindAD;
      }
    }
  }

  /**
   The dry run passes exactly a free target, a free audience, and AD users only where their directory is connected.
   */
  lemma ReportOKIff(c: Central, b: Bundle, appID: string, defaultAppID: string)
    ensures ReportOn(c, b, appID, defaultAppID).blocked == []
            <==> && !InUse(AuthzOf(c, appID))
                 && (appID in c.apps ==> CarriedAudience(c.apps, c.apps[appID], defaultAppID, b.app.audience).Ok?)
                 && (ADProblem(c, b).None? || forall i | 0 <= i < |b.users| :: b.users[i].kind != KindAD)
  {
    BlockedIff(b.users, ADProblem(c, b));
  }

  lemma {:induction false} KindsPartition(entries: seq<UserEntry>)
    ensures |Granting(entries)| == |GrantingOfKind(entries, KindLocal)| + |GrantingOfKind(entries, KindAD)|
                                   + |GrantingOfKind(entries, KindOther)|
    ensures |Granting(entries)| + |Roleless(entries)| == |entries|
  {
    if entries != [] {
      var n := |entries| - 1;
      KindsPartition(entries[..n]);
      GrantingGrows(entries, n);
      GrantingOfKindGrows(entries, n, KindLocal);
      GrantingOfKindGrows(entries, n, KindAD);
      GrantingOfKindGrows(entries, n, KindOther);
      assert entries[..n + 1] == entries;
    } else {
      assert Granting(entries) == {} && Roleless(entries) == {};
    }
  }

  /**
   A passing dry run of an existing target is carried out as announced. Entries of a kind it does not know are the only
   difference: they are assigned, but no counter of the report holds them.
   */
  lemma ClassifyPredictsApply(c: Central, b: Bundle, appID: string, defaultAppID: string, carrySecret: bool,
                              ids: seq<string>)
    requires |ids| == |b.users| && appID in c.apps && ReportOn(c, b, appID, defaultAppID).blocked == []
    ensures var r, n := ReportOn(c, b, appID, defaultAppID), ApplyCounts(c, b, appID);
            && n.assignmentsSet == r.localUsers + r.adUsersSameDomain + |GrantingOfKind(b.users, KindOther)|
            && n.skipped == r.noRoles && n.assignmentsSet + n.skipped == |b.users|
    ensures var after := AfterApply(c, b, appID, defaultAppID, carrySecret, ids);
            after.Ok? && after.value.apps[appID].audience == ReportOn(c, b, appID, defaultAppID).audienceToApply
  {
    ReportOKIff(c, b, appID, defaultAppID);
    KindsPartition(b.users);
    if ADProblem(c, b).Some? {
      assert GrantingOfKind(b.users, KindAD) == {};
    }
  }

  /** Package knows no other kinds, ... */
  lemma PackagedKindsAreKnown(h: Home, homeAppID: string)
    requires ValidHome(h)
    ensures GrantingOfKind(Packaged(h, homeAppID).users, KindOther) == {}
  {
    forall i | 0 <= i < |Packaged(h, homeAppID).users| ensures Packaged(h, homeAppID).users[i].kind != KindOther {
      var _ := EntryHasSource(h, homeAppID, h.listing, i);
    }
  }

  /** ... so a packaged bundle is carried out exactly as announced. */
  lemma PackagedPredictsApply(h: Home, homeAppID: string, c: Central, appID: string, defaultAppID: string,
                              carrySecret: bool, ids: seq<string>)
    requires ValidHome(h) && |ids| == |Packaged(h, homeAppID).users| && appID in c.apps
    requires ReportOn(c, Packaged(h, homeAppID), appID, defaultAppID).blocked == []
    ensures var b := Packaged(h, homeAppID);
            var r, n := ReportOn(c, b, appID, defaultAppID), ApplyCounts(c, b, appID);
            n.assignmentsSet == r.localUsers + r.adUsersSameDomain && n.skipped == r.noRoles
  {
    PackagedKindsAreKnown(h, homeAppID);
    ClassifyPredictsApply(c, Packaged(h, homeAppID), appID, defaultAppID, carrySecret, ids);
  }

  /** A bundle of one entry of another kind passes the dry run, which announces nobody; Apply assigns one. */
  lemma UnknownKindIsNotAnnounced(app: App, key: string, role: string)
    requires app.audience == ""
    ensures var e := UserEntry(KindOther, key, [role], [], "", "", "", false);
            var b := Bundle(None, NO_CONFIG, Catalog(None, [], []), [e]);
            var c := Central(map[app.appID := app], map[], map[], map[], None);
            var r := ReportOn(c, b, app.appID, "");
            && r.blocked == [] && r.localUsers + r.adUsersSameDomain + r.noRoles == 0
            && ApplyCounts(c, b, app.appID).assignmentsSet == 1
  {
    var e := UserEntry(KindOther, key, [role], [], "", "", "", false);
    var b := Bundle(None, NO_CONFIG, Catalog(None, [], []), [e]);
    var c := Central(map[app.appID := app], map[], map[], map[], None);
    ReportOKIff(c, b, app.appID, "");
    assert GrantingOfKind([e], KindLocal) == {} && GrantingOfKind([e], KindAD) == {} && Roleless([e]) == {};
    assert Granting([e]) == {0};
  }

  // ---- Applying a bundle twice ----

  lemma {:induction false} NothingToCreate(p: Progress, appID: string, entries: seq<UserEntry>, ids: seq<string>)
    requires |entries| <= |ids|
    requires forall i | 0 <= i < |entries| && Materialized(entries[i]) ::
             !Unmapped(p.rel, LocalName(appID, entries[i].key))
    ensures var q := ImportAll(p, appID, entries, ids); q.users == p.users && q.rel == p.rel
  {
    if entries != [] {
      var n := |entries| - 1;
      assert forall i | 0 <= i < n :: entries[..n][i] == entries[i];
      NothingToCreate(p, appID, entries[..n], ids);
    }
  }

  lemma ImportTwice(p: Progress, appID: string, entries: seq<UserEntry>, ids: seq<string>, again: seq<string>)
    requires |entries| <= |ids| && |entries| <= |again| && "" !in ids
    ensures var q := ImportAll(p, appID, entries, ids); ImportAll(q, appID, entries, again) == q
  {
    var q := ImportAll(p, appID, entries, ids);
    var r := ImportAll(q, appID, entries, again);
    forall i | 0 <= i < |entries| && Materialized(entries[i])
      ensures !Unmapped(q.rel, LocalName(appID, entries[i].key)) {
      NamesAfterImport(p, appID, entries, ids, LocalName(appID, entries[i].key));
      assert FirstFor(entries, entries[i].key) <= i;
      assert ids[FirstFor(entries, entries[i].key)] in ids;
    }
    NothingToCreate(q, appID, entries, again);
    forall key ensures (key in r.assignments <==> key in q.assignments)
                       && (key in q.assignments ==> r.assignments[key] == q.assignments[key]) {
      AssignmentsAfterImport(p, appID, entries, ids, key);
      AssignmentsAfterImport(q, appID, entries, again, key);
    }
    assert r.assignments == q.assignments;
  }

  lemma CatalogTwice(authz: AppAuthz, catalog: Catalog, assignments: Lists)
    ensures var once := CatalogAfter(authz, catalog).(userAssignments := assignments);
            CatalogAfter(once, catalog) == once
  {
  }

  /** The same bundle again changes nothing at all, whatever GUIDs the second run would draw. */
  lemma ApplyTwice(c: Central, b: Bundle, appID: string, defaultAppID: string, carrySecret: bool,
                   ids: seq<string>, again: seq<string>)
    requires |ids| == |b.users| == |again| && "" !in ids && ValidApps(c.apps)
    requires AfterApply(c, b, appID, defaultAppID, carrySecret, ids).Ok?
    ensures var after := AfterApply(c, b, appID, defaultAppID, carrySecret, ids).value;
            AfterApply(after, b, appID, defaultAppID, carrySecret, again) == Ok(after)
  {
    var after := AfterApply(c, b, appID, defaultAppID, carrySecret, ids).value;
    var authz := CatalogAfter(AuthzOf(c, appID), b.catalog);
    var p := Progress(authz.userAssignments, c.users, c.rel);
    CatalogTwice(AuthzOf(c, appID), b.catalog, after.authz[appID].userAssignments);
    ImportTwice(p, appID, b.users, ids, again);
    var app := after.apps[appID];
    var aud := CarriedAudience(c.apps, c.apps[appID], defaultAppID, b.app.audience).value;
    assert CarriedAudience(after.apps, app, defaultAppID, b.app.audience) == Ok(aud);
    assert AppAfter(app, b, aud, carrySecret) == app;
    assert after.apps[appID := app] == after.apps;
    assert after.authz[appID := after.authz[appID]] == after.authz;
  }

  // ---- Audiences ----

  /** Every app a token can be issued for: the default app is made up when it has no row. */
  function Resolvable(apps: map<string, App>, defaultAppID: string): map<string, App> {
    if defaultAppID in apps then apps
    else apps[defaultAppID := App(defaultAppID, defaultAppID, "", [], [], false, false, "", map[], "", "")]
  }

  ghost predicate DistinctAudiences(apps: map<string, App>) {
    forall a, b | a in apps && b in apps && a != b :: AppAudience(apps[a]) != AppAudience(apps[b])
  }

  /** No bundle can make two apps share an audience, the made-up default app included. */
  lemma AudiencesStayDistinct(c: Central, b: Bundle, appID: string, defaultAppID: string, carrySecret: bool,
                              ids: seq<string>)
    requires |ids| == |b.users| && ValidApps(c.apps) && DistinctAudiences(Resolvable(c.apps, defaultAppID))
    requires AfterApply(c, b, appID, defaultAppID, carrySecret, ids).Ok?
    ensures var after := AfterApply(c, b, appID, defaultAppID, carrySecret, ids).value;
            ValidApps(after.apps) && DistinctAudiences(Resolvable(after.apps, defaultAppID))
  {
    var after := AfterApply(c, b, appID, defaultAppID, carrySecret, ids).value;
    var was, now := Resolvable(c.apps, defaultAppID), Resolvable(after.apps, defaultAppID);
    assert forall id | id in now && id != appID :: id in was && now[id] == was[id];
    forall id | id in now && id != appID ensures AppAudience(now[id]) != AppAudience(now[appID]) {
      assert AppAudience(was[id]) != AppAudience(was[appID]);
      AudienceIsFree(c.apps, appID, defaultAppID, b.app.audience, id);
    }
  }

  lemma AudienceIsFree(apps: map<string, App>, appID: string, defaultAppID: string, carried: string, other: string)
    requires ValidApps(apps) && appID in apps && other in Resolvable(apps, defaultAppID) && other != appID
    requires CarriedAudience(apps, apps[appID], defaultAppID, carried).Ok?
    ensures var aud := CarriedAudience(apps, apps[appID], defaultAppID, carried).value;
            || aud == apps[appID].audience
            || (aud != "" && aud != AppAudience(Resolvable(apps, defaultAppID)[other]) && aud != other)
  {
    if other in apps { assert apps[other].appID == other; }
  }

  // ---- Which accounts appear ----

  lemma {:induction false} AccountCount(p: Progress, appID: string, entries: seq<UserEntry>, ids: seq<string>)
    requires |entries| <= |ids| && FreshIds(ids, p.users, p.rel)
    ensures |ImportAll(p, appID, entries, ids).users| == |p.users| + |NewKeys(p.rel, appID, entries)|
  {
    if entries != [] {
      var n := |entries| - 1;
      AccountCount(p, appID, entries[..n], ids);
      NewKeysGrow(p, appID, entries, ids, n);
      assert entries[..n + 1] == entries;
      OthersAfterImport(p, appID, entries[..n], ids, ids[n]);
    } else {
      assert NewKeys(p.rel, appID, entries) == {};
    }
  }

  /** One account per distinct unmapped role-bearing local key, no more and no fewer. */
  lemma OneAccountPerNewKey(c: Central, b: Bundle, appID: string, defaultAppID: string, carrySecret: bool,
                            ids: seq<string>)
    requires |ids| == |b.users| && FreshIds(ids, c.users, c.rel)
    requires AfterApply(c, b, appID, defaultAppID, carrySecret, ids).Ok?
    ensures |AfterApply(c, b, appID, defaultAppID, carrySecret, ids).value.users|
            == |c.users| + ApplyCounts(c, b, appID).localUsersCreated
  {
    var p := Progress(CatalogAfter(AuthzOf(c, appID), b.catalog).userAssignments, c.users, c.rel);
    AccountCount(p, appID, b.users, ids);
  }

  lemma OneName(p: Progress, appID: string, entries: seq<UserEntry>, ids: seq<string>, key: string)
    requires |entries| <= |ids| && FreshIds(ids, p.users, p.rel)
             && IsNewName(p.rel, appID, entries, LocalName(appID, key))
    ensures Owned(ImportAll(p, appID, entries, ids).rel, ids[FirstFor(entries, key)]) == {LocalName(appID, key)}
  {
    var q, i := ImportAll(p, appID, entries, ids), FirstFor(entries, key);
    assert ids[i] in ids;
    forall m ensures (m in q.rel && q.rel[m] == ids[i]) <==> m == LocalName(appID, key) {
      NamesAfterImport(p, appID, entries, ids, m);
      if IsNewName(p.rel, appID, entries, m) {
        assert m.externalID != key ==> FirstFor(entries, m.externalID) != i;
      }
    }
  }

  /** The account of a new key: made from its first role-bearing entry, and reachable under that one name only. */
  lemma NewAccount(c: Central, b: Bundle, appID: string, defaultAppID: string, carrySecret: bool, ids: seq<string>,
                   key: string)
    requires |ids| == |b.users| && FreshIds(ids, c.users, c.rel)
    requires AfterApply(c, b, appID, defaultAppID, carrySecret, ids).Ok? && key in NewKeys(c.rel, appID, b.users)
    ensures var after := AfterApply(c, b, appID, defaultAppID, carrySecret, ids).value;
            var i := FirstFor(b.users, key);
            && i < |b.users| && ids[i] !in c.users
            && LocalName(appID, key) in after.rel && after.rel[LocalName(appID, key)] == ids[i]
            && ids[i] in after.users && after.users[ids[i]] == AppLocalUser(b.users[i], appID)
            && Owned(after.rel, ids[i]) == {LocalName(appID, key)}
  {
    var p := Progress(CatalogAfter(AuthzOf(c, appID), b.catalog).userAssignments, c.users, c.rel);
    FirstForIsNew(c.rel, appID, b.users, key);
    var i := FirstFor(b.users, key);
    AccountsAfterImport(p, appID, b.users, ids, i);
    NamesAfterImport(p, appID, b.users, ids, LocalName(appID, key));
    OneName(p, appID, b.users, ids, key);
  }

  /** Nothing else moves: other apps and their authz, every existing record, every name that was mapped. */
  lemma ApplyTouchesOnlyTarget(c: Central, b: Bundle, appID: string, defaultAppID: string, carrySecret: bool,
                               ids: seq<string>)
    requires |ids| == |b.users| && FreshIds(ids, c.users, c.rel)
    requires AfterApply(c, b, appID, defaultAppID, carrySecret, ids).Ok?
    ensures var after := AfterApply(c, b, appID, defaultAppID, carrySecret, ids).value;
            && after.apps - {appID} == c.apps - {appID}
            && after.authz - {appID} == c.authz - {appID} && after.ad == c.ad
            && (forall g | g in c.users :: g in after.users && after.users[g] == c.users[g])
            && (forall m | m in c.rel && c.rel[m] != "" :: m in after.rel && after.rel[m] == c.rel[m])
  {
    var after := AfterApply(c, b, appID, defaultAppID, carrySecret, ids).value;
    var p := Progress(CatalogAfter(AuthzOf(c, appID), b.catalog).userAssignments, c.users, c.rel);
    forall g | g in c.users ensures g in after.users && after.users[g] == c.users[g] {
      OthersAfterImport(p, appID, b.users, ids, g);
    }
    forall m | m in c.rel && c.rel[m] != "" ensures m in after.rel && after.rel[m] == c.rel[m] {
      NamesAfterImport(p, appID, b.users, ids, m);
    }
  }

  /** Assignment is never dropped, a secret is taken only on request, local login opens only with a login behind it. */
  lemma GatesNeverWeaken(c: Central, b: Bundle, appID: string, defaultAppID: string, carrySecret: bool,
                         ids: seq<string>)
    requires |ids| == |b.users| && "" !in ids && AfterApply(c, b, appID, defaultAppID, carrySecret, ids).Ok?
    ensures var after := AfterApply(c, b, appID, defaultAppID, carrySecret, ids).value;
            var was, now := c.apps[appID], after.apps[appID];
            && (was.requireAssignment || b.app.requireAssignment <==> now.requireAssignment)
            && (!carrySecret ==> now.secretHash == was.secretHash)
            && (now.allowLocalUsers && !was.allowLocalUsers ==>
               exists key :: !Unmapped(after.rel, LocalName(appID, key)))
  {
    var after := AfterApply(c, b, appID, defaultAppID, carrySecret, ids).value;
    if i :| 0 <= i < |b.users| && Materialized(b.users[i]) {
      var m := LocalName(appID, b.users[i].key);
      var p := Progress(CatalogAfter(AuthzOf(c, appID), b.catalog).userAssignments, c.users, c.rel);
      NamesAfterImport(p, appID, b.users, ids, m);
      assert FirstFor(b.users, m.externalID) <= i;
      assert ids[FirstFor(b.users, m.externalID)] in ids;
      assert !Unmapped(after.rel, m);
    }
  }

  // ---- What a token for the target says ----

  /** The roles the bundle grants under any of the keys: the last role-bearing entry of each. */
  ghost function GrantedUnder(entries: seq<UserEntry>, keys: set<string>): set<string> {
    set k, r | k in keys && r in LastRoles(entries, k) :: r
  }

  /** On a target that was free, the roles of ANY central user are those the bundle grants under that user's names. */
  lemma TargetRoles(c: Central, b: Bundle, appID: string, defaultAppID: string, carrySecret: bool, ids: seq<string>,
                    keys: set<string>, groups: seq<string>)
    requires |ids| == |b.users| && !InUse(AuthzOf(c, appID))
    requires AfterApply(c, b, appID, defaultAppID, carrySecret, ids).Ok?
    ensures var authz := AuthzOf(AfterApply(c, b, appID, defaultAppID, carrySecret, ids).value, appID);
            && AssignedRoles(authz, keys, groups) == GrantedUnder(b.users, keys)
            && authz.rolePermissions
               == (if b.catalog.rolePermissions.Some? then b.catalog.rolePermissions.value else map[])
  {
    var authz := AuthzOf(AfterApply(c, b, appID, defaultAppID, carrySecret, ids).value, appID);
    var p := Progress(map[], c.users, c.rel);
    assert CatalogAfter(AuthzOf(c, appID), b.catalog).userAssignments == map[];
    forall k | k in keys ensures At(authz.userAssignments, k) == LastRoles(b.users, k) {
      AssignmentsAfterImport(p, appID, b.users, ids, k);
    }
    assert ListedUnder(authz.userAssignments, keys) == GrantedUnder(b.users, keys);
    assert ListedUnder(authz.groupAssignments, Elements(groups)) == {};
  }

  // ---- The carried audience ----

  ghost predicate AllSpaces(s: string) {
    forall i | 0 <= i < |s| :: IsSpace(s[i])
  }

  /** `s` is `core` with spaces around it. */
  ghost predicate Around(s: string, front: string, core: string, back: string) {
    s == front + core + back && AllSpaces(front) && AllSpaces(back)
  }

  lemma OneSpaceMore(s: string, front: string, core: string, back: string, ch: char)
    requires Around(s, front, core, back) && IsSpace(ch)
    ensures Around([ch] + s, [ch] + front, core, back) && Around(s + [ch], front, core, back + [ch])
  {
    assert [ch] + s == [ch] + front + core + back;
    assert s + [ch] == front + core + (back + [ch]);
  }

  predicate NoSpaceAtTheEnds(s: string) {
    s == "" || (!IsSpace(s[0]) && !IsSpace(s[|s| - 1]))
  }

  lemma {:induction false} TrimSpaceLeavesNone(s: string)
    ensures NoSpaceAtTheEnds(TrimSpace(s))
    decreases |s|
  {
    if s == "" {
    } else if IsSpace(s[0]) {
      TrimSpaceLeavesNone(s[1..]);
    } else if IsSpace(s[|s| - 1]) {
      TrimSpaceLeavesNone(s[..|s| - 1]);
    }
  }

  /** Trimming takes spaces off both ends and nothing else. */
  lemma {:induction false} TrimSpaceTrims(s: string) returns (front: string, back: string)
    ensures Around(s, front, TrimSpace(s), back)
    decreases |s|
  {
    front, back := "", "";
    if s == "" {
    } else if IsSpace(s[0]) {
      front, back := TrimSpaceTrims(s[1..]);
      OneSpaceMore(s[1..], front, TrimSpace(s), back, s[0]);
      front := [s[0]] + front;
      assert [s[0]] + s[1..] == s;
    } else if IsSpace(s[|s| - 1]) {
      front, back := TrimSpaceTrims(s[..|s| - 1]);
      OneSpaceMore(s[..|s| - 1], front, TrimSpace(s), back, s[|s| - 1]);
      back := back + [s[|s| - 1]];
      assert s[..|s| - 1] + [s[|s| - 1]] == s;
    } else {
      assert "" + s + "" == s;
    }
  }

  /** Some other app answers to this audience: it is configured for it, or its id. */
  ghost predicate TakenByAnother(apps: map<string, App>, target: App, audience: string) {
    exists id :: id in apps && apps[id].appID != target.appID
                 && (apps[id].audience == audience || apps[id].appID == audience)
  }

  /**
   A blank carried audience keeps the target's; any other is accepted, and is the one kept, exactly when the target has
   it already or neither the default app nor any other app answers to it.
   */
  lemma AudienceAcceptedIff(apps: map<string, App>, target: App, defaultAppID: string, carried: string)
    ensures var aud, r := TrimSpace(carried), CarriedAudience(apps, target, defaultAppID, carried);
            && (aud == "" ==> r == Ok(target.audience))
            && (aud != "" ==>
                  && (r == Ok(aud) <==> aud == target.audience
                                        || (aud != defaultAppID && !TakenByAnother(apps, target, aud)))
                  && (r.Ok? ==> r == Ok(aud)))
  {
    var aud := TrimSpace(carried);
    assert TakenByAnother(apps, target, aud) <==>
        exists id | id in apps :: apps[id].appID != target.appID && Claims(apps[id], aud);
  }

  // ---- What the target app and its authz end up with ----

  /** `now` is the carried value where the bundle carries one, and the target's own otherwise. */
  ghost predicate CarriedOrKept<T>(carries: bool, carried: T, was: T, now: T) {
    (carries ==> now == carried) && (!carries ==> now == was)
  }

  /**
   Each setting of an app: the carried one if the bundle carries it, else its own. The secret moves only on request.
   Local login is on exactly if it was, or some local entry bears roles.
   */
  ghost predicate SettingsMoved(was: App, now: App, b: Bundle, carrySecret: bool) {
    && now.appID == was.appID
    && CarriedOrKept(|b.app.redirectURIs| > 0, b.app.redirectURIs, was.redirectURIs, now.redirectURIs)
    && CarriedOrKept(|b.app.corsOrigins| > 0, b.app.corsOrigins, was.corsOrigins, now.corsOrigins)
    && CarriedOrKept(carrySecret && b.app.secretHash != "", b.app.secretHash, was.secretHash, now.secretHash)
    && CarriedOrKept(b.app.displayName != map[], b.app.displayName, was.displayName, now.displayName)
    && CarriedOrKept(b.app.category != "", b.app.category, was.category, now.category)
    && (forall url | b.app.baseURL == Some(url) :: now.baseURL == url)
    && (b.app.baseURL == None ==> now.baseURL == was.baseURL)
    && (forall icon | b.app.icon == Some(icon) :: now.icon == icon)
    && (b.app.icon == None ==> now.icon == was.icon)
    && (now.requireAssignment <==> was.requireAssignment || b.app.requireAssignment)
    && (now.allowLocalUsers
        <==> || was.allowLocalUsers
             || exists i :: 0 <= i < |b.users| && b.users[i].kind == KindLocal && |b.users[i].roles| > 0)
  }

  lemma SettingsAfter(app: App, b: Bundle, audience: string, carrySecret: bool)
    ensures SettingsMoved(app, AppAfter(app, b, audience, carrySecret), b, carrySecret)
    ensures AppAfter(app, b, audience, carrySecret).audience == audience
  {
    assert forall i | 0 <= i < |b.users| ::
        Materialized(b.users[i]) <==> b.users[i].kind == KindLocal && |b.users[i].roles| > 0;
  }

  /** An import moves the target's settings so, and a carried audience, its spaces trimmed, likewise. */
  lemma TargetSettings(c: Central, b: Bundle, appID: string, defaultAppID: string, carrySecret: bool, ids: seq<string>)
    requires |ids| == |b.users| && AfterApply(c, b, appID, defaultAppID, carrySecret, ids).Ok?
    ensures var was := c.apps[appID];
            var now := AfterApply(c, b, appID, defaultAppID, carrySecret, ids).value.apps[appID];
            && SettingsMoved(was, now, b, carrySecret)
            && CarriedOrKept(TrimSpace(b.app.audience) != "", TrimSpace(b.app.audience), was.audience, now.audience)
  {
    var app := c.apps[appID];
    AudienceAcceptedIff(c.apps, app, defaultAppID, b.app.audience);
    SettingsAfter(app, b, CarriedAudience(c.apps, app, defaultAppID, b.app.audience).value, carrySecret);
  }

  /** An import with a local account to make lets local users into the target. */
  lemma LocalLoginOpens(c: Central, b: Bundle, appID: string, defaultAppID: string, carrySecret: bool,
                        ids: seq<string>, e: UserEntry)
    requires |ids| == |b.users| && AfterApply(c, b, appID, defaultAppID, carrySecret, ids).Ok?
    requires e in b.users && e.kind == KindLocal && |e.roles| > 0
    ensures AfterApply(c, b, appID, defaultAppID, carrySecret, ids).value.apps[appID].allowLocalUsers
  {
    TargetSettings(c, b, appID, defaultAppID, carrySecret, ids);
    var i :| 0 <= i < |b.users| && b.users[i] == e;
  }

  /** The tokens of the target are issued for the audience the bundle carries, when it carries one. */
  lemma TargetAudience(c: Central, b: Bundle, appID: string, defaultAppID: string, carrySecret: bool, ids: seq<string>)
    requires |ids| == |b.users| && AfterApply(c, b, appID, defaultAppID, carrySecret, ids).Ok?
    requires TrimSpace(b.app.audience) != ""
    ensures var after := AfterApply(c, b, appID, defaultAppID, carrySecret, ids).value;
            AppAudience(after.apps[appID]) == TrimSpace(b.app.audience)
  {
    TargetSettings(c, b, appID, defaultAppID, carrySecret, ids);
  }

  /**
   The target's authz after an import: a carried role map replaces the map and its sorted names the roles; carried
   permissions replace the list; group assignments stay.
   */
  lemma TargetCatalog(c: Central, b: Bundle, appID: string, defaultAppID: string, carrySecret: bool, ids: seq<string>)
    requires |ids| == |b.users| && AfterApply(c, b, appID, defaultAppID, carrySecret, ids).Ok?
    ensures var was := AuthzOf(c, appID);
            var after := AfterApply(c, b, appID, defaultAppID, carrySecret, ids).value;
            var now := AuthzOf(after, appID);
            && appID in after.authz
            && CarriedOrKept(|b.catalog.permissions| > 0, b.catalog.permissions, was.permissions, now.permissions)
            && (forall rp | b.catalog.rolePermissions == Some(rp) ::
                  now.rolePermissions == rp && IsSortedListOf(now.roles, rp.Keys))
            && (b.catalog.rolePermissions == None ==>
                  now.rolePermissions == was.rolePermissions && now.roles == was.roles)
            && now.groupAssignments == was.groupAssignments
  {
  }

  /** An account made for an entry carries that entry's name, email and hash, belongs to the app, and nothing more. */
  lemma NewAccountIs(e: UserEntry, appID: string)
    ensures var u := AppLocalUser(e, appID);
            && u.displayName == e.displayName && u.email == e.email && u.passwordHash == e.passwordHash
            && u.ownerAppID == appID && u.samAccountName == "" && u.groups == [] && u.mergedInto == ""
    ensures var m := LocalName(appID, e.key); m.provider in StandardProviders({appID}) && m.externalID == e.key
  {
    assert appID in {appID};
  }

  // ---- What the dry run looks at ----

  /** A target is free exactly when it has no assignment of users or groups, no role, no role map and no permission. */
  lemma TargetIsFreeIff(authz: AppAuthz)
    ensures !InUse(authz)
            <==> && |authz.userAssignments| == 0 && |authz.groupAssignments| == 0 && |authz.rolePermissions| == 0
                 && |authz.roles| == 0 && |authz.permissions| == 0
  {
    EmptyMap(authz.userAssignments);
    EmptyMap(authz.groupAssignments);
    EmptyMap(authz.rolePermissions);
  }

  lemma EmptyMap(lists: Lists)
    ensures |lists| == 0 <==> lists == map[]
  {
    if |lists| == 0 { assert lists.Keys == {}; }
  }

  /** Same text but for spaces at the ends and the case of ASCII letters. */
  ghost predicate SameText(a: string, b: string) {
    var x, y := TrimSpace(a), TrimSpace(b);
    |x| == |y| && forall i | 0 <= i < |x| :: x[i] == y[i] || Lower(x[i]) == Lower(y[i])
  }

  function Lower(ch: char): char {
    if 'A' <= ch <= 'Z' then (ch as int + 32) as char else ch
  }

  /** Two directories are the same by domain if both name one, else by base DN if both name one, else never. */
  lemma SameDirectoryIff(a: ADInfo, b: ADInfo)
    ensures SameADDomain(a, b)
            <==> || (a.domain != "" && b.domain != "" && SameText(a.domain, b.domain))
                 || ((a.domain == "" || b.domain == "")
                     && a.baseDN != "" && b.baseDN != "" && SameText(a.baseDN, b.baseDN))
  {
    FoldIff(TrimSpace(a.domain), TrimSpace(b.domain));
    FoldIff(TrimSpace(a.baseDN), TrimSpace(b.baseDN));
  }

  lemma FoldIff(x: string, y: string)
    ensures Fold(x) == Fold(y) <==> |x| == |y| && forall i | 0 <= i < |x| :: x[i] == y[i] || Lower(x[i]) == Lower(y[i])
  {
    assert |Fold(x)| == |x| && |Fold(y)| == |y|;
    assert forall i | 0 <= i < |x| :: Fold(x)[i] == Lower(x[i]);
    assert forall i | 0 <= i < |y| :: Fold(y)[i] == Lower(y[i]);
  }

  /** AD users are satisfiable exactly when both sides are bound to a directory, and to the same one. */
  lemma ADSatisfiableIff(c: Central, b: Bundle)
    ensures ADProblem(c, b).None?
            <==> && c.ad.Some? && (c.ad.value.domain != "" || c.ad.value.baseDN != "")
                 && b.sourceAD.Some? && SameADDomain(b.sourceAD.value, c.ad.value)
  {
  }

  /** The blocked users of a dry run are the AD entries, all of them, in order, with the reason that holds. */
  lemma {:induction false} BlockedAre(entries: seq<UserEntry>, reason: Reason, key: string)
    ensures BlockedUser(key, reason) in BlockedIn(entries, Some(reason))
            <==> exists i :: 0 <= i < |entries| && entries[i].kind == KindAD && entries[i].key == key
    ensures forall x | x in BlockedIn(entries, Some(reason)) :: x.reason == reason
  {
    if entries != [] {
      var n := |entries| - 1;
      BlockedAre(entries[..n], reason, key);
      assert forall i | 0 <= i < n :: entries[..n][i] == entries[i];
      if i :| 0 <= i < |entries| && entries[i].kind == KindAD && entries[i].key == key && i < n {
        assert entries[..n][i].key == key;
      }
    }
  }

  /** Known are the AD users whose name some central record carries as its account name. */
  lemma KnownNamesAre(users: map<string, User>, name: string)
    ensures name in KnownSAMs(users) <==> name != "" && exists g :: g in users && users[g].samAccountName == name
  {
  }

  /** The dry run counts entries that bear roles: locals, and AD users where they are satisfiable; the others apart. */
  lemma CountsMean(c: Central, b: Bundle, appID: string, defaultAppID: string)
    requires ReportOn(c, b, appID, defaultAppID).blocked == []
    ensures var r, entries := ReportOn(c, b, appID, defaultAppID), b.users;
            && r.localUsers == |set i | 0 <= i < |entries| && entries[i].kind == KindLocal && |entries[i].roles| > 0|
            && r.noRoles == |set i | 0 <= i < |entries| && |entries[i].roles| == 0|
            && (ADProblem(c, b).None? ==>
                  && r.adUsersSameDomain
                     == |set i | 0 <= i < |entries| && entries[i].kind == KindAD && |entries[i].roles| > 0|
                  && r.adUsersKnown
                     == |set i | 0 <= i < |entries| && entries[i].kind == KindAD && |entries[i].roles| > 0
                                 && entries[i].key in KnownSAMs(c.users)|)
  {
    var entries := b.users;
    assert GrantingOfKind(entries, KindLocal)
        == set i | 0 <= i < |entries| && entries[i].kind == KindLocal && |entries[i].roles| > 0;
    assert Roleless(entries) == set i | 0 <= i < |entries| && |entries[i].roles| == 0;
    assert GrantingOfKind(entries, KindAD)
        == set i | 0 <= i < |entries| && entries[i].kind == KindAD && |entries[i].roles| > 0;
    assert GrantingKnown(entries, KnownSAMs(c.users))
        == set i | 0 <= i < |entries| && entries[i].kind == KindAD && |entries[i].roles| > 0
                   && entries[i].key in KnownSAMs(c.users);
  }

  /** An app without an authz row has an empty one. */
  lemma AuthzIs(c: Central, appID: string)
    ensures appID in c.authz ==> AuthzOf(c, appID) == c.authz[appID]
    ensures appID !in c.authz ==> AuthzOf(c, appID) == AppAuthz([], [], map[], map[], map[])
  {
  }

  /** Assignments after an import: the last role-bearing entry of each key; whoever has none keeps what was assigned. */
  lemma AssignmentsAre(c: Central, b: Bundle, appID: string, defaultAppID: string, carrySecret: bool, ids: seq<string>,
                       key: string)
    requires |ids| == |b.users| && AfterApply(c, b, appID, defaultAppID, carrySecret, ids).Ok?
    ensures var was := AuthzOf(c, appID).userAssignments;
            var now := AuthzOf(AfterApply(c, b, appID, defaultAppID, carrySecret, ids).value, appID).userAssignments;
            if LastRoles(b.users, key) != [] then key in now && now[key] == LastRoles(b.users, key)
            else (key in now <==> key in was) && (key in was ==> now[key] == was[key])
  {
    var p := Progress(CatalogAfter(AuthzOf(c, appID), b.catalog).userAssignments, c.users, c.rel);
    AssignmentsAfterImport(p, appID, b.users, ids, key);
  }

  /** The counts of an import: the roles the target then defines, and the entries assigned and skipped. */
  lemma ApplyCountsMean(c: Central, b: Bundle, appID: string, defaultAppID: string, carrySecret: bool, ids: seq<string>)
    requires |ids| == |b.users| && AfterApply(c, b, appID, defaultAppID, carrySecret, ids).Ok?
    ensures var n, entries := ApplyCounts(c, b, appID), b.users;
            && n.rolesDefined
               == |AuthzOf(AfterApply(c, b, appID, defaultAppID, carrySecret, ids).value, appID).roles|
            && n.assignmentsSet == |set i | 0 <= i < |entries| && |entries[i].roles| > 0|
            && n.skipped == |set i | 0 <= i < |entries| && |entries[i].roles| == 0|
  {
    var entries := b.users;
    assert Granting(entries) == set i | 0 <= i < |entries| && |entries[i].roles| > 0;
    assert Roleless(entries) == set i | 0 <= i < |entries| && |entries[i].roles| == 0;
  }
}
