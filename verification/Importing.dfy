/** Importing a bundle into one named app of a central deployment. */
module Importing {
  import opened Prelude
  import opened MappingKeys
  import opened RelationStore
  import opened TokenRoles
  import opened Bundling

  datatype Central = Central(
    apps: map<string, App>,
    authz: map<string, AppAuthz>,
    users: map<string, User>,
    rel: map<Mapping, string>,
    ad: Option<ADInfo>)

  /** Apps are filed under their own id. */
  ghost predicate ValidApps(apps: map<string, App>) {
    forall id | id in apps :: apps[id].appID == id
  }

  function AuthzOf(c: Central, appID: string): AppAuthz {
    if appID in c.authz then c.authz[appID] else NO_AUTHZ
  }

  // ---- The carried audience ----

  predicate IsSpace(ch: char) {
    || ch in {'\t', '\n', '\U{B}', '\U{C}', '\r', ' ', '\U{85}', '\U{A0}', '\U{1680}'}
    || ch in {'\U{2028}', '\U{2029}', '\U{202F}', '\U{205F}', '\U{3000}'}
    || '\U{2000}' <= ch <= '\U{200A}'
  }

  function TrimSpace(s: string): string {
    if s == "" then ""
    else if IsSpace(s[0]) then TrimSpace(s[1..])
    else if IsSpace(s[|s| - 1]) then TrimSpace(s[..|s| - 1])
    else s
  }

  datatype Refusal = UnknownTarget | DefaultAppAudience | ClaimedAudience

  predicate Claims(a: App, audience: string) {
    audience == a.audience || audience == a.appID
  }

  /** The target's own entry never counts against it; everybody else's audience and app id do. */
  function CarriedAudience(apps: map<string, App>, target: App, defaultAppID: string, carried: string)
    : Result<string, Refusal>
  {
    var aud := TrimSpace(carried);
    if aud == "" then Ok(target.audience)
    else if aud == target.audience then Ok(aud)
    else if defaultAppID != "" && aud == defaultAppID then Err(DefaultAppAudience)
    else if exists id | id in apps :: apps[id].appID != target.appID && Claims(apps[id], aud) then Err(ClaimedAudience)
    else Ok(aud)
  }

  method ResolveCarriedAudience(apps: map<string, App>, target: App, defaultAppID: string, carried: string)
    returns (r: Result<string, Refusal>)
    ensures r == CarriedAudience(apps, target, defaultAppID, carried)
  {
    var aud := TrimSpace(carried);
    if aud == "" { return Ok(target.audience); }
    if aud == target.audience { return Ok(aud); }
    if defaultAppID != "" && aud == defaultAppID { return Err(DefaultAppAudience); }
    var todo := apps.Keys;
    while todo != {}
      invariant todo <= apps.Keys
      invariant forall id | id in apps && id !in todo :: apps[id].appID == target.appID || !Claims(apps[id], aud)
      decreases todo
    {
      var id :| id in todo;
      todo := todo - {id};
      if apps[id].appID == target.appID { continue; }
      if Claims(apps[id], aud) { return Err(ClaimedAudience); }
    }
    return Ok(aud);
  }

  // ---- The target app and its authz ----

  /** An entry Apply acts on; the others carry nothing to grant. */
  predicate BearsRoles(e: UserEntry) {
    e.roles != []
  }

  predicate Materialized(e: UserEntry) {
    e.kind == KindLocal && BearsRoles(e)
  }

  /** Values the bundle does not carry stay; the access gate is only ever closed, local login only opened when used. */
  function AppAfter(app: App, b: Bundle, audience: string, carrySecret: bool): App {
    app.(
      audience := audience,
      redirectURIs := if b.app.redirectURIs != [] then b.app.redirectURIs else app.redirectURIs,
      corsOrigins := if b.app.corsOrigins != [] then b.app.corsOrigins else app.corsOrigins,
      baseURL := if b.app.baseURL.Some? then b.app.baseURL.value else app.baseURL,
      displayName := if b.app.displayName != map[] then b.app.displayName else app.displayName,
      category := if b.app.category != "" then b.app.category else app.category,
      icon := if b.app.icon.Some? then b.app.icon.value else app.icon,
      requireAssignment := app.requireAssignment || b.app.requireAssignment,
      secretHash := if carrySecret && b.app.secretHash != "" then b.app.secretHash else app.secretHash,
      allowLocalUsers := app.allowLocalUsers || exists i | 0 <= i < |b.users| :: Materialized(b.users[i]))
  }

  ghost function CatalogAfter(authz: AppAuthz, catalog: Catalog): AppAuthz {
    var authz := match catalog.rolePermissions
                 case None => authz
                 case Some(rp) => authz.(rolePermissions := rp, roles := SortedList(rp.Keys));
    if catalog.permissions != [] then authz.(permissions := catalog.permissions) else authz
  }

  // ---- The users, one entry after the other ----

  datatype Progress = Progress(assignments: Lists, users: map<string, User>, rel: map<Mapping, string>)

  function LocalName(appID: string, key: string): Mapping {
    Mapping("applocal:" + appID, key)
  }

  function AppLocalUser(e: UserEntry, appID: string): User {
    User(e.displayName, e.email, e.passwordHash, "", [], "", appID)
  }

  /** A name mapped to the empty GUID reads as not mapped. */
  predicate Unmapped(rel: map<Mapping, string>, m: Mapping) {
    m !in rel || rel[m] == ""
  }

  function ImportEntry(p: Progress, appID: string, e: UserEntry, id: string): Progress {
    if !BearsRoles(e) then p
    else
      var m := LocalName(appID, e.key);
      var q := if Materialized(e) && Unmapped(p.rel, m)
               then p.(users := p.users[id := AppLocalUser(e, appID)], rel := p.rel[m := id])
               else p;
      q.(assignments := q.assignments[e.key := e.roles])
  }

  /** `ids[i]` is the GUID drawn for entry i, should it need one. */
  function ImportAll(p: Progress, appID: string, entries: seq<UserEntry>, ids: seq<string>): Progress
    requires |entries| <= |ids|
  {
    if entries == [] then p
    else
      var n := |entries| - 1;
      ImportEntry(ImportAll(p, appID, entries[..n], ids), appID, entries[n], ids[n])
  }

  // ---- What is counted ----

  function Granting(entries: seq<UserEntry>): set<int> {
    set i | 0 <= i < |entries| && BearsRoles(entries[i])
  }

  function Roleless(entries: seq<UserEntry>): set<int> {
    set i | 0 <= i < |entries| && !BearsRoles(entries[i])
  }

  function GrantingOfKind(entries: seq<UserEntry>, kind: UserKind): set<int> {
    set i | 0 <= i < |entries| && BearsRoles(entries[i]) && entries[i].kind == kind
  }

  function GrantingKnown(entries: seq<UserEntry>, known: set<string>): set<int> {
    set i | 0 <= i < |entries| && BearsRoles(entries[i]) && entries[i].kind == KindAD && entries[i].key in known
  }

  /** The local names that get an account: role-bearing, and not mapped when the import starts. */
  function NewKeys(rel: map<Mapping, string>, appID: string, entries: seq<UserEntry>): set<string> {
    set e | e in entries && Materialized(e) && Unmapped(rel, LocalName(appID, e.key)) :: e.key
  }

  datatype ApplyResult = ApplyResult(rolesDefined: nat, assignmentsSet: nat, localUsersCreated: nat, skipped: nat)

  ghost function AfterApply(c: Central, b: Bundle, appID: string, defaultAppID: string, carrySecret: bool,
                            ids: seq<string>)
    : Result<Central, Refusal>
    requires |b.users| <= |ids|
  {
    if appID !in c.apps then Err(UnknownTarget)
    else match CarriedAudience(c.apps, c.apps[appID], defaultAppID, b.app.audience)
      case Err(e) => Err(e)
      case Ok(aud) =>
        var authz := CatalogAfter(AuthzOf(c, appID), b.catalog);
        var p := ImportAll(Progress(authz.userAssignments, c.users, c.rel), appID, b.users, ids);
        Ok(Central(c.apps[appID := AppAfter(c.apps[appID], b, aud, carrySecret)],
                   c.authz[appID := authz.(userAssignments := p.assignments)], p.users, p.rel, c.ad))
  }

  ghost function ApplyCounts(c: Central, b: Bundle, appID: string): ApplyResult {
    ApplyResult(|CatalogAfter(AuthzOf(c, appID), b.catalog).roles|, |Granting(b.users)|,
                |NewKeys(c.rel, appID, b.users)|, |Roleless(b.users)|)
  }

  // ---- The dry run ----

  datatype Reason = TargetInUse | AudienceConflict | NoDirectory | OtherDirectory

  datatype BlockedUser = BlockedUser(key: string, reason: Reason)

  datatype Report = Report(
    adUsersSameDomain: nat, adUsersKnown: nat, localUsers: nat, noRoles: nat,
    blocked: seq<BlockedUser>, audienceToApply: string)

  const NO_REPORT := Report(0, 0, 0, 0, [], "")

  predicate InUse(authz: AppAuthz) {
    authz.userAssignments != map[] || authz.groupAssignments != map[] || authz.rolePermissions != map[]
    || authz.roles != [] || authz.permissions != []
  }

  predicate HasAD(ad: Option<ADInfo>) {
    ad.Some? && (ad.value.domain != "" || ad.value.baseDN != "")
  }

  function Fold(s: string): string {
    seq(|s|, i requires 0 <= i < |s| => if 'A' <= s[i] <= 'Z' then (s[i] as int + 32) as char else s[i])
  }

  predicate SameADDomain(src: ADInfo, c: ADInfo) {
    if src.domain != "" && c.domain != "" then Fold(TrimSpace(src.domain)) == Fold(TrimSpace(c.domain))
    else if src.baseDN != "" && c.baseDN != "" then Fold(TrimSpace(src.baseDN)) == Fold(TrimSpace(c.baseDN))
    else false
  }

  /** Why no AD user can be satisfied here, if so. */
  function ADProblem(c: Central, b: Bundle): Option<Reason> {
    if !HasAD(c.ad) then Some(NoDirectory)
    else if b.sourceAD.None? || !SameADDomain(b.sourceAD.value, c.ad.value) then Some(OtherDirectory)
    else None
  }

  function BlockedIn(entries: seq<UserEntry>, problem: Option<Reason>): seq<BlockedUser> {
    if entries == [] then []
    else
      var e := entries[|entries| - 1];
      BlockedIn(entries[..|entries| - 1], problem)
      + if e.kind == KindAD && problem.Some? then [BlockedUser(e.key, problem.value)] else []
  }

  function KnownSAMs(users: map<string, User>): set<string> {
    (set g | g in users :: users[g].samAccountName) - {""}
  }

  function ReportOn(c: Central, b: Bundle, appID: string, defaultAppID: string): Report {
    if InUse(AuthzOf(c, appID)) then NO_REPORT.(blocked := [BlockedUser(appID, TargetInUse)])
    else
      var aud := if appID in c.apps then CarriedAudience(c.apps, c.apps[appID], defaultAppID, b.app.audience)
        else Ok("");
      if aud.Err? then NO_REPORT.(blocked := [BlockedUser(appID, AudienceConflict)])
      else
        var problem := ADProblem(c, b);
        Report(if problem.Some? then 0 else |GrantingOfKind(b.users, KindAD)|,
               if problem.Some? then 0 else |GrantingKnown(b.users, KnownSAMs(c.users))|,
               |GrantingOfKind(b.users, KindLocal)|, |Roleless(b.users)|, BlockedIn(b.users, problem), aud.value)
  }

  // One entry more, one position more in the sets it belongs to.

  lemma PrefixEntries(entries: seq<UserEntry>, i: nat)
    requires i < |entries|
    ensures |entries[..i]| == i && |entries[..i + 1]| == i + 1 && entries[..i + 1][i] == entries[i]
    ensures forall j | 0 <= j < i :: entries[..i + 1][j] == entries[..i][j] == entries[j]
  {
  }

  lemma GrantingGrows(entries: seq<UserEntry>, i: nat)
    requires i < |entries|
    ensures |Granting(entries[..i + 1])| == |Granting(entries[..i])| + if BearsRoles(entries[i]) then 1 else 0
    ensures |Roleless(entries[..i + 1])| == |Roleless(entries[..i])| + if BearsRoles(entries[i]) then 0 else 1
  {
    PrefixEntries(entries, i);
    var a, b := entries[..i], entries[..i + 1];
    assert Granting(b) == Granting(a) + if BearsRoles(entries[i]) then {i} else {};
    assert Roleless(b) == Roleless(a) + if BearsRoles(entries[i]) then {} else {i};
  }

  lemma GrantingOfKindGrows(entries: seq<UserEntry>, i: nat, kind: UserKind)
    requires i < |entries|
    ensures |GrantingOfKind(entries[..i + 1], kind)|
            == |GrantingOfKind(entries[..i], kind)| + if BearsRoles(entries[i]) && entries[i].kind == kind then 1 else 0
  {
    PrefixEntries(entries, i);
    var a, b := entries[..i], entries[..i + 1];
    assert GrantingOfKind(b, kind)
        == GrantingOfKind(a, kind) + if BearsRoles(entries[i]) && entries[i].kind == kind then {i} else {};
  }

  lemma GrantingKnownGrows(entries: seq<UserEntry>, i: nat, known: set<string>)
    requires i < |entries|
    ensures var e := entries[i];
            |GrantingKnown(entries[..i + 1], known)|
            == |GrantingKnown(entries[..i], known)|
               + if BearsRoles(e) && e.kind == KindAD && e.key in known then 1 else 0
  {
    PrefixEntries(entries, i);
    var a, b, e := entries[..i], entries[..i + 1], entries[i];
    assert GrantingKnown(b, known)
        == GrantingKnown(a, known) + if BearsRoles(e) && e.kind == KindAD && e.key in known then {i} else {};
  }

  // ---- What importing the entries amounts to ----

  /** The first entry that could create the account of `key`; the length of the list when there is none. */
  function FirstFor(entries: seq<UserEntry>, key: string): (i: nat)
    ensures i <= |entries|
    ensures i < |entries| ==> Materialized(entries[i]) && entries[i].key == key
    ensures forall j | 0 <= j < i :: !(Materialized(entries[j]) && entries[j].key == key)
  {
    if entries == [] then 0
    else
      var n := |entries| - 1;
      var i := FirstFor(entries[..n], key);
      assert forall j | 0 <= j < n :: entries[..n][j] == entries[j];
      if i < n then i else if Materialized(entries[n]) && entries[n].key == key then n else n + 1
  }

  lemma FirstForIsNew(rel: map<Mapping, string>, appID: string, entries: seq<UserEntry>, key: string)
    ensures key in NewKeys(rel, appID, entries)
            <==> FirstFor(entries, key) < |entries| && Unmapped(rel, LocalName(appID, key))
  {
    if key in NewKeys(rel, appID, entries) {
      var e :| e in entries && Materialized(e) && e.key == key;
      var j :| 0 <= j < |entries| && entries[j] == e;
    }
  }

  predicate IsNewName(rel: map<Mapping, string>, appID: string, entries: seq<UserEntry>, m: Mapping) {
    m == LocalName(appID, m.externalID) && FirstFor(entries, m.externalID) < |entries| && Unmapped(rel, m)
  }

  predicate NameAfter(p: Progress, q: Progress, appID: string, entries: seq<UserEntry>, ids: seq<string>, m: Mapping)
    requires |entries| <= |ids|
  {
    if IsNewName(p.rel, appID, entries, m) then m in q.rel && q.rel[m] == ids[FirstFor(entries, m.externalID)]
    else (m in q.rel <==> m in p.rel) && (m in p.rel ==> q.rel[m] == p.rel[m])
  }

  /** Exactly the new names are mapped, each to the GUID drawn for its first entry; every other row stays. */
  lemma {:induction false} NamesAfterImport(p: Progress, appID: string, entries: seq<UserEntry>, ids: seq<string>,
                                            m: Mapping)
    requires |entries| <= |ids| && "" !in ids
    ensures NameAfter(p, ImportAll(p, appID, entries, ids), appID, entries, ids, m)
  {
    if entries != [] {
      var n := |entries| - 1;
      NamesAfterImport(p, appID, entries[..n], ids, m);
      assert ids[n] in ids;
    }
  }

  /** The roles of the last role-bearing entry with this key. */
  function LastRoles(entries: seq<UserEntry>, key: string): seq<string> {
    if entries == [] then []
    else
      var e := entries[|entries| - 1];
      if BearsRoles(e) && e.key == key then e.roles else LastRoles(entries[..|entries| - 1], key)
  }

  /** Later entries overwrite earlier ones; a key no entry grants anything keeps what it had. */
  lemma {:induction false} AssignmentsAfterImport(p: Progress, appID: string, entries: seq<UserEntry>, ids: seq<string>,
                                                  key: string)
    requires |entries| <= |ids|
    ensures var q := ImportAll(p, appID, entries, ids);
            if LastRoles(entries, key) != [] then key in q.assignments && q.assignments[key] == LastRoles(entries, key)
            else (key in q.assignments <==> key in p.assignments)
                 && (key in p.assignments ==> q.assignments[key] == p.assignments[key])
  {
    if entries != [] {
      AssignmentsAfterImport(p, appID, entries[..|entries| - 1], ids, key);
    }
  }

  ghost predicate FreshIds(ids: seq<string>, users: map<string, User>, rel: map<Mapping, string>) {
    && NoDup(ids) && "" !in ids
    && (forall i | 0 <= i < |ids| :: ids[i] !in users)
    && (forall m | m in rel :: rel[m] !in ids)
  }

  predicate AccountAfter(p: Progress, q: Progress, appID: string, entries: seq<UserEntry>, ids: seq<string>, i: nat)
    requires |entries| <= |ids| && i < |entries|
  {
    if Materialized(entries[i]) && FirstFor(entries, entries[i].key) == i
      && Unmapped(p.rel, LocalName(appID, entries[i].key))
    then ids[i] in q.users && q.users[ids[i]] == AppLocalUser(entries[i], appID)
    else ids[i] !in q.users
  }

  /** A record whose GUID was not drawn by the import stays as it is. */
  lemma {:induction false} OthersAfterImport(p: Progress, appID: string, entries: seq<UserEntry>, ids: seq<string>,
                                             g: string)
    requires |entries| <= |ids| && forall i | 0 <= i < |entries| :: ids[i] != g
    ensures var q := ImportAll(p, appID, entries, ids);
            (g in q.users <==> g in p.users) && (g in p.users ==> q.users[g] == p.users[g])
  {
    if entries != [] { OthersAfterImport(p, appID, entries[..|entries| - 1], ids, g); }
  }

  /** The accounts created are exactly those of the first entries of new names. */
  lemma {:induction false} AccountsAfterImport(p: Progress, appID: string, entries: seq<UserEntry>, ids: seq<string>,
                                               i: nat)
    requires i < |entries| <= |ids| && FreshIds(ids, p.users, p.rel)
    ensures AccountAfter(p, ImportAll(p, appID, entries, ids), appID, entries, ids, i)
  {
    var n := |entries| - 1;
    NamesAfterImport(p, appID, entries[..n], ids, LocalName(appID, entries[n].key));
    if i < n {
      AccountsAfterImport(p, appID, entries[..n], ids, i);
      assert entries[..n][i] == entries[i];
      assert ids[n] != ids[i];
    } else {
      OthersAfterImport(p, appID, entries[..n], ids, ids[n]);
    }
  }

  /** An entry finds its name unmapped exactly when it adds a new key. */
  lemma NewKeysGrow(p: Progress, appID: string, entries: seq<UserEntry>, ids: seq<string>, i: nat)
    requires i < |entries| <= |ids| && "" !in ids
    ensures var e := entries[i];
            |NewKeys(p.rel, appID, entries[..i + 1])| == |NewKeys(p.rel, appID, entries[..i])|
            + if Materialized(e) && Unmapped(ImportAll(p, appID, entries[..i], ids).rel, LocalName(appID, e.key))
              then 1 else 0
  {
    var e, m := entries[i], LocalName(appID, entries[i].key);
    var before, now := NewKeys(p.rel, appID, entries[..i]), NewKeys(p.rel, appID, entries[..i + 1]);
    var stillUnmapped := Unmapped(ImportAll(p, appID, entries[..i], ids).rel, m);
    assert stillUnmapped <==> Unmapped(p.rel, m) && e.key !in before by {
      NamesAfterImport(p, appID, entries[..i], ids, m);
      FirstForIsNew(p.rel, appID, entries[..i], e.key);
      assert FirstFor(entries[..i], e.key) < i ==> ids[FirstFor(entries[..i], e.key)] in ids;
    }
    assert entries[..i + 1] == entries[..i] + [e];
    assert now == before + if Materialized(e) && Unmapped(p.rel, m) then {e.key} else {};
    if Materialized(e) && stillUnmapped {
      assert |before + {e.key}| == |before| + 1;
    } else {
      assert now == before;
    }
  }

  /** The user loop of Classify: a roleless user is only counted as such, but may still be blocked. */
  method CountUsers(entries: seq<UserEntry>, problem: Option<Reason>, known: set<string>) returns (r: Report)
    ensures r == Report(if problem.Some? then 0 else |GrantingOfKind(entries, KindAD)|,
                        if problem.Some? then 0 else |GrantingKnown(entries, known)|,
                        |GrantingOfKind(entries, KindLocal)|, |Roleless(entries)|, BlockedIn(entries, problem), "")
  {
    var sameDomain, knownHere, locals, noRoles, blocked := 0, 0, 0, 0, [];
    for i := 0 to |entries|
      invariant sameDomain == if problem.Some? then 0 else |GrantingOfKind(entries[..i], KindAD)|
      invariant knownHere == if problem.Some? then 0 else |GrantingKnown(entries[..i], known)|
      invariant locals == |GrantingOfKind(entries[..i], KindLocal)|
      invariant noRoles == |Roleless(entries[..i])|
      invariant blocked == BlockedIn(entries[..i], problem)
    {
      var e := entries[i];
      GrantingGrows(entries, i);
      GrantingOfKindGrows(entries, i, KindLocal);
      GrantingOfKindGrows(entries, i, KindAD);
      GrantingKnownGrows(entries, i, known);
      assert entries[..i + 1][..i] == entries[..i];
      var migrating := |e.roles| > 0;
      if !migrating { noRoles := noRoles + 1; }
      match e.kind {
        case KindLocal => if migrating { locals := locals + 1; }
        case KindAD =>
          if problem.Some? {
            blocked := blocked + [BlockedUser(e.key, problem.value)];
          } else if migrating {
            sameDomain := sameDomain + 1;
            if e.key in known { knownHere := knownHere + 1; }
          }
        case KindOther =>
      }
    }
    assert entries[..|entries|] == entries;
    return Report(sameDomain, knownHere, locals, noRoles, blocked, "");
  }

  class CentralStore {
    var apps: map<string, App>
    var authz: map<string, AppAuthz>
    var users: map<string, User>
    var rel: map<Mapping, string>
    var ad: Option<ADInfo>

    function State(): Central
      reads this
    {
      Central(apps, authz, users, rel, ad)
    }

    method KnownNames() returns (known: set<string>)
      ensures known == KnownSAMs(users)
    {
      known := {};
      var todo := users.Keys;
      while todo != {}
        invariant todo <= users.Keys
        invariant known == (set g | g in users && g !in todo :: users[g].samAccountName) - {""}
        decreases todo
      {
        var g :| g in todo;
        if users[g].samAccountName != "" { known := known + {users[g].samAccountName}; }
        todo := todo - {g};
      }
    }

    /** The dry run writes nothing. */
    method Classify(b: Bundle, appID: string, defaultAppID: string) returns (r: Report)
      ensures r == ReportOn(State(), b, appID, defaultAppID)
    {
      r := NO_REPORT;
      if InUse(AuthzOf(State(), appID)) {
        return r.(blocked := [BlockedUser(appID, TargetInUse)]);
      }
      if appID in apps {
        var aud := ResolveCarriedAudience(apps, apps[appID], defaultAppID, b.app.audience);
        if aud.Err? { return r.(blocked := [BlockedUser(appID, AudienceConflict)]); }
        r := r.(audienceToApply := aud.value);
      }
      var problem := ADProblem(State(), b);
      var known := KnownNames();
      var counted := CountUsers(b.users, problem, known);
      return counted.(audienceToApply := r.audienceToApply);
    }

    /** Nothing is written before the audience is accepted. */
    method Apply(b: Bundle, appID: string, defaultAppID: string, carrySecret: bool, ids: seq<string>)
      returns (r: Result<ApplyResult, Refusal>)
      requires |ids| == |b.users| && FreshIds(ids, users, rel)
      modifies this
      ensures match AfterApply(old(State()), b, appID, defaultAppID, carrySecret, ids)
              case Ok(after) => State() == after && r == Ok(ApplyCounts(old(State()), b, appID))
              case Err(e) => State() == old(State()) && r == Err(e)
    {
      if appID !in apps { return Err(UnknownTarget); }
      var app := apps[appID];
      var aud := ResolveCarriedAudience(apps, app, defaultAppID, b.app.audience);
      if aud.Err? { return Err(aud.error); }
      apps := apps[appID := AppAfter(app, b, aud.value, carrySecret)];
      var target := AuthzOf(State(), appID);
      ghost var base := CatalogAfter(target, b.catalog);
      if b.catalog.rolePermissions.Some? {
        var names := SortedKeys(b.catalog.rolePermissions.value.Keys);
        target := target.(rolePermissions := b.catalog.rolePermissions.value, roles := names);
      }
      if |b.catalog.permissions| > 0 { target := target.(permissions := b.catalog.permissions); }
      assert target == base;
      var counts := ImportUsers(b.users, appID, ids, target);
      return Ok(counts);
    }

    /** The user loop of Apply, and the final save of the target's authz. */
    method ImportUsers(entries: seq<UserEntry>, appID: string, ids: seq<string>, base: AppAuthz)
      returns (counts: ApplyResult)
      requires |ids| == |entries| && FreshIds(ids, users, rel)
      modifies this`users, this`rel, this`authz
      ensures var p := ImportAll(Progress(base.userAssignments, old(users), old(rel)), appID, entries, ids);
              && users == p.users && rel == p.rel
              && authz == old(authz)[appID := base.(userAssignments := p.assignments)]
      ensures counts == ApplyResult(|base.roles|, |Granting(entries)|, |NewKeys(old(rel), appID, entries)|,
                                    |Roleless(entries)|)
    {
      var assignments := base.userAssignments;
      var granted, created, skipped := 0, 0, 0;
      ghost var p := Progress(assignments, users, rel);
      for i := 0 to |entries|
        invariant authz == old(authz)
        invariant Progress(assignments, users, rel) == ImportAll(p, appID, entries[..i], ids)
        invariant granted == |Granting(entries[..i])|
        invariant skipped == |Roleless(entries[..i])|
        invariant created == |NewKeys(p.rel, appID, entries[..i])|
      {
        var e := entries[i];
        assert entries[..i + 1][..i] == entries[..i];
        GrantingGrows(entries, i);
        NewKeysGrow(p, appID, entries, ids, i);
        if |e.roles| == 0 {
          skipped := skipped + 1;
          continue;
        }
        if e.kind == KindLocal {
          var m := LocalName(appID, e.key);
          var existing := if m in rel then rel[m] else "";
          if existing == "" {
            users := users[ids[i] := AppLocalUser(e, appID)];
            rel := rel[m := ids[i]];
            created := created + 1;
          }
        }
        assignments := assignments[e.key := e.roles];
        granted := granted + 1;
      }
      assert entries[..|entries|] == entries;
      authz := authz[appID := base.(userAssignments := assignments)];
      counts := ApplyResult(|base.roles|, granted, created, skipped);
    }
  }
}
