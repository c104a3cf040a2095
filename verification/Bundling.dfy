/** Packaging a standalone deployment: which users travel, under which key, with which roles and which secret. */
module Bundling {
  import opened Prelude
  import opened MappingKeys
  import opened RelationStore
  import opened TokenRoles

  /** The kind arrives as free text; anything but the two known words is another kind. */
  datatype UserKind = KindAD | KindLocal | KindOther

  datatype UserEntry = UserEntry(
    kind: UserKind,
    key: string,
    roles: seq<string>,
    directPerms: seq<string>,
    displayName: string,
    email: string,
    passwordHash: string,
    hadLocalPassword: bool)

  datatype ADInfo = ADInfo(domain: string, baseDN: string)

  /** baseURL and icon are what validation makes of the carried text: None when it is empty or refused. */
  datatype AppConfig = AppConfig(
    audience: string,
    redirectURIs: seq<string>,
    corsOrigins: seq<string>,
    secretHash: string,
    requireAssignment: bool,
    baseURL: Option<string>,
    displayName: map<string, string>,
    category: string,
    icon: Option<string>)

  const NO_CONFIG := AppConfig("", [], [], "", false, None, map[], "", None)

  /** A nil role map leaves the target's alone; an empty one replaces it. */
  datatype Catalog = Catalog(rolePermissions: Option<Lists>, permissions: seq<string>, defaultRoles: seq<string>)

  datatype Bundle = Bundle(sourceAD: Option<ADInfo>, app: AppConfig, catalog: Catalog, users: seq<UserEntry>)

  /**
   A standalone deployment as Package reads it: users in the order the backend lists them, each user's mappings in the
   order the backend returns them, and the users whose mappings cannot be read.
   */
  datatype Home = Home(
    ad: Option<ADInfo>,
    app: Option<App>,
    users: map<string, User>,
    listing: seq<string>,
    mappings: map<string, seq<Mapping>>,
    unreadable: set<string>,
    global: Global,
    permissions: seq<string>)

  ghost predicate ValidHome(h: Home) {
    NoDup(h.listing) && Elements(h.listing) == h.users.Keys
  }

  /** The home app's row, or the one made up when it has none. */
  function HomeApp(h: Home, homeAppID: string): App {
    match h.app
    case Some(a) => a
    case None => App(homeAppID, homeAppID, "", [], [], false, false, "", map[], "", "")
  }

  function MappingsOf(h: Home, guid: string): seq<Mapping> {
    if guid in h.mappings then h.mappings[guid] else []
  }

  // ---- The directory key ----

  predicate HasPrefix(s: string, prefix: string) {
    prefix <= s
  }

  predicate IsDirectoryProvider(provider: string) {
    provider == "ldap" || provider == "kerberos" || HasPrefix(provider, "ldap:") || HasPrefix(provider, "kerberos:")
  }

  predicate IsCandidate(m: Mapping) {
    IsDirectoryProvider(m.provider) && m.externalID != ""
  }

  function Candidates(mappings: set<Mapping>): set<string> {
    set m | m in mappings && IsCandidate(m) :: m.externalID
  }

  /** A bare name goes before a name@realm; within a form, the string order decides. */
  predicate Preferred(a: string, b: string) {
    if ('@' in a) != ('@' in b) then '@' in b else Before(a, b)
  }

  lemma PreferredTotal(a: string, b: string)
    ensures a != b ==> Preferred(a, b) || Preferred(b, a)
    ensures !(Preferred(a, b) && Preferred(b, a))
  {
    BeforeTrichotomy(a, b);
  }

  lemma PreferredTransitive(a: string, b: string, c: string)
    requires Preferred(a, b) && Preferred(b, c)
    ensures Preferred(a, c)
  {
    if Before(a, b) && Before(b, c) { BeforeTransitive(a, b, c); }
  }

  ghost predicate IsKeyOf(key: string, candidates: set<string>) {
    if candidates == {} then key == ""
    else key in candidates && forall c | c in candidates && c != key :: Preferred(key, c)
  }

  /** The candidates alone decide the key. */
  lemma KeyUnique(a: string, b: string, candidates: set<string>)
    requires IsKeyOf(a, candidates) && IsKeyOf(b, candidates)
    ensures a == b
  {
    PreferredTotal(a, b);
  }

  lemma NewFront(candidates: set<string>, key: string, front: string)
    requires IsKeyOf(key, candidates) && (candidates == {} || Preferred(front, key))
    ensures IsKeyOf(front, candidates + {front})
  {
    forall c | c in candidates && c != front ensures Preferred(front, c) {
      if c != key { PreferredTransitive(front, key, c); }
    }
  }

  lemma {:induction false} KeyExists(candidates: set<string>)
    ensures exists key :: IsKeyOf(key, candidates)
  {
    if candidates == {} {
      assert IsKeyOf("", candidates);
    } else {
      var c :| c in candidates;
      var rest := candidates - {c};
      KeyExists(rest);
      var key :| IsKeyOf(key, rest);
      assert candidates == rest + {c};
      PreferredTotal(c, key);
      if rest == {} || Preferred(c, key) {
        NewFront(rest, key, c);
        assert IsKeyOf(c, candidates);
      } else {
        assert IsKeyOf(key, candidates);
      }
    }
  }

  /** The head of the sorted candidates, for mappings in any order and with any repetition. */
  method MappedKey(mappings: seq<Mapping>) returns (key: string)
    ensures IsKeyOf(key, Candidates(Elements(mappings)))
  {
    key := "";
    for i := 0 to |mappings|
      invariant IsKeyOf(key, Candidates(Elements(mappings[..i]))) && "" !in Candidates(Elements(mappings[..i]))
    {
      var m := mappings[i];
      ghost var before := Candidates(Elements(mappings[..i]));
      assert Elements(mappings[..i + 1]) == Elements(mappings[..i]) + {m};
      assert Candidates(Elements(mappings[..i + 1])) == before + if IsCandidate(m) then {m.externalID} else {};
      if IsCandidate(m) {
        if key == "" || Preferred(m.externalID, key) {
          NewFront(before, key, m.externalID);
          key := m.externalID;
        } else {
          PreferredTotal(key, m.externalID);
        }
      }
    }
    assert mappings[..|mappings|] == mappings;
  }

  /** sAMAccountName if there is one, else the preferred directory name: a function of the SET of mappings. */
  ghost function DirectoryKey(sam: string, mappings: set<Mapping>): (key: string)
    ensures sam != "" ==> key == sam
    ensures sam == "" ==> IsKeyOf(key, Candidates(mappings))
    ensures key == "" <==> !HasDirectoryIdentity(sam, mappings)
  {
    if sam != "" then sam
    else
      KeyExists(Candidates(mappings));
      var key :| IsKeyOf(key, Candidates(mappings));
      assert HasDirectoryIdentity(sam, mappings) ==>
          exists m :: m in mappings && IsCandidate(m) && m.externalID in Candidates(mappings);
      key
  }

  predicate HasDirectoryIdentity(sam: string, mappings: set<Mapping>) {
    sam != "" || exists m | m in mappings :: IsCandidate(m)
  }

  // ---- The login name of a local user ----

  function FirstUnder(mappings: seq<Mapping>, provider: string, prefix: bool): Option<string> {
    if mappings == [] then None
    else if mappings[0].provider == provider || (prefix && HasPrefix(mappings[0].provider, provider))
    then Some(mappings[0].externalID)
    else FirstUnder(mappings[1..], provider, prefix)
  }

  function LocalUsername(u: User, mappings: seq<Mapping>): string {
    var under := FirstUnder(mappings, "local", false);
    var underApp := FirstUnder(mappings, "applocal:", true);
    if under.Some? then under.value
    else if underApp.Some? then underApp.value
    else if u.samAccountName != "" then u.samAccountName
    else u.email
  }

  method FindUsername(u: User, mappings: seq<Mapping>) returns (name: string)
    ensures name == LocalUsername(u, mappings)
  {
    for i := 0 to |mappings|
      invariant FirstUnder(mappings, "local", false) == FirstUnder(mappings[i..], "local", false)
    {
      if mappings[i].provider == "local" { return mappings[i].externalID; }
    }
    for i := 0 to |mappings|
      invariant FirstUnder(mappings, "applocal:", true) == FirstUnder(mappings[i..], "applocal:", true)
    {
      if HasPrefix(mappings[i].provider, "applocal:") { return mappings[i].externalID; }
    }
    return if u.samAccountName != "" then u.samAccountName else u.email;
  }

  // ---- Classifying a user ----

  function ADEntry(key: string, roles: seq<string>, direct: seq<string>, hadPassword: bool): UserEntry {
    UserEntry(KindAD, key, roles, direct, "", "", "", hadPassword)
  }

  function LocalEntry(u: User, key: string, roles: seq<string>, direct: seq<string>): UserEntry {
    UserEntry(KindLocal, key, roles, direct, u.displayName, u.email, u.passwordHash, false)
  }

  /** The directory identity decides first; mappings that cannot be read leave the user behind. */
  ghost function Classified(h: Home, guid: string, u: User): Option<UserEntry> {
    var roles, direct := EffectiveRoles(h.global, guid), At(h.global.userPermissions, guid);
    var mappings := MappingsOf(h, guid);
    if u.ownerAppID == "" && u.samAccountName == "" && guid in h.unreadable then None
    else if u.ownerAppID == "" && DirectoryKey(u.samAccountName, Elements(mappings)) != "" then
      Some(ADEntry(DirectoryKey(u.samAccountName, Elements(mappings)), roles, direct, u.passwordHash != ""))
    else if u.passwordHash == "" || guid in h.unreadable || LocalUsername(u, mappings) == "" then None
    else Some(LocalEntry(u, LocalUsername(u, mappings), roles, direct))
  }

  method ClassifyUser(h: Home, guid: string, u: User) returns (entry: Option<UserEntry>)
    ensures entry == Classified(h, guid, u)
  {
    var roles := At(h.global.userRoles, guid);
    if |roles| == 0 { roles := h.global.defaultRoles; }
    var direct := At(h.global.userPermissions, guid);
    if u.ownerAppID == "" {
      var key := u.samAccountName;
      if key == "" {
        if guid in h.unreadable { return None; }
        key := MappedKey(MappingsOf(h, guid));
        KeyUnique(key, DirectoryKey("", Elements(MappingsOf(h, guid))), Candidates(Elements(MappingsOf(h, guid))));
      }
      if key != "" { return Some(ADEntry(key, roles, direct, u.passwordHash != "")); }
    }
    if u.passwordHash != "" {
      if guid in h.unreadable { return None; }
      var name := FindUsername(u, MappingsOf(h, guid));
      if name == "" { return None; }
      return Some(LocalEntry(u, name, roles, direct));
    }
    return None;
  }

  /** Merged-away records and the local users of other apps stay behind. */
  predicate Eligible(u: User, homeAppID: string) {
    u.mergedInto == "" && (u.ownerAppID == "" || u.ownerAppID == homeAppID)
  }

  ghost function Travelling(h: Home, homeAppID: string, guid: string): Option<UserEntry>
    requires guid in h.users
  {
    if Eligible(h.users[guid], homeAppID) then Classified(h, guid, h.users[guid]) else None
  }

  ghost function EntriesOf(h: Home, homeAppID: string, listing: seq<string>): seq<UserEntry>
    requires Elements(listing) <= h.users.Keys
  {
    if listing == [] then []
    else
      var guid := listing[|listing| - 1];
      assert guid in Elements(listing);
      assert Elements(listing[..|listing| - 1]) <= Elements(listing);
      EntriesOf(h, homeAppID, listing[..|listing| - 1])
      + match Travelling(h, homeAppID, guid) case None => [] case Some(e) => [e]
  }

  function CarriedConfig(app: Option<App>): AppConfig {
    match app
    case None => NO_CONFIG
    case Some(a) =>
      AppConfig(AppAudience(a), a.redirectURIs, a.corsOrigins, a.secretHash, a.requireAssignment,
                if a.baseURL == "" then None else Some(a.baseURL), a.displayName, a.category,
                if a.icon == "" then None else Some(a.icon))
  }

  function CarriedAD(ad: Option<ADInfo>): Option<ADInfo> {
    if ad.Some? && (ad.value.domain != "" || ad.value.baseDN != "") then ad else None
  }

  function CarriedCatalog(h: Home): Catalog {
    Catalog(Some(h.global.rolePermissions), h.permissions, h.global.defaultRoles)
  }

  ghost function Packaged(h: Home, homeAppID: string): Bundle
    requires ValidHome(h)
  {
    Bundle(CarriedAD(h.ad), CarriedConfig(h.app), CarriedCatalog(h), EntriesOf(h, homeAppID, h.listing))
  }

  method Package(h: Home, homeAppID: string) returns (b: Bundle)
    requires ValidHome(h)
    ensures b == Packaged(h, homeAppID)
  {
    var users := [];
    for i := 0 to |h.listing|
      invariant users == EntriesOf(h, homeAppID, h.listing[..i])
    {
      assert h.listing[..i + 1][..i] == h.listing[..i];
      assert h.listing[i] in Elements(h.listing);
      var guid := h.listing[i];
      var u := h.users[guid];
      if u.mergedInto != "" { continue; }
      if u.ownerAppID != "" && u.ownerAppID != homeAppID { continue; }
      var entry := ClassifyUser(h, guid, u);
      if entry.Some? { users := users + [entry.value]; }
    }
    assert h.listing[..|h.listing|] == h.listing;
    b := Bundle(CarriedAD(h.ad), CarriedConfig(h.app), CarriedCatalog(h), users);
  }

  // ---- What a packaged bundle holds ----

  /** The entries are exactly the travelling users' own, one each. */
  lemma {:induction false} EntryHasSource(h: Home, homeAppID: string, listing: seq<string>, i: nat)
    returns (guid: string)
    requires Elements(listing) <= h.users.Keys && i < |EntriesOf(h, homeAppID, listing)|
    ensures guid in listing && guid in h.users
            && Travelling(h, homeAppID, guid) == Some(EntriesOf(h, homeAppID, listing)[i])
  {
    var last := listing[|listing| - 1];
    assert last in Elements(listing);
    assert Elements(listing[..|listing| - 1]) <= Elements(listing);
    if i < |EntriesOf(h, homeAppID, listing[..|listing| - 1])| {
      guid := EntryHasSource(h, homeAppID, listing[..|listing| - 1], i);
    } else {
      guid := last;
    }
  }

  lemma {:induction false} SourceHasEntry(h: Home, homeAppID: string, listing: seq<string>, guid: string)
    requires Elements(listing) <= h.users.Keys && guid in listing && guid in h.users
    requires Travelling(h, homeAppID, guid).Some?
    ensures Travelling(h, homeAppID, guid).value in EntriesOf(h, homeAppID, listing)
  {
    assert Elements(listing[..|listing| - 1]) <= Elements(listing);
    if guid != listing[|listing| - 1] {
      assert guid in listing[..|listing| - 1];
      SourceHasEntry(h, homeAppID, listing[..|listing| - 1], guid);
    }
  }

  /** No directory identity that could be established, or an owning app: then, and only then, may a hash leave. */
  ghost predicate MayCarryHash(h: Home, guid: string, u: User) {
    u.ownerAppID != "" || !HasDirectoryIdentity(u.samAccountName, Elements(MappingsOf(h, guid)))
  }

  /**
   A hash travels exactly for a user that holds one, whose mappings could be read, who has an owner or no directory
   identity at all, and whom some login name identifies.
   */
  lemma HashTravelsIff(h: Home, guid: string, u: User)
    ensures var e := Classified(h, guid, u);
            (e.Some? && e.value.passwordHash != "")
            <==> (u.passwordHash != "" && guid !in h.unreadable && MayCarryHash(h, guid, u)
                  && LocalUsername(u, MappingsOf(h, guid)) != "")
  {
  }

  /** Every hash in a packaged bundle is the hash of an eligible user who may carry it. */
  lemma HashesInBundle(h: Home, homeAppID: string, i: nat) returns (guid: string)
    requires ValidHome(h)
    requires var users := Packaged(h, homeAppID).users; i < |users| && users[i].passwordHash != ""
    ensures guid in h.users && Eligible(h.users[guid], homeAppID) && MayCarryHash(h, guid, h.users[guid])
    ensures var e := Packaged(h, homeAppID).users[i];
            e.kind == KindLocal && e.passwordHash == h.users[guid].passwordHash && guid !in h.unreadable
  {
    guid := EntryHasSource(h, homeAppID, h.listing, i);
    HashTravelsIff(h, guid, h.users[guid]);
  }

  // ---- What the answers mean ----

  /** A provider is a directory's exactly when the word before its first colon, or all of it, is ldap or kerberos. */
  lemma DirectoryProviderIff(provider: string)
    ensures var i := FirstColon(provider);
            var word := if i < 0 then provider else provider[..i];
            IsDirectoryProvider(provider) <==> word == "ldap" || word == "kerberos"
  {
    var i := FirstColon(provider);
    WordBefore(provider, "ldap");
    WordBefore(provider, "kerberos");
  }

  lemma WordBefore(provider: string, word: string)
    requires ':' !in word
    ensures var i := FirstColon(provider);
            provider == word || HasPrefix(provider, word + ":")
            <==> (if i < 0 then provider else provider[..i]) == word
  {
    var i := FirstColon(provider);
    if HasPrefix(provider, word + ":") {
      assert provider[|word|] == (word + ":")[|word|] == ':';
      assert provider[..|word|] == word by {
        assert forall k | 0 <= k < |word| :: provider[k] == (word + ":")[k];
      }
      FirstColonUnique(provider, |word|);
    }
    if i >= 0 && provider[..i] == word {
      assert provider[..i + 1] == word + ":";
    }
  }

  /** Among a user's directory names a bare one wins over a name@realm, and otherwise the string order decides. */
  lemma BareNameWins(mappings: set<Mapping>, bare: Mapping, other: Mapping)
    requires bare in mappings && IsCandidate(bare) && '@' !in bare.externalID
    ensures '@' !in DirectoryKey("", mappings)
    ensures var key := DirectoryKey("", mappings);
            other in mappings && IsCandidate(other) && '@' !in other.externalID && other.externalID != key ==>
              Before(key, other.externalID)
  {
    assert bare.externalID in Candidates(mappings);
    var key := DirectoryKey("", mappings);
    if other in mappings && IsCandidate(other) { assert other.externalID in Candidates(mappings); }
  }

  /** The directory key is the user's: the account name, or the external id of one of the directory mappings. */
  lemma DirectoryKeyIsTheUsers(sam: string, mappings: set<Mapping>)
    requires DirectoryKey(sam, mappings) != ""
    ensures if sam != "" then DirectoryKey(sam, mappings) == sam
            else exists m :: m in mappings && IsDirectoryProvider(m.provider)
                             && m.externalID == DirectoryKey(sam, mappings)
  {
    if sam == "" {
      var m :| m in mappings && IsCandidate(m) && m.externalID == DirectoryKey(sam, mappings);
    }
  }

  /** Merged-away records and other apps' local users never travel; nobody else is kept back for who they are. */
  lemma WhoStaysBehind(h: Home, homeAppID: string, guid: string)
    requires guid in h.users
    ensures var u := h.users[guid];
            if u.mergedInto != "" || (u.ownerAppID != "" && u.ownerAppID != homeAppID)
            then Travelling(h, homeAppID, guid).None?
            else Travelling(h, homeAppID, guid) == Classified(h, guid, u)
  {
  }

  /**
   A user is left out exactly when the mappings a decision needs cannot be read, or, without a directory identity, when
   there is no password or no login name. An account name alone decides without reading the mappings.
   */
  lemma LeftOutIff(h: Home, guid: string, u: User)
    ensures var ms := MappingsOf(h, guid);
            var directory := u.ownerAppID == "" && HasDirectoryIdentity(u.samAccountName, Elements(ms));
            Classified(h, guid, u).None?
            <==> || (u.ownerAppID == "" && u.samAccountName == "" && guid in h.unreadable)
                 || (!directory && (u.passwordHash == "" || guid in h.unreadable || LocalUsername(u, ms) == ""))
  {
  }

  /** What an entry says of its user: a directory entry no personal data, a local one the name, email and hash. */
  lemma EntryTells(h: Home, guid: string, u: User)
    requires Classified(h, guid, u).Some?
    ensures var e := Classified(h, guid, u).value;
            && e.roles == (if At(h.global.userRoles, guid) != [] then At(h.global.userRoles, guid)
                           else h.global.defaultRoles)
            && e.directPerms == At(h.global.userPermissions, guid)
            && (e.kind == KindAD ==>
                  && e.key == DirectoryKey(u.samAccountName, Elements(MappingsOf(h, guid))) && u.ownerAppID == ""
                  && e.displayName == "" && e.email == "" && e.passwordHash == ""
                  && (e.hadLocalPassword <==> u.passwordHash != ""))
            && (e.kind == KindLocal ==>
                  && e.key == LocalUsername(u, MappingsOf(h, guid)) && e.key != ""
                  && e.displayName == u.displayName && e.email == u.email && e.passwordHash == u.passwordHash
                  && !e.hadLocalPassword)
            && (e.kind == KindAD || e.kind == KindLocal)
  {
  }

  /** A home app that is registered carries each of its settings; one that is not carries none. */
  lemma ConfigCarries(app: Option<App>)
    ensures app.None? ==> CarriedConfig(app) == NO_CONFIG
    ensures app.Some? ==>
              var a, c := app.value, CarriedConfig(app);
              && c.audience == (if a.audience != "" then a.audience else a.appID)
              && c.redirectURIs == a.redirectURIs && c.corsOrigins == a.corsOrigins && c.secretHash == a.secretHash
              && c.requireAssignment == a.requireAssignment && c.displayName == a.displayName
              && c.category == a.category
              && (c.baseURL == if a.baseURL == "" then None else Some(a.baseURL))
              && (c.icon == if a.icon == "" then None else Some(a.icon))
  {
  }

  /** The catalogue and, of a connected directory, the binding travel with the users. */
  lemma BundleCarries(h: Home, homeAppID: string)
    requires ValidHome(h)
    ensures var b := Packaged(h, homeAppID);
            && b.catalog.rolePermissions == Some(h.global.rolePermissions) && b.catalog.permissions == h.permissions
            && b.catalog.defaultRoles == h.global.defaultRoles && b.app == CarriedConfig(h.app)
            && (b.sourceAD.Some? <==> h.ad.Some? && (h.ad.value.domain != "" || h.ad.value.baseDN != ""))
            && (b.sourceAD.Some? ==> b.sourceAD == h.ad)
  {
  }

  /** The entries stand in listing order: entry i is that of the user at position at[i], and the positions rise. */
  ghost predicate Positions(h: Home, homeAppID: string, listing: seq<string>, entries: seq<UserEntry>, at: seq<nat>) {
    && |at| == |entries|
    && (forall i | 0 <= i < |at| :: at[i] < |listing| && listing[at[i]] in h.users
          && Travelling(h, homeAppID, listing[at[i]]) == Some(entries[i]))
    && (forall i, j | 0 <= i < j < |at| :: at[i] < at[j])
  }

  lemma {:induction false} EntriesInListingOrder(h: Home, homeAppID: string, listing: seq<string>)
    returns (at: seq<nat>)
    requires Elements(listing) <= h.users.Keys
    ensures Positions(h, homeAppID, listing, EntriesOf(h, homeAppID, listing), at)
  {
    if listing == [] {
      at := [];
    } else {
      var most, last := listing[..|listing| - 1], listing[|listing| - 1];
      assert last in Elements(listing) && Elements(most) <= Elements(listing);
      var prior := EntriesInListingOrder(h, homeAppID, most);
      at := if Travelling(h, homeAppID, last).Some? then prior + [|most|] else prior;
      assert forall i | 0 <= i < |prior| :: listing[prior[i]] == most[prior[i]];
    }
  }
}
