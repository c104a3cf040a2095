/**
 The single-use migration token: minted per target app, checked by the commit guard, spent before the import.
 Commits exclude each other; minting and app administration interleave with them store call by store call.
 */
module MigrationToken {
  import opened Prelude

  /** The stored record; the hash is as good as the token. `createdAt` pins the app instance it was minted for. */
  datatype Record = Record(token: string, expiresAt: int, used: bool, createdAt: int)

  datatype Instance = Instance(createdAt: int, disabled: bool)

  type Records = map<string, Record>

  predicate Authenticates(records: Records, appID: string, app: Instance, token: string, now: int) {
    && token != "" && appID in records
    && var r := records[appID];
    && !r.used && now <= r.expiresAt && r.createdAt == app.createdAt && r.token == token
  }

  function Spend(records: Records, appID: string): Records {
    if appID in records then records[appID := records[appID].(used := true)] else records
  }

  class MigrationDesk {
    const defaultAppID: string
    const ttl: int
    var apps: map<string, Instance>
    var records: Records

    /** `raw` is the freshly drawn token. */
    method GenMigrationToken(appID: string, raw: string, now: int) returns (issued: bool)
      modifies this`records
      ensures issued <==> appID != defaultAppID && appID in apps
      ensures records == if issued then old(records)[appID := Record(raw, now + ttl, false, apps[appID].createdAt)]
                         else old(records)
    {
      if appID == defaultAppID { return false; }
      if appID !in apps { return false; }
      var app := apps[appID];
      records := records[appID := Record(raw, now + ttl, false, app.createdAt)];
      return true;
    }

    method AuthMigration(appID: string, app: Instance, token: string, now: int) returns (ok: bool)
      ensures ok == Authenticates(records, appID, app, token, now)
      ensures ok ==> appID in records && records[appID].token == token && !records[appID].used
      ensures ok ==> now <= records[appID].expiresAt && records[appID].createdAt == app.createdAt
    {
      if token == "" { return false; }
      if appID !in records { return false; }
      var rec := records[appID];
      if rec.used || now > rec.expiresAt || rec.createdAt != app.createdAt { return false; }
      return rec.token == token;
    }

    method ConsumeMigrationToken(appID: string) returns (ok: bool)
      modifies this`records
      ensures ok <==> appID in old(records)
      ensures records == Spend(old(records), appID)
    {
      if appID !in records { return false; }
      var rec := records[appID];
      rec := rec.(used := true);
      records := records[appID := rec];
      return true;
    }

    /** Deleting an app leaves no token that could re-target a re-created one. */
    method DeleteApp(appID: string) returns (ok: bool)
      modifies this`apps, this`records
      ensures ok == (appID != defaultAppID)
      ensures apps == (if ok then old(apps) - {appID} else old(apps))
      ensures records == if ok then old(records) - {appID} else old(records)
      ensures ok ==> forall app, t, now :: !Authenticates(records, appID, app, t, now)
    {
      if appID == defaultAppID { return false; }
      apps := apps - {appID};
      records := records - {appID};
      ok := true;
    }

    /** Rotating the secret writes the app back as it was read, and invalidates a pending token. */
    method RotateSecret(appID: string) returns (ok: bool)
      modifies this`records
      ensures ok == (appID in apps)
      ensures records == if ok then old(records) - {appID} else old(records)
      ensures ok ==> forall app, t, now :: !Authenticates(records, appID, app, t, now)
    {
      if appID !in apps { return false; }
      records := records - {appID};
      ok := true;
    }

    /** guardMigrationCall, after the request has been parsed. */
    method Guard(appID: string, token: string, now: int) returns (ok: bool)
      ensures ok <==> && appID != defaultAppID && appID in apps
                      && Authenticates(records, appID, apps[appID], token, now) && !apps[appID].disabled
    {
      if appID == defaultAppID { return false; }
      if appID !in apps { return false; }
      var app := apps[appID];
      var authenticated := AuthMigration(appID, app, token, now);
      return authenticated && !app.disabled;
    }

    /**
     A commit nobody interferes with; `classified` is the dry run's verdict. A refused one leaves the token usable.
     */
    method Commit(appID: string, token: string, now: int, classified: bool) returns (applies: bool)
      modifies this`records
      ensures applies <==> && classified && appID != defaultAppID && appID in apps
                           && Authenticates(old(records), appID, apps[appID], token, now) && !apps[appID].disabled
      ensures records == if applies then Spend(old(records), appID) else old(records)
      ensures applies ==> forall app, t, later :: !Authenticates(records, appID, app, t, later)
    {
      var ok := Guard(appID, token, now);
      if !ok { return false; }
      if !classified { return false; }
      applies := ConsumeMigrationToken(appID);
    }
  }

  // ---- The protocol, one store call at a time ----

  /** Where the one running commit stands: the instance its guard read, and when it checked the token. */
  datatype Commit =
    | Idle
    | Seen(appID: string, token: string, app: Instance)
    | Passed(appID: string, token: string, app: Instance, checkedAt: int)
    | Claiming(appID: string, token: string, app: Instance, checkedAt: int, rec: Record)
    | Claimed(appID: string, token: string, app: Instance, checkedAt: int)
    | Applying(appID: string, token: string, app: Instance, checkedAt: int, target: Instance)

  /** What a token is minted for. */
  datatype Target = Target(appID: string, createdAt: int)

  /**
   An import: the token that authorised it, the instance its guard read, the one it read to write to, and the time of
   the check.
   */
  datatype Import = Import(appID: string, token: string, guarded: int, landed: int, checkedAt: int)

  /** A whole-record write of an app by an administrator, with the instance it has read. */
  datatype Update = Update(appID: string, app: Instance)

  /** `minting` and `updating` hold what is in flight; `minted` and `expiry` remember every token ever minted. */
  datatype Sys = Sys(
    apps: map<string, Instance>,
    records: Records,
    lastCreated: int,
    minting: multiset<Target>,
    updating: multiset<Update>,
    minted: map<string, Target>,
    expiry: map<string, int>,
    commit: Commit,
    imports: seq<Import>)

  /**
   One store call. Deleting an app is DeleteApp then DropRecord; rotating its secret is UpdateRead, UpdateWrite, then
   DropRecord.
   */
  datatype Step =
    | CreateApp(id: string, app: Instance)
    | DeleteApp(id: string)
    | UpdateRead(id: string)
    | UpdateWrite(id: string, app: Instance, disabled: bool)
    | MintRead(id: string)
    | MintWrite(target: Target, token: string, expiresAt: int)
    | GuardRead(id: string, token: string)
    | GuardCheck(now: int)
    | ConsumeRead
    | ConsumeWrite
    | ApplyRead
    | ApplyWrite
    | Abort
    | DropRecord(id: string)

  /** Creation stamps differ and grow; tokens are freshly drawn; the mutex admits one commit. */
  predicate Enabled(s: Sys, step: Step) {
    match step
    case CreateApp(id, app) => id !in s.apps && app.createdAt > s.lastCreated
    case DeleteApp(_) => true
    case UpdateRead(id) => id in s.apps
    case UpdateWrite(id, app, _) => Update(id, app) in s.updating
    case MintRead(id) => id in s.apps
    case MintWrite(target, token, _) => target in s.minting && token !in s.minted
    case GuardRead(id, _) => s.commit.Idle? && id in s.apps
    case GuardCheck(_) => s.commit.Seen?
    case ConsumeRead => s.commit.Passed?
    case ConsumeWrite => s.commit.Claiming?
    case ApplyRead => s.commit.Claimed?
    case ApplyWrite => s.commit.Applying?
    case Abort => !s.commit.Idle?
    case DropRecord(_) => true
  }

  function Next(s: Sys, step: Step): Sys
    requires Enabled(s, step)
  {
    match step
    case CreateApp(id, app) => s.(apps := s.apps[id := app], lastCreated := app.createdAt)
    case DeleteApp(id) => s.(apps := s.apps - {id})
    case UpdateRead(id) => s.(updating := s.updating + multiset{Update(id, s.apps[id])})
    case UpdateWrite(id, app, disabled) =>
      s.(apps := if id in s.apps then s.apps[id := app.(disabled := disabled)] else s.apps,
         updating := s.updating - multiset{Update(id, app)})
    case MintRead(id) => s.(minting := s.minting + multiset{Target(id, s.apps[id].createdAt)})
    case MintWrite(target, token, expiresAt) =>
      s.(records := s.records[target.appID := Record(token, expiresAt, false, target.createdAt)],
         minting := s.minting - multiset{target},
         minted := s.minted[token := target], expiry := s.expiry[token := expiresAt])
    case GuardRead(id, token) => s.(commit := Seen(id, token, s.apps[id]))
    case GuardCheck(now) =>
      var c := s.commit;
      s.(commit := if Authenticates(s.records, c.appID, c.app, c.token, now) && !c.app.disabled
                   then Passed(c.appID, c.token, c.app, now) else Idle)
    case ConsumeRead =>
      var c := s.commit;
      s.(commit := if c.appID in s.records
                   then Claiming(c.appID, c.token, c.app, c.checkedAt, s.records[c.appID]) else Idle)
    case ConsumeWrite =>
      var c := s.commit;
      s.(records := s.records[c.appID := c.rec.(used := true)],
         commit := Claimed(c.appID, c.token, c.app, c.checkedAt))
    case ApplyRead =>
      var c := s.commit;
      if c.appID in s.apps then
        var landed := s.apps[c.appID];
        s.(commit := Applying(c.appID, c.token, c.app, c.checkedAt, landed),
           imports := s.imports + [Import(c.appID, c.token, c.app.createdAt, landed.createdAt, c.checkedAt)])
      else s.(commit := Idle)
    case ApplyWrite =>
      var c := s.commit;
      s.(apps := if c.appID in s.apps then s.apps[c.appID := c.target] else s.apps, commit := Idle)
    case Abort => s.(commit := Idle)
    case DropRecord(id) => s.(records := s.records - {id})
  }

  predicate Possible(s: Sys, steps: seq<Step>)
    decreases steps
  {
    steps != [] ==> Enabled(s, steps[0]) && Possible(Next(s, steps[0]), steps[1..])
  }

  function Run(s: Sys, steps: seq<Step>): Sys
    requires Possible(s, steps)
    decreases steps
  {
    if steps == [] then s else Run(Next(s, steps[0]), steps[1..])
  }

  /** Some apps, no token yet. */
  predicate Start(s: Sys) {
    && s.records == map[] && s.minted == map[] && s.expiry == map[]
    && s.minting == multiset{} && s.updating == multiset{}
    && s.commit == Idle && s.imports == [] && forall id | id in s.apps :: s.apps[id].createdAt <= s.lastCreated
  }

  // ---- What every interleaving keeps ----

  predicate MintedFor(s: Sys, token: string, appID: string, createdAt: int) {
    token in s.minted && s.minted[token] == Target(appID, createdAt)
  }

  /** No stored record would let this token in again. */
  predicate Spent(s: Sys, token: string) {
    token in s.minted && forall id | id in s.records && s.records[id].token == token :: s.records[id].used
  }

  predicate Imported(s: Sys, token: string) {
    exists i | 0 <= i < |s.imports| :: s.imports[i].token == token
  }

  /** A commit that has passed its guard holds the token. */
  predicate HeldByCommit(s: Sys, token: string) {
    (s.commit.Passed? || s.commit.Claiming? || s.commit.Claimed?) && s.commit.token == token
  }

  ghost predicate RecordsInv(s: Sys) {
    forall id | id in s.records :: MintedFor(s, s.records[id].token, id, s.records[id].createdAt)
  }

  ghost predicate CommitInv(s: Sys) {
    var c := s.commit;
    && (c.Passed? || c.Claiming? || c.Claimed? ==>
          MintedFor(s, c.token, c.appID, c.app.createdAt) && !Imported(s, c.token))
    && (c.Claiming? ==> MintedFor(s, c.rec.token, c.appID, c.rec.createdAt))
    && (c.Claimed? ==> Spent(s, c.token))
  }

  ghost predicate ImportsInv(s: Sys) {
    && (forall i | 0 <= i < |s.imports| ::
          var m := s.imports[i];
          Spent(s, m.token) && MintedFor(s, m.token, m.appID, m.guarded))
    && (forall i, j | 0 <= i < j < |s.imports| :: s.imports[i].token != s.imports[j].token)
  }

  ghost predicate Inv(s: Sys) {
    RecordsInv(s) && CommitInv(s) && ImportsInv(s)
  }

  lemma StepKeepsRecords(s: Sys, step: Step)
    requires Inv(s) && Enabled(s, step)
    ensures RecordsInv(Next(s, step))
  {
  }

  /** A spent token stays spent: a mint draws a new token, and a claim only ever writes a used record. */
  lemma StepKeepsSpent(s: Sys, step: Step, token: string)
    requires Inv(s) && Enabled(s, step) && Spent(s, token)
    ensures Spent(Next(s, step), token)
  {
  }

  /** A token that authenticates has not been imported with: its record is stored and unused. */
  lemma GuardPassesUnspent(s: Sys, now: int)
    requires Inv(s) && s.commit.Seen?
    ensures CommitInv(Next(s, GuardCheck(now)))
  {
    var c, s' := s.commit, Next(s, GuardCheck(now));
    if s'.commit.Passed? {
      assert s.records[c.appID].token == c.token && !s.records[c.appID].used;
      assert !Spent(s, c.token);
    }
  }

  /** A claim spends every token minted for the app so far, whichever of them is stored. */
  lemma ClaimSpendsAll(s: Sys, token: string)
    requires RecordsInv(s) && s.commit.Claiming? && token in s.minted && s.minted[token].appID == s.commit.appID
    ensures Spent(Next(s, ConsumeWrite), token)
  {
    forall id | id in s.records ensures s.records[id].token == token ==> id == s.commit.appID {
      assert MintedFor(s, s.records[id].token, id, s.records[id].createdAt);
    }
  }

  lemma ClaimSpends(s: Sys)
    requires Inv(s) && s.commit.Claiming?
    ensures CommitInv(Next(s, ConsumeWrite))
  {
    ClaimSpendsAll(s, s.commit.token);
  }

  lemma MintedStays(s: Sys, step: Step, token: string)
    requires Enabled(s, step) && token in s.minted
    ensures token in Next(s, step).minted && Next(s, step).minted[token] == s.minted[token]
  {
  }

  lemma SameCommitKept(s: Sys, step: Step)
    requires Inv(s) && Enabled(s, step) && Next(s, step).commit == s.commit && Next(s, step).imports == s.imports
    ensures CommitInv(Next(s, step))
  {
    var c := s.commit;
    if c.Passed? || c.Claiming? || c.Claimed? { MintedStays(s, step, c.token); }
    if c.Claiming? { MintedStays(s, step, c.rec.token); }
    if c.Claimed? { StepKeepsSpent(s, step, c.token); }
  }

  lemma OthersKeepCommit(s: Sys, step: Step)
    requires Inv(s) && Enabled(s, step) && !step.GuardCheck? && !step.ConsumeWrite?
    ensures CommitInv(Next(s, step))
  {
    var c, s' := s.commit, Next(s, step);
    if s'.commit == c {
      SameCommitKept(s, step);
    } else if step.ConsumeRead? && s'.commit.Claiming? {
      assert MintedFor(s, s.records[c.appID].token, c.appID, s.records[c.appID].createdAt);
    }
  }

  lemma StepKeepsCommit(s: Sys, step: Step)
    requires Inv(s) && Enabled(s, step)
    ensures CommitInv(Next(s, step))
  {
    match step {
      case GuardCheck(now) => GuardPassesUnspent(s, now);
      case ConsumeWrite => ClaimSpends(s);
      case _ => OthersKeepCommit(s, step);
    }
  }

  /** Only Apply's read adds an import: the one the running commit's token authorises. */
  lemma ImportsAfter(s: Sys, step: Step)
    requires Enabled(s, step)
    ensures var c, s' := s.commit, Next(s, step);
            || s'.imports == s.imports
            || (step.ApplyRead? && |s'.imports| == |s.imports| + 1 && s'.imports[..|s.imports|] == s.imports
                && var m := s'.imports[|s.imports|];
                m.token == c.token && m.appID == c.appID && m.guarded == c.app.createdAt)
  {
  }

  lemma StepKeepsImports(s: Sys, step: Step)
    requires Inv(s) && Enabled(s, step)
    ensures ImportsInv(Next(s, step))
  {
    var s' := Next(s, step);
    ImportsAfter(s, step);
    forall i | 0 <= i < |s'.imports|
      ensures Spent(s', s'.imports[i].token)
      ensures MintedFor(s', s'.imports[i].token, s'.imports[i].appID, s'.imports[i].guarded) {
      if i < |s.imports| {
        assert s'.imports[i] == s.imports[i];
        StepKeepsSpent(s, step, s.imports[i].token);
        MintedStays(s, step, s.imports[i].token);
      } else {
        StepKeepsSpent(s, step, s.commit.token);
        MintedStays(s, step, s.commit.token);
      }
    }
    assert forall i | 0 <= i < |s.imports| :: s'.imports[i] == s.imports[i];
  }

  lemma StepKeeps(s: Sys, step: Step)
    requires Inv(s) && Enabled(s, step)
    ensures Inv(Next(s, step))
  {
    StepKeepsRecords(s, step);
    StepKeepsCommit(s, step);
    StepKeepsImports(s, step);
  }

  lemma {:induction false} InvAlways(s: Sys, steps: seq<Step>)
    requires Inv(s) && Possible(s, steps)
    ensures Inv(Run(s, steps))
    decreases steps
  {
    if steps != [] {
      StepKeeps(s, steps[0]);
      InvAlways(Next(s, steps[0]), steps[1..]);
    }
  }

  /**
   In every interleaving no token authorises two imports, and each import's guard read the very instance its token was
   minted for, even when a new token is minted between the guard and the claim.
   */
  lemma OneImportPerToken(s: Sys, steps: seq<Step>)
    requires Start(s) && Possible(s, steps)
    ensures var end := Run(s, steps);
            && (forall i, j | 0 <= i < j < |end.imports| :: end.imports[i].token != end.imports[j].token)
            && (forall i | 0 <= i < |end.imports| ::
                  var m := end.imports[i]; m.token in end.minted && end.minted[m.token] == Target(m.appID, m.guarded))
  {
    InvAlways(s, steps);
  }

  // ---- Which instance the import lands on ----

  ghost predicate UpdateStamps(s: Sys) {
    forall u | u in s.updating :: u.app.createdAt <= s.lastCreated
  }

  ghost predicate AppStamps(s: Sys) {
    forall id | id in s.apps :: s.apps[id].createdAt <= s.lastCreated
  }

  /** Every stamp around is the stamp of a creation that has happened. */
  ghost predicate StampsInv(s: Sys) {
    && AppStamps(s)
    && UpdateStamps(s)
    && (s.commit.Applying? ==> s.commit.target.createdAt <= s.lastCreated)
  }

  lemma UpdateStampsStep(s: Sys, step: Step)
    requires StampsInv(s) && Enabled(s, step)
    ensures UpdateStamps(Next(s, step))
  {
    match step {
      case UpdateRead(id) =>
        var one := Update(id, s.apps[id]);
        assert forall u :: u in s.updating + multiset{one} ==> u in s.updating || u == one;
      case UpdateWrite(id, app, _) =>
        assert forall u :: u in s.updating - multiset{Update(id, app)} ==> u in s.updating;
      case _ => assert Next(s, step).updating == s.updating;
    }
  }

  lemma AppStampsStep(s: Sys, step: Step)
    requires StampsInv(s) && Enabled(s, step)
    ensures AppStamps(Next(s, step))
  {
    match step {
      case UpdateWrite(id, app, _) => assert Update(id, app) in s.updating && app.createdAt <= s.lastCreated;
      case _ =>
    }
  }

  lemma StampsStep(s: Sys, step: Step)
    requires StampsInv(s) && Enabled(s, step)
    ensures StampsInv(Next(s, step))
  {
    AppStampsStep(s, step);
    UpdateStampsStep(s, step);
  }

  lemma {:induction false} StampsAlways(s: Sys, steps: seq<Step>)
    requires StampsInv(s) && Possible(s, steps)
    ensures StampsInv(Run(s, steps))
    decreases steps
  {
    if steps != [] {
      StampsStep(s, steps[0]);
      StampsAlways(Next(s, steps[0]), steps[1..]);
    }
  }

  /** How far the running commit has come. */
  function Phase(c: Commit): nat {
    match c
    case Seen(_, _, _) => 0
    case Passed(_, _, _, _) => 1
    case Claiming(_, _, _, _, _) => 2
    case Claimed(_, _, _, _) => 3
    case Applying(_, _, _, _, _) => 4
    case Idle => 5
  }

  /** No guard reads in between, so whatever commit is running was running before. */
  ghost predicate NoGuard(steps: seq<Step>) {
    forall i | 0 <= i < |steps| :: !steps[i].GuardRead?
  }

  /** Until the next guard a commit only moves on, and stays the commit of one token for one instance. */
  lemma {:induction false} CommitMovesOn(s: Sys, steps: seq<Step>)
    requires Possible(s, steps) && NoGuard(steps)
    ensures var c, d := s.commit, Run(s, steps).commit;
            && Phase(c) <= Phase(d)
            && (!d.Idle? ==> !c.Idle? && d.appID == c.appID && d.token == c.token && d.app == c.app)
    decreases steps
  {
    if steps != [] {
      CommitMovesOn(Next(s, steps[0]), steps[1..]);
    }
  }

  ghost predicate Deletes(steps: seq<Step>, appID: string) {
    exists i | 0 <= i < |steps| :: steps[i] == DeleteApp(appID)
  }

  lemma DeletesSplit(steps: seq<Step>, appID: string)
    requires steps != []
    ensures Deletes(steps, appID) <==> steps[0] == DeleteApp(appID) || Deletes(steps[1..], appID)
  {
    var rest := steps[1..];
    if Deletes(rest, appID) {
      var i :| 0 <= i < |rest| && rest[i] == DeleteApp(appID);
      assert steps[i + 1] == DeleteApp(appID);
    }
    if Deletes(steps, appID) && steps[0] != DeleteApp(appID) {
      var i :| 0 <= i < |steps| && steps[i] == DeleteApp(appID);
      assert rest[i - 1] == DeleteApp(appID);
    }
  }

  predicate IsInstance(s: Sys, appID: string, createdAt: int) {
    appID in s.apps && s.apps[appID].createdAt == createdAt
  }

  /** What a step that touches the app's record says about the guarded stamp; other steps say what was said before. */
  predicate AfterTouch(step: Step, appID: string, guarded: int, kept: bool) {
    match step
    case CreateApp(id, _) => id != appID && kept
    case DeleteApp(id) => id != appID && kept
    case UpdateWrite(id, app, _) => if id == appID then app.createdAt == guarded else kept
    case _ => kept
  }

  /** The last step that touches the app's record, if any, is an update that had read the guarded instance. */
  predicate Keeps(steps: seq<Step>, appID: string, guarded: int, kept: bool)
    decreases steps
  {
    if steps == [] then kept else Keeps(steps[1..], appID, guarded, AfterTouch(steps[0], appID, guarded, kept))
  }

  /** An app that is missing now and there later is touched in between, so what was said before is forgotten. */
  lemma {:induction false} AbsentForgets(s: Sys, steps: seq<Step>, appID: string, guarded: int)
    requires Possible(s, steps) && appID !in s.apps && appID in Run(s, steps).apps
    ensures Keeps(steps, appID, guarded, true) == Keeps(steps, appID, guarded, false)
    decreases steps
  {
    if steps != [] && AfterTouch(steps[0], appID, guarded, true) != AfterTouch(steps[0], appID, guarded, false) {
      AbsentForgets(Next(s, steps[0]), steps[1..], appID, guarded);
    }
  }

  lemma TouchStep(s: Sys, step: Step, appID: string, guarded: int)
    requires Enabled(s, step) && !step.ApplyWrite? && guarded <= s.lastCreated && appID in Next(s, step).apps
    ensures IsInstance(Next(s, step), appID, guarded)
            <==> AfterTouch(step, appID, guarded, IsInstance(s, appID, guarded))
    ensures guarded <= Next(s, step).lastCreated
  {
  }

  /** The stamp an app ends with is the one its last touch left: a creation never leaves an old one. */
  lemma {:induction false} StampIsLastTouch(s: Sys, steps: seq<Step>, appID: string, guarded: int)
    requires Possible(s, steps) && NoGuard(steps) && Phase(Run(s, steps).commit) <= 3
    requires guarded <= s.lastCreated && appID in Run(s, steps).apps
    ensures IsInstance(Run(s, steps), appID, guarded) <==> Keeps(steps, appID, guarded, IsInstance(s, appID, guarded))
    decreases steps
  {
    if steps != [] {
      var next, rest := Next(s, steps[0]), steps[1..];
      CommitMovesOn(next, rest);
      assert !steps[0].ApplyWrite?;
      StampIsLastTouch(next, rest, appID, guarded);
      if appID in next.apps {
        TouchStep(s, steps[0], appID, guarded);
      } else {
        AbsentForgets(next, rest, appID, guarded);
      }
    }
  }

  /**
   In every run: a commit whose guard read instance `guarded` imports into that instance if and only if the last step in
   between that touched the app's record, if any did, was an update that had read that very instance.
   */
  lemma ImportLandsWhereGuardedIff(s: Sys, before: seq<Step>, appID: string, token: string, between: seq<Step>)
    requires Start(s) && Possible(s, before) && Enabled(Run(s, before), GuardRead(appID, token))
    requires var guard := Next(Run(s, before), GuardRead(appID, token));
             && Possible(guard, between) && NoGuard(between)
             && var end := Run(guard, between);
             end.commit.Claimed? && appID in end.apps
    ensures var guard := Next(Run(s, before), GuardRead(appID, token));
            var imports := Next(Run(guard, between), ApplyRead).imports;
            && imports != []
            && var last := imports[|imports| - 1];
            && last.appID == appID && last.token == token && last.guarded == guard.commit.app.createdAt
            && (last.landed == last.guarded <==> Keeps(between, appID, last.guarded, true))
  {
    StampsAlways(s, before);
    var guard := Next(Run(s, before), GuardRead(appID, token));
    CommitMovesOn(guard, between);
    StampIsLastTouch(guard, between, appID, guard.commit.app.createdAt);
  }

  /** No update of the app that is in flight has read another instance. */
  ghost predicate NoStaleUpdate(s: Sys, appID: string, guarded: int) {
    forall app | Update(appID, app) in s.updating :: app.createdAt == guarded
  }

  lemma NoStaleStep(s: Sys, step: Step, appID: string, guarded: int)
    requires Enabled(s, step) && !step.ApplyWrite? && step != DeleteApp(appID)
    requires IsInstance(s, appID, guarded) && NoStaleUpdate(s, appID, guarded)
    ensures IsInstance(Next(s, step), appID, guarded) && NoStaleUpdate(Next(s, step), appID, guarded)
  {
    if step.UpdateWrite? { assert Update(step.id, step.app) in s.updating; }
  }

  lemma {:induction false} LandsWithoutStaleUpdate(s: Sys, steps: seq<Step>, appID: string, guarded: int)
    requires Possible(s, steps) && NoGuard(steps) && Phase(Run(s, steps).commit) <= 3
    requires IsInstance(s, appID, guarded) && NoStaleUpdate(s, appID, guarded) && !Deletes(steps, appID)
    ensures IsInstance(Run(s, steps), appID, guarded)
    decreases steps
  {
    if steps != [] {
      var next, rest := Next(s, steps[0]), steps[1..];
      DeletesSplit(steps, appID);
      CommitMovesOn(next, rest);
      NoStaleStep(s, steps[0], appID, guarded);
      LandsWithoutStaleUpdate(next, rest, appID, guarded);
    }
  }

  /** The running commit gets to its claim, and there is an app to import into. */
  ghost predicate ReachesClaim(guard: Sys, between: seq<Step>)
    requires !guard.commit.Idle?
  {
    && Possible(guard, between) && NoGuard(between)
    && Run(guard, between).commit.Claimed? && guard.commit.appID in Run(guard, between).apps
  }

  /**
   Without a deletion the import is safe in EVERY continuation if and only if no update of the app that has read another
   instance is in flight when the guard reads it. (The token is good, so that the commit can get through.)
   */
  lemma DeletionFreeImportsLandIff(guard: Sys, now: int)
    requires var c := guard.commit;
             && c.Seen? && !c.app.disabled && IsInstance(guard, c.appID, c.app.createdAt)
             && Authenticates(guard.records, c.appID, c.app, c.token, now)
    ensures var c := guard.commit;
            (forall between | ReachesClaim(guard, between) && !Deletes(between, c.appID) ::
               IsInstance(Run(guard, between), c.appID, c.app.createdAt))
            <==> NoStaleUpdate(guard, c.appID, c.app.createdAt)
  {
    var c := guard.commit;
    if NoStaleUpdate(guard, c.appID, c.app.createdAt) {
      forall between | ReachesClaim(guard, between) && !Deletes(between, c.appID)
        ensures IsInstance(Run(guard, between), c.appID, c.app.createdAt) {
        LandsWithoutStaleUpdate(guard, between, c.appID, c.app.createdAt);
      }
    } else {
      var app :| Update(c.appID, app) in guard.updating && app.createdAt != c.app.createdAt;
      var between := StaleContinuation(guard, now, app);
      assert ReachesClaim(guard, between) && !Deletes(between, c.appID);
    }
  }

  lemma RunOneMore(s: Sys, step: Step, rest: seq<Step>)
    requires Enabled(s, step) && Possible(Next(s, step), rest)
    ensures Possible(s, [step] + rest) && Run(s, [step] + rest) == Run(Next(s, step), rest)
  {
    assert ([step] + rest)[1..] == rest;
  }

  /** The commit goes straight to its claim, and then the stale update puts its own instance back. */
  lemma StaleContinuation(guard: Sys, now: int, stale: Instance) returns (between: seq<Step>)
    requires var c := guard.commit;
             && c.Seen? && !c.app.disabled && IsInstance(guard, c.appID, c.app.createdAt)
             && Authenticates(guard.records, c.appID, c.app, c.token, now)
             && Update(c.appID, stale) in guard.updating && stale.createdAt != c.app.createdAt
    ensures ReachesClaim(guard, between) && !Deletes(between, guard.commit.appID)
    ensures var c, end := guard.commit, Run(guard, between);
            && !IsInstance(end, c.appID, c.app.createdAt)
            && Next(end, ApplyRead).imports
               == guard.imports + [Import(c.appID, c.token, c.app.createdAt, stale.createdAt, now)]
  {
    var write := UpdateWrite(guard.commit.appID, stale, stale.disabled);
    var claimed := StraightToClaim(guard, now);
    var straight := [GuardCheck(now), ConsumeRead, ConsumeWrite];
    var end := Next(claimed, write);
    RunOneMore(claimed, write, []);
    RunThen(guard, straight, [write] + []);
    between := straight + ([write] + []);
    assert between == [GuardCheck(now), ConsumeRead, ConsumeWrite, write];
    assert Run(guard, between) == end;
  }

  /** With a good token and nobody in the way the commit reaches its claim in three calls. */
  lemma StraightToClaim(guard: Sys, now: int) returns (claimed: Sys)
    requires var c := guard.commit;
             c.Seen? && !c.app.disabled && Authenticates(guard.records, c.appID, c.app, c.token, now)
    ensures var c, steps := guard.commit, [GuardCheck(now), ConsumeRead, ConsumeWrite];
            && Possible(guard, steps) && Run(guard, steps) == claimed
            && claimed == guard.(records := Spend(guard.records, c.appID),
                                 commit := Claimed(c.appID, c.token, c.app, now))
  {
    var passed := Next(guard, GuardCheck(now));
    var claiming := Next(passed, ConsumeRead);
    claimed := Next(claiming, ConsumeWrite);
    RunOneMore(claiming, ConsumeWrite, []);
    RunOneMore(passed, ConsumeRead, [ConsumeWrite] + []);
    RunOneMore(guard, GuardCheck(now), [ConsumeRead] + ([ConsumeWrite] + []));
    assert [GuardCheck(now)] + ([ConsumeRead] + ([ConsumeWrite] + [])) == [GuardCheck(now), ConsumeRead, ConsumeWrite];
  }

  lemma {:induction false} RunThen(s: Sys, a: seq<Step>, b: seq<Step>)
    requires Possible(s, a) && Possible(Run(s, a), b)
    ensures Possible(s, a + b) && Run(s, a + b) == Run(Run(s, a), b)
    decreases a
  {
    if a == [] {
      assert a + b == b;
    } else {
      RunThen(Next(s, a[0]), a[1..], b);
      RunOneMore(s, a[0], a[1..] + b);
      assert a + b == [a[0]] + (a[1..] + b);
    }
  }

  /** Such a state is reached: an update reads the app, which is then replaced and gets a token. */
  lemma StaleUpdateIsReachable(s: Sys, appID: string, first: Instance, second: Instance, token: string, expiresAt: int)
    returns (before: seq<Step>)
    requires Start(s) && appID in s.apps && s.apps[appID] == first
    requires second.createdAt > s.lastCreated && !second.disabled && token != ""
    ensures Possible(s, before) && Enabled(Run(s, before), GuardRead(appID, token))
    ensures var guard := Next(Run(s, before), GuardRead(appID, token));
            && IsInstance(guard, appID, second.createdAt) && Update(appID, first) in guard.updating
            && first.createdAt != second.createdAt
            && Authenticates(guard.records, appID, guard.commit.app, token, expiresAt)
  {
    var target := Target(appID, second.createdAt);
    var s1 := Next(s, UpdateRead(appID));
    var s2 := Next(s1, DeleteApp(appID));
    var s3 := Next(s2, CreateApp(appID, second));
    var s4 := Next(s3, MintRead(appID));
    RunOneMore(s4, MintWrite(target, token, expiresAt), []);
    RunOneMore(s3, MintRead(appID), [MintWrite(target, token, expiresAt)] + []);
    var three := [MintRead(appID)] + ([MintWrite(target, token, expiresAt)] + []);
    RunOneMore(s2, CreateApp(appID, second), three);
    RunOneMore(s1, DeleteApp(appID), [CreateApp(appID, second)] + three);
    RunOneMore(s, UpdateRead(appID), [DeleteApp(appID)] + ([CreateApp(appID, second)] + three));
    before := [UpdateRead(appID)] + ([DeleteApp(appID)] + ([CreateApp(appID, second)] + three));
  }

  /** An app that is deleted and registered again between guard and Apply gets the import meant for its predecessor. */
  lemma SuccessorGetsTheImport(s: Sys, appID: string, token: string, guarded: Instance, at: int, next: Instance)
    requires s.commit == Claimed(appID, token, guarded, at) && IsInstance(s, appID, guarded.createdAt)
    requires guarded.createdAt <= s.lastCreated < next.createdAt
    ensures var steps := [DeleteApp(appID), CreateApp(appID, next), ApplyRead];
            && Possible(s, steps)
            && Run(s, steps).imports == s.imports + [Import(appID, token, guarded.createdAt, next.createdAt, at)]
  {
    var s1 := Next(s, DeleteApp(appID));
    var s2 := Next(s1, CreateApp(appID, next));
    var last := [ApplyRead];
    var lastTwo := [CreateApp(appID, next)] + last;
    var steps := [DeleteApp(appID), CreateApp(appID, next), ApplyRead];
    assert last[1..] == [] && lastTwo[1..] == last && steps[1..] == lastTwo;
    assert Possible(s2, last) && Run(s2, last) == Next(s2, ApplyRead);
    assert Possible(s1, lastTwo) && Run(s1, lastTwo) == Run(s2, last);
  }

  /** While one commit runs up to its claim, a token it does not hold stays minted and unused. */
  lemma {:induction false} UntouchedUntilClaim(s: Sys, steps: seq<Step>, token: string)
    requires Inv(s) && Possible(s, steps) && NoGuard(steps) && Run(s, steps).commit.Claiming?
    requires token in s.minted && !Imported(s, token)
    ensures var end := Run(s, steps);
            Inv(end) && token in end.minted && end.minted[token] == s.minted[token] && !Imported(end, token)
    decreases steps
  {
    if steps != [] {
      var next := Next(s, steps[0]);
      StepKeeps(s, steps[0]);
      CommitMovesOn(next, steps[1..]);
      ImportsAfter(s, steps[0]);
      MintedStays(s, steps[0], token);
      assert next.imports == s.imports;
      UntouchedUntilClaim(next, steps[1..], token);
    }
  }

  /**
   A token minted between another commit's guard and its claim dies with that claim: whatever else happens before and
   after the claim, it never authorises an import.
   */
  lemma MintedInBetweenIsSpent(s: Sys, createdAt: int, token: string, expiresAt: int, mid: seq<Step>, rest: seq<Step>)
    requires Inv(s) && (s.commit.Passed? || s.commit.Claiming?)
    requires Enabled(s, MintWrite(Target(s.commit.appID, createdAt), token, expiresAt))
    requires var minted := Next(s, MintWrite(Target(s.commit.appID, createdAt), token, expiresAt));
             && Possible(minted, mid) && NoGuard(mid) && Run(minted, mid).commit.Claiming?
             && Possible(Next(Run(minted, mid), ConsumeWrite), rest)
    ensures var minted := Next(s, MintWrite(Target(s.commit.appID, createdAt), token, expiresAt));
            var end := Run(Next(Run(minted, mid), ConsumeWrite), rest);
            Spent(end, token) && !Imported(end, token)
  {
    var minted := Next(s, MintWrite(Target(s.commit.appID, createdAt), token, expiresAt));
    var claiming := Run(minted, mid);
    StepKeeps(s, MintWrite(Target(s.commit.appID, createdAt), token, expiresAt));
    UntouchedUntilClaim(minted, mid, token);
    CommitMovesOn(minted, mid);
    ClaimSpendsAll(claiming, token);
    StepKeeps(claiming, ConsumeWrite);
    SpentUnusedNeverImports(Next(claiming, ConsumeWrite), rest, token);
  }

  lemma StaysUnheld(s: Sys, step: Step, token: string)
    requires Enabled(s, step) && Spent(s, token) && !HeldByCommit(s, token)
    ensures !HeldByCommit(Next(s, step), token)
  {
    if step.GuardCheck? && s.commit.token == token {
      assert !Authenticates(s.records, s.commit.appID, s.commit.app, token, step.now);
    }
  }

  lemma StaysUnimported(s: Sys, step: Step, token: string)
    requires Enabled(s, step) && !Imported(s, token) && !HeldByCommit(s, token)
    ensures !Imported(Next(s, step), token)
  {
    ImportsAfter(s, step);
    var s' := Next(s, step);
    forall i | 0 <= i < |s'.imports| ensures s'.imports[i].token != token {
      if i < |s.imports| { assert s'.imports[i] == s.imports[i]; }
    }
  }

  /** A spent token no commit holds any more is dead. */
  lemma {:induction false} SpentUnusedNeverImports(s: Sys, steps: seq<Step>, token: string)
    requires Inv(s) && Possible(s, steps) && Spent(s, token) && !Imported(s, token) && !HeldByCommit(s, token)
    ensures Spent(Run(s, steps), token) && !Imported(Run(s, steps), token)
    decreases steps
  {
    if steps != [] {
      StepKeeps(s, steps[0]);
      StepKeepsSpent(s, steps[0], token);
      StaysUnheld(s, steps[0], token);
      StaysUnimported(s, steps[0], token);
      SpentUnusedNeverImports(Next(s, steps[0]), steps[1..], token);
    }
  }

  // ---- Deleting the app or rotating its secret ----

  /** Some continuation imports with the token. */
  ghost predicate CanImport(s: Sys, token: string) {
    exists rest :: Possible(s, rest) && Imported(Run(s, rest), token)
  }

  /**
   Dropping an app's record, as deletion and rotation do, kills a pending token: some continuation still imports with it
   if and only if a commit that has passed its guard holds it.
   */
  lemma DroppedTokenLivesIffHeld(s: Sys, appID: string, token: string)
    requires Inv(s) && token in s.minted && s.minted[token].appID == appID && !Imported(s, token)
    ensures CanImport(Next(s, DropRecord(appID)), token) <==> HeldByCommit(s, token)
  {
    var dropped := Next(s, DropRecord(appID));
    StepKeeps(s, DropRecord(appID));
    if HeldByCommit(s, token) {
      HeldCanImport(dropped);
    } else {
      forall id | id in dropped.records ensures dropped.records[id].token != token {
        assert MintedFor(s, s.records[id].token, id, s.records[id].createdAt);
      }
      forall rest | Possible(dropped, rest) ensures !Imported(Run(dropped, rest), token) {
        SpentUnusedNeverImports(dropped, rest, token);
      }
    }
  }

  lemma StepsFirst(s: Sys, step: Step, token: string)
    requires Enabled(s, step) && CanImport(Next(s, step), token)
    ensures CanImport(s, token)
  {
    var rest :| Possible(Next(s, step), rest) && Imported(Run(Next(s, step), rest), token);
    RunOneMore(s, step, rest);
    assert Possible(s, [step] + rest);
  }

  /** A commit past its guard can always get to its import: an app can be registered, and a token minted. */
  lemma HeldCanImport(s: Sys)
    requires s.commit.Passed? || s.commit.Claiming? || s.commit.Claimed?
    ensures CanImport(s, s.commit.token)
  {
    var id := s.commit.appID;
    if id in s.apps {
      HeldCanImportHere(s);
    } else {
      var create := CreateApp(id, Instance(s.lastCreated + 1, false));
      HeldCanImportHere(Next(s, create));
      StepsFirst(s, create, s.commit.token);
    }
  }

  lemma HeldCanImportHere(s: Sys)
    requires (s.commit.Passed? || s.commit.Claiming? || s.commit.Claimed?) && s.commit.appID in s.apps
    ensures CanImport(s, s.commit.token)
  {
    if s.commit.Claimed? {
      ClaimedCanImport(s);
    } else if s.commit.Claiming? {
      ClaimingCanImport(s);
    } else if s.commit.appID in s.records {
      ClaimingCanImport(Next(s, ConsumeRead));
      StepsFirst(s, ConsumeRead, s.commit.token);
    } else {
      var target := Target(s.commit.appID, s.apps[s.commit.appID].createdAt);
      var token := FreshString(s.minted.Keys);
      var reading := Next(s, MintRead(s.commit.appID));
      var minted := Next(reading, MintWrite(target, token, 0));
      ClaimingCanImport(Next(minted, ConsumeRead));
      StepsFirst(minted, ConsumeRead, s.commit.token);
      StepsFirst(reading, MintWrite(target, token, 0), s.commit.token);
      StepsFirst(s, MintRead(s.commit.appID), s.commit.token);
    }
  }

  lemma ClaimingCanImport(s: Sys)
    requires s.commit.Claiming? && s.commit.appID in s.apps
    ensures CanImport(s, s.commit.token)
  {
    ClaimedCanImport(Next(s, ConsumeWrite));
    StepsFirst(s, ConsumeWrite, s.commit.token);
  }

  lemma ClaimedCanImport(s: Sys)
    requires s.commit.Claimed? && s.commit.appID in s.apps
    ensures CanImport(s, s.commit.token)
  {
    var end := Next(s, ApplyRead);
    assert end.imports[|s.imports|].token == s.commit.token;
    assert Possible(end, []) && Run(end, []) == end;
    StepsFirst(s, ApplyRead, s.commit.token);
  }

  // ---- What the guard has checked ----

  /** A guard passes exactly an enabled app with a record of this token, unused, unexpired and of this instance. */
  lemma GuardPassesIff(s: Sys, now: int)
    requires s.commit.Seen?
    ensures var c := s.commit;
            Next(s, GuardCheck(now)).commit.Passed?
            <==> && !c.app.disabled && c.token != "" && c.appID in s.records
                 && s.records[c.appID].token == c.token
                 && !s.records[c.appID].used
                 && now <= s.records[c.appID].expiresAt
                 && s.records[c.appID].createdAt == c.app.createdAt
  {
  }

  predicate MintedUntil(s: Sys, token: string, expiresAt: int) {
    token in s.expiry && s.expiry[token] == expiresAt
  }

  predicate CheckedInTime(s: Sys, token: string, checkedAt: int) {
    token in s.expiry && checkedAt <= s.expiry[token]
  }

  /** Stored records carry the expiry their token was minted with, and every check came before that expiry. */
  ghost predicate TimeInv(s: Sys) {
    var c := s.commit;
    && s.expiry.Keys == s.minted.Keys
    && (forall id | id in s.records :: MintedUntil(s, s.records[id].token, s.records[id].expiresAt))
    && (c.Claiming? ==> MintedUntil(s, c.rec.token, c.rec.expiresAt))
    && (!c.Idle? && !c.Seen? ==> CheckedInTime(s, c.token, c.checkedAt) && !c.app.disabled)
    && (forall i | 0 <= i < |s.imports| :: CheckedInTime(s, s.imports[i].token, s.imports[i].checkedAt))
  }

  lemma ExpiryStays(s: Sys, step: Step, token: string)
    requires Enabled(s, step) && s.expiry.Keys == s.minted.Keys && token in s.expiry
    ensures token in Next(s, step).expiry && Next(s, step).expiry[token] == s.expiry[token]
  {
  }

  lemma CommitStaysInTime(s: Sys, step: Step)
    requires TimeInv(s) && Enabled(s, step)
    ensures var s', c := Next(s, step), Next(s, step).commit;
            && (c.Claiming? ==> MintedUntil(s', c.rec.token, c.rec.expiresAt))
            && (!c.Idle? && !c.Seen? ==> CheckedInTime(s', c.token, c.checkedAt) && !c.app.disabled)
  {
    var c := s.commit;
    if !c.Idle? && !c.Seen? { ExpiryStays(s, step, c.token); }
    if c.Claiming? { ExpiryStays(s, step, c.rec.token); }
    match step {
      case GuardCheck(now) => GuardPassesIff(s, now);
      case ConsumeRead =>
        if c.appID in s.records { assert MintedUntil(s, s.records[c.appID].token, s.records[c.appID].expiresAt); }
      case _ =>
    }
  }

  lemma RecordsStayInTime(s: Sys, step: Step, id: string)
    requires TimeInv(s) && Enabled(s, step) && id in Next(s, step).records
    ensures var r := Next(s, step).records[id]; MintedUntil(Next(s, step), r.token, r.expiresAt)
  {
    if id in s.records { ExpiryStays(s, step, s.records[id].token); }
    if s.commit.Claiming? { ExpiryStays(s, step, s.commit.rec.token); }
  }

  lemma ImportsStayInTime(s: Sys, step: Step, i: nat)
    requires TimeInv(s) && Enabled(s, step) && i < |Next(s, step).imports|
    ensures var m := Next(s, step).imports[i]; CheckedInTime(Next(s, step), m.token, m.checkedAt)
  {
    if i < |s.imports| {
      assert CheckedInTime(s, s.imports[i].token, s.imports[i].checkedAt);
      ExpiryStays(s, step, s.imports[i].token);
    }
  }

  lemma StepKeepsTime(s: Sys, step: Step)
    requires TimeInv(s) && Enabled(s, step)
    ensures TimeInv(Next(s, step))
  {
    var s' := Next(s, step);
    CommitStaysInTime(s, step);
    forall id | id in s'.records ensures MintedUntil(s', s'.records[id].token, s'.records[id].expiresAt) {
      RecordsStayInTime(s, step, id);
    }
    forall i | 0 <= i < |s'.imports| ensures CheckedInTime(s', s'.imports[i].token, s'.imports[i].checkedAt) {
      ImportsStayInTime(s, step, i);
    }
    assert s'.expiry.Keys == s'.minted.Keys;
  }

  lemma {:induction false} TimeAlways(s: Sys, steps: seq<Step>)
    requires TimeInv(s) && Possible(s, steps)
    ensures TimeInv(Run(s, steps))
    decreases steps
  {
    if steps != [] {
      StepKeepsTime(s, steps[0]);
      TimeAlways(Next(s, steps[0]), steps[1..]);
    }
  }

  /** The expiry a token is minted with is the one remembered for it. */
  lemma MintSetsExpiry(s: Sys, target: Target, token: string, expiresAt: int)
    requires Enabled(s, MintWrite(target, token, expiresAt))
    ensures var s' := Next(s, MintWrite(target, token, expiresAt));
            && MintedUntil(s', token, expiresAt)
            && (forall other | other in s.expiry && other != token :: MintedUntil(s', other, s.expiry[other]))
  {
  }

  /** In every interleaving the guard of each import checked its token no later than the expiry it was minted with. */
  lemma ImportsCheckedInTime(s: Sys, steps: seq<Step>)
    requires Start(s) && Possible(s, steps)
    ensures var end := Run(s, steps);
            forall i | 0 <= i < |end.imports| ::
              end.imports[i].token in end.expiry && end.imports[i].checkedAt <= end.expiry[end.imports[i].token]
  {
    TimeAlways(s, steps);
  }

  // ---- The desk's methods are made of these steps ----

  /** What a commit that nobody interferes with does to the records is what the desk's Commit does. */
  lemma CommitIsItsSteps(s: Sys, appID: string, token: string, now: int)
    requires s.commit.Idle? && appID in s.apps
    ensures var checked := Next(Next(s, GuardRead(appID, token)), GuardCheck(now));
            var passes := Authenticates(s.records, appID, s.apps[appID], token, now) && !s.apps[appID].disabled;
            if passes then
              && Enabled(checked, ConsumeRead) && Enabled(Next(checked, ConsumeRead), ConsumeWrite)
              && Next(Next(checked, ConsumeRead), ConsumeWrite).records == Spend(s.records, appID)
            else checked == s
  {
  }

  /** Apply writes the app back as it read it, if there still is one, and ends the commit. */
  lemma ApplyWritesWhatItRead(s: Sys)
    requires s.commit.Applying?
    ensures var c, s' := s.commit, Next(s, ApplyWrite);
            && s'.apps.Keys == s.apps.Keys && (c.appID in s.apps ==> s'.apps[c.appID] == c.target)
            && (forall id | id in s.apps && id != c.appID :: s'.apps[id] == s.apps[id])
            && s'.commit == Idle && s'.records == s.records && s'.imports == s.imports
  {
  }

  /** An update writes the record of an app that is still registered, under the stamp it has read; it registers none. */
  lemma UpdateWritesUnderItsStamp(s: Sys, id: string, app: Instance, disabled: bool)
    requires Enabled(s, UpdateWrite(id, app, disabled))
    ensures var s' := Next(s, UpdateWrite(id, app, disabled));
            && s'.apps.Keys == s.apps.Keys
            && (id in s.apps ==> s'.apps[id].createdAt == app.createdAt && s'.apps[id].disabled == disabled)
            && (forall other | other in s.apps && other != id :: s'.apps[other] == s.apps[other])
            && s'.records == s.records && s'.commit == s.commit
  {
  }

  /** An app's record is what its registration, an update or an import last wrote; only a deletion removes it. */
  lemma WhoTouchesAnApp(s: Sys, step: Step, id: string)
    requires Enabled(s, step)
    ensures var now := Next(s, step).apps;
            && (step.CreateApp? && step.id == id ==> id in now && now[id] == step.app)
            && (id in s.apps && id !in now ==> step == DeleteApp(id))
            && (id in now && (id in s.apps ==> now[id] != s.apps[id]) ==>
                  || step == CreateApp(id, now[id])
                  || (step.ApplyWrite? && s.commit.appID == id && s.commit.target == now[id])
                  || step == UpdateWrite(id, Instance(now[id].createdAt, step.app.disabled), now[id].disabled))
  {
  }

  /** A commit given up lets the next one in, and changes neither apps, records nor imports. */
  lemma AbortLetsTheNextIn(s: Sys, id: string, token: string)
    requires Enabled(s, Abort) && id in s.apps
    ensures var s' := Next(s, Abort);
            && Enabled(s', GuardRead(id, token))
            && s'.apps == s.apps && s'.records == s.records && s'.imports == s.imports
  {
  }

  predicate ReadsUpdate(s: Sys, step: Step, u: Update)
    requires Enabled(s, step)
  {
    step == UpdateRead(u.appID) && s.apps[u.appID] == u.app
  }

  predicate WritesUpdate(step: Step, u: Update) {
    step.UpdateWrite? && Update(step.id, step.app) == u
  }

  function UpdatesRead(s: Sys, steps: seq<Step>, u: Update): nat
    requires Possible(s, steps)
    decreases steps
  {
    if steps == [] then 0
    else (if ReadsUpdate(s, steps[0], u) then 1 else 0) + UpdatesRead(Next(s, steps[0]), steps[1..], u)
  }

  function UpdatesWritten(steps: seq<Step>, u: Update): nat
    decreases steps
  {
    if steps == [] then 0 else (if WritesUpdate(steps[0], u) then 1 else 0) + UpdatesWritten(steps[1..], u)
  }

  lemma UpdateStepBalances(s: Sys, step: Step, u: Update)
    requires Enabled(s, step)
    ensures s.updating[u] + (if ReadsUpdate(s, step, u) then 1 else 0)
            == (if WritesUpdate(step, u) then 1 else 0) + Next(s, step).updating[u]
  {
  }

  /** In every run an instance read for an update is written back once, or still in flight. */
  lemma {:induction false} UpdatesBalance(s: Sys, steps: seq<Step>, u: Update)
    requires Possible(s, steps)
    ensures s.updating[u] + UpdatesRead(s, steps, u) == UpdatesWritten(steps, u) + Run(s, steps).updating[u]
    decreases steps
  {
    if steps != [] {
      UpdateStepBalances(s, steps[0], u);
      UpdatesBalance(Next(s, steps[0]), steps[1..], u);
    }
  }

  predicate ReadsForMint(s: Sys, step: Step, t: Target)
    requires Enabled(s, step)
  {
    step == MintRead(t.appID) && s.apps[t.appID].createdAt == t.createdAt
  }

  predicate WritesMint(step: Step, t: Target) {
    step.MintWrite? && step.target == t
  }

  function MintsRead(s: Sys, steps: seq<Step>, t: Target): nat
    requires Possible(s, steps)
    decreases steps
  {
    if steps == [] then 0
    else (if ReadsForMint(s, steps[0], t) then 1 else 0) + MintsRead(Next(s, steps[0]), steps[1..], t)
  }

  function MintsWritten(steps: seq<Step>, t: Target): nat
    decreases steps
  {
    if steps == [] then 0 else (if WritesMint(steps[0], t) then 1 else 0) + MintsWritten(steps[1..], t)
  }

  lemma MintStepBalances(s: Sys, step: Step, t: Target)
    requires Enabled(s, step)
    ensures s.minting[t] + (if ReadsForMint(s, step, t) then 1 else 0)
            == (if WritesMint(step, t) then 1 else 0) + Next(s, step).minting[t]
  {
  }

  /** In every run a reading of the app mints one token, or is still in flight. */
  lemma {:induction false} MintsBalance(s: Sys, steps: seq<Step>, t: Target)
    requires Possible(s, steps)
    ensures s.minting[t] + MintsRead(s, steps, t) == MintsWritten(steps, t) + Run(s, steps).minting[t]
    decreases steps
  {
    if steps != [] {
      MintStepBalances(s, steps[0], t);
      MintsBalance(Next(s, steps[0]), steps[1..], t);
    }
  }

  /** Spending marks the app's record and touches nothing else: not its token, its expiry, or another app's record. */
  lemma SpendMarksOnly(records: Records, appID: string)
    ensures Spend(records, appID).Keys == records.Keys
    ensures forall id | id in records && id != appID :: Spend(records, appID)[id] == records[id]
    ensures appID in records ==>
              var was, now := records[appID], Spend(records, appID)[appID];
              now.used && now.token == was.token && now.expiresAt == was.expiresAt && now.createdAt == was.createdAt
  {
  }
}
