/**
 Refresh-token rotation with replay detection (section 4.14.2 of RFC 9700), run by many handlers
 whose store calls interleave freely.
 */
module RefreshRotation {
  import opened Prelude
  import opened RefreshTokens

  /** Between its store calls a handler either holds a consumed token, or is about to revoke a family. */
  datatype Phase = Rotating(token: RefreshToken) | Revoking(family: string)

  /** The store, the handlers in mid-request, every id ever issued, and the ids successfully consumed so far. */
  datatype Sys = Sys(
    tokens: Tokens,
    busy: map<nat, Phase>,
    issued: set<string>,
    appOf: map<string, string>,
    accepted: seq<string>)

  const START := Sys(map[], map[], {}, map[], [])

  datatype Step =
    | Login(id: string, family: string, user: string, app: string, expiresAt: int, audience: string)
    | Present(handler: nat, id: string)
    | SaveSuccessor(handler: nat, id: string, user: string, expiresAt: int, audience: string)
    | Abort(handler: nat)
    | RevokeReplayed(handler: nat)
    | RevokeFamily(family: string)
    | RevokeUser(user: string)
    | CleanExpired(now: int)

  predicate IsRotating(s: Sys, h: nat) {
    h in s.busy && s.busy[h].Rotating?
  }

  /** Token and family ids are new UUIDs; a handler does one thing at a time. */
  predicate Enabled(s: Sys, step: Step) {
    match step
    case Login(id, family, _, _, _, _) => id != "" && id !in s.issued && family !in s.appOf
    case Present(h, _) => h !in s.busy
    case SaveSuccessor(h, id, _, _, _) => IsRotating(s, h) && id != "" && id !in s.issued
    case Abort(h) => IsRotating(s, h)
    case RevokeReplayed(h) => h in s.busy && s.busy[h].Revoking?
    case _ => true
  }

  function Next(s: Sys, step: Step): Sys
    requires Enabled(s, step)
  {
    match step
    case Login(id, family, user, app, expiresAt, audience) =>
      s.(tokens := s.tokens[id := RefreshToken(family, user, false, expiresAt, app, audience)],
         issued := s.issued + {id}, appOf := s.appOf[family := app])
    case Present(h, id) =>
      (match Consume(s.tokens, id)
       case NotFound => s
       case Reused(rt) => s.(busy := s.busy[h := Revoking(rt.family)])
       case Accepted(rt) =>
         s.(tokens := s.tokens[id := rt], busy := s.busy[h := Rotating(rt)], accepted := s.accepted + [id]))
    case SaveSuccessor(h, id, user, expiresAt, audience) =>
      s.(tokens := s.tokens[id := Successor(s.busy[h].token, user, expiresAt, audience)],
         busy := s.busy - {h}, issued := s.issued + {id})
    case Abort(h) => s.(busy := s.busy - {h})
    case RevokeReplayed(h) => s.(tokens := WithoutFamily(s.tokens, s.busy[h].family), busy := s.busy - {h})
    case RevokeFamily(family) => s.(tokens := WithoutFamily(s.tokens, family))
    case RevokeUser(user) => s.(tokens := WithoutUser(s.tokens, user))
    case CleanExpired(now) => s.(tokens := WithoutExpired(s.tokens, now))
  }

  predicate Possible(s: Sys, steps: seq<Step>)
    decreases steps
  {
    steps != [] ==> Enabled(s, steps[0]) && Possible(Next(s, steps[0]), steps[1..])
  }

  function Run(s: Sys, steps: seq<Step>): Sys
    requires Possible(s, steps)
    decreases steps
  {
    if steps == [] then s else Run(Next(s, steps[0]), steps[1..])
  }

  // ---- What every interleaving keeps ----

  /** What can still lead to a live token: one that is stored and unused, or a rotation in flight. */
  datatype Holder = Stored(id: string) | InFlight(handler: nat)

  predicate Holds(s: Sys, x: Holder, family: string) {
    match x
    case Stored(id) => id in s.tokens && !s.tokens[id].used && s.tokens[id].family == family
    case InFlight(h) => IsRotating(s, h) && s.busy[h].token.family == family
  }

  ghost predicate OneHolderPerFamily(s: Sys) {
    forall x, y, f | Holds(s, x, f) && Holds(s, y, f) :: x == y
  }

  predicate Bound(s: Sys, rt: RefreshToken) {
    rt.family in s.appOf && s.appOf[rt.family] == rt.app
  }

  ghost predicate OneAppPerFamily(s: Sys) {
    && (forall id | id in s.tokens :: Bound(s, s.tokens[id]))
    && (forall h | IsRotating(s, h) :: Bound(s, s.busy[h].token))
  }

  ghost predicate ConsumedOnce(s: Sys) {
    && s.tokens.Keys <= s.issued
    && NoDup(s.accepted)
    && (forall i | 0 <= i < |s.accepted| :: s.accepted[i] in s.issued)
    && (forall i | 0 <= i < |s.accepted| && s.accepted[i] in s.tokens :: s.tokens[s.accepted[i]].used)
  }

  ghost predicate Inv(s: Sys) {
    OneHolderPerFamily(s) && OneAppPerFamily(s) && ConsumedOnce(s)
  }

  /** Each holder after a step either held before, or took over from the one holder the step used up. */
  lemma HolderStep(s: Sys, step: Step)
    requires Inv(s) && Enabled(s, step)
    ensures OneHolderPerFamily(Next(s, step))
  {
    var s' := Next(s, step);
    forall x, y, f | Holds(s', x, f) && Holds(s', y, f) ensures x == y {
      match step {
        case Login(id, family, _, _, _, _) =>
          assert x != Stored(id) ==> Holds(s, x, f) && f != family by { FamilyKnown(s, x, f); }
          assert y != Stored(id) ==> Holds(s, y, f) && f != family by { FamilyKnown(s, y, f); }
        case Present(h, id) =>
          if Consume(s.tokens, id).Accepted? {
            assert Holds(s, if x == InFlight(h) then Stored(id) else x, f);
            assert Holds(s, if y == InFlight(h) then Stored(id) else y, f);
          } else {
            assert Holds(s, x, f) && Holds(s, y, f);
          }
        case SaveSuccessor(h, id, _, _, _) =>
          assert Holds(s, if x == Stored(id) then InFlight(h) else x, f);
          assert Holds(s, if y == Stored(id) then InFlight(h) else y, f);
        case _ =>
          assert Holds(s, x, f) && Holds(s, y, f);
      }
    }
  }

  lemma FamilyKnown(s: Sys, x: Holder, f: string)
    requires OneAppPerFamily(s)
    ensures Holds(s, x, f) ==> f in s.appOf
  {
  }

  lemma AppStep(s: Sys, step: Step)
    requires Inv(s) && Enabled(s, step)
    ensures OneAppPerFamily(Next(s, step))
  {
  }

  lemma ConsumedStep(s: Sys, step: Step)
    requires Inv(s) && Enabled(s, step)
    ensures ConsumedOnce(Next(s, step))
  {
  }

  lemma {:induction false} InvAlways(s: Sys, steps: seq<Step>)
    requires Inv(s) && Possible(s, steps)
    ensures Inv(Run(s, steps))
    ensures forall f | f in s.appOf :: f in Run(s, steps).appOf && Run(s, steps).appOf[f] == s.appOf[f]
    decreases steps
  {
    if steps != [] {
      HolderStep(s, steps[0]);
      AppStep(s, steps[0]);
      ConsumedStep(s, steps[0]);
      InvAlways(Next(s, steps[0]), steps[1..]);
    }
  }

  ghost function LiveTokens(s: Sys, family: string): set<string> {
    set id | id in s.tokens && Holds(s, Stored(id), family)
  }

  ghost function Rotations(s: Sys, family: string): set<nat> {
    set h | h in s.busy && Holds(s, InFlight(h), family)
  }

  /**
   In every interleaving: a family never has more than one unused token and rotation in flight counted together;
   no token id is ever successfully consumed twice; all tokens of a family carry one app.
   */
  lemma RotationSafety(steps: seq<Step>, family: string)
    requires Possible(START, steps)
    ensures var s := Run(START, steps);
            && |LiveTokens(s, family)| + |Rotations(s, family)| <= 1
            && NoDup(s.accepted)
            && (forall a, b | a in s.tokens && b in s.tokens && s.tokens[a].family == s.tokens[b].family ::
                  s.tokens[a].app == s.tokens[b].app)
  {
    InvAlways(START, steps);
    var s := Run(START, steps);
    var live, flying := LiveTokens(s, family), Rotations(s, family);
    forall a, b | a in live && b in live ensures a == b {
      assert Stored(a) == Stored(b);
    }
    forall a, b | a in flying && b in flying ensures a == b {
      assert InFlight(a) == InFlight(b);
    }
    forall a, b | a in live && b in flying ensures Stored(a) == InFlight(b) {
    }
    assert live == {} || flying == {};
    AtMostOne(live);
    AtMostOne(flying);
  }

  /** However far apart in a run, two tokens of one family carry the same app. */
  lemma FamilyKeepsItsApp(s: Sys, steps: seq<Step>, a: string, b: string)
    requires Inv(s) && Possible(s, steps) && a in s.tokens && b in Run(s, steps).tokens
    requires s.tokens[a].family == Run(s, steps).tokens[b].family
    ensures s.tokens[a].app == Run(s, steps).tokens[b].app
  {
    InvAlways(s, steps);
    assert Bound(s, s.tokens[a]) && Bound(Run(s, steps), Run(s, steps).tokens[b]);
  }

  lemma AtMostOne<T>(s: set<T>)
    requires forall a, b | a in s && b in s :: a == b
    ensures |s| <= 1
  {
    if s != {} {
      var x :| x in s;
      assert s == {x};
    }
  }

  // ---- When revoking a family kills it ----

  /** Nothing of the family is stored, and the family id has been issued. */
  predicate Absent(s: Sys, family: string) {
    family in s.appOf && forall id | id in s.tokens :: s.tokens[id].family != family
  }

  /** The step stores a token of the family, or successfully consumes one. */
  predicate ActsOn(s: Sys, step: Step, family: string)
    requires Enabled(s, step)
  {
    match step
    case Login(_, f, _, _, _, _) => f == family
    case Present(_, id) => Consume(s.tokens, id).Accepted? && s.tokens[id].family == family
    case SaveSuccessor(h, _, _, _, _) => s.busy[h].token.family == family
    case _ => false
  }

  predicate Silent(s: Sys, steps: seq<Step>, family: string)
    requires Possible(s, steps)
    decreases steps
  {
    && Absent(s, family)
    && (steps != [] ==> !ActsOn(s, steps[0], family) && Silent(Next(s, steps[0]), steps[1..], family))
  }

  predicate NoRotation(s: Sys, family: string) {
    forall h | h in s.busy && IsRotating(s, h) :: s.busy[h].token.family != family
  }

  lemma {:induction false} DeadStaysDead(s: Sys, steps: seq<Step>, family: string)
    requires Possible(s, steps) && Absent(s, family) && NoRotation(s, family)
    ensures Silent(s, steps, family)
    decreases steps
  {
    if steps != [] {
      DeadStaysDead(Next(s, steps[0]), steps[1..], family);
    }
  }

  lemma FlightLands(s: Sys, h: nat, family: string)
    requires Absent(s, family) && IsRotating(s, h) && s.busy[h].token.family == family
    ensures exists steps :: Possible(s, steps) && !Silent(s, steps, family)
  {
    var id := FreshString(s.issued);
    var steps := [SaveSuccessor(h, id, "", 0, "")];
    assert steps[1..] == [] && Possible(Next(s, steps[0]), steps[1..]);
    assert ActsOn(s, steps[0], family);
    assert Possible(s, steps) && !Silent(s, steps, family);
  }

  /**
   Revoking a family (after a replay, or at logout) silences it for good, in every continuation,
   exactly when no rotation of that family is in flight.
   */
  lemma RevocationKillsIffNoneInFlight(s: Sys, step: Step, family: string)
    requires Enabled(s, step) && family in s.appOf
    requires step == RevokeFamily(family) || (step.RevokeReplayed? && s.busy[step.handler].family == family)
    ensures (forall steps | Possible(Next(s, step), steps) :: Silent(Next(s, step), steps, family))
            <==> NoRotation(s, family)
  {
    var after := Next(s, step);
    assert Absent(after, family);
    if NoRotation(s, family) {
      forall steps | Possible(after, steps) ensures Silent(after, steps, family) {
        DeadStaysDead(after, steps, family);
      }
    } else {
      var h :| h in s.busy && IsRotating(s, h) && s.busy[h].token.family == family;
      FlightLands(after, h, family);
    }
  }

  /** A replayed token, presented while its family has nothing in flight, ends the family for good. */
  lemma ReplayKillsFamily(s: Sys, h: nat, id: string, steps: seq<Step>)
    requires Inv(s) && h !in s.busy && id in s.tokens && s.tokens[id].used
    requires NoRotation(s, s.tokens[id].family)
    ensures var replay := [Present(h, id), RevokeReplayed(h)];
            && Possible(s, replay)
            && (Possible(Run(s, replay), steps) ==> Silent(Run(s, replay), steps, s.tokens[id].family))
  {
    var replay := [Present(h, id), RevokeReplayed(h)];
    var mid := Next(s, replay[0]);
    var after := Next(mid, replay[1]);
    assert replay[1..] == [RevokeReplayed(h)] && replay[1..][1..] == [];
    assert Possible(mid, replay[1..]) by { assert Possible(after, []); }
    assert Run(s, replay) == Run(mid, replay[1..]) == Run(after, replay[1..][1..]) == after;
    if Possible(after, steps) {
      DeadStaysDead(after, steps, s.tokens[id].family);
    }
  }

  /** Cleaning takes the expired tokens and no other: a token can be presented up to and including its expiry. */
  lemma CleaningTakesTheExpired(s: Sys, now: int, id: string)
    ensures var s' := Next(s, CleanExpired(now));
            && (id in s'.tokens <==> id in s.tokens && now <= s.tokens[id].expiresAt)
            && (id in s'.tokens ==> s'.tokens[id] == s.tokens[id])
            && s'.busy == s.busy && s'.issued == s.issued && s'.accepted == s.accepted
  {
  }

  // ---- What revoking a user's sessions does ----

  predicate NoTokenOf(s: Sys, user: string) {
    forall id | id in s.tokens :: s.tokens[id].user != user
  }

  /** The step stores a token of the user, or successfully consumes one. */
  predicate ActsFor(s: Sys, step: Step, user: string)
    requires Enabled(s, step)
  {
    match step
    case Login(_, _, u, _, _, _) => u == user
    case Present(_, id) => id in s.tokens && !s.tokens[id].used && s.tokens[id].user == user
    case SaveSuccessor(_, _, u, _, _) => u == user
    case _ => false
  }

  predicate SilentFor(s: Sys, steps: seq<Step>, user: string)
    requires Possible(s, steps)
    decreases steps
  {
    && NoTokenOf(s, user)
    && (steps != [] ==> !ActsFor(s, steps[0], user) && SilentFor(Next(s, steps[0]), steps[1..], user))
  }

  /** A login or the save of a rotation in flight, for this user. */
  predicate NamesUser(step: Step, user: string) {
    (step.Login? || step.SaveSuccessor?) && step.user == user
  }

  lemma RevokeUserIsExact(s: Sys, user: string)
    ensures var after := Next(s, RevokeUser(user));
            && NoTokenOf(after, user)
            && (forall id | id in s.tokens && s.tokens[id].user != user ::
                  id in after.tokens && after.tokens[id] == s.tokens[id])
            && after.tokens.Keys <= s.tokens.Keys && after.busy == s.busy
  {
  }

  lemma {:induction false} UserStaysSilentIff(s: Sys, steps: seq<Step>, user: string)
    requires Possible(s, steps) && NoTokenOf(s, user)
    ensures SilentFor(s, steps, user) <==> forall i | 0 <= i < |steps| :: !NamesUser(steps[i], user)
    decreases steps
  {
    if steps != [] {
      var next, rest := Next(s, steps[0]), steps[1..];
      assert forall i | 0 <= i < |rest| :: rest[i] == steps[i + 1];
      if !NamesUser(steps[0], user) {
        UserStaysSilentIff(next, rest, user);
        assert (forall i | 0 <= i < |rest| :: !NamesUser(rest[i], user)) ==>
            forall i | 0 < i < |steps| :: steps[i] == rest[i - 1];
      }
    }
  }

  /**
   After a user's sessions are revoked no token of the user is stored or consumed in a continuation, exactly as long as
   no login and no save of a rotation in flight names the user.
   */
  lemma RevokedUserIsSilentIff(s: Sys, user: string, steps: seq<Step>)
    requires Possible(Next(s, RevokeUser(user)), steps)
    ensures SilentFor(Next(s, RevokeUser(user)), steps, user)
            <==> forall i | 0 <= i < |steps| :: !NamesUser(steps[i], user)
  {
    RevokeUserIsExact(s, user);
    UserStaysSilentIff(Next(s, RevokeUser(user)), steps, user);
  }

  /** A login stores a live token of that user, family and app, and nothing else. */
  lemma LoginStores(s: Sys, id: string, family: string, user: string, app: string, expiresAt: int, audience: string)
    requires Enabled(s, Login(id, family, user, app, expiresAt, audience))
    ensures var after := Next(s, Login(id, family, user, app, expiresAt, audience)).tokens;
            && id in after && !after[id].used && after[id].user == user && after[id].family == family
            && after[id].app == app && after[id].expiresAt == expiresAt && after[id].audience == audience
            && after - {id} == s.tokens - {id}
  {
  }

  // ---- The handlers are made of these steps ----

  /** HandleRefresh, run without interruption, is exactly its steps: present, then save, abort or revoke. */
  lemma HandlerIsItsSteps(s: Sys, h: nat, id: string, admitted: bool,
                          newID: string, user: string, expiresAt: int, audience: string)
    requires h !in s.busy && newID != "" && newID !in s.issued
    ensures var mid := Next(s, Present(h, id));
            match Consume(s.tokens, id)
            case NotFound => mid == s
            case Reused(rt) =>
              && Enabled(mid, RevokeReplayed(h))
              && Next(mid, RevokeReplayed(h)) == s.(tokens := WithoutFamily(s.tokens, rt.family))
            case Accepted(rt) =>
              var last := if admitted then SaveSuccessor(h, newID, user, expiresAt, audience) else Abort(h);
              && Enabled(mid, last) && Next(mid, last).busy == s.busy
              && Next(mid, last).tokens
                 == if admitted then s.tokens[id := rt][newID := Successor(rt, user, expiresAt, audience)]
                    else s.tokens[id := rt]
  {
  }
}
