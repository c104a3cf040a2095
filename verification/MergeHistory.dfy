/**
 The merge graph over whole runs, with record updates in flight: UpdateUser writes a whole record back, with the merge
 mark its caller read some time before.
 */
module MergeHistory {
  import opened Prelude
  import opened RelationStore
  import opened BoltBackend
  import opened Simulation
  import opened MergeGraph

  /** A record's GUID and its merge mark. */
  datatype Link = Link(guid: string, target: string)

  /** `reading` holds what the updates in flight have read; `firstUse` when each GUID first had a record. */
  datatype Sys = Sys(store: Bolt, reading: multiset<Link>, firstUse: map<string, nat>, clock: nat)

  const START := Sys(EMPTY_BOLT, multiset{}, map[], 0)

  datatype Step = Call(op: Op) | ReadUser(guid: string) | Abandon(link: Link)

  /** New users are not merged, merged users get a GUID never used before, and an update keeps the mark it has read. */
  predicate Enabled(s: Sys, step: Step) {
    match step
    case ReadUser(guid) => guid in s.store.users
    case Abandon(link) => link in s.reading
    case Call(op) =>
      && MintsFresh(s.store.users, op)
      && (op.CreateUser? ==> op.user.mergedInto == "")
      && (op.Merge? ==> op.guid !in s.firstUse)
      && (op.UpdateUser? ==> Link(op.guid, op.user.mergedInto) in s.reading)
  }

  function Next(s: Sys, step: Step): Sys
    requires Enabled(s, step)
  {
    match step
    case ReadUser(guid) => s.(reading := s.reading + multiset{Link(guid, s.store.users[guid].mergedInto)})
    case Abandon(link) => s.(reading := s.reading - multiset{link})
    case Call(op) =>
      var store := BoltStep(s.store, op);
      s.(store := store, clock := s.clock + 1,
         reading := if op.UpdateUser? then s.reading - multiset{Link(op.guid, op.user.mergedInto)} else s.reading,
         firstUse := map g | g in s.firstUse.Keys + store.users.Keys ::
           if g in s.firstUse then s.firstUse[g] else s.clock)
  }

  predicate Possible(s: Sys, steps: seq<Step>)
    decreases steps
  {
    steps != [] ==> Enabled(s, steps[0]) && Possible(Next(s, steps[0]), steps[1..])
  }

  function Run(s: Sys, steps: seq<Step>): Sys
    requires Possible(s, steps)
    decreases steps
  {
    if steps == [] then s else Run(Next(s, steps[0]), steps[1..])
  }

  // ---- Merge marks always point to younger users ----

  /** The target was first used after the GUID that points at it. */
  predicate Rises(s: Sys, link: Link) {
    && link.guid in s.firstUse
    && (link.target != "" ==> link.target in s.firstUse && s.firstUse[link.guid] < s.firstUse[link.target])
  }

  ghost predicate Inv(s: Sys) {
    && (forall g | g in s.store.users :: Rises(s, Link(g, s.store.users[g].mergedInto)))
    && (forall link | link in s.reading :: Rises(s, link))
    && (forall g | g in s.firstUse :: s.firstUse[g] < s.clock)
  }

  lemma RisesStays(s: Sys, step: Step, link: Link)
    requires Enabled(s, step) && Rises(s, link)
    ensures Rises(Next(s, step), link)
  {
  }

  /** The marks after a call: as before, read before, gone, or pointing at the user just merged. */
  lemma MarkAfter(s: Sys, op: Op, g: string)
    requires Enabled(s, Call(op)) && g in BoltStep(s.store, op).users
    ensures var mark := BoltStep(s.store, op).users[g].mergedInto;
            || mark == ""
            || (g in s.store.users && mark == s.store.users[g].mergedInto)
            || Link(g, mark) in s.reading
            || (op.Merge? && AllExist(s.store.users, op.sources) && g in op.sources && mark == op.guid)
  {
  }

  /** What is in flight after a step was in flight, or has just been read. */
  lemma ReadBefore(s: Sys, step: Step, link: Link)
    requires Enabled(s, step) && link in Next(s, step).reading
    ensures || link in s.reading
            || (step.ReadUser? && step.guid == link.guid && link.target == s.store.users[link.guid].mergedInto)
  {
  }

  lemma MarksStillRise(s: Sys, op: Op, g: string)
    requires Inv(s) && Enabled(s, Call(op)) && g in BoltStep(s.store, op).users
    ensures Rises(Next(s, Call(op)), Link(g, BoltStep(s.store, op).users[g].mergedInto))
  {
    var mark := BoltStep(s.store, op).users[g].mergedInto;
    MarkAfter(s, op, g);
    if (g in s.store.users && mark == s.store.users[g].mergedInto) || Link(g, mark) in s.reading {
      RisesStays(s, Call(op), Link(g, mark));
    } else if mark != "" {
      assert g in s.store.users && Rises(s, Link(g, s.store.users[g].mergedInto));
      assert mark in BoltStep(s.store, op).users && mark !in s.firstUse;
    }
  }

  lemma StepKeepsInv(s: Sys, step: Step)
    requires Inv(s) && Enabled(s, step)
    ensures Inv(Next(s, step))
  {
    var s' := Next(s, step);
    forall link | link in s'.reading ensures Rises(s', link) {
      ReadBefore(s, step, link);
      if link in s.reading {
        RisesStays(s, step, link);
      } else {
        assert Rises(s, Link(link.guid, s.store.users[link.guid].mergedInto));
      }
    }
    forall g | g in s'.store.users ensures Rises(s', Link(g, s'.store.users[g].mergedInto)) {
      match step {
        case Call(op) => MarksStillRise(s, op, g);
        case _ => assert Rises(s, Link(g, s.store.users[g].mergedInto));
      }
    }
  }

  lemma {:induction false} InvAlways(s: Sys, steps: seq<Step>)
    requires Inv(s) && Possible(s, steps)
    ensures Inv(Run(s, steps))
    decreases steps
  {
    if steps != [] {
      StepKeepsInv(s, steps[0]);
      InvAlways(Next(s, steps[0]), steps[1..]);
    }
  }

  lemma {:induction false} TrailRises(s: Sys, path: seq<string>, i: nat, j: nat)
    requires Inv(s) && Trail(s.store.users, path) && i < j < |path|
    ensures path[i] in s.firstUse && path[j] in s.firstUse && s.firstUse[path[i]] < s.firstUse[path[j]]
    decreases j - i
  {
    assert HasEdge(s.store.users, path[i]);
    assert Rises(s, Link(path[i], path[i + 1]));
    if i + 1 < j { TrailRises(s, path, i + 1, j); }
  }

  lemma InvIsAcyclic(s: Sys, g: string)
    requires Inv(s)
    ensures Resolve(s.store.users, g) != Cycle
  {
    ResolveIffMeaning(s.store.users, g, Cycle);
    if path :| Lasso(s.store.users, path, g) {
      var last := |path| - 1;
      var i :| 0 <= i < last && path[..last][i] == path[last];
      TrailRises(s, path, i, last);
    }
  }

  /** In every reachable store each merge mark points at a user whose GUID was first used later. */
  lemma MarksRise(steps: seq<Step>, g: string)
    requires Possible(START, steps) && HasEdge(Run(START, steps).store.users, g)
    ensures var s := Run(START, steps);
            var target := s.store.users[g].mergedInto;
            g in s.firstUse && target in s.firstUse && s.firstUse[g] < s.firstUse[target]
  {
    InvAlways(START, steps);
    assert Rises(Run(START, steps), Link(g, Run(START, steps).store.users[g].mergedInto));
  }

  /** No reachable store makes ResolveUser report a cycle, however late a record that was read is written back. */
  lemma NoReachableCycle(steps: seq<Step>, g: string)
    requires Possible(START, steps)
    ensures Resolve(Run(START, steps).store.users, g) != Cycle
  {
    InvAlways(START, steps);
    InvIsAcyclic(Run(START, steps), g);
  }

  // ---- How long a merge lasts ----

  /** The call neither unmerges, deletes, re-creates nor merges this user. An update is not such a call. */
  predicate LeavesMerged(s: Sys, step: Step, g: string) {
    step.Call? ==>
      match step.op
      case CreateUser(guid, _) => guid != g
      case Unmerge(guid) => guid != g
      case DeleteUser(guid) => guid != g
      case DeleteApp(appID) => g !in OwnedBy(s.store.users, appID)
      case Merge(sources, _, _, _) => g !in sources
      case _ => true
  }

  ghost predicate Undisturbed(s: Sys, steps: seq<Step>, g: string)
    requires Possible(s, steps)
    decreases steps
  {
    steps != [] ==> LeavesMerged(s, steps[0], g) && Undisturbed(Next(s, steps[0]), steps[1..], g)
  }

  /** No update of this user is in flight that has read another mark. */
  ghost predicate NoOtherRead(s: Sys, g: string, target: string) {
    forall link | link in s.reading && link.guid == g :: link.target == target
  }

  lemma CallLeavesMark(s: Sys, op: Op, g: string)
    requires Enabled(s, Call(op)) && LeavesMerged(s, Call(op), g) && g in s.store.users && g in s.firstUse
    requires NoOtherRead(s, g, s.store.users[g].mergedInto)
    ensures var users := BoltStep(s.store, op).users; g in users && users[g].mergedInto == s.store.users[g].mergedInto
  {
    match op {
      case UpdateUser(guid, user) => assert guid == g ==> Link(g, user.mergedInto) in s.reading;
      case _ =>
    }
  }

  lemma MarkLasts(s: Sys, step: Step, g: string, target: string)
    requires Inv(s) && Enabled(s, step) && LeavesMerged(s, step, g)
    requires g in s.store.users && s.store.users[g].mergedInto == target && NoOtherRead(s, g, target)
    ensures var s' := Next(s, step);
            g in s'.store.users && s'.store.users[g].mergedInto == target && NoOtherRead(s', g, target)
  {
    assert Rises(s, Link(g, target));
    forall link | link in Next(s, step).reading && link.guid == g ensures link.target == target {
      ReadBefore(s, step, link);
    }
    if step.Call? { CallLeavesMark(s, step.op, g); }
  }

  lemma {:induction false} MarkLastsAlways(s: Sys, steps: seq<Step>, g: string, target: string)
    requires Inv(s) && Possible(s, steps) && Undisturbed(s, steps, g)
    requires g in s.store.users && s.store.users[g].mergedInto == target && NoOtherRead(s, g, target)
    ensures var end := Run(s, steps).store.users; g in end && end[g].mergedInto == target
    decreases steps
  {
    if steps != [] {
      StepKeepsInv(s, steps[0]);
      MarkLasts(s, steps[0], g, target);
      MarkLastsAlways(Next(s, steps[0]), steps[1..], g, target);
    }
  }

  /** A merged user resolves as the user it was merged into. */
  lemma ResolvesAsTarget(users: Users, g: string)
    requires HasEdge(users, g) && Resolve(users, users[g].mergedInto) != Cycle
    ensures Resolve(users, g) == Resolve(users, users[g].mergedInto)
  {
    var m := users[g].mergedInto;
    var r := Resolve(users, m);
    ResolveIffMeaning(users, m, r);
    ResolveIffMeaning(users, g, r);
    if !r.Cycle? {
      var path :| TrailFromTo(users, path, m, r.guid);
      var longer := [g] + path;
      assert forall i | 1 <= i < |longer| :: longer[i] == path[i - 1];
      assert TrailFromTo(users, longer, g, r.guid);
    }
  }

  /** In every undisturbed continuation `g` resolves as `target` does. */
  ghost predicate KeepsResolving(s: Sys, g: string, target: string) {
    forall steps | Possible(s, steps) && Undisturbed(s, steps, g) ::
      Resolve(Run(s, steps).store.users, g) == Resolve(Run(s, steps).store.users, target)
  }

  /**
   A merge redirects a source for good (until it is unmerged, deleted, re-created or merged again) if and only if no
   update of the source is in flight that had read it before the merge.
   */
  lemma MergeLastsIff(s: Sys, op: Op, g: string)
    requires Inv(s) && op.Merge? && Enabled(s, Call(op)) && AllExist(s.store.users, op.sources) && g in op.sources
    ensures KeepsResolving(Next(s, Call(op)), g, op.guid) <==> forall link | link in s.reading :: link.guid != g
  {
    var merged := Next(s, Call(op));
    StepKeepsInv(s, Call(op));
    assert merged.store.users[g].mergedInto == op.guid;
    if forall link | link in s.reading :: link.guid != g {
      forall steps | Possible(merged, steps) && Undisturbed(merged, steps, g)
        ensures Resolve(Run(merged, steps).store.users, g) == Resolve(Run(merged, steps).store.users, op.guid)
      {
        MarkLastsAlways(merged, steps, g, op.guid);
        InvAlways(merged, steps);
        InvIsAcyclic(Run(merged, steps), op.guid);
        ResolvesAsTarget(Run(merged, steps).store.users, g);
      }
    } else {
      var link :| link in s.reading && link.guid == g;
      assert Rises(s, link);
      var steps := StaleMarkContinuation(merged, link, op.guid);
    }
  }

  /**
   A late update puts the mark it has read back; the user that one names need not lead to the merged user any more.
   */
  lemma StaleMarkContinuation(s: Sys, link: Link, guid: string) returns (steps: seq<Step>)
    requires Inv(s) && link in s.reading && link.guid in s.store.users && link.target != guid
    requires guid in s.store.users && s.store.users[guid].mergedInto == "" && guid != link.guid
    ensures Possible(s, steps) && Undisturbed(s, steps, link.guid)
    ensures var end := Run(s, steps).store.users; Resolve(end, link.guid) != Resolve(end, guid)
  {
    var g, t := link.guid, link.target;
    var write := Call(UpdateUser(g, s.store.users[g].(mergedInto := t)));
    var s1 := Next(s, write);
    assert Rises(s, link);
    assert s1.store.users == s.store.users[g := s.store.users[g].(mergedInto := t)];
    if t != "" && HasEdge(s.store.users, t) {
      var unmerge := Call(Unmerge(t));
      var s2 := Next(s1, unmerge);
      assert s2.store.users == s1.store.users[t := s1.store.users[t].(mergedInto := "")];
      steps := [write] + ([unmerge] + []);
      OneMore(s1, unmerge, [], g);
      OneMore(s, write, [unmerge] + [], g);
      EndsElsewhere(s2.store.users, g, guid);
    } else {
      steps := [write] + [];
      OneMore(s, write, [], g);
      EndsElsewhere(s1.store.users, g, guid);
    }
  }

  lemma OneMore(s: Sys, step: Step, rest: seq<Step>, g: string)
    requires Enabled(s, step) && Possible(Next(s, step), rest)
    ensures Possible(s, [step] + rest) && Run(s, [step] + rest) == Run(Next(s, step), rest)
    ensures LeavesMerged(s, step, g) && Undisturbed(Next(s, step), rest, g) ==> Undisturbed(s, [step] + rest, g)
  {
    assert ([step] + rest)[1..] == rest;
  }

  lemma EndsElsewhere(users: Users, g: string, guid: string)
    requires g in users && guid in users && users[guid].mergedInto == "" && g != guid
    requires var t := users[g].mergedInto; t == "" || (t != g && t != guid && !HasEdge(users, t))
    ensures Resolve(users, g) != Resolve(users, guid)
  {
    var t := users[g].mergedInto;
    assert Resolve(users, guid) == Found(guid, users[guid]);
    if t != "" { assert Resolve(users, g) == Walk(users, t, {g} + {t}); }
  }

  /** The plain case: read, merge, write back. The merge is undone although nobody unmerged. */
  lemma StaleUpdateUndoesMerge(s: Sys, g: string, guid: string, name: string, email: string)
    requires Inv(s) && g in s.store.users && s.store.users[g].mergedInto == ""
    requires guid != "" && guid !in s.firstUse && guid !in s.store.users && g != guid
    ensures var steps := [ReadUser(g), Call(Merge([g], guid, name, email)), Call(UpdateUser(g, s.store.users[g]))];
            && Possible(s, steps)
            && Resolve(Run(s, steps).store.users, g) == Found(g, s.store.users[g])
  {
    var s1 := Next(s, ReadUser(g));
    var merge := Call(Merge([g], guid, name, email));
    var write := Call(UpdateUser(g, s.store.users[g]));
    MergeOfOne(s1, g, guid, name, email);
    var s2 := Next(s1, merge);
    var s3 := Next(s2, write);
    OneMore(s2, write, [], g);
    OneMore(s1, merge, [write] + [], g);
    OneMore(s, ReadUser(g), [merge] + ([write] + []), g);
    InThreeSteps(ReadUser(g), merge, write);
  }

  lemma InThreeSteps(a: Step, b: Step, c: Step)
    ensures [a] + ([b] + ([c] + [])) == [a, b, c]
  {
  }

  lemma MergeOfOne(s: Sys, g: string, guid: string, name: string, email: string)
    requires g in s.store.users && guid != "" && guid !in s.firstUse && guid !in s.store.users && g != guid
    ensures var merge := Call(Merge([g], guid, name, email));
            && Enabled(s, merge) && Next(s, merge).reading == s.reading
            && g in Next(s, merge).store.users
  {
    assert AllExist(s.store.users, [g]);
  }

  // ---- Reads and writes balance ----

  function Reads(s: Sys, steps: seq<Step>, link: Link): nat
    requires Possible(s, steps)
    decreases steps
  {
    if steps == [] then 0
    else
      (if steps[0].ReadUser? && Link(steps[0].guid, s.store.users[steps[0].guid].mergedInto) == link then 1 else 0)
      + Reads(Next(s, steps[0]), steps[1..], link)
  }

  /** How often an update that carries the link is written or given up. */
  function Ends(steps: seq<Step>, link: Link): nat
    decreases steps
  {
    if steps == [] then 0
    else
      (if steps[0] == Abandon(link)
          || (steps[0].Call? && steps[0].op.UpdateUser? && Link(steps[0].op.guid, steps[0].op.user.mergedInto) == link)
       then 1 else 0)
      + Ends(steps[1..], link)
  }

  /** In every run each read serves one write: what is read is written or given up once, or still in flight. */
  lemma {:induction false} ReadsAreUsedOnce(s: Sys, steps: seq<Step>, link: Link)
    requires Possible(s, steps)
    ensures s.reading[link] + Reads(s, steps, link) == Ends(steps, link) + Run(s, steps).reading[link]
    decreases steps
  {
    if steps != [] { ReadsAreUsedOnce(Next(s, steps[0]), steps[1..], link); }
  }
}
