/** Account lockout: how many passwords a run of failing logins gets to test. */
module Lockout {
  import opened Prelude

  /** The two user fields the lockout works with. */
  datatype Record = Record(failedAttempts: nat, lockedUntil: Option<int>)

  /** The policy: `threshold` failures lock the account for `duration`; no threshold, no lockout. */
  datatype Policy = Policy(threshold: int, duration: int)

  predicate Locked(p: Policy, r: Record, now: int) {
    p.threshold > 0 && r.lockedUntil.Some? && now <= r.lockedUntil.value
  }

  function AfterCheck(p: Policy, r: Record, now: int): Record {
    if p.threshold > 0 && r.lockedUntil.Some? && now > r.lockedUntil.value then Record(0, None) else r
  }

  function AfterFailure(p: Policy, r: Record, now: int): Record {
    var failed := r.failedAttempts + 1;
    Record(failed, if p.threshold > 0 && failed >= p.threshold then Some(now + p.duration) else r.lockedUntil)
  }

  /**
   One login with a wrong password. The lock is read at `checked`, the password is tried at `tested`,
   and the failure is written down at `recorded`.
   */
  datatype Attempt = Attempt(checked: int, tested: int, recorded: int)

  function AfterAttempt(p: Policy, r: Record, a: Attempt): Record {
    if Locked(p, r, a.checked) then r
    else AfterFailure(p, AfterCheck(p, r, a.checked), a.recorded)
  }

  class Account {
    var failedAttempts: nat
    var lockedUntil: Option<int>

    function State(): Record
      reads this
    {
      Record(failedAttempts, lockedUntil)
    }

    method IsAccountLocked(p: Policy, now: int) returns (locked: bool)
      modifies this
      ensures locked == Locked(p, old(State()), now)
      ensures State() == AfterCheck(p, old(State()), now)
    {
      if p.threshold <= 0 { return false; }
      if lockedUntil.None? { return false; }
      if now > lockedUntil.value {
        failedAttempts, lockedUntil := 0, None;
        return false;
      }
      return true;
    }

    method RecordFailedLogin(p: Policy, now: int)
      modifies this
      ensures State() == AfterFailure(p, old(State()), now)
    {
      failedAttempts := failedAttempts + 1;
      if p.threshold > 0 && failedAttempts >= p.threshold {
        lockedUntil := Some(now + p.duration);
      }
    }

    /** The failing path of a login: a locked account's password is not even tried. */
    method FailLogin(p: Policy, a: Attempt) returns (tried: bool)
      modifies this
      ensures tried == !Locked(p, old(State()), a.checked)
      ensures State() == AfterAttempt(p, old(State()), a)
    {
      var locked := IsAccountLocked(p, a.checked);
      if locked { return false; }
      RecordFailedLogin(p, a.recorded);
      return true;
    }
  }

  function Run(p: Policy, r: Record, run: seq<Attempt>): Record {
    if run == [] then r else AfterAttempt(p, Run(p, r, run[..|run| - 1]), run[|run| - 1])
  }

  /** One login after the other on a clock that never goes back. */
  ghost predicate Sequential(run: seq<Attempt>) {
    && (forall i | 0 <= i < |run| :: run[i].checked <= run[i].tested <= run[i].recorded)
    && (forall i | 0 <= i < |run| - 1 :: run[i].recorded <= run[i + 1].checked)
  }

  /** A password that was tried, the moment its failure was recorded, and the failure count that left behind. */
  datatype Test = Test(tested: int, recorded: int, count: nat)

  function TestOf(p: Policy, r: Record, a: Attempt): seq<Test> {
    if Locked(p, r, a.checked) then []
    else [Test(a.tested, a.recorded, AfterAttempt(p, r, a).failedAttempts)]
  }

  /** The passwords a run gets to try, in order. */
  function Tests(p: Policy, r: Record, run: seq<Attempt>): seq<Test> {
    if run == [] then []
    else Tests(p, r, run[..|run| - 1]) + TestOf(p, Run(p, r, run[..|run| - 1]), run[|run| - 1])
  }

  /** Either the same batch goes on, below the threshold, or a full batch was followed by a whole lock. */
  predicate Follows(p: Policy, a: Test, b: Test) {
    && a.recorded <= b.tested
    && if a.count < p.threshold then b.count == a.count + 1
       else b.count == 1 && a.recorded + p.duration < b.tested
  }

  ghost predicate LogInv(p: Policy, log: seq<Test>) {
    && (forall i | 0 <= i < |log| :: 1 <= log[i].count && log[i].tested <= log[i].recorded)
    && (forall i | 0 <= i < |log| - 1 :: Follows(p, log[i], log[i + 1]))
  }

  /** The stored record is the one the last test left behind. */
  ghost predicate RecordInv(p: Policy, r: Record, log: seq<Test>) {
    log != [] ==>
      var last := log[|log| - 1];
      && r.failedAttempts == last.count
      && (if last.count < p.threshold then r.lockedUntil == None else r.lockedUntil == Some(last.recorded + p.duration))
  }

  lemma AttemptKeepsLog(p: Policy, r: Record, log: seq<Test>, a: Attempt)
    requires p.threshold > 0 && LogInv(p, log) && RecordInv(p, r, log)
    requires a.checked <= a.tested <= a.recorded && (log != [] ==> log[|log| - 1].recorded <= a.checked)
    ensures var log' := log + TestOf(p, r, a);
            LogInv(p, log') && RecordInv(p, AfterAttempt(p, r, a), log')
  {
  }

  lemma {:induction false} LogInvAlways(p: Policy, r: Record, run: seq<Attempt>)
    requires p.threshold > 0 && Sequential(run)
    ensures var log := Tests(p, r, run);
            && LogInv(p, log) && RecordInv(p, Run(p, r, run), log)
            && (log != [] ==> log[|log| - 1].recorded <= run[|run| - 1].recorded)
    ensures run == [] ==> Tests(p, r, run) == []
  {
    if run != [] {
      var prior, a := run[..|run| - 1], run[|run| - 1];
      LogInvAlways(p, r, prior);
      ClockBetween(run);
      AttemptKeepsLog(p, Run(p, r, prior), Tests(p, r, prior), a);
    }
  }

  lemma ClockBetween(run: seq<Attempt>)
    requires Sequential(run) && run != []
    ensures var prior := run[..|run| - 1];
            Sequential(prior) && (prior != [] ==> prior[|prior| - 1].recorded <= run[|run| - 1].checked)
  {
    if |run| > 1 { assert run[|run| - 2].recorded <= run[|run| - 1].checked; }
  }

  /** Within one batch the count climbs by one a test. */
  lemma {:induction false} BatchOrBreak(p: Policy, log: seq<Test>, i: nat, j: nat)
    requires LogInv(p, log) && p.duration >= 0 && i <= j < |log|
    ensures log[i].recorded <= log[j].recorded
    ensures i < j ==> log[i].recorded <= log[j].tested
    ensures log[i].tested <= log[j].tested
    ensures log[j].count >= log[i].count + (j - i) || log[j].tested - log[i].tested > p.duration
    decreases j - i
  {
    if i < j {
      BatchOrBreak(p, log, i, j - 1);
      assert Follows(p, log[j - 1], log[j]);
    }
  }

  /** Tests `threshold` or more places apart are more than a lock apart. */
  lemma TestsSpread(p: Policy, log: seq<Test>, i: nat, j: nat)
    requires p.threshold > 0 && p.duration >= 0 && LogInv(p, log) && i + p.threshold <= j < |log|
    ensures log[j].tested - log[i].tested > p.duration
  {
    var k := i + p.threshold;
    BatchOrBreak(p, log, i, k - 1);
    assert Follows(p, log[k - 1], log[k]);
    BatchOrBreak(p, log, k, j);
  }

  ghost function TestedWithin(log: seq<Test>, from: int, to: int): set<int> {
    set i | 0 <= i < |log| && from <= log[i].tested <= to
  }

  /**
   From any stored record, sequential failing logins test at most `threshold` passwords of one account in any closed
   interval as long as the lock. That the account starts unlocked, or below the threshold, is not needed.
   */
  lemma AtMostThresholdPerLock(p: Policy, r: Record, run: seq<Attempt>, from: int)
    requires p.threshold > 0 && p.duration >= 0 && Sequential(run)
    ensures |TestedWithin(Tests(p, r, run), from, from + p.duration)| <= p.threshold
  {
    var log := Tests(p, r, run);
    LogInvAlways(p, r, run);
    var within := TestedWithin(log, from, from + p.duration);
    if within != {} {
      var lo := LeastOf(within);
      var hi := GreatestOf(within);
      if lo + p.threshold <= hi {
        TestsSpread(p, log, lo, hi);
        assert false;
      }
      RangeSize(within, lo, hi);
    }
  }

  function Guesses(at: int, n: nat): seq<Attempt> {
    if n == 0 then [] else Guesses(at, n - 1) + [Attempt(at, at, at)]
  }

  lemma LastAttempt(p: Policy, r: Record, prior: seq<Attempt>, a: Attempt)
    ensures Run(p, r, prior + [a]) == AfterAttempt(p, Run(p, r, prior), a)
    ensures Tests(p, r, prior + [a]) == Tests(p, r, prior) + TestOf(p, Run(p, r, prior), a)
  {
    assert (prior + [a])[..|prior|] == prior;
  }

  lemma {:induction false} GuessesAre(at: int, n: nat)
    ensures |Guesses(at, n)| == n && forall i | 0 <= i < n :: Guesses(at, n)[i] == Attempt(at, at, at)
  {
    if n > 0 { GuessesAre(at, n - 1); }
  }

  /** A fresh account has had `n` passwords tested at `at`, and is locked once that is the threshold. */
  ghost predicate AllTested(p: Policy, run: seq<Attempt>, at: int, n: nat) {
    && |Tests(p, Record(0, None), run)| == n
    && (forall i | 0 <= i < n :: Tests(p, Record(0, None), run)[i].tested == at)
    && Run(p, Record(0, None), run) == Record(n, if n == p.threshold then Some(at + p.duration) else None)
  }

  lemma OneMoreTested(p: Policy, run: seq<Attempt>, at: int, n: nat)
    requires p.threshold > 0 && n < p.threshold && AllTested(p, run, at, n)
    ensures AllTested(p, run + [Attempt(at, at, at)], at, n + 1)
  {
    LastAttempt(p, Record(0, None), run, Attempt(at, at, at));
  }

  /** The bound is reached: a fresh account tests `threshold` passwords in a row, at one instant. */
  lemma {:induction false} ThresholdIsReached(p: Policy, at: int, n: nat)
    requires p.threshold > 0 && n <= p.threshold
    ensures AllTested(p, Guesses(at, n), at, n)
  {
    if n > 0 {
      ThresholdIsReached(p, at, n - 1);
      OneMoreTested(p, Guesses(at, n - 1), at, n - 1);
      assert Guesses(at, n) == Guesses(at, n - 1) + [Attempt(at, at, at)];
    }
  }

  /** The failure that reaches the threshold shuts the account for exactly the lock, and then it opens clean. */
  lemma {:induction false} LockHoldsThenEnds(p: Policy, r: Record, a: Attempt, refused: seq<Attempt>, next: Attempt)
    requires p.threshold > 0 && !Locked(p, r, a.checked) && AfterAttempt(p, r, a).failedAttempts >= p.threshold
    requires forall i | 0 <= i < |refused| :: refused[i].checked <= a.recorded + p.duration
    ensures var s := Run(p, AfterAttempt(p, r, a), refused);
            && s == AfterAttempt(p, r, a)
            && (Locked(p, s, next.checked) <==> next.checked <= a.recorded + p.duration)
            && (!Locked(p, s, next.checked) ==>
                  AfterAttempt(p, s, next).failedAttempts == 1
                  && (p.threshold > 1 ==> AfterAttempt(p, s, next) == Record(1, None)))
  {
    if refused != [] {
      LockHoldsThenEnds(p, r, a, refused[..|refused| - 1], next);
    }
  }

  /** Without a positive threshold nothing is ever refused: every login of every run gets its password tried. */
  lemma {:induction false} NoThresholdNoLockout(p: Policy, r: Record, run: seq<Attempt>)
    requires p.threshold <= 0
    ensures |Tests(p, r, run)| == |run|
    ensures forall i | 0 <= i < |run| :: Tests(p, r, run)[i].tested == run[i].tested
  {
    if run != [] { NoThresholdNoLockout(p, r, run[..|run| - 1]); }
  }

  /** A login is refused exactly while a positive threshold and a lock that has not ended say so. */
  lemma RefusedIff(p: Policy, r: Record, now: int)
    ensures Locked(p, r, now) <==> p.threshold > 0 && r.lockedUntil != None && now <= r.lockedUntil.value
  {
  }

  /** Below the threshold a failure is counted and an existing lock time is left alone. */
  lemma FailureBelowThreshold(p: Policy, r: Record, now: int)
    requires p.threshold <= 0 || r.failedAttempts + 1 < p.threshold
    ensures AfterFailure(p, r, now).failedAttempts == r.failedAttempts + 1
    ensures AfterFailure(p, r, now).lockedUntil == r.lockedUntil
  {
  }
}
