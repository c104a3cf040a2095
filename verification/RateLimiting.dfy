/** The fixed-window login rate limiter. Times are nanoseconds on a clock that never goes back. */
module RateLimiting {
  import opened Prelude

  const SECOND := 1_000_000_000

  datatype Counter = Counter(count: int, resetAt: int)

  datatype Limiter = Limiter(counters: map<string, Counter>, limit: int, window: int, disabled: bool)

  function New(limit: int, window: int): Limiter {
    Limiter(map[], limit, window, false)
  }

  predicate InWindow(l: Limiter, ip: string, now: int) {
    ip in l.counters && now <= l.counters[ip].resetAt
  }

  function CounterAfter(l: Limiter, ip: string, now: int): Counter {
    if InWindow(l, ip, now) then l.counters[ip].(count := l.counters[ip].count + 1)
    else Counter(1, now + l.window)
  }

  function AfterAllow(l: Limiter, ip: string, now: int): Limiter {
    if l.disabled then l else l.(counters := l.counters[ip := CounterAfter(l, ip, now)])
  }

  predicate Allows(l: Limiter, ip: string, now: int) {
    l.disabled || !InWindow(l, ip, now) || l.counters[ip].count + 1 <= l.limit
  }

  /** Non-positive limit and window keep the current ones; a new window or on/off state starts clean. */
  function AfterConfig(l: Limiter, limit: int, window: int, disabled: bool): Limiter {
    Limiter(if (window > 0 && window != l.window) || disabled != l.disabled then map[] else l.counters,
            if limit > 0 then limit else l.limit,
            if window > 0 then window else l.window,
            disabled)
  }

  function RetryAfter(l: Limiter, ip: string, now: int): int {
    if ip !in l.counters || l.counters[ip].resetAt < now then 0
    else (l.counters[ip].resetAt - now) / SECOND + 1
  }

  function AfterCleanup(l: Limiter, now: int): Limiter {
    l.(counters := map ip | ip in l.counters && !(now > l.counters[ip].resetAt) :: l.counters[ip])
  }

  class RateLimiter {
    var counters: map<string, Counter>
    var limit: int
    var window: int
    var disabled: bool

    function State(): Limiter
      reads this
    {
      Limiter(counters, limit, window, disabled)
    }

    constructor (limit: int, window: int)
      ensures State() == New(limit, window)
    {
      this.counters, this.limit, this.window, this.disabled := map[], limit, window, false;
    }

    method SetConfig(newLimit: int, newWindow: int, off: bool)
      modifies this
      ensures State() == AfterConfig(old(State()), newLimit, newWindow, off)
    {
      if newLimit > 0 { limit := newLimit; }
      if (newWindow > 0 && newWindow != window) || off != disabled { counters := map[]; }
      if newWindow > 0 { window := newWindow; }
      disabled := off;
    }

    method Allow(ip: string, now: int) returns (ok: bool)
      modifies this`counters
      ensures ok == Allows(old(State()), ip, now)
      ensures State() == AfterAllow(old(State()), ip, now)
    {
      if disabled { return true; }
      if ip !in counters || now > counters[ip].resetAt {
        counters := counters[ip := Counter(1, now + window)];
        return true;
      }
      var c := counters[ip].(count := counters[ip].count + 1);
      counters := counters[ip := c];
      ok := c.count <= limit;
    }

    method Retry(ip: string, now: int) returns (seconds: int)
      ensures seconds == RetryAfter(State(), ip, now)
    {
      if ip !in counters { return 0; }
      var remaining := counters[ip].resetAt - now;
      if remaining < 0 { return 0; }
      seconds := remaining / SECOND + 1;
    }

    /** One tick of the cleanup loop. */
    method Cleanup(now: int)
      modifies this`counters
      ensures State() == AfterCleanup(old(State()), now)
    {
      ghost var before := counters;
      var todo := counters.Keys;
      while todo != {}
        invariant todo <= before.Keys
        invariant counters == map ip | ip in before && (ip in todo || !(now > before[ip].resetAt)) :: before[ip]
        decreases todo
      {
        var ip :| ip in todo;
        if now > counters[ip].resetAt { counters := counters - {ip}; }
        todo := todo - {ip};
      }
    }
  }

  // ---- Runs ----

  datatype Event =
    | Request(ip: string)
    | Ask(ip: string)
    | Cleanup
    | Configure(limit: int, window: int, disabled: bool)

  datatype Timed = Timed(event: Event, now: int)

  function After(l: Limiter, e: Timed): Limiter {
    match e.event
    case Request(ip) => AfterAllow(l, ip, e.now)
    case Ask(_) => l
    case Cleanup => AfterCleanup(l, e.now)
    case Configure(n, w, off) => AfterConfig(l, n, w, off)
  }

  function Run(l: Limiter, run: seq<Timed>): Limiter {
    if run == [] then l else After(Run(l, run[..|run| - 1]), run[|run| - 1])
  }

  /** Events happen at or after `from`, in clock order. */
  ghost predicate ClockFrom(run: seq<Timed>, from: int) {
    && (forall i | 0 <= i < |run| :: from <= run[i].now)
    && (forall i, j | 0 <= i < j < |run| :: run[i].now <= run[j].now)
  }

  // ---- How many requests one IP gets through ----

  /** An admitted request: when, in which window (its start), and as which request of that window. */
  datatype Admit = Admit(time: int, start: int, rank: int)

  function AdmitOf(l: Limiter, e: Timed, ip: string): seq<Admit> {
    if e.event == Request(ip) && !l.disabled && Allows(l, ip, e.now) then
      var c := CounterAfter(l, ip, e.now);
      [Admit(e.now, c.resetAt - l.window, c.count)]
    else []
  }

  function Admitted(l: Limiter, run: seq<Timed>, ip: string): seq<Admit> {
    if run == [] then []
    else Admitted(l, run[..|run| - 1], ip) + AdmitOf(Run(l, run[..|run| - 1]), run[|run| - 1], ip)
  }

  lemma LastEvent(l: Limiter, prior: seq<Timed>, e: Timed, ip: string)
    ensures Run(l, prior + [e]) == After(Run(l, prior), e)
    ensures Admitted(l, prior + [e], ip) == Admitted(l, prior, ip) + AdmitOf(Run(l, prior), e, ip)
  {
    assert (prior + [e])[..|prior|] == prior;
  }

  /** The limiter stays on, its window stays `window`, and its limit never exceeds `most` (at least 1). */
  ghost predicate FixedWindow(run: seq<Timed>, window: int, most: int) {
    && most >= 1
    && forall i | 0 <= i < |run| && run[i].event.Configure? ::
         && !run[i].event.disabled && run[i].event.limit <= most
         && (run[i].event.window <= 0 || run[i].event.window == window)
  }

  predicate Precedes(a: Admit, b: Admit, window: int) {
    a.time <= b.time && ((a.start == b.start && a.rank < b.rank) || a.start + window < b.start)
  }

  predicate WellPlaced(a: Admit, window: int, most: int) {
    && a.start <= a.time <= a.start + window
    && 1 <= a.rank <= most
    && (a.rank == 1 ==> a.time == a.start)
  }

  ghost predicate LogInv(log: seq<Admit>, window: int, most: int) {
    && (forall i | 0 <= i < |log| :: WellPlaced(log[i], window, most))
    && (forall i, j | 0 <= i < j < |log| :: Precedes(log[i], log[j], window))
  }

  /** The IP's counter, at time `now`, is ahead of everything admitted so far. */
  ghost predicate CounterInv(l: Limiter, log: seq<Admit>, ip: string, now: int) {
    && (forall i | 0 <= i < |log| :: log[i].time <= now)
    && (if ip in l.counters then
          var c := l.counters[ip];
          var start := c.resetAt - l.window;
          && c.count >= 1 && start <= now
          && forall i | 0 <= i < |log| ::
             (log[i].start == start && log[i].rank <= c.count) || log[i].start + l.window < start
        else forall i | 0 <= i < |log| :: log[i].start + l.window < now)
  }

  lemma RequestKeepsLog(l: Limiter, log: seq<Admit>, ip: string, was: int, now: int, most: int)
    requires !l.disabled && l.window >= 0 && l.limit <= most && most >= 1 && was <= now
    requires LogInv(log, l.window, most) && CounterInv(l, log, ip, was)
    ensures var e := Timed(Request(ip), now);
            LogInv(log + AdmitOf(l, e, ip), l.window, most) && CounterInv(After(l, e), log + AdmitOf(l, e, ip), ip, now)
  {
    var log' := log + AdmitOf(l, Timed(Request(ip), now), ip);
  }

  lemma OtherKeepsLog(l: Limiter, log: seq<Admit>, ip: string, was: int, e: Timed, most: int)
    requires !l.disabled && l.limit <= most && was <= e.now && e.event != Request(ip)
    requires e.event.Configure? ==>
               !e.event.disabled && (e.event.window <= 0 || e.event.window == l.window) && e.event.limit <= most
    requires CounterInv(l, log, ip, was)
    ensures var s := After(l, e);
            && !s.disabled && s.window == l.window && s.limit <= most
            && CounterInv(s, log, ip, e.now)
  {
  }

  lemma StepKeepsLog(l: Limiter, log: seq<Admit>, ip: string, was: int, e: Timed, most: int)
    requires !l.disabled && l.window >= 0 && l.limit <= most && most >= 1 && was <= e.now
    requires e.event.Configure? ==>
               !e.event.disabled && (e.event.window <= 0 || e.event.window == l.window) && e.event.limit <= most
    requires LogInv(log, l.window, most) && CounterInv(l, log, ip, was)
    ensures var s, log' := After(l, e), log + AdmitOf(l, e, ip);
            && !s.disabled && s.window == l.window && s.limit <= most
            && LogInv(log', l.window, most) && CounterInv(s, log', ip, e.now)
  {
    if e.event == Request(ip) {
      RequestKeepsLog(l, log, ip, was, e.now, most);
    } else {
      OtherKeepsLog(l, log, ip, was, e, most);
      assert log + AdmitOf(l, e, ip) == log;
    }
  }

  lemma {:induction false} LogInvAlways(l: Limiter, run: seq<Timed>, ip: string, from: int, most: int)
    returns (now: int)
    requires l.counters == map[] && !l.disabled && l.window >= 0 && l.limit <= most
    requires ClockFrom(run, from) && FixedWindow(run, l.window, most)
    ensures var s, log := Run(l, run), Admitted(l, run, ip);
            && !s.disabled && s.window == l.window && s.limit <= most
            && LogInv(log, l.window, most) && CounterInv(s, log, ip, now)
    ensures now == if run == [] then from else run[|run| - 1].now
  {
    now := from;
    if run != [] {
      var prior, e := run[..|run| - 1], run[|run| - 1];
      var was := LogInvAlways(l, prior, ip, from, most);
      now := e.now;
      StepKeepsLog(Run(l, prior), Admitted(l, prior, ip), ip, was, e, most);
    }
  }

  /** Consecutive admissions of one window use up its ranks. */
  lemma {:induction false} RanksRise(log: seq<Admit>, window: int, most: int, i: nat, j: nat)
    requires LogInv(log, window, most) && window >= 0 && i <= j < |log| && log[i].start == log[j].start
    ensures log[j].rank - log[i].rank >= j - i
    decreases j - i
  {
    if i < j {
      assert Precedes(log[i], log[j - 1], window) || i == j - 1;
      assert Precedes(log[j - 1], log[j], window);
      RanksRise(log, window, most, i, j - 1);
    }
  }

  lemma {:induction false} LastOfWindow(log: seq<Admit>, window: int, most: int, i: nat, j: nat) returns (k: nat)
    requires LogInv(log, window, most) && window >= 0 && i < j < |log| && log[i].start != log[j].start
    ensures i <= k < j && log[k].start == log[i].start && log[k + 1].start > log[i].start + window
    decreases j - i
  {
    if log[i + 1].start != log[i].start {
      assert Precedes(log[i], log[i + 1], window);
      k := i;
    } else {
      k := LastOfWindow(log, window, most, i + 1, j);
    }
  }

  /** Admissions no further apart than one window length are fewer than twice the limit. */
  lemma SpanBound(log: seq<Admit>, window: int, most: int, i: nat, j: nat)
    requires LogInv(log, window, most) && window >= 0 && most >= 1 && i <= j < |log|
    requires log[j].time - log[i].time <= window
    ensures j - i + 1 <= 2 * most - 1
  {
    if log[i].start == log[j].start {
      RanksRise(log, window, most, i, j);
    } else {
      var k := LastOfWindow(log, window, most, i, j);
      assert Precedes(log[i], log[j], window);
      RanksRise(log, window, most, i, k);
      assert log[i].rank >= 2;
      assert k + 1 < j ==> Precedes(log[k + 1], log[j], window);
      RanksRise(log, window, most, k + 1, j);
    }
  }

  ghost function AdmittedWithin(log: seq<Admit>, a: int, b: int): set<int> {
    set i | 0 <= i < |log| && a <= log[i].time <= b
  }

  /**
   With the window fixed, any closed interval of one window length admits at most 2M - 1 requests of one IP,
   where M is the largest limit in force (at least 1), whatever is cleaned up or re-limited meanwhile.
   */
  lemma IntervalBound(l: Limiter, run: seq<Timed>, ip: string, from: int, most: int, a: int)
    requires l.counters == map[] && !l.disabled && l.window >= 0 && l.limit <= most
    requires ClockFrom(run, from) && FixedWindow(run, l.window, most)
    ensures |AdmittedWithin(Admitted(l, run, ip), a, a + l.window)| <= 2 * most - 1
  {
    var _ := LogInvAlways(l, run, ip, from, most);
    var log := Admitted(l, run, ip);
    var within := AdmittedWithin(log, a, a + l.window);
    if within != {} {
      var lo := LeastOf(within);
      var hi := GreatestOf(within);
      SpanBound(log, l.window, most, lo, hi);
      RangeSize(within, lo, hi);
    }
  }

  // ---- The bound is reached ----

  function Burst(ip: string, now: int, n: nat): seq<Timed> {
    if n == 0 then [] else Burst(ip, now, n - 1) + [Timed(Request(ip), now)]
  }

  /** The requests of one window: its first opens it, later ones within the limit are counted in it. */
  lemma FirstOfWindow(l: Limiter, run: seq<Timed>, ip: string, now: int)
    requires !Run(l, run).disabled && !InWindow(Run(l, run), ip, now) && Run(l, run).window >= 0
    ensures var s, s' := Run(l, run), Run(l, run + [Timed(Request(ip), now)]);
            s' == s.(counters := s.counters[ip := Counter(1, now + s.window)]) && InWindow(s', ip, now)
    ensures Admitted(l, run + [Timed(Request(ip), now)], ip) == Admitted(l, run, ip) + [Admit(now, now, 1)]
  {
    LastEvent(l, run, Timed(Request(ip), now), ip);
  }

  /** `n` more admissions, all at `time`. */
  ghost predicate Grew(log: seq<Admit>, log': seq<Admit>, n: nat, time: int) {
    |log'| == |log| + n && log <= log' && forall i | |log| <= i < |log'| :: log'[i].time == time
  }

  lemma GrewMore(log: seq<Admit>, mid: seq<Admit>, log': seq<Admit>, n: nat, time: int)
    requires Grew(log, mid, n, time) && Grew(mid, log', 1, time)
    ensures Grew(log, log', n + 1, time)
  {
    assert forall i | |log| <= i < |mid| :: log'[i] == mid[i];
  }

  lemma NextOfWindow(l: Limiter, run: seq<Timed>, ip: string, now: int)
    requires var s := Run(l, run); !s.disabled && InWindow(s, ip, now) && s.counters[ip].count < s.limit
    ensures var s, s' := Run(l, run), Run(l, run + [Timed(Request(ip), now)]);
            s' == s.(counters := s.counters[ip := s.counters[ip].(count := s.counters[ip].count + 1)])
    ensures Grew(Admitted(l, run, ip), Admitted(l, run + [Timed(Request(ip), now)], ip), 1, now)
  {
    LastEvent(l, run, Timed(Request(ip), now), ip);
    var c := CounterAfter(Run(l, run), ip, now);
    var a := Admit(now, c.resetAt - Run(l, run).window, c.count);
    assert AdmitOf(Run(l, run), Timed(Request(ip), now), ip) == [a];
  }

  /** Requests within the limit at one instant of an open window are all admitted. */
  lemma {:induction false} BurstAdmitted(l: Limiter, run: seq<Timed>, ip: string, now: int, n: nat)
    requires var s := Run(l, run);
             && !s.disabled && InWindow(s, ip, now) && s.counters[ip].count + n <= s.limit
    ensures var s, s' := Run(l, run), Run(l, run + Burst(ip, now, n));
            && !s'.disabled && s'.limit == s.limit && s'.window == s.window
            && ip in s'.counters && s'.counters[ip] == s.counters[ip].(count := s.counters[ip].count + n)
    ensures Grew(Admitted(l, run, ip), Admitted(l, run + Burst(ip, now, n), ip), n, now)
  {
    if n == 0 {
      assert run + Burst(ip, now, 0) == run;
    } else {
      BurstAdmitted(l, run, ip, now, n - 1);
      NextOfWindow(l, run + Burst(ip, now, n - 1), ip, now);
      GrewMore(Admitted(l, run, ip), Admitted(l, run + Burst(ip, now, n - 1), ip),
               Admitted(l, run + Burst(ip, now, n - 1) + [Timed(Request(ip), now)], ip), n - 1, now);
      assert run + Burst(ip, now, n) == run + Burst(ip, now, n - 1) + [Timed(Request(ip), now)];
    }
  }

  /** One request, then the rest of its window's quota at its last instant, then the next window's full quota. */
  ghost function Straddle(ip: string, window: int, limit: nat): seq<Timed>
    requires limit >= 1
  {
    [Timed(Request(ip), 0)] + Burst(ip, window, limit - 1)
    + [Timed(Request(ip), window + 1)] + Burst(ip, window + 1, limit - 1)
  }

  lemma {:induction false} BurstTimes(ip: string, now: int, n: nat)
    ensures |Burst(ip, now, n)| == n && forall i | 0 <= i < n :: Burst(ip, now, n)[i] == Timed(Request(ip), now)
  {
    if n > 0 { BurstTimes(ip, now, n - 1); }
  }

  /** A full quota from a fresh window: its first request at `start`, the others together at `at`. */
  lemma QuotaAdmitted(l: Limiter, run: seq<Timed>, ip: string, start: int, at: int, limit: nat, longer: seq<Timed>)
    requires var s := Run(l, run);
             && !s.disabled && s.limit == limit >= 1 && !InWindow(s, ip, start) && start <= at <= start + s.window
    requires longer == run + [Timed(Request(ip), start)] + Burst(ip, at, limit - 1)
    ensures var s, s' := Run(l, run), Run(l, longer);
            && !s'.disabled && s'.limit == limit && s'.window == s.window
            && ip in s'.counters && s'.counters[ip].resetAt == start + s.window
    ensures Grew(Admitted(l, run, ip) + [Admit(start, start, 1)], Admitted(l, longer, ip), limit - 1, at)
  {
    FirstOfWindow(l, run, ip, start);
    BurstAdmitted(l, run + [Timed(Request(ip), start)], ip, at, limit - 1);
  }

  lemma StraddleAdmitted(ip: string, window: int, limit: nat)
    requires window >= 1 && limit >= 1
    ensures var log := Admitted(New(limit, window), Straddle(ip, window, limit), ip);
            |log| == 2 * limit && forall i | 1 <= i < |log| :: window <= log[i].time <= 2 * window
  {
    var l := New(limit, window);
    var half := [Timed(Request(ip), 0)] + Burst(ip, window, limit - 1);
    var whole := Straddle(ip, window, limit);
    assert half == [] + [Timed(Request(ip), 0)] + Burst(ip, window, limit - 1);
    QuotaAdmitted(l, [], ip, 0, window, limit, half);
    QuotaAdmitted(l, half, ip, window + 1, window + 1, limit, whole);
    TwoQuotas(Admitted(l, half, ip), Admitted(l, whole, ip), window, limit);
  }

  lemma TwoQuotas(half: seq<Admit>, whole: seq<Admit>, window: int, limit: nat)
    requires window >= 1 && limit >= 1
    requires Grew([] + [Admit(0, 0, 1)], half, limit - 1, window)
    requires Grew(half + [Admit(window + 1, window + 1, 1)], whole, limit - 1, window + 1)
    ensures |whole| == 2 * limit && forall i | 1 <= i < |whole| :: window <= whole[i].time <= 2 * window
  {
    forall i | 1 <= i < |whole| ensures window <= whole[i].time <= 2 * window {
      if i < limit { assert whole[i] == half[i]; }
      if i == limit { assert whole[i] == (half + [Admit(window + 1, window + 1, 1)])[i]; }
    }
  }

  lemma StraddleClock(ip: string, window: int, limit: nat)
    requires window >= 1 && limit >= 1
    ensures var run := Straddle(ip, window, limit);
            ClockFrom(run, 0) && FixedWindow(run, window, limit)
  {
    BurstTimes(ip, window, limit - 1);
    BurstTimes(ip, window + 1, limit - 1);
    var run := Straddle(ip, window, limit);
    assert forall i | 0 <= i < |run| ::
      run[i] == Timed(Request(ip), if i == 0 then 0 else if i < limit then window else window + 1);
  }

  /** For every limit and window at least one, some run reaches the bound: it cannot be lowered. */
  lemma IntervalBoundTight(ip: string, window: int, limit: nat)
    requires window >= 1 && limit >= 1
    ensures var l, run := New(limit, window), Straddle(ip, window, limit);
            && ClockFrom(run, 0) && FixedWindow(run, window, limit)
            && |AdmittedWithin(Admitted(l, run, ip), window, window + window)| == 2 * limit - 1
  {
    StraddleAdmitted(ip, window, limit);
    StraddleClock(ip, window, limit);
    var l, run := New(limit, window), Straddle(ip, window, limit);
    IntervalBound(l, run, ip, 0, limit, window);
    AtLeastRange(AdmittedWithin(Admitted(l, run, ip), window, window + window), 1, 2 * limit);
  }

  // ---- Cleanup is invisible ----

  /** What a request or a Retry-After query is told. */
  datatype Answer = Verdict(ok: bool) | Wait(seconds: int)

  function AnswerTo(l: Limiter, e: Timed): seq<Answer> {
    match e.event
    case Request(ip) => [Verdict(Allows(l, ip, e.now))]
    case Ask(ip) => [Wait(RetryAfter(l, ip, e.now))]
    case _ => []
  }

  /** An event is a call of the limiter's own method. */
  method Serve(limiter: RateLimiter, e: Timed) returns (answer: seq<Answer>)
    modifies limiter
    ensures limiter.State() == After(old(limiter.State()), e)
    ensures answer == AnswerTo(old(limiter.State()), e)
  {
    answer := [];
    match e.event {
      case Request(ip) =>
        var ok := limiter.Allow(ip, e.now);
        answer := [Verdict(ok)];
      case Ask(ip) =>
        var seconds := limiter.Retry(ip, e.now);
        answer := [Wait(seconds)];
      case Cleanup => limiter.Cleanup(e.now);
      case Configure(limit, window, off) => limiter.SetConfig(limit, window, off);
    }
  }

  function Answers(l: Limiter, run: seq<Timed>): seq<Answer> {
    if run == [] then []
    else Answers(l, run[..|run| - 1]) + AnswerTo(Run(l, run[..|run| - 1]), run[|run| - 1])
  }

  function WithoutCleanups(run: seq<Timed>): seq<Timed> {
    if run == [] then []
    else WithoutCleanups(run[..|run| - 1]) + (if run[|run| - 1].event.Cleanup? then [] else [run[|run| - 1]])
  }

  /** Same settings, and at `now` the same counters but for expired ones. */
  ghost predicate SameFrom(a: Limiter, b: Limiter, now: int) {
    && a.limit == b.limit && a.window == b.window && a.disabled == b.disabled
    && forall ip :: && (InWindow(a, ip, now) <==> InWindow(b, ip, now))
                    && (InWindow(a, ip, now) ==> a.counters[ip] == b.counters[ip])
  }

  lemma SameStep(a: Limiter, b: Limiter, e: Timed, was: int)
    requires SameFrom(a, b, was) && was <= e.now && !e.event.Cleanup?
    ensures SameFrom(After(a, e), After(b, e), e.now)
    ensures AnswerTo(a, e) == AnswerTo(b, e)
  {
    forall ip ensures && (InWindow(a, ip, e.now) <==> InWindow(b, ip, e.now))
                      && (InWindow(a, ip, e.now) ==> a.counters[ip] == b.counters[ip]) {
      assert InWindow(a, ip, was) <==> InWindow(b, ip, was);
    }
    assert SameFrom(a, b, e.now);
    if e.event.Ask? {
      assert InWindow(a, e.event.ip, e.now) <==> InWindow(b, e.event.ip, e.now);
    }
  }

  lemma CleanupSame(a: Limiter, b: Limiter, was: int, now: int)
    requires SameFrom(a, b, was) && was <= now
    ensures SameFrom(AfterCleanup(a, now), b, now)
  {
    forall ip ensures && (InWindow(AfterCleanup(a, now), ip, now) <==> InWindow(b, ip, now))
                      && (InWindow(b, ip, now) ==> AfterCleanup(a, now).counters[ip] == b.counters[ip]) {
      assert InWindow(a, ip, was) <==> InWindow(b, ip, was);
    }
  }

  /** Leaving out every cleanup of a run changes no answer: cleaning up at any moments is invisible. */
  lemma {:induction false} CleanupInvisible(l: Limiter, run: seq<Timed>, from: int)
    requires ClockFrom(run, from)
    ensures Answers(l, run) == Answers(l, WithoutCleanups(run))
    ensures SameFrom(Run(l, run), Run(l, WithoutCleanups(run)), if run == [] then from else run[|run| - 1].now)
  {
    if run != [] {
      var prior, e := run[..|run| - 1], run[|run| - 1];
      CleanupInvisible(l, prior, from);
      var was := if prior == [] then from else prior[|prior| - 1].now;
      assert was <= e.now;
      var kept := WithoutCleanups(prior);
      if e.event.Cleanup? {
        CleanupSame(Run(l, prior), Run(l, kept), was, e.now);
        assert WithoutCleanups(run) == kept;
      } else {
        SameStep(Run(l, prior), Run(l, kept), e, was);
        assert WithoutCleanups(run) == kept + [e];
        LastAnswer(l, kept, e);
      }
    }
  }

  lemma LastAnswer(l: Limiter, prior: seq<Timed>, e: Timed)
    ensures Run(l, prior + [e]) == After(Run(l, prior), e)
    ensures Answers(l, prior + [e]) == Answers(l, prior) + AnswerTo(Run(l, prior), e)
  {
    assert (prior + [e])[..|prior|] == prior;
  }

  /** A cleanup keeps exactly the counters of windows that are not over. */
  lemma CleanupIsExact(l: Limiter, ip: string, now: int)
    ensures ip in AfterCleanup(l, now).counters <==> ip in l.counters && now <= l.counters[ip].resetAt
    ensures ip in AfterCleanup(l, now).counters ==> AfterCleanup(l, now).counters[ip] == l.counters[ip]
  {
  }

  // ---- Settings ----

  /**
   Settings apply at once: a positive limit or window is the one in force from then on, a non-positive one leaves the
   current one. A window or on/off change forgets every counter, a limit change none.
   */
  lemma SettingsApply(l: Limiter, limit: int, window: int, disabled: bool)
    ensures var c := AfterConfig(l, limit, window, disabled);
            && c.disabled == disabled
            && (limit > 0 ==> c.limit == limit) && (limit <= 0 ==> c.limit == l.limit)
            && (window > 0 ==> c.window == window) && (window <= 0 ==> c.window == l.window)
            && (c.window != l.window || disabled != l.disabled ==> c.counters == map[])
            && (c.window == l.window && disabled == l.disabled ==> c.counters == l.counters)
  {
  }

  /** A lowered limit refuses an IP that is already past it; a raised one lets it go on within its window. */
  lemma NewLimitDecides(l: Limiter, ip: string, now: int, limit: int)
    requires !l.disabled && InWindow(l, ip, now) && limit > 0
    ensures Allows(AfterConfig(l, limit, 0, false), ip, now) <==> l.counters[ip].count < limit
  {
  }

  /** Switched off, everything is allowed and nothing is counted; switched on again, everybody starts anew. */
  lemma OffMeansOff(l: Limiter, ip: string, now: int)
    ensures var off := AfterConfig(l, 0, 0, true);
            Allows(off, ip, now) && (!l.disabled ==> AfterAllow(off, ip, now).counters == map[])
    ensures l.disabled ==> AfterConfig(l, 0, 0, false).counters == map[] && Allows(AfterConfig(l, 0, 0, false), ip, now)
  {
  }

  /** While the limiter is on, a request is refused exactly when its window is open and its quota used up. */
  lemma RefusedIff(l: Limiter, ip: string, now: int)
    ensures Allows(l, ip, now)
            <==> l.disabled || ip !in l.counters || now > l.counters[ip].resetAt || l.counters[ip].count < l.limit
  {
  }

  // ---- Retry-After ----

  /** After the advertised wait the IP's window is over, unless it was reset meanwhile. */
  predicate OverBy(l: Limiter, ip: string, deadline: int) {
    l.disabled || ip !in l.counters || l.counters[ip].resetAt < deadline
  }

  lemma {:induction false} StaysOver(l: Limiter, run: seq<Timed>, ip: string, deadline: int)
    requires OverBy(l, ip, deadline) && (l.disabled ==> ip !in l.counters || l.counters[ip].resetAt < deadline)
    requires forall i | 0 <= i < |run| :: run[i].event != Request(ip)
    ensures OverBy(Run(l, run), ip, deadline)
    ensures ip !in Run(l, run).counters || Run(l, run).counters[ip].resetAt < deadline
  {
    if run != [] { StaysOver(l, run[..|run| - 1], ip, deadline); }
  }

  /** Waiting the advertised number of seconds, with no request from that IP in between, is always enough. */
  lemma RetryAfterSuffices(l: Limiter, ip: string, asked: int, run: seq<Timed>, now: int)
    requires forall i | 0 <= i < |run| :: run[i].event != Request(ip)
    requires now >= asked + RetryAfter(l, ip, asked) * SECOND
    ensures Allows(Run(l, run), ip, now)
  {
    var deadline := asked + RetryAfter(l, ip, asked) * SECOND;
    if ip in l.counters {
      assert l.counters[ip].resetAt < deadline;
    }
    StaysOver(l, run, ip, deadline);
  }

  /** ... and one second less is too little when the limit has been reached. */
  lemma RetryAfterNeeded(l: Limiter, ip: string, asked: int)
    requires !l.disabled && RetryAfter(l, ip, asked) > 0 && l.counters[ip].count >= l.limit
    ensures !Allows(l, ip, asked + (RetryAfter(l, ip, asked) - 1) * SECOND)
  {
  }
}
