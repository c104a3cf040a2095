/**
 One-time OAuth authorization codes (section 4.1.2 of RFC 6749) on both backends.
 Bolt deletes an expired code and then returns an error, which rolls the deletion back; Postgres deletes it for good.
 Bolt overwrites a stored code and refuses an empty one; Postgres refuses a stored code and takes an empty one.
 */
module AuthCodes {
  import opened Prelude

  /** The stored codes, with their expiry instants. */
  type Codes = map<string, int>

  datatype Verdict = Exchanged | Expired | Unknown

  predicate IsExpired(expiresAt: int, now: int) {
    expiresAt < now
  }

  function ConsumeVerdict(codes: Codes, code: string, now: int): Verdict {
    if code !in codes then Unknown else if IsExpired(codes[code], now) then Expired else Exchanged
  }

  function BoltConsume(codes: Codes, code: string, now: int): Codes {
    if ConsumeVerdict(codes, code, now).Exchanged? then codes - {code} else codes
  }

  function Live(codes: Codes, now: int): Codes {
    map c | c in codes && !IsExpired(codes[c], now) :: codes[c]
  }

  function BoltSave(codes: Codes, code: string, expiresAt: int): Codes {
    if code == "" then codes else codes[code := expiresAt]
  }

  function PostgresSave(codes: Codes, code: string, expiresAt: int): Codes {
    if code in codes then codes else codes[code := expiresAt]
  }

  class BoltCodes {
    var codes: Codes

    method SaveOIDCAuthCode(code: string, expiresAt: int) returns (ok: bool)
      modifies this
      ensures ok == (code != "") && codes == BoltSave(old(codes), code, expiresAt)
    {
      if code == "" { return false; }
      codes := codes[code := expiresAt];
      ok := true;
    }

    method ConsumeOIDCAuthCode(code: string, now: int) returns (v: Verdict)
      modifies this
      ensures v == ConsumeVerdict(old(codes), code, now)
      ensures codes == BoltConsume(old(codes), code, now)
    {
      var before := codes;
      if code !in codes { return Unknown; }
      var expiresAt := codes[code];
      codes := codes - {code};
      if now > expiresAt {
        codes := before;
        return Expired;
      }
      v := Exchanged;
    }

    method CleanExpired(now: int)
      modifies this
      ensures codes == Live(old(codes), now)
    {
      var toDelete := set c | c in codes && codes[c] < now;
      while toDelete != {}
        invariant codes == map c | c in old(codes) && (c in toDelete || !(old(codes)[c] < now)) :: old(codes)[c]
        invariant toDelete <= set c | c in old(codes) && old(codes)[c] < now
        decreases toDelete
      {
        var c :| c in toDelete;
        codes := codes - {c};
        toDelete := toDelete - {c};
      }
    }
  }

  class PostgresCodes {
    var codes: Codes

    /** A plain INSERT: the primary key refuses a code that is still stored, expired or not. */
    method SaveOIDCAuthCode(code: string, expiresAt: int) returns (ok: bool)
      modifies this
      ensures ok == (code !in old(codes)) && codes == PostgresSave(old(codes), code, expiresAt)
    {
      if code in codes { return false; }
      codes := codes[code := expiresAt];
      ok := true;
    }

    /** DELETE ... RETURNING, then the expiry check on the returned row. */
    method ConsumeOIDCAuthCode(code: string, now: int) returns (v: Verdict)
      modifies this
      ensures v == ConsumeVerdict(old(codes), code, now)
      ensures codes == old(codes) - {code}
    {
      if code !in codes { return Unknown; }
      var expiresAt := codes[code];
      codes := codes - {code};
      if now > expiresAt { return Expired; }
      v := Exchanged;
    }

    /** One DELETE. */
    method CleanExpired(now: int)
      modifies this
      ensures codes == Live(old(codes), now)
    {
      codes := map c | c in codes && !(codes[c] < now) :: codes[c];
    }
  }

  datatype Event =
    | Save(code: string, expiresAt: int)
    | Redeem(code: string)
    | Clean

  /** An event and the clock reading it sees. */
  datatype Timed = Timed(event: Event, now: int)

  function BoltAfter(codes: Codes, e: Timed): Codes {
    match e.event
    case Save(c, x) => BoltSave(codes, c, x)
    case Redeem(c) => BoltConsume(codes, c, e.now)
    case Clean => Live(codes, e.now)
  }

  function PostgresAfter(codes: Codes, e: Timed): Codes {
    match e.event
    case Save(c, x) => PostgresSave(codes, c, x)
    case Redeem(c) => codes - {c}
    case Clean => Live(codes, e.now)
  }

  /** An event is a call of the Bolt store's own method; `exchanged` says whether it gave out a token. */
  method ServeOnBolt(store: BoltCodes, e: Timed) returns (exchanged: bool)
    modifies store
    ensures store.codes == BoltAfter(old(store.codes), e)
    ensures exchanged == Succeeds(old(store.codes), e)
  {
    exchanged := false;
    match e.event {
      case Save(c, x) => var _ := store.SaveOIDCAuthCode(c, x);
      case Redeem(c) =>
        var v := store.ConsumeOIDCAuthCode(c, e.now);
        exchanged := v.Exchanged?;
      case Clean => store.CleanExpired(e.now);
    }
  }

  /** And of the Postgres store's. */
  method ServeOnPostgres(store: PostgresCodes, e: Timed) returns (exchanged: bool)
    modifies store
    ensures store.codes == PostgresAfter(old(store.codes), e)
    ensures exchanged == Succeeds(old(store.codes), e)
  {
    exchanged := false;
    match e.event {
      case Save(c, x) => var _ := store.SaveOIDCAuthCode(c, x);
      case Redeem(c) =>
        var v := store.ConsumeOIDCAuthCode(c, e.now);
        exchanged := v.Exchanged?;
      case Clean => store.CleanExpired(e.now);
    }
  }

  function RunBolt(run: seq<Timed>): Codes {
    if run == [] then map[] else BoltAfter(RunBolt(run[..|run| - 1]), run[|run| - 1])
  }

  function RunPostgres(run: seq<Timed>): Codes {
    if run == [] then map[] else PostgresAfter(RunPostgres(run[..|run| - 1]), run[|run| - 1])
  }

  /** The clock never goes back. */
  ghost predicate Monotone(run: seq<Timed>) {
    forall i, j | 0 <= i < j < |run| :: run[i].now <= run[j].now
  }

  /** Codes are random: none is empty, and none is saved twice. */
  ghost predicate FreshCodes(run: seq<Timed>) {
    && (forall i | 0 <= i < |run| && run[i].event.Save? :: run[i].event.code != "")
    && forall i, j | 0 <= i < j < |run| && run[i].event.Save? && run[j].event.Save? ::
      run[i].event.code != run[j].event.code
  }

  predicate Succeeds(codes: Codes, e: Timed) {
    e.event.Redeem? && ConsumeVerdict(codes, e.event.code, e.now).Exchanged?
  }

  /** The i-th event of a Bolt run is a successful exchange. */
  predicate SucceedsAt(run: seq<Timed>, i: nat)
    requires i < |run|
  {
    Succeeds(RunBolt(run[..i]), run[i])
  }

  predicate LiveAt(codes: Codes, code: string, now: int) {
    code in codes && !IsExpired(codes[code], now)
  }

  /** The same live codes, with the same expiry; what else either backend keeps has expired. */
  ghost predicate SameLive(bolt: Codes, pg: Codes, now: int) {
    forall c :: && (LiveAt(bolt, c, now) <==> LiveAt(pg, c, now))
                && (LiveAt(bolt, c, now) ==> bolt[c] == pg[c])
  }

  /** The save of a code does the same on both backends, as far as any later exchange can tell. */
  predicate SameSave(pg: Codes, code: string, expiresAt: int, now: int) {
    if code == "" then code in pg || IsExpired(expiresAt, now)
    else code !in pg || pg[code] == expiresAt || (IsExpired(pg[code], now) && IsExpired(expiresAt, now))
  }

  /** Having the same live codes is exactly what later exchanges can observe. */
  lemma SameLiveMeans(bolt: Codes, pg: Codes, now: int)
    ensures SameLive(bolt, pg, now)
            <==> forall c, later | now <= later ::
                   ConsumeVerdict(bolt, c, later).Exchanged? <==> ConsumeVerdict(pg, c, later).Exchanged?
  {
    if forall c, later | now <= later ::
         ConsumeVerdict(bolt, c, later).Exchanged? <==> ConsumeVerdict(pg, c, later).Exchanged? {
      forall c ensures && (LiveAt(bolt, c, now) <==> LiveAt(pg, c, now))
                       && (LiveAt(bolt, c, now) ==> bolt[c] == pg[c]) {
        assert ConsumeVerdict(bolt, c, now).Exchanged? <==> ConsumeVerdict(pg, c, now).Exchanged?;
        if LiveAt(bolt, c, now) {
          assert ConsumeVerdict(bolt, c, bolt[c]).Exchanged? <==> ConsumeVerdict(pg, c, bolt[c]).Exchanged?;
          assert ConsumeVerdict(bolt, c, pg[c]).Exchanged? <==> ConsumeVerdict(pg, c, pg[c]).Exchanged?;
        }
      }
    }
    if SameLive(bolt, pg, now) {
      forall c, later | now <= later
        ensures ConsumeVerdict(bolt, c, later).Exchanged? <==> ConsumeVerdict(pg, c, later).Exchanged? {
        assert LiveAt(bolt, c, now) <==> LiveAt(pg, c, now);
      }
    }
  }

  /** A redemption and a cleaning never part the backends; a save does exactly when it hits a code it should not. */
  lemma StaysSameIff(bolt: Codes, pg: Codes, e: Timed)
    requires SameLive(bolt, pg, e.now)
    ensures SameLive(BoltAfter(bolt, e), PostgresAfter(pg, e), e.now)
            <==> (e.event.Save? ==> SameSave(pg, e.event.code, e.event.expiresAt, e.now))
  {
    var bolt', pg' := BoltAfter(bolt, e), PostgresAfter(pg, e);
    forall c | !(e.event.Save? && c == e.event.code)
      ensures && (LiveAt(bolt', c, e.now) <==> LiveAt(pg', c, e.now))
              && (LiveAt(bolt', c, e.now) ==> bolt'[c] == pg'[c]) {
      assert LiveAt(bolt, c, e.now) <==> LiveAt(pg, c, e.now);
    }
    if e.event.Save? {
      var c := e.event.code;
      assert LiveAt(bolt, c, e.now) <==> LiveAt(pg, c, e.now);
      assert SameSave(pg, c, e.event.expiresAt, e.now)
        <==> (LiveAt(bolt', c, e.now) <==> LiveAt(pg', c, e.now)) && (LiveAt(bolt', c, e.now) ==> bolt'[c] == pg'[c]);
    }
  }

  /** No save of the run does anything the other backend would not. */
  ghost predicate SavesAgree(run: seq<Timed>) {
    run != [] ==>
      var most, e := run[..|run| - 1], run[|run| - 1];
      SavesAgree(most) && (e.event.Save? ==> SameSave(RunPostgres(most), e.event.code, e.event.expiresAt, e.now))
  }

  lemma {:induction false} RunsStaySame(run: seq<Timed>, now: int)
    requires Monotone(run) && SavesAgree(run) && (run != [] ==> run[|run| - 1].now <= now)
    ensures SameLive(RunBolt(run), RunPostgres(run), now)
  {
    if run != [] {
      var most, e := run[..|run| - 1], run[|run| - 1];
      assert most != [] ==> most[|most| - 1].now <= e.now;
      RunsStaySame(most, e.now);
      StaysSameIff(RunBolt(most), RunPostgres(most), e);
      assert forall c :: LiveAt(RunBolt(run), c, now) ==> LiveAt(RunBolt(run), c, e.now);
      assert forall c :: LiveAt(RunPostgres(run), c, now) ==> LiveAt(RunPostgres(run), c, e.now);
    }
  }

  lemma {:induction false} SavesAgreeBefore(run: seq<Timed>, i: nat)
    requires SavesAgree(run) && i <= |run|
    ensures SavesAgree(run[..i])
    decreases |run|
  {
    if i < |run| {
      SavesAgreeBefore(run[..|run| - 1], i);
      assert run[..|run| - 1][..i] == run[..i];
    } else {
      assert run[..i] == run;
    }
  }

  /** Random codes are never saved over one another. */
  lemma {:induction false} FreshSavesAgree(run: seq<Timed>)
    requires FreshCodes(run)
    ensures SavesAgree(run)
    ensures forall c | c in RunPostgres(run) ::
              exists k :: 0 <= k < |run| && run[k].event.Save? && run[k].event.code == c
  {
    if run != [] {
      var n := |run| - 1;
      var most, e := run[..n], run[n];
      FreshSavesAgree(most);
      forall c | c in RunPostgres(run)
        ensures exists k :: 0 <= k < |run| && run[k].event.Save? && run[k].event.code == c {
        if c in RunPostgres(most) {
          var k :| 0 <= k < n && most[k].event.Save? && most[k].event.code == c;
          assert run[k] == most[k];
        } else {
          assert run[n].event.Save? && run[n].event.code == c;
        }
      }
      if e.event.Save? {
        forall k | 0 <= k < n && most[k].event.Save? ensures most[k].event.code != e.event.code {
          assert most[k] == run[k];
        }
        assert e.event.code !in RunPostgres(most);
      }
    }
  }

  /**
   Under a monotone clock both backends let exactly the same exchanges succeed, whatever they keep,
   as long as the saves agree, as those of random codes do (FreshSavesAgree).
   */
  lemma SameExchanges(run: seq<Timed>, i: nat)
    requires Monotone(run) && SavesAgree(run) && i < |run|
    ensures SucceedsAt(run, i) <==> Succeeds(RunPostgres(run[..i]), run[i])
  {
    SavesAgreeBefore(run, i);
    RunsStaySame(run[..i], run[i].now);
    SameLiveMeans(RunBolt(run[..i]), RunPostgres(run[..i]), run[i].now);
  }

  /** A code saved again while stored: Bolt takes the new expiry, Postgres keeps the old one. */
  lemma SavedTwiceDiffers(code: string, first: int, second: int, now: int)
    requires code != "" && first < now <= second
    ensures var run := [Timed(Save(code, first), first), Timed(Save(code, second), first), Timed(Redeem(code), now)];
            Monotone(run) && SucceedsAt(run, 2) && !Succeeds(RunPostgres(run[..2]), run[2])
  {
    var run := [Timed(Save(code, first), first), Timed(Save(code, second), first), Timed(Redeem(code), now)];
    var one := [run[0]];
    var two := one + [run[1]];
    assert one[..0] == [] && two[..1] == one && run[..2] == two;
    assert RunBolt([]) == map[] && RunPostgres([]) == map[];
    assert RunBolt(one) == map[code := first] && RunPostgres(one) == map[code := first];
    assert RunBolt(two) == map[code := second] && RunPostgres(two) == map[code := first];
  }

  /** What is stored came from an earlier save of that code. */
  lemma {:induction false} StoredWasSaved(run: seq<Timed>, code: string) returns (k: nat)
    requires code in RunBolt(run)
    ensures k < |run| && run[k].event == Save(code, RunBolt(run)[code])
    decreases run
  {
    var n := |run| - 1;
    if run[n].event.Save? && run[n].event.code == code && code != "" {
      k := n;
    } else {
      k := StoredWasSaved(run[..n], code);
    }
  }

  /** Once gone, and not saved again, a code stays gone. */
  lemma {:induction false} GoneStaysGone(run: seq<Timed>, i: nat, j: nat, code: string)
    requires i <= j <= |run| && code !in RunBolt(run[..i])
    requires forall k | i <= k < j :: !(run[k].event.Save? && run[k].event.code == code)
    ensures code !in RunBolt(run[..j])
    decreases j - i
  {
    if i < j {
      GoneStaysGone(run, i, j - 1, code);
      assert run[..j][..j - 1] == run[..j - 1];
    }
  }

  /** A cleaning removes exactly the codes whose expiry has passed. */
  lemma CleaningIsExact(codes: Codes, code: string, now: int)
    requires code in codes
    ensures code in Live(codes, now) <==> now <= codes[code]
    ensures code in Live(codes, now) ==> Live(codes, now)[code] == codes[code]
  {
  }

  /** A stored code can be exchanged up to and including its expiry, however often the table is cleaned before. */
  lemma LiveUntilExpiry(codes: Codes, code: string, cleaned: int, now: int)
    requires code in codes && cleaned <= now
    ensures ConsumeVerdict(codes, code, now).Exchanged? <==> now <= codes[code]
    ensures ConsumeVerdict(Live(codes, cleaned), code, now).Exchanged? <==> now <= codes[code]
  {
  }

  /** A successful exchange comes after a save of its code, and not after that save's expiry. */
  lemma ExchangedInItsLifetime(run: seq<Timed>, i: nat)
    requires i < |run| && SucceedsAt(run, i)
    ensures exists k :: 0 <= k < i && run[k].event.Save? && run[k].event.code == run[i].event.code
                        && run[i].now <= run[k].event.expiresAt
  {
    var k := StoredWasSaved(run[..i], run[i].event.code);
    assert run[..i][k] == run[k];
  }

  /** A code is exchanged successfully at most once. */
  lemma ExchangedAtMostOnce(run: seq<Timed>, i: nat, j: nat)
    requires FreshCodes(run) && i < j < |run| && SucceedsAt(run, i)
    ensures run[j].event.Redeem? && run[j].event.code == run[i].event.code ==> !SucceedsAt(run, j)
  {
    var code := run[i].event.code;
    var k := StoredWasSaved(run[..i], code);
    assert run[..i][k] == run[k];
    assert run[..i + 1][..i] == run[..i];
    assert code !in RunBolt(run[..i + 1]);
    forall l | i + 1 <= l < j ensures !(run[l].event.Save? && run[l].event.code == code) {
    }
    GoneStaysGone(run, i + 1, j, code);
  }

  /** Only the failure differs: a second try with an expired code is `expired` on Bolt and `unknown` on Postgres. */
  lemma ExpiredTwiceDiffers()
    ensures var run := [Timed(Save("c", 0), 0), Timed(Redeem("c"), 1)];
            && ConsumeVerdict(RunBolt(run), "c", 1) == Expired
            && ConsumeVerdict(RunPostgres(run), "c", 1) == Unknown
  {
    var run := [Timed(Save("c", 0), 0), Timed(Redeem("c"), 1)];
    assert run[..1] == [Timed(Save("c", 0), 0)] && run[..1][..0] == [];
    assert RunBolt(run[..1]) == map["c" := 0] && RunPostgres(run[..1]) == map["c" := 0];
  }
}
