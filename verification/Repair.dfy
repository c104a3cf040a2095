/** Startup repair of the reverse index: what it keeps, what it restores, and when it changes nothing. */
module Repair {
  import opened Prelude
  import opened MappingKeys
  import opened RelationStore
  import opened BoltBackend
  import opened Simulation

  /** The positions `at` pick out of `ms`, in order and exactly once each, the entries not in `out`. */
  ghost predicate Selects(at: seq<nat>, ms: seq<Mapping>, out: set<Mapping>, kept: seq<Mapping>) {
    && |at| == |kept|
    && (forall i | 0 <= i < |at| :: at[i] < |ms| && kept[i] == ms[at[i]])
    && (forall i, j | 0 <= i < j < |at| :: at[i] < at[j])
    && (forall j | 0 <= j < |ms| :: ms[j] !in out <==> j in at)
  }

  lemma SelectsOneMore(at: seq<nat>, ms: seq<Mapping>, out: set<Mapping>, kept: seq<Mapping>, m: Mapping)
    requires Selects(at, ms, out, kept)
    ensures m in out ==> Selects(at, ms + [m], out, kept)
    ensures m !in out ==> Selects(at + [|ms|], ms + [m], out, kept + [m])
  {
    forall j | 0 <= j < |ms| ensures (ms + [m])[j] !in out <==> j in at + [|ms|] {
      assert ms[j] !in out <==> j in at;
    }
    assert |ms| !in at by {
      assert forall i | 0 <= i < |at| :: at[i] < |ms|;
    }
    assert |ms| in at + [|ms|];
  }

  lemma {:induction false} DroppingSelects(ms: seq<Mapping>, out: set<Mapping>) returns (at: seq<nat>)
    ensures Selects(at, ms, out, Dropping(ms, out))
  {
    if ms == [] {
      at := [];
    } else {
      var most, last := ms[..|ms| - 1], ms[|ms| - 1];
      var kept := Dropping(most, out);
      var prior := DroppingSelects(most, out);
      SelectsOneMore(prior, most, out, kept, last);
      at := if last in out then prior else prior + [|most|];
      assert most + [last] == ms;
      assert Dropping(ms, out) == if last in out then kept else kept + [last];
    }
  }

  /** From ANY state: an entry survives exactly when the forward bucket backs it, and lists stay tidy. */
  lemma RepairKeepsBacked(b: Buckets)
    ensures forall g, m :: Claimed(RepairBuckets(b).index, g, m) <==> Claimed(b.index, g, m) && Backed(b.forward, g, m)
    ensures Tidy(b.index) ==> Tidy(RepairBuckets(b).index)
  {
    var index' := RepairBuckets(b).index;
    forall g, m ensures Claimed(index', g, m) <==> Claimed(b.index, g, m) && Backed(b.forward, g, m) {
      RepairedList(b, g);
      assert Claimed(index', g, m) <==> m in Claims(index', g);
      DroppingContains(Claims(b.index, g), Stale(b.forward, g, Claims(b.index, g)));
    }
    forall g | g in index' && Tidy(b.index) ensures index'[g] != [] && NoDup(index'[g]) {
      DroppingContains(b.index[g], Stale(b.forward, g, b.index[g]));
    }
  }

  /** Every list becomes its pruned form, whether it was rewritten, deleted or left alone. */
  lemma RepairedList(b: Buckets, g: string)
    ensures Claims(RepairBuckets(b).index, g) == Pruned(b, g)
  {
    if g in b.index && Stale(b.forward, g, b.index[g]) == {} {
      DroppingNothing(b.index[g], {});
    }
  }

  lemma {:induction false} DroppingNothing(ms: seq<Mapping>, out: set<Mapping>)
    requires forall m | m in ms :: m !in out
    ensures Dropping(ms, out) == ms
  {
    if ms != [] {
      assert ms == ms[..|ms| - 1] + [ms[|ms| - 1]];
      DroppingNothing(ms[..|ms| - 1], out);
    }
  }

  /** What survives of a list is exactly its backed entries, in their old order. */
  lemma RepairKeepsOrder(b: Buckets, g: string) returns (at: seq<nat>)
    ensures Selects(at, Claims(b.index, g), Stale(b.forward, g, Claims(b.index, g)), Claims(RepairBuckets(b).index, g))
    ensures forall m | m in Claims(b.index, g) ::
              m in Stale(b.forward, g, Claims(b.index, g)) <==> !Backed(b.forward, g, m)
  {
    RepairedList(b, g);
    at := DroppingSelects(Claims(b.index, g), Stale(b.forward, g, Claims(b.index, g)));
  }

  /** A second repair changes nothing. */
  lemma RepairIdempotent(b: Buckets)
    ensures RepairBuckets(RepairBuckets(b)) == RepairBuckets(b)
  {
    var c := RepairBuckets(b);
    RepairKeepsBacked(b);
    BackedIsFixed(c);
  }

  /** An index whose every entry is backed is left completely alone. */
  lemma BackedIsFixed(b: Buckets)
    requires forall g, m | Claimed(b.index, g, m) :: Backed(b.forward, g, m)
    ensures RepairBuckets(b) == b
  {
    forall g | g in b.index ensures Stale(b.forward, g, b.index[g]) == {} {
      assert forall m | m in b.index[g] :: Claimed(b.index, g, m);
    }
    assert RepairBuckets(b).index == b.index;
  }

  lemma HealthyIsFixed(b: Buckets, rel: map<Mapping, string>)
    requires Agree(b, rel)
    ensures RepairBuckets(b) == b
  {
    BackedIsFixed(b);
  }

  function AllClaims(index: Index): set<Mapping> {
    set g, m | g in index && m in index[g] :: m
  }

  /** The relation a store holds: each claimed mapping whose claimant owns its key. */
  function RelationOf(b: Buckets): map<Mapping, string> {
    map m | m in AllClaims(b.index) && MappingKey(m) in b.forward && m in Claims(b.index, b.forward[MappingKey(m)])
      :: b.forward[MappingKey(m)]
  }

  /**
   On a store with stale claims but distinct keys, repair restores agreement with a relation
   exactly when every forward key is covered by its owner's list.
   */
  lemma RepairRestoresIffCovered(b: Buckets)
    requires Tidy(b.index) && NonColliding(AllClaims(b.index))
    requires forall k | k in b.forward :: b.forward[k] != ""
    ensures (exists rel :: Agree(RepairBuckets(b), rel)) <==> Covered(b)
    ensures Covered(b) ==> Agree(RepairBuckets(b), RelationOf(b)) && Covered(RepairBuckets(b))
  {
    RepairKeepsBacked(b);
    var c := RepairBuckets(b);
    if Covered(b) {
      CoveredRestores(b);
      forall k | k in c.forward ensures ClaimsKey(c.index, c.forward[k], k) {
        AgreeCovers(c, RelationOf(b), k);
      }
    }
    if rel :| Agree(c, rel) {
      forall k | k in b.forward ensures ClaimsKey(b.index, b.forward[k], k) {
        AgreeCovers(c, rel, k);
        var m :| m in Claims(c.index, c.forward[k]) && MappingKey(m) == k;
        assert Claimed(c.index, c.forward[k], m);
      }
    }
  }

  lemma AgreeCovers(b: Buckets, rel: map<Mapping, string>, k: string)
    requires Agree(b, rel) && k in b.forward
    ensures ClaimsKey(b.index, b.forward[k], k)
  {
    var m :| m in rel && MappingKey(m) == k;
    assert Backed(b.forward, rel[m], m);
    assert Claimed(b.index, rel[m], m);
  }

  lemma CoveredRestores(b: Buckets)
    requires Tidy(b.index) && NonColliding(AllClaims(b.index)) && Covered(b)
    requires forall k | k in b.forward :: b.forward[k] != ""
    ensures Agree(RepairBuckets(b), RelationOf(b))
  {
    RepairKeepsBacked(b);
    var c, rel := RepairBuckets(b), RelationOf(b);
    forall g, m ensures Claimed(c.index, g, m) <==> m in rel && rel[m] == g {
      if Claimed(b.index, g, m) { assert m in AllClaims(b.index); }
    }
    forall k ensures k in KeySet(rel) <==> k in b.forward {
      if k in b.forward {
        var m :| m in Claims(b.index, b.forward[k]) && MappingKey(m) == k;
        assert m in AllClaims(b.index);
        assert m in rel;
      }
    }
  }
}
