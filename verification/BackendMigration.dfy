/** Moving the identity mappings between the two backends, in both directions and round trip. */
module BackendMigration {
  import opened Prelude
  import opened MappingKeys
  import opened RelationStore
  import opened BoltBackend
  import opened Simulation

  /** The rows MigrateToPostgres writes: each forward key, split, with its owner. */
  ghost predicate Transfers(b: Buckets, known: map<string, Mapping>, rel: map<Mapping, string>) {
    forall m, g :: Row(rel, m, g) <==> Listed(b, known, m, g)
  }

  predicate Row(rel: map<Mapping, string>, m: Mapping, guid: string) {
    m in rel && rel[m] == guid
  }

  predicate Splittable(key: string, known: map<string, Mapping>) {
    key in known || ':' in key
  }

  /** The rows of every key but those still to do. */
  ghost predicate Copied(b: Buckets, known: map<string, Mapping>, rel: map<Mapping, string>, todo: set<string>) {
    forall m, g :: Row(rel, m, g) <==> Listed(b, known, m, g) && MappingKey(m) !in todo
  }

  lemma CopyOneRow(b: Buckets, known: map<string, Mapping>, rel: map<Mapping, string>, todo: set<string>, k: string,
                   split: Option<Mapping>)
    requires k in todo && todo <= b.forward.Keys && Copied(b, known, rel, todo)
    requires forall m, g | MappingKey(m) == k :: Listed(b, known, m, g) <==> b.forward[k] == g && split == Some(m)
    requires split.Some? ==> MappingKey(split.value) == k
    ensures Copied(b, known, if split.Some? then rel[split.value := b.forward[k]] else rel, todo - {k})
  {
    var rel' := if split.Some? then rel[split.value := b.forward[k]] else rel;
    forall m, g ensures Row(rel', m, g) <==> Listed(b, known, m, g) && MappingKey(m) !in todo - {k} {
      assert Row(rel, m, g) <==> Listed(b, known, m, g) && MappingKey(m) !in todo;
    }
  }

  /** Truncate, copy every forward key decomposed through the reverse index, verify the row count. */
  method MigrateToPostgres(source: BoltStore, target: PostgresStore)
    returns (ok: bool, ghost known: map<string, Mapping>)
    modifies target`rel
    ensures IsSplitTable(known, source.index)
    ensures Transfers(Buckets(source.forward, source.index), known, target.rel)
    ensures ok <==> forall k | k in source.forward :: Splittable(k, known)
  {
    target.rel := map[];
    var expected := |source.forward|;
    var splits := source.MappingSplits();
    known := splits;
    ghost var b := Buckets(source.forward, source.index);
    var todo := source.forward.Keys;
    while todo != {}
      invariant todo <= source.forward.Keys
      invariant Copied(b, known, target.rel, todo)
      decreases todo
    {
      var k :| k in todo;
      var m := SplitKey(k, splits);
      SplitRejoins(k, known);
      CopyOneRow(b, known, target.rel, todo, k, m);
      if m.Some? { target.SetIdentityMapping(m.value, source.forward[k]); }
      todo := todo - {k};
    }
    var actual := |target.rel|;
    CountOfRows(b, known, target.rel);
    ok := expected == 0 || actual == expected;
  }

  /** Splitting re-joins, so distinct keys become distinct rows: none is lost unless it cannot be split. */
  lemma CountOfRows(b: Buckets, known: map<string, Mapping>, rel: map<Mapping, string>)
    requires Rejoins(known) && Transfers(b, known, rel)
    ensures NonColliding(rel.Keys)
    ensures |rel| == |b.forward| <==> forall k | k in b.forward :: Splittable(k, known)
  {
    forall x, y | x in rel.Keys && y in rel.Keys && MappingKey(x) == MappingKey(y) ensures x == y {
      assert Row(rel, x, rel[x]) && Row(rel, y, rel[y]);
    }
    KeySetSize(rel.Keys);
    forall k ensures k in KeySet(rel) <==> k in b.forward && Splittable(k, known) {
      SplitRejoins(k, known);
      if k in b.forward && Splittable(k, known) {
        var m := SplitMappingKey(k, known).value;
        assert Listed(b, known, m, b.forward[k]);
        assert Row(rel, m, b.forward[k]);
      }
      if k in KeySet(rel) {
        var m :| m in rel && MappingKey(m) == k;
        assert Row(rel, m, rel[m]);
      }
    }
    assert |rel| == |rel.Keys| && |b.forward| == |b.forward.Keys|;
    assert KeySet(rel) <= b.forward.Keys;
    SubsetSize(KeySet(rel), b.forward.Keys);
    if |rel| == |b.forward| {
      assert KeySet(rel) == b.forward.Keys;
    } else {
      assert KeySet(rel) != b.forward.Keys;
    }
  }

  lemma {:induction false} KeySetSize(ms: set<Mapping>)
    requires NonColliding(ms)
    ensures |set m | m in ms :: MappingKey(m)| == |ms|
    decreases ms
  {
    var keys := set m | m in ms :: MappingKey(m);
    if ms == {} {
      assert keys == {};
    } else {
      var x :| x in ms;
      KeySetSize(ms - {x});
      var less := set m | m in ms - {x} :: MappingKey(m);
      assert keys == less + {MappingKey(x)};
      assert MappingKey(x) !in less;
    }
  }

  /** A table read out in some order. */
  ghost predicate Lists(rows: seq<(Mapping, string)>, rel: map<Mapping, string>) {
    && (forall i | 0 <= i < |rows| :: Row(rel, rows[i].0, rows[i].1))
    && (forall i, j | 0 <= i < j < |rows| :: rows[i].0 != rows[j].0)
    && (forall m | m in rel :: (m, rel[m]) in rows)
  }

  function Imported(rows: seq<(Mapping, string)>): Buckets {
    if rows == [] then EMPTY_BOLT.maps
    else SetBuckets(Imported(rows[..|rows| - 1]), rows[|rows| - 1].0, rows[|rows| - 1].1)
  }

  predicate AllOwned(rel: map<Mapping, string>) {
    forall m | m in rel :: rel[m] != ""
  }

  /** Clear both mapping buckets, whatever they held, and set the rows one by one. */
  method MigrateFromPostgres(source: PostgresStore, target: BoltStore)
    returns (ok: bool, ghost rows: seq<(Mapping, string)>)
    modifies target`forward, target`index
    ensures ok <==> AllOwned(source.rel)
    ensures ok ==> Lists(rows, source.rel) && Buckets(target.forward, target.index) == Imported(rows)
  {
    target.forward, target.index := map[], map[];
    rows := [];
    var todo := source.rel.Keys;
    while todo != {}
      invariant todo <= source.rel.Keys
      invariant forall i | 0 <= i < |rows| :: Row(source.rel, rows[i].0, rows[i].1) && rows[i].0 !in todo
      invariant forall i, j | 0 <= i < j < |rows| :: rows[i].0 != rows[j].0
      invariant forall m | m in source.rel && m !in todo :: (m, source.rel[m]) in rows && source.rel[m] != ""
      invariant Buckets(target.forward, target.index) == Imported(rows)
      decreases todo
    {
      var m :| m in todo;
      var wrote := target.SetIdentityMapping(m, source.rel[m]);
      if !wrote { return false, rows; }
      ghost var before := rows;
      rows := rows + [(m, source.rel[m])];
      assert rows[..|rows| - 1] == before;
      todo := todo - {m};
    }
    ok := true;
  }

  ghost function Prefix(rows: seq<(Mapping, string)>): map<Mapping, string> {
    if rows == [] then map[] else Prefix(rows[..|rows| - 1])[rows[|rows| - 1].0 := rows[|rows| - 1].1]
  }

  lemma {:induction false} PrefixRows(rows: seq<(Mapping, string)>, rel: map<Mapping, string>)
    requires forall i | 0 <= i < |rows| :: Row(rel, rows[i].0, rows[i].1)
    ensures forall m :: m in Prefix(rows) <==> m in rel && (m, rel[m]) in rows
    ensures forall m | m in Prefix(rows) :: Prefix(rows)[m] == rel[m]
  {
    if rows != [] {
      var most, last := rows[..|rows| - 1], rows[|rows| - 1];
      PrefixRows(most, rel);
      assert rows == most + [last];
    }
  }

  /** Whatever the order of the rows, importing distinct-keyed rows gives agreeing buckets. */
  lemma {:induction false} ImportedAgrees(rows: seq<(Mapping, string)>, rel: map<Mapping, string>)
    requires forall i | 0 <= i < |rows| :: Row(rel, rows[i].0, rows[i].1)
    requires AllOwned(rel) && NonColliding(rel.Keys)
    ensures Agree(Imported(rows), Prefix(rows))
  {
    if rows != [] {
      var most, last := rows[..|rows| - 1], rows[|rows| - 1];
      ImportedAgrees(most, rel);
      PrefixRows(most, rel);
      assert forall m | m in Prefix(most).Keys + {last.0} :: m in rel.Keys;
      AgreeSet(Imported(most), Prefix(most), last.0, last.1);
    }
  }

  lemma ImportAgrees(rows: seq<(Mapping, string)>, rel: map<Mapping, string>)
    requires Lists(rows, rel) && AllOwned(rel) && NonColliding(rel.Keys)
    ensures Agree(Imported(rows), rel)
  {
    ImportedAgrees(rows, rel);
    PrefixRows(rows, rel);
    assert Prefix(rows) == rel;
  }

  /** From agreeing buckets the transferred table is the relation itself, whatever table of splits was built. */
  lemma TransferExact(b: Buckets, rel: map<Mapping, string>, known: map<string, Mapping>, rel': map<Mapping, string>)
    requires Agree(b, rel) && NonColliding(rel.Keys) && IsSplitTable(known, b.index) && Transfers(b, known, rel')
    ensures rel' == rel
  {
    QueriesAgree(b, rel, known);
    SameRows(rel, rel');
  }

  lemma SameRows(rel: map<Mapping, string>, rel': map<Mapping, string>)
    requires forall m, g :: Row(rel', m, g) <==> m in rel && rel[m] == g
    ensures rel' == rel
  {
    forall m ensures m in rel' <==> m in rel {
      if m in rel' { assert Row(rel', m, rel'[m]); }
      if m in rel { assert Row(rel', m, rel[m]); }
    }
    forall m | m in rel ensures rel'[m] == rel[m] { assert Row(rel', m, rel[m]); }
  }

  /** ... and the migration's own row count check passes. */
  lemma TransferCounts(b: Buckets, rel: map<Mapping, string>, known: map<string, Mapping>)
    requires Agree(b, rel) && NonColliding(rel.Keys) && IsSplitTable(known, b.index)
    ensures forall k | k in b.forward :: Splittable(k, known)
  {
    forall k | k in b.forward ensures Splittable(k, known) {
      var m :| m in rel && MappingKey(m) == k;
      KnownIsStored(b, rel, known, m);
    }
  }

  /** Two stores that agree with one relation have the same forward bucket and the same lists, up to order. */
  lemma AgreeingStoresMatch(b: Buckets, c: Buckets, rel: map<Mapping, string>)
    requires Agree(b, rel) && Agree(c, rel)
    ensures c.forward == b.forward
    ensures forall g :: Elements(Claims(c.index, g)) == Elements(Claims(b.index, g))
  {
    forall k | k in b.forward ensures c.forward[k] == b.forward[k] {
      var m :| m in rel && MappingKey(m) == k;
      assert Backed(b.forward, rel[m], m) && Backed(c.forward, rel[m], m);
    }
    forall g, m ensures m in Claims(c.index, g) <==> m in Claims(b.index, g) {
      assert Claimed(c.index, g, m) <==> Claimed(b.index, g, m);
    }
  }

  /** Bolt to Postgres and back into any target, for every order of the rows. */
  lemma BoltRoundTrip(b: Buckets, rel: map<Mapping, string>, known: map<string, Mapping>,
                      table: map<Mapping, string>, rows: seq<(Mapping, string)>)
    requires Agree(b, rel) && NonColliding(rel.Keys)
    requires IsSplitTable(known, b.index) && Transfers(b, known, table) && Lists(rows, table)
    ensures table == rel && AllOwned(table)
    ensures Imported(rows).forward == b.forward
    ensures forall g :: Elements(Claims(Imported(rows).index, g)) == Elements(Claims(b.index, g))
    ensures Agree(Imported(rows), rel)
  {
    TransferExact(b, rel, known, table);
    ImportAgrees(rows, rel);
    AgreeingStoresMatch(b, Imported(rows), rel);
  }

  /**
   Postgres to Bolt and back, for every order of the rows and every table of splits:
   the relation survives exactly when no two of its rows share a composite key.
   */
  lemma PostgresRoundTripIff(rel: map<Mapping, string>, rows: seq<(Mapping, string)>,
                             known: map<string, Mapping>, rel': map<Mapping, string>)
    requires AllOwned(rel) && Lists(rows, rel)
    requires IsSplitTable(known, Imported(rows).index) && Transfers(Imported(rows), known, rel')
    ensures rel' == rel <==> NonColliding(rel.Keys)
  {
    CountOfRows(Imported(rows), known, rel');
    if NonColliding(rel.Keys) {
      ImportAgrees(rows, rel);
      TransferExact(Imported(rows), rel, known, rel');
    }
  }
}
