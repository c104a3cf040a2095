/** Shared datatypes, Go's string order, and the sorted listing of a set of strings. */
module Prelude {

  datatype Option<+T> = None | Some(value: T)

  datatype Result<+T, +E> = Ok(value: T) | Err(error: E)

  ghost predicate NoDup<T>(s: seq<T>) {
    forall i, j | 0 <= i < j < |s| :: s[i] != s[j]
  }

  function Elements<T>(s: seq<T>): set<T> {
    set x | x in s
  }

  /** `<` on Go strings: byte-wise lexicographic, which is code-point order for UTF-8. */
  predicate Before(a: string, b: string) {
    b != "" && (a == "" || a[0] < b[0] || (a[0] == b[0] && Before(a[1..], b[1..])))
  }

  lemma {:induction false} BeforeTransitive(a: string, b: string, c: string)
    requires Before(a, b) && Before(b, c)
    ensures Before(a, c)
  {
    if a != "" && a[0] == b[0] && b[0] == c[0] {
      BeforeTransitive(a[1..], b[1..], c[1..]);
    }
  }

  /** Before is a strict total order: exactly one of the three cases holds. */
  lemma {:induction false} BeforeTrichotomy(a: string, b: string)
    ensures a == b <==> !Before(a, b) && !Before(b, a)
    ensures !(Before(a, b) && Before(b, a))
  {
    if a != "" && b != "" && a[0] == b[0] {
      BeforeTrichotomy(a[1..], b[1..]);
      assert a == [a[0]] + a[1..] && b == [b[0]] + b[1..];
    }
  }

  /** Both agree below k, where `a` ends or has the smaller character. */
  ghost predicate DiffersFrom(a: string, b: string, k: nat) {
    k <= |a| && k < |b| && (forall i | 0 <= i < k :: a[i] == b[i]) && (k < |a| ==> a[k] < b[k])
  }

  /** The string that ends first, or has the smaller character where they first differ, comes first. */
  lemma {:induction false} BeforeIff(a: string, b: string)
    ensures Before(a, b) <==> exists k: nat :: DiffersFrom(a, b, k)
  {
    if a != "" && b != "" && a[0] == b[0] {
      BeforeIff(a[1..], b[1..]);
      if k: nat :| DiffersFrom(a[1..], b[1..], k) { assert DiffersFrom(a, b, k + 1); }
      if k: nat :| DiffersFrom(a, b, k) { assert DiffersFrom(a[1..], b[1..], k - 1); }
    } else if Before(a, b) {
      assert DiffersFrom(a, b, 0);
    }
  }

  ghost predicate IsSortedListOf(list: seq<string>, s: set<string>) {
    && (forall i, j | 0 <= i < j < |list| :: Before(list[i], list[j]))
    && Elements(list) == s
  }

  /** A set of strings has only one sorted listing. */
  lemma {:induction false} SortedListUnique(a: seq<string>, b: seq<string>, s: set<string>)
    requires IsSortedListOf(a, s) && IsSortedListOf(b, s)
    ensures a == b
    decreases |a|
  {
    if a == [] {
      assert forall i | 0 <= i < |b| :: b[i] in Elements(b);
    } else {
      assert a[0] in s;
      assert b != [];
      SortedHeadIsLeast(a, s);
      SortedHeadIsLeast(b, s);
      assert b[0] in s;
      BeforeTrichotomy(a[0], b[0]);
      SortedTail(a, s);
      SortedTail(b, s);
      SortedListUnique(a[1..], b[1..], s - {a[0]});
      assert a == [a[0]] + a[1..] && b == [b[0]] + b[1..];
    }
  }

  lemma SortedHeadIsLeast(a: seq<string>, s: set<string>)
    requires IsSortedListOf(a, s) && a != []
    ensures forall x | x in s && x != a[0] :: Before(a[0], x)
  {
    forall x | x in s && x != a[0] ensures Before(a[0], x) {
      assert x in Elements(a);
      var i :| 0 <= i < |a| && a[i] == x;
    }
  }

  lemma SortedTail(a: seq<string>, s: set<string>)
    requires IsSortedListOf(a, s) && a != []
    ensures IsSortedListOf(a[1..], s - {a[0]})
  {
    forall x ensures x in Elements(a[1..]) <==> x in s - {a[0]} {
      if x in a[1..] {
        var i :| 0 <= i < |a[1..]| && a[1..][i] == x;
        assert a[i + 1] == x && Before(a[0], a[i + 1]);
        BeforeTrichotomy(a[0], x);
        assert x in Elements(a);
      }
      if x in s && x != a[0] {
        assert x in Elements(a);
        var i :| 0 <= i < |a| && a[i] == x;
        assert a[1..][i - 1] == x;
      }
    }
  }

  /** Where `x` goes in a sorted list: every entry before the result sorts before `x`. */
  method InsertSorted(list: seq<string>, x: string, ghost s: set<string>) returns (out: seq<string>)
    requires IsSortedListOf(list, s) && x !in s
    ensures IsSortedListOf(out, s + {x})
  {
    var i := 0;
    while i < |list| && Before(list[i], x)
      invariant 0 <= i <= |list|
      invariant forall j | 0 <= j < i :: Before(list[j], x)
    {
      i := i + 1;
    }
    out := list[..i] + [x] + list[i..];
    if i < |list| {
      assert list[i] in Elements(list);
      BeforeTrichotomy(list[i], x);
    }
    forall j | i <= j < |list| ensures Before(x, list[j]) {
      if i < j { BeforeTransitive(x, list[i], list[j]); }
    }
    assert Elements(out) == s + {x} by {
      assert forall y :: y in out <==> y in list[..i] || y == x || y in list[i..];
      assert list == list[..i] + list[i..];
      assert forall y :: y in list <==> y in list[..i] || y in list[i..];
    }
  }

  /** sortedKeys: the keys of a map, collected in Go's arbitrary order and sorted. */
  method SortedKeys(keys: set<string>) returns (out: seq<string>)
    ensures IsSortedListOf(out, keys)
    ensures out == SortedList(keys)
  {
    out := [];
    var todo := keys;
    while todo != {}
      invariant todo <= keys
      invariant IsSortedListOf(out, keys - todo)
      decreases todo
    {
      var k :| k in todo;
      out := InsertSorted(out, k, keys - todo);
      todo := todo - {k};
      assert keys - todo == (keys - (todo + {k})) + {k};
    }
    assert keys - todo == keys;
    SortedListExists(keys);
    SortedListUnique(out, SortedList(keys), keys);
  }

  lemma {:induction false} SortedListExists(s: set<string>)
    ensures exists list :: IsSortedListOf(list, s)
  {
    if s == {} {
      assert IsSortedListOf([], s);
    } else {
      var m := LeastExists(s);
      SortedListExists(s - {m});
      var tail :| IsSortedListOf(tail, s - {m});
      var list := [m] + tail;
      forall j | 0 < j < |list| ensures Before(list[0], list[j]) {
        assert list[j] == tail[j - 1] && tail[j - 1] in Elements(tail);
      }
      assert Elements(list) == {m} + Elements(tail);
      assert IsSortedListOf(list, s);
    }
  }

  lemma {:induction false} LeastExists(s: set<string>) returns (m: string)
    requires s != {}
    ensures m in s && forall x | x in s && x != m :: Before(m, x)
    decreases |s|
  {
    var x :| x in s;
    if s == {x} {
      m := x;
    } else {
      var rest := s - {x};
      assert s == {x} + rest;
      var m' := LeastExists(rest);
      BeforeTrichotomy(x, m');
      if Before(x, m') {
        m := x;
        forall y | y in s && y != m ensures Before(m, y) {
          if y != m' { BeforeTransitive(x, m', y); }
        }
      } else {
        m := m';
      }
    }
  }

  /** The sorted listing of a set, as a function of the set alone. */
  ghost function SortedList(s: set<string>): (list: seq<string>)
    ensures IsSortedListOf(list, s)
  {
    SortedListExists(s);
    var list :| IsSortedListOf(list, s);
    list
  }

  /** There is always a string outside a finite set: fresh identifiers exist. */
  lemma FreshString(used: set<string>) returns (id: string)
    ensures id !in used && id != ""
  {
    var n := LongestBound(used);
    id := seq(n + 1, i => 'a');
    assert |id| == n + 1;
  }

  lemma {:induction false} LongestBound(used: set<string>) returns (n: nat)
    ensures forall s | s in used :: |s| <= n
    decreases used
  {
    if used == {} {
      n := 0;
    } else {
      var s :| s in used;
      var k := LongestBound(used - {s});
      n := if k < |s| then |s| else k;
    }
  }

  // ---- Counting ----

  lemma {:induction false} SubsetSize<T>(a: set<T>, b: set<T>)
    requires a <= b
    ensures |a| <= |b|
    ensures |a| == |b| <==> a == b
  {
    assert b == a + (b - a);
    assert |b| == |a| + |b - a|;
  }

  lemma {:induction false} LeastOf(s: set<int>) returns (m: int)
    requires s != {}
    ensures m in s && forall x | x in s :: m <= x
    decreases s
  {
    if forall x :: x !in s { assert false; }
    var x :| x in s;
    m := x;
    if s != {x} {
      assert s == {x} + (s - {x});
      var rest := LeastOf(s - {x});
      if rest < x { m := rest; }
    }
  }

  lemma {:induction false} GreatestOf(s: set<int>) returns (m: int)
    requires s != {}
    ensures m in s && forall x | x in s :: x <= m
    decreases s
  {
    if forall x :: x !in s { assert false; }
    var x :| x in s;
    m := x;
    if s != {x} {
      assert s == {x} + (s - {x});
      var rest := GreatestOf(s - {x});
      if x < rest { m := rest; }
    }
  }

  lemma {:induction false} RangeSize(s: set<int>, lo: int, hi: int)
    requires lo <= hi + 1 && forall x | x in s :: lo <= x <= hi
    ensures |s| <= hi - lo + 1
    decreases hi + 1 - lo
  {
    if lo <= hi {
      RangeSize(s - {lo}, lo + 1, hi);
      assert s <= (s - {lo}) + {lo};
    } else {
      assert s == {};
    }
  }

  lemma {:induction false} AtLeastRange(s: set<int>, lo: int, hi: int)
    requires lo <= hi && forall i | lo <= i < hi :: i in s
    ensures |s| >= hi - lo
    decreases hi - lo
  {
    if lo < hi {
      AtLeastRange(s - {lo}, lo + 1, hi);
      assert s == (s - {lo}) + {lo};
    }
  }
}
