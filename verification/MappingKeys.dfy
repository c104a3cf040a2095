/** The composite key "provider:externalID" of an identity mapping, and when it can be taken apart. */
module MappingKeys {
  import opened Prelude

  datatype Mapping = Mapping(provider: string, externalID: string)

  function MappingKey(m: Mapping): string {
    m.provider + ":" + m.externalID
  }

  /** strings.Index(key, ":"). */
  method IndexOfColon(key: string) returns (i: int)
    ensures i == FirstColon(key)
  {
    i := 0;
    while i < |key| && key[i] != ':'
      invariant 0 <= i <= |key|
      invariant ':' !in key[..i]
    {
      i := i + 1;
    }
    if i == |key| {
      assert key[..i] == key;
      i := -1;
    } else {
      FirstColonUnique(key, i);
    }
  }

  ghost function FirstColon(key: string): (i: int)
    ensures -1 <= i < |key|
    ensures i == -1 <==> ':' !in key
    ensures 0 <= i ==> key[i] == ':' && ':' !in key[..i]
  {
    if ':' !in key then -1
    else if key[0] == ':' then 0
    else
      var j := FirstColon(key[1..]);
      assert key == [key[0]] + key[1..];
      assert key[..j + 1] == [key[0]] + key[1..][..j];
      j + 1
  }

  lemma FirstColonUnique(key: string, i: nat)
    requires i < |key| && key[i] == ':' && ':' !in key[..i]
    ensures FirstColon(key) == i
  {
    var j := FirstColon(key);
    assert key[i] in key;
    assert forall x | 0 <= x < i :: key[..i][x] == key[x];
    assert forall x | 0 <= x < j :: key[..j][x] == key[x];
  }

  /** splitMappingKey: the recorded halves when the index knows the key, else the first ':'. */
  ghost function SplitMappingKey(key: string, known: map<string, Mapping>): Option<Mapping> {
    if key in known then Some(known[key])
    else
      var i := FirstColon(key);
      if i < 0 then None else Some(Mapping(key[..i], key[i + 1..]))
  }

  method SplitKey(key: string, known: map<string, Mapping>) returns (r: Option<Mapping>)
    ensures r == SplitMappingKey(key, known)
  {
    if key in known { return Some(known[key]); }
    var i := IndexOfColon(key);
    if i < 0 { return None; }
    r := Some(Mapping(key[..i], key[i + 1..]));
  }

  /** What mappingSplits guarantees of its table: each entry is filed under its own key. */
  ghost predicate Rejoins(known: map<string, Mapping>) {
    forall k | k in known :: MappingKey(known[k]) == k
  }

  /** Splitting and re-joining a key gives the key back; only a key without ':' cannot be split. */
  lemma SplitRejoins(key: string, known: map<string, Mapping>)
    requires Rejoins(known)
    ensures SplitMappingKey(key, known).None? <==> key !in known && ':' !in key
    ensures SplitMappingKey(key, known).Some? ==> MappingKey(SplitMappingKey(key, known).value) == key
  {
    if key !in known && ':' in key {
      var i := FirstColon(key);
      assert key == key[..i] + ":" + key[i + 1..];
    }
  }

  /** No two of these mappings share a composite key. */
  ghost predicate NonColliding(ms: set<Mapping>) {
    forall a, b | a in ms && b in ms && MappingKey(a) == MappingKey(b) :: a == b
  }

  ghost predicate PrefixFree(providers: set<string>) {
    forall p, q | p in providers && q in providers && p + ":" <= q + ":" :: p == q
  }

  ghost predicate InjectiveOver(providers: set<string>) {
    forall a: Mapping, b: Mapping |
      a.provider in providers && b.provider in providers && MappingKey(a) == MappingKey(b) :: a == b
  }

  /** The composite key is injective over a set of providers exactly when the set is prefix-free. */
  lemma InjectiveIffPrefixFree(providers: set<string>)
    ensures InjectiveOver(providers) <==> PrefixFree(providers)
  {
    if PrefixFree(providers) {
      forall a: Mapping, b: Mapping |
        a.provider in providers && b.provider in providers && MappingKey(a) == MappingKey(b)
        ensures a == b
      {
        PrefixFreeSplits(providers, a, b);
      }
    }
    if InjectiveOver(providers) {
      forall p, q | p in providers && q in providers && p + ":" <= q + ":" ensures p == q {
        var rest := (q + ":")[|p| + 1..];
        assert q + ":" == p + ":" + rest;
        assert MappingKey(Mapping(q, "")) == MappingKey(Mapping(p, rest));
      }
    }
  }

  lemma PrefixFreeSplits(providers: set<string>, a: Mapping, b: Mapping)
    requires PrefixFree(providers) && a.provider in providers && b.provider in providers
    requires MappingKey(a) == MappingKey(b)
    ensures a == b
  {
    var k := MappingKey(a);
    var pa, pb := a.provider + ":", b.provider + ":";
    assert k[..|pa|] == pa && k[..|pb|] == pb;
    assert pa <= pb || pb <= pa;
    assert a.provider == b.provider;
    assert k[|pa|..] == a.externalID && k[|pb|..] == b.externalID;
  }

  /** Providers the handlers write, with one app-local provider per registered app id. */
  ghost function StandardProviders(appIDs: set<string>): set<string> {
    {"local", "ldap", "kerberos"} + set a | a in appIDs :: "applocal:" + a
  }

  lemma AppLocalPrefix(a: string, b: string)
    requires ':' !in a && ':' !in b && "applocal:" + a + ":" <= "applocal:" + b + ":"
    ensures a == b
  {
    var pc, qc, app := "applocal:" + a + ":", "applocal:" + b + ":", "applocal:";
    assert pc[|app| + |a|] == ':' && qc[|app| + |a|] == ':';
    assert forall i | 0 <= i < |b| :: b[i] == qc[|app| + i];
    assert forall i | 0 <= i < |a| :: a[i] == pc[|app| + i] && b[i] == qc[|app| + i];
  }

  /** App ids are slugs and never contain ':', so the standard providers never collide. */
  lemma StandardProvidersPrefixFree(appIDs: set<string>)
    requires forall a | a in appIDs :: ':' !in a
    ensures PrefixFree(StandardProviders(appIDs))
    ensures InjectiveOver(StandardProviders(appIDs))
  {
    var ps := StandardProviders(appIDs);
    forall p, q | p in ps && q in ps && p + ":" <= q + ":" ensures p == q {
      var pc, qc := p + ":", q + ":";
      assert forall i | 0 <= i < |pc| :: pc[i] == qc[i];
      if p in {"local", "ldap", "kerberos"} {
        assert pc[0] == qc[0] && pc[1] == qc[1] && pc[4] == qc[4];
      } else {
        var a :| a in appIDs && p == "applocal:" + a;
        assert pc[0] == 'a';
        var b :| b in appIDs && q == "applocal:" + b;
        AppLocalPrefix(a, b);
      }
    }
    InjectiveIffPrefixFree(ps);
  }
}
