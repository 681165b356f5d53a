/**
 * Flat PHP arrays with string keys and string values. A PHP array is an
 * ordered map, so it is modelled as the sequence of its entries in
 * iteration order.
 */
module PhpArrays {
  import opened Wrappers

  type Entries = seq<(string, string)>

  /** No key appears twice, as in every real PHP array. */
  predicate DistinctKeys(a: Entries)
  {
    forall i, j :: 0 <= i < j < |a| ==> a[i].0 != a[j].0
  }

  function Keys(a: Entries): set<string>
  {
    set e | e in a :: e.0
  }

  /** `$a[$k] ?? null`: the value of the first entry with key `k`. */
  function Get(a: Entries, k: string): (r: Option<string>)
    ensures r.Some? <==> k in Keys(a)
  {
    if a == [] then None
    else if a[0].0 == k then Some(a[0].1)
    else Get(a[1..], k)
  }

  /** The entries of `b` whose key is not in `drop`, in `b`'s order. */
  function WithoutKeys(b: Entries, drop: set<string>): (r: Entries)
    ensures forall e :: e in r <==> e in b && e.0 !in drop
  {
    if b == [] then []
    else if b[0].0 in drop then WithoutKeys(b[1..], drop)
    else [b[0]] + WithoutKeys(b[1..], drop)
  }

  /**
   * `$a + $b`: all entries of `a` in order, then the entries of `b` whose
   * key `a` does not have, in `b`'s order. On a shared key `a` wins.
   */
  function Union(a: Entries, b: Entries): (r: Entries)
    ensures |r| >= |a| && r[..|a|] == a
    ensures forall e :: e in r <==> e in a || (e in b && e.0 !in Keys(a))
  {
    a + WithoutKeys(b, Keys(a))
  }

  /**
   * `array_intersect_key($a, array_flip($listed))`: the entries of `a` whose
   * key is listed, in `a`'s order.
   */
  function KeepListed(a: Entries, listed: seq<string>): (r: Entries)
    ensures forall e :: e in r <==> e in a && e.0 in listed
    ensures |r| <= |a|
  {
    if a == [] then []
    else if a[0].0 in listed then [a[0]] + KeepListed(a[1..], listed)
    else KeepListed(a[1..], listed)
  }

  /** Looking a key up in a concatenation looks in the front part first. */
  lemma {:induction false} GetAppend(a: Entries, b: Entries, k: string)
    ensures Get(a + b, k) == if k in Keys(a) then Get(a, k) else Get(b, k)
  {
    if a != [] {
      assert (a + b)[1..] == a[1..] + b;
      GetAppend(a[1..], b, k);
      assert Keys(a) == {a[0].0} + Keys(a[1..]);
    } else {
      assert a + b == b;
    }
  }

  /** Removing keys makes exactly those keys absent. */
  lemma {:induction false} GetWithoutKeys(b: Entries, drop: set<string>, k: string)
    ensures Get(WithoutKeys(b, drop), k) == if k in drop then None else Get(b, k)
  {
    if b != [] {
      GetWithoutKeys(b[1..], drop, k);
    }
  }

  /** `$a + $b` looks a key up in `a` first and falls back to `b`. */
  lemma UnionGet(a: Entries, b: Entries, k: string)
    ensures Get(Union(a, b), k) == if k in Keys(a) then Get(a, k) else Get(b, k)
  {
    GetAppend(a, WithoutKeys(b, Keys(a)), k);
    GetWithoutKeys(b, Keys(a), k);
  }

  /** `UnionGet` for every key at once. */
  lemma UnionGetAll(a: Entries, b: Entries)
    ensures forall k :: Get(Union(a, b), k) == if k in Keys(a) then Get(a, k) else Get(b, k)
  {
    forall k ensures Get(Union(a, b), k) == if k in Keys(a) then Get(a, k) else Get(b, k) {
      UnionGet(a, b, k);
    }
  }

  /** The keys of `$a + $b` are those of both arrays, each once. */
  lemma UnionKeys(a: Entries, b: Entries)
    requires DistinctKeys(a) && DistinctKeys(b)
    ensures Keys(Union(a, b)) == Keys(a) + Keys(b)
    ensures DistinctKeys(Union(a, b))
  {
    var rest := WithoutKeys(b, Keys(a));
    WithoutKeysDistinct(b, Keys(a));
    var u := a + rest;
    forall i, j | 0 <= i < j < |u| ensures u[i].0 != u[j].0 {
      if i < |a| && j >= |a| {
        assert u[j] in rest;
        assert u[i] in a;
      }
    }
    forall k | k in Keys(a) + Keys(b) ensures k in Keys(u) {
      if k !in Keys(a) {
        var e :| e in b && e.0 == k;
        assert e in rest;
      }
    }
  }

  /** Dropping entries keeps keys distinct. */
  lemma {:induction false} WithoutKeysDistinct(b: Entries, drop: set<string>)
    requires DistinctKeys(b)
    ensures DistinctKeys(WithoutKeys(b, drop))
  {
    if b != [] {
      assert DistinctKeys(b[1..]) by {
        forall i, j | 0 <= i < j < |b[1..]| ensures b[1..][i].0 != b[1..][j].0 {
          assert b[1..][i] == b[i + 1] && b[1..][j] == b[j + 1];
        }
      }
      WithoutKeysDistinct(b[1..], drop);
      var rest := WithoutKeys(b[1..], drop);
      forall e | e in rest ensures e.0 != b[0].0 {
        var m :| 0 <= m < |b[1..]| && b[1..][m] == e;
        assert b[m + 1] == e;
      }
    }
  }

  /** Keeping listed keys is done entry by entry, so it keeps the order. */
  lemma {:induction false} KeepListedAppend(a: Entries, b: Entries, listed: seq<string>)
    ensures KeepListed(a + b, listed) == KeepListed(a, listed) + KeepListed(b, listed)
  {
    if a == [] {
      assert a + b == b;
    } else {
      assert (a + b)[1..] == a[1..] + b;
      KeepListedAppend(a[1..], b, listed);
    }
  }

  /** Only which keys are listed matters, not their order or repetitions. */
  lemma {:induction false} KeepListedSameKeys(a: Entries, listed: seq<string>, other: seq<string>)
    requires forall k :: k in listed <==> k in other
    ensures KeepListed(a, listed) == KeepListed(a, other)
  {
    if a != [] {
      KeepListedSameKeys(a[1..], listed, other);
    }
  }

  /** Keeping the listed keys a second time changes nothing. */
  lemma {:induction false} KeepListedIdempotent(a: Entries, listed: seq<string>)
    ensures KeepListed(KeepListed(a, listed), listed) == KeepListed(a, listed)
  {
    if a != [] {
      KeepListedIdempotent(a[1..], listed);
    }
  }

  /** With every key of `a` listed, nothing is dropped. */
  lemma {:induction false} KeepListedAll(a: Entries, listed: seq<string>)
    requires forall e :: e in a ==> e.0 in listed
    ensures KeepListed(a, listed) == a
  {
    if a != [] {
      KeepListedAll(a[1..], listed);
    }
  }
}
