/**
 * The `@Cache` annotation (src/Annotation/Cache.php): its fields and the
 * derivation of a cache key from the data the listener gives it.
 *
 * SHA-512 is not modelled: the digest is the function value `sha512`, about
 * which nothing is assumed, so every property below holds for any hash.
 */
module Annotation {
  import opened Wrappers
  import opened PhpStrings
  import opened PhpArrays
  import opened QueryString

  /** The `data` field: `null`, a string, or a flat array. */
  datatype Data = Null | Text(text: string) | Array(entries: Entries)

  /** PHP falsiness of a non-array value: `null`, `''` and `'0'`. */
  predicate IsFalsy(d: Data)
    requires !d.Array?
  {
    d.Null? || d.text == "" || d.text == "0"
  }

  /**
   * The entries the key is built from: all of them when no attributes are
   * listed, otherwise those whose key is listed, in the data's order.
   */
  function SelectEntries(entries: Entries, attributes: seq<string>): (r: Entries)
    ensures forall e :: e in r <==> e in entries && (attributes == [] || e.0 in attributes)
  {
    if |attributes| == 0 then entries else KeepListed(entries, attributes)
  }

  /** `str_replace($from, $to, $s)` for single characters. */
  function ReplaceChar(s: string, from: char, to: char): (r: string)
    ensures |r| == |s|
    ensures forall k :: 0 <= k < |s| ==> r[k] == if s[k] == from then to else s[k]
  {
    if s == [] then "" else [if s[0] == from then to else s[0]] + ReplaceChar(s[1..], from, to)
  }

  /**
   * The text that is hashed after the prefix. Array data becomes its
   * `http_build_query` with `_` between fields, every `=` then turned into
   * `_`; other data passes through, a falsy value as `''`.
   */
  function KeyMaterial(data: Data, attributes: seq<string>): (r: string)
    ensures data.Array? ==> '=' !in r
  {
    match data
    case Null => ""
    case Text(t) => if IsFalsy(data) then "" else t
    case Array(entries) => ReplaceChar(BuildQuery(SelectEntries(entries, attributes), "_"), '=', '_')
  }

  /** `getKey($prefix)` on an annotation holding `data` and `attributes`. */
  function DeriveKey(prefix: string, data: Data, attributes: seq<string>, sha512: string -> string): string
  {
    sha512(prefix + "_" + KeyMaterial(data, attributes))
  }

  /** The annotation object: the reader fills it in, the listener sets its data. */
  class Cache {
    var expires: Option<int>
    var data: Data
    var attributes: seq<string>

    constructor(expires: Option<int>, attributes: seq<string>)
      ensures this.expires == expires && this.attributes == attributes && data == Null
    {
      this.expires := expires;
      this.attributes := attributes;
      data := Null;
    }

    /** `getKey`: hashes `prefix_material` for the current fields, changing none of them. */
    function GetKey(prefix: string := "", sha512: string -> string): (key: string)
      reads this
      ensures key == DeriveKey(prefix, data, attributes, sha512)
    {
      DeriveKey(prefix, GetData(), GetAttributes(), sha512)
    }

    function GetData(): Data
      reads this
    {
      data
    }

    /** `setData`: replaces the data and nothing else. */
    method SetData(data: Data)
      modifies this
      ensures GetData() == data
      ensures expires == old(expires) && attributes == old(attributes)
    {
      this.data := data;
    }

    function GetAttributes(): seq<string>
      reads this
    {
      attributes
    }

    function GetExpires(): Option<int>
      reads this
    {
      expires
    }
  }

  /** Each entry as `k_v`: its `k=v` field once `=` has become `_`. */
  function Underscored(a: Entries): (r: seq<string>)
    ensures |r| == |a|
  {
    if a == [] then [] else [UrlEncode(a[0].0) + "_" + UrlEncode(a[0].1)] + Underscored(a[1..])
  }

  lemma {:induction false} ReplaceCharAppend(a: string, b: string, from: char, to: char)
    ensures ReplaceChar(a + b, from, to) == ReplaceChar(a, from, to) + ReplaceChar(b, from, to)
  {
    if a == [] {
      assert a + b == b;
    } else {
      assert (a + b)[1..] == a[1..] + b;
      ReplaceCharAppend(a[1..], b, from, to);
    }
  }

  lemma ReplaceCharAbsent(s: string, from: char, to: char)
    requires from !in s
    ensures ReplaceChar(s, from, to) == s
  {
  }

  /**
   * The only `=` characters in the query are the ones between key and value,
   * so the material of array data is its `k_v` fields joined by `_`.
   */
  lemma {:induction false} QueryMaterial(a: Entries)
    ensures ReplaceChar(BuildQuery(a, "_"), '=', '_') == Implode("_", Underscored(a))
  {
    if a != [] {
      var field := UrlEncode(a[0].0) + "=" + UrlEncode(a[0].1);
      var joined := UrlEncode(a[0].0) + "_" + UrlEncode(a[0].1);
      FieldMaterial(UrlEncode(a[0].0), UrlEncode(a[0].1));
      if |a| > 1 {
        var rest := BuildQuery(a[1..], "_");
        QueryMaterial(a[1..]);
        assert Fields(a)[1..] == Fields(a[1..]);
        assert Underscored(a)[1..] == Underscored(a[1..]);
        assert BuildQuery(a, "_") == field + "_" + rest;
        ReplaceCharAppend(field + "_", rest, '=', '_');
        ReplaceCharAppend(field, "_", '=', '_');
      }
    }
  }

  /** One `k=v` field becomes `k_v`, as neither side holds `=`. */
  lemma FieldMaterial(k: string, v: string)
    requires '=' !in k && '=' !in v
    ensures ReplaceChar(k + "=" + v, '=', '_') == k + "_" + v
  {
    ReplaceCharAppend(k + "=", v, '=', '_');
    ReplaceCharAppend(k, "=", '=', '_');
    ReplaceCharAbsent(k, '=', '_');
    ReplaceCharAbsent(v, '=', '_');
  }

  /** Array material spelled out: `urlencode(k)_urlencode(v)` per selected entry, joined by `_`. */
  lemma ArrayMaterial(entries: Entries, attributes: seq<string>)
    ensures KeyMaterial(Array(entries), attributes) == Implode("_", Underscored(SelectEntries(entries, attributes)))
  {
    QueryMaterial(SelectEntries(entries, attributes));
  }

  /** `null`, `''`, `'0'` and the empty array all give the same key. */
  lemma EmptyDataSameKey(prefix: string, attributes: seq<string>, sha512: string -> string)
    ensures DeriveKey(prefix, Null, attributes, sha512) == DeriveKey(prefix, Text(""), attributes, sha512)
    ensures DeriveKey(prefix, Text("0"), attributes, sha512) == DeriveKey(prefix, Null, attributes, sha512)
    ensures DeriveKey(prefix, Array([]), attributes, sha512) == DeriveKey(prefix, Null, attributes, sha512)
    ensures KeyMaterial(Null, attributes) == ""
  {
    ArrayMaterial([], attributes);
  }

  /** Filtering by a whitelist is the same as hashing the pre-filtered data with no whitelist; filtering twice changes nothing. */
  lemma WhitelistIsPrefiltering(prefix: string, entries: Entries, attributes: seq<string>, sha512: string -> string)
    ensures DeriveKey(prefix, Array(entries), attributes, sha512)
         == DeriveKey(prefix, Array(SelectEntries(entries, attributes)), [], sha512)
    ensures DeriveKey(prefix, Array(SelectEntries(entries, attributes)), attributes, sha512)
         == DeriveKey(prefix, Array(entries), attributes, sha512)
  {
    if attributes != [] {
      KeepListedIdempotent(entries, attributes);
    }
  }

  /** A whitelist naming every key of the data gives the key of no whitelist at all. */
  lemma WhitelistOfEveryName(prefix: string, entries: Entries, attributes: seq<string>, sha512: string -> string)
    requires forall e :: e in entries ==> e.0 in attributes
    ensures DeriveKey(prefix, Array(entries), attributes, sha512) == DeriveKey(prefix, Array(entries), [], sha512)
  {
    if attributes != [] {
      KeepListedAll(entries, attributes);
    }
  }

  /** Only the set of listed attributes matters: their order and repetitions do not. */
  lemma WhitelistOrderIrrelevant(prefix: string, data: Data, attributes: seq<string>, other: seq<string>, sha512: string -> string)
    requires forall k :: k in attributes <==> k in other
    ensures DeriveKey(prefix, data, attributes, sha512) == DeriveKey(prefix, data, other, sha512)
  {
    if data.Array? {
      assert (attributes == []) == (other == []) by {
        if attributes != [] { assert attributes[0] in other; }
        if other != [] { assert other[0] in attributes; }
      }
      if attributes != [] {
        KeepListedSameKeys(data.entries, attributes, other);
      }
    }
  }

  /** The whitelist works entry by entry, so the selected entries keep the data's order. */
  lemma SelectionKeepsOrder(a: Entries, b: Entries, attributes: seq<string>)
    ensures SelectEntries(a + b, attributes) == SelectEntries(a, attributes) + SelectEntries(b, attributes)
  {
    if attributes != [] {
      KeepListedAppend(a, b, attributes);
    }
  }

  /** Every character is one `urlencode` leaves alone. */
  predicate AllUnreserved(s: string)
  {
    forall k :: 0 <= k < |s| ==> Unreserved(s[k])
  }

  /** The material of entries whose keys and values need no escaping. */
  lemma PlainPairMaterial(k: string, v: string, rest: Entries)
    requires AllUnreserved(k) && AllUnreserved(v)
    ensures Underscored([(k, v)] + rest) == [k + "_" + v] + Underscored(rest)
  {
    UrlEncodeUnreserved(k);
    UrlEncodeUnreserved(v);
    assert ([(k, v)] + rest)[1..] == rest;
  }

  /**
   * The encoding is not injective: a one-entry array `[k => v]` and the
   * string `k_v` share a key (`['a' => 'b']` and `'a_b'`, say).
   */
  lemma ArrayAndTextCollide(prefix: string, k: string, v: string, sha512: string -> string)
    requires AllUnreserved(k) && AllUnreserved(v)
    ensures DeriveKey(prefix, Array([(k, v)]), [], sha512) == DeriveKey(prefix, Text(k + "_" + v), [], sha512)
  {
    ArrayMaterial([(k, v)], []);
    PlainPairMaterial(k, v, []);
    assert [(k, v)] + [] == [(k, v)];
    assert (k + "_" + v)[|k|] == '_';
  }

  lemma UnderscoreJoinUnreserved(a: string, b: string)
    requires AllUnreserved(a) && AllUnreserved(b)
    ensures AllUnreserved(a + "_" + b)
  {
    var s := a + "_" + b;
    forall k | 0 <= k < |s| ensures Unreserved(s[k]) {
      if k > |a| {
        assert s[k] == b[k - |a| - 1];
      } else if k < |a| {
        assert s[k] == a[k];
      }
    }
  }

  /** The material of a two-entry array that needs no escaping: `k1_v1_k2_v2`. */
  lemma TwoPlainPairsMaterial(k1: string, v1: string, k2: string, v2: string)
    requires AllUnreserved(k1) && AllUnreserved(v1) && AllUnreserved(k2) && AllUnreserved(v2)
    ensures KeyMaterial(Array([(k1, v1), (k2, v2)]), []) == k1 + "_" + v1 + "_" + k2 + "_" + v2
  {
    ArrayMaterial([(k1, v1), (k2, v2)], []);
    TwoPlainPairsUnderscored(k1, v1, k2, v2);
    assert Implode("_", [k1 + "_" + v1, k2 + "_" + v2]) == (k1 + "_" + v1) + "_" + (k2 + "_" + v2);
  }

  lemma TwoPlainPairsUnderscored(k1: string, v1: string, k2: string, v2: string)
    requires AllUnreserved(k1) && AllUnreserved(v1) && AllUnreserved(k2) && AllUnreserved(v2)
    ensures Underscored([(k1, v1), (k2, v2)]) == [k1 + "_" + v1, k2 + "_" + v2]
  {
    var entries := [(k1, v1), (k2, v2)];
    PlainPairMaterial(k2, v2, []);
    assert entries == [(k1, v1)] + [(k2, v2)];
    assert [(k2, v2)] + [] == [(k2, v2)];
    PlainPairMaterial(k1, v1, [(k2, v2)]);
  }

  /**
   * Two requests with the same parameter names and different values can
   * share a key: moving `_k2_y` from the end of the first value to the front
   * of the second gives the same material (`a=x_b_y, b=z` and
   * `a=x, b=y_b_z` both give `a_x_b_y_b_z`).
   */
  lemma SameNamesCollide(prefix: string, k1: string, k2: string, x: string, y: string, z: string, sha512: string -> string)
    requires k1 != k2
    requires AllUnreserved(k1) && AllUnreserved(k2)
    requires AllUnreserved(x) && AllUnreserved(y) && AllUnreserved(z)
    ensures DeriveKey(prefix, Array([(k1, x + "_" + k2 + "_" + y), (k2, z)]), [], sha512)
         == DeriveKey(prefix, Array([(k1, x), (k2, y + "_" + k2 + "_" + z)]), [], sha512)
  {
    SameNamesSameMaterial(k1, k2, x, y, z);
  }

  lemma SameNamesSameMaterial(k1: string, k2: string, x: string, y: string, z: string)
    requires AllUnreserved(k1) && AllUnreserved(k2)
    requires AllUnreserved(x) && AllUnreserved(y) && AllUnreserved(z)
    ensures KeyMaterial(Array([(k1, x + "_" + k2 + "_" + y), (k2, z)]), [])
         == KeyMaterial(Array([(k1, x), (k2, y + "_" + k2 + "_" + z)]), [])
  {
    var long1, long2 := x + "_" + k2 + "_" + y, y + "_" + k2 + "_" + z;
    UnderscoreJoinUnreserved(x, k2);
    UnderscoreJoinUnreserved(x + "_" + k2, y);
    UnderscoreJoinUnreserved(y, k2);
    UnderscoreJoinUnreserved(y + "_" + k2, z);
    TwoPlainPairsMaterial(k1, long1, k2, z);
    TwoPlainPairsMaterial(k1, x, k2, long2);
    SeparatorsShift(k1, k2, x, y, z);
  }

  /** Where `_k2_` sits between two values cannot be told from the joined text. */
  lemma SeparatorsShift(k1: string, k2: string, x: string, y: string, z: string)
    ensures k1 + "_" + (x + "_" + k2 + "_" + y) + "_" + k2 + "_" + z
         == k1 + "_" + x + "_" + k2 + "_" + (y + "_" + k2 + "_" + z)
  {
  }
}
