/**
 * The PHP string built-ins the core relies on, on `string` (a sequence of
 * characters): `explode`, `implode` and `trim`.
 */
module PhpStrings {

  /** `sep` occurs in `s` starting at index `i`. */
  predicate OccursAt(s: string, sep: string, i: nat)
  {
    i + |sep| <= |s| && s[i..i + |sep|] == sep
  }

  /** `sep` occurs somewhere in `s` (PHP's `str_contains`). */
  predicate Contains(s: string, sep: string)
  {
    exists i: nat :: i <= |s| && OccursAt(s, sep, i)
  }

  /**
   * `explode($sep, $s)`: the pieces of `s` between the occurrences of `sep`,
   * found left to right without overlap. There is always at least one piece.
   */
  function Explode(sep: string, s: string): (parts: seq<string>)
    requires sep != ""
    ensures |parts| >= 1
    decreases |s|
  {
    if |s| < |sep| then [s]
    else if s[..|sep|] == sep then [""] + Explode(sep, s[|sep|..])
    else
      var rest := Explode(sep, s[1..]);
      [[s[0]] + rest[0]] + rest[1..]
  }

  /** The joined string starts with the first part. */
  lemma ImplodePrefix(sep: string, parts: seq<string>)
    requires |parts| >= 1
    ensures |parts[0]| <= |Implode(sep, parts)| && Implode(sep, parts)[..|parts[0]|] == parts[0]
  {
  }

  /** `implode($sep, $parts)`: the pieces joined with `sep` between them. */
  function Implode(sep: string, parts: seq<string>): string
  {
    if |parts| == 0 then ""
    else if |parts| == 1 then parts[0]
    else parts[0] + sep + Implode(sep, parts[1..])
  }

  /** Joining after a longer first piece adds that text in front. */
  lemma ImplodeExtendsFirst(sep: string, x: string, parts: seq<string>)
    requires |parts| >= 1
    ensures Implode(sep, [x + parts[0]] + parts[1..]) == x + Implode(sep, parts)
  {
    var joined := [x + parts[0]] + parts[1..];
    if |parts| > 1 {
      assert joined[1..] == parts[1..];
    }
  }

  /** Exploding loses nothing: joining the pieces again gives back `s`. */
  lemma {:induction false} ImplodeExplode(sep: string, s: string)
    requires sep != ""
    ensures Implode(sep, Explode(sep, s)) == s
    decreases |s|
  {
    if |s| < |sep| {
    } else if s[..|sep|] == sep {
      var rest := Explode(sep, s[|sep|..]);
      ImplodeExplode(sep, s[|sep|..]);
      assert ([""] + rest)[1..] == rest;
      assert s == sep + s[|sep|..];
    } else {
      var rest := Explode(sep, s[1..]);
      ImplodeExplode(sep, s[1..]);
      ImplodeExtendsFirst(sep, [s[0]], rest);
      assert s == [s[0]] + s[1..];
    }
  }

  /** Dropping a first character that does not start an occurrence keeps `Contains` unchanged. */
  lemma ContainsTail(s: string, sep: string)
    requires |s| >= 1 && !OccursAt(s, sep, 0)
    ensures Contains(s, sep) <==> Contains(s[1..], sep)
  {
    if Contains(s, sep) {
      var i: nat :| i <= |s| && OccursAt(s, sep, i);
      assert i >= 1;
      assert s[1..][i - 1..i - 1 + |sep|] == s[i..i + |sep|];
      assert OccursAt(s[1..], sep, i - 1);
    }
    if Contains(s[1..], sep) {
      var j: nat :| j <= |s| - 1 && OccursAt(s[1..], sep, j);
      assert s[j + 1..j + 1 + |sep|] == s[1..][j..j + |sep|];
      assert OccursAt(s, sep, j + 1);
    }
  }

  /** `explode` yields a second piece exactly when the separator occurs in `s`. */
  lemma {:induction false} ExplodeSplitsIffContains(sep: string, s: string)
    requires sep != ""
    ensures |Explode(sep, s)| >= 2 <==> Contains(s, sep)
    decreases |s|
  {
    if |s| < |sep| {
      forall i: nat ensures !OccursAt(s, sep, i) { }
    } else if s[..|sep|] == sep {
      assert OccursAt(s, sep, 0);
    } else {
      ExplodeSplitsIffContains(sep, s[1..]);
      ContainsTail(s, sep);
    }
  }

  /** An occurrence past the first character is an occurrence in the rest. */
  lemma OccursAtTail(s: string, sep: string, j: nat)
    requires 1 <= j && 1 <= |s|
    ensures OccursAt(s, sep, j) <==> OccursAt(s[1..], sep, j - 1)
  {
    if j + |sep| <= |s| {
      assert s[1..][j - 1..j - 1 + |sep|] == s[j..j + |sep|];
    }
  }

  /**
   * The first piece of `explode` is a prefix of `s`, and the separator does
   * not occur before it ends: it is cut at the leftmost occurrence.
   */
  lemma {:induction false} ExplodeFirstPiece(sep: string, s: string)
    requires sep != ""
    ensures var p := Explode(sep, s)[0];
            |p| <= |s| && s[..|p|] == p
    ensures var p := Explode(sep, s)[0];
            forall j: nat :: j < |p| ==> !OccursAt(s, sep, j)
    decreases |s|
  {
    if |s| >= |sep| && s[..|sep|] != sep {
      var t := s[1..];
      ExplodeFirstPiece(sep, t);
      var q := Explode(sep, t)[0];
      var p := Explode(sep, s)[0];
      assert p == [s[0]] + q;
      assert s[..|p|] == [s[0]] + t[..|q|];
      forall j: nat | j < |p| ensures !OccursAt(s, sep, j) {
        if j > 0 {
          OccursAtTail(s, sep, j);
        }
      }
    }
  }

  /** `explode` cuts after its first piece when it has a second one. */
  predicate CutAfterFirst(sep: string, s: string)
    requires sep != ""
  {
    var parts := Explode(sep, s);
    |parts| >= 2 ==>
      && OccursAt(s, sep, |parts[0]|)
      && parts[1..] == Explode(sep, s[|parts[0]| + |sep|..])
  }

  /** A first character that does not start the separator joins the first piece of the rest. */
  lemma CutAfterFirstStep(sep: string, s: string)
    requires sep != "" && |s| >= |sep| && s[..|sep|] != sep
    requires CutAfterFirst(sep, s[1..])
    ensures CutAfterFirst(sep, s)
  {
    var parts := Explode(sep, s);
    if |parts| >= 2 {
      var t := s[1..];
      var rest := Explode(sep, t);
      var n := |rest[0]| + 1;
      assert parts == [[s[0]] + rest[0]] + rest[1..];
      assert |parts[0]| == n && parts[1..] == rest[1..];
      OccursAtTail(s, sep, n);
      assert t[n - 1 + |sep|..] == s[n + |sep|..];
    }
  }

  /**
   * Where `explode` cuts: when there is a second piece, an occurrence of
   * `sep` follows the first piece, and the pieces after it are those of the
   * text that follows that occurrence.
   */
  lemma {:induction false} ExplodeFirstCut(sep: string, s: string)
    requires sep != ""
    ensures var parts := Explode(sep, s);
            |parts| >= 2 ==>
              && OccursAt(s, sep, |parts[0]|)
              && parts[1..] == Explode(sep, s[|parts[0]| + |sep|..])
    decreases |s|
  {
    if |s| >= |sep| {
      if s[..|sep|] == sep {
        assert OccursAt(s, sep, 0);
        assert Explode(sep, s)[1..] == Explode(sep, s[|sep|..]);
      } else {
        ExplodeFirstCut(sep, s[1..]);
        CutAfterFirstStep(sep, s);
      }
    }
  }

  /** A string without the separator explodes into itself alone. */
  lemma ExplodeWithoutSeparator(sep: string, s: string)
    requires sep != "" && !Contains(s, sep)
    ensures Explode(sep, s) == [s]
  {
    ExplodeSplitsIffContains(sep, s);
    ImplodeExplode(sep, s);
  }

  /** A character that is absent from `s` does not occur in it as a separator. */
  lemma NotContainsChar(s: string, c: char)
    requires c !in s
    ensures !Contains(s, [c])
  {
    forall i: nat | i + 1 <= |s| ensures !OccursAt(s, [c], i) {
      assert s[i..i + 1] == [s[i]];
    }
  }

  /**
   * For a one-character separator, exploding around one occurrence of it
   * is exploding both sides.
   */
  lemma {:induction false} ExplodeAround(sep: string, a: string, b: string)
    requires |sep| == 1
    ensures Explode(sep, a + sep + b) == Explode(sep, a) + Explode(sep, b)
    decreases |a|
  {
    var s := a + sep + b;
    if |a| == 0 {
      assert s[..1] == sep;
      assert s[1..] == b;
    } else if a[0] == sep[0] {
      assert s[..1] == sep == a[..1];
      assert s[1..] == a[1..] + sep + b;
      ExplodeAround(sep, a[1..], b);
    } else {
      assert s[..1] != sep && a[..1] != sep;
      assert s[1..] == a[1..] + sep + b;
      ExplodeAround(sep, a[1..], b);
      var restA := Explode(sep, a[1..]);
      var rest := Explode(sep, s[1..]);
      assert rest == restA + Explode(sep, b);
      assert rest[0] == restA[0];
      assert rest[1..] == restA[1..] + Explode(sep, b);
    }
  }

  /** The characters PHP's `trim` strips by default: " \t\n\r\0\x0B". */
  predicate IsTrimmable(c: char)
  {
    c == ' ' || c == '\t' || c == '\n' || c == '\r' || c == '\0' || c == '\U{B}'
  }

  /** `ltrim($s)`: drops the trimmable characters at the front. */
  function TrimLeft(s: string): (r: string)
    ensures |r| <= |s| && r == s[|s| - |r|..]
    ensures forall k :: 0 <= k < |s| - |r| ==> IsTrimmable(s[k])
    ensures r != [] ==> !IsTrimmable(r[0])
  {
    if s != [] && IsTrimmable(s[0]) then TrimLeft(s[1..]) else s
  }

  /** `rtrim($s)`: drops the trimmable characters at the end. */
  function TrimRight(s: string): (r: string)
    ensures |r| <= |s| && r == s[..|r|]
    ensures forall k :: |r| <= k < |s| ==> IsTrimmable(s[k])
    ensures r != [] ==> !IsTrimmable(r[|r| - 1])
  {
    if s != [] && IsTrimmable(s[|s| - 1]) then TrimRight(s[..|s| - 1]) else s
  }

  /** `trim($s)`. */
  function Trim(s: string): (r: string)
    ensures |r| <= |s| && Untrimmable(r)
  {
    var l := TrimLeft(s);
    var r := TrimRight(l);
    assert r != [] ==> r[0] == l[0];
    r
  }

  /** Whether `s` starts and ends with a character `trim` keeps (or is empty). */
  predicate Untrimmable(s: string)
  {
    s == [] || (!IsTrimmable(s[0]) && !IsTrimmable(s[|s| - 1]))
  }

  /** `trim` leaves alone a string it keeps at both ends. */
  lemma TrimKeepsUntrimmable(s: string)
    requires Untrimmable(s)
    ensures Trim(s) == s
  {
    assert TrimLeft(s) == s;
  }

  /** `ltrim` drops blank padding up to a character it keeps. */
  lemma {:induction false} TrimLeftPadding(lead: string, rest: string)
    requires forall k :: 0 <= k < |lead| ==> IsTrimmable(lead[k])
    requires rest == [] || !IsTrimmable(rest[0])
    ensures TrimLeft(lead + rest) == rest
  {
    if lead == [] {
      assert lead + rest == rest;
    } else {
      assert (lead + rest)[0] == lead[0];
      assert (lead + rest)[1..] == lead[1..] + rest;
      TrimLeftPadding(lead[1..], rest);
    }
  }

  /** `rtrim` drops blank padding back to a character it keeps. */
  lemma {:induction false} TrimRightPadding(rest: string, trail: string)
    requires forall k :: 0 <= k < |trail| ==> IsTrimmable(trail[k])
    requires rest == [] || !IsTrimmable(rest[|rest| - 1])
    ensures TrimRight(rest + trail) == rest
  {
    if trail == [] {
      assert rest + trail == rest;
    } else {
      var s := rest + trail;
      assert s[|s| - 1] == trail[|trail| - 1];
      assert s[..|s| - 1] == rest + trail[..|trail| - 1];
      TrimRightPadding(rest, trail[..|trail| - 1]);
    }
  }

  /** `trim` removes exactly the trimmable padding around a core that it keeps. */
  lemma TrimStripsPadding(lead: string, core: string, trail: string)
    requires forall k :: 0 <= k < |lead| ==> IsTrimmable(lead[k])
    requires forall k :: 0 <= k < |trail| ==> IsTrimmable(trail[k])
    requires Untrimmable(core)
    ensures Trim(lead + core + trail) == core
  {
    assert lead + core + trail == lead + (core + trail);
    if core == [] {
      var blank := lead + trail;
      assert forall k :: 0 <= k < |blank| ==> IsTrimmable(blank[k]) by {
        forall k | 0 <= k < |blank| ensures IsTrimmable(blank[k]) {
          if k >= |lead| {
            assert blank[k] == trail[k - |lead|];
          }
        }
      }
      assert blank + [] == lead + (core + trail);
      TrimLeftPadding(blank, []);
    } else {
      assert (core + trail)[0] == core[0];
      TrimLeftPadding(lead, core + trail);
      TrimRightPadding(core, trail);
    }
  }

  /** Trimming twice is trimming once. */
  lemma TrimIdempotent(s: string)
    ensures Trim(Trim(s)) == Trim(s)
  {
    var t := Trim(s);
    TrimStripsPadding("", t, "");
    assert "" + t + "" == t;
  }
}
