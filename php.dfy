/**
 * The few PHP built-ins whose exact behaviour the extension relies on:
 * byte strings, `trim`, the truthiness of strings (`?:`, `(bool)`) and
 * `array_unique` on a list.
 */
module Php {

  /** One byte of a PHP (binary) string. */
  type byte = x: int | 0 <= x < 256

  // ---------------------------------------------------------------------------
  // trim()
  // ---------------------------------------------------------------------------

  /** The characters `trim` strips by default: " ", "\t", "\n", "\r", "\0" and "\x0B". */
  predicate IsBlank(c: char) {
    c == ' ' || c == '\t' || c == '\n' || c == '\r' || c == 0 as char || c == 11 as char
  }

  predicate AllBlank(s: string) {
    forall i :: 0 <= i < |s| ==> IsBlank(s[i])
  }

  /** Neither end of `s` is a character that `trim` would strip. */
  predicate Trimmed(s: string) {
    s == [] || (!IsBlank(s[0]) && !IsBlank(s[|s| - 1]))
  }

  /** `ltrim($s)`: drops the longest blank prefix. */
  function TrimLeft(s: string): (r: string)
    ensures |r| <= |s| && r == s[|s| - |r|..]
    ensures AllBlank(s[..|s| - |r|])
    ensures r == [] || !IsBlank(r[0])
  {
    if |s| > 0 && IsBlank(s[0]) then
      var t := s[1..];
      var r := TrimLeft(t);
      var n := |s| - |r|;
      assert r == s[n..] by {
        assert t[|t| - |r|..] == s[n..];
      }
      assert AllBlank(s[..n]) by {
        forall i | 0 <= i < n ensures IsBlank(s[..n][i]) {
          if i > 0 {
            assert s[..n][i] == t[..|t| - |r|][i - 1];
          }
        }
      }
      r
    else s
  }

  /** `rtrim($s)`: drops the longest blank suffix. */
  function TrimRight(s: string): (r: string)
    ensures |r| <= |s| && r == s[..|r|]
    ensures AllBlank(s[|r|..])
    ensures r == [] || !IsBlank(r[|r| - 1])
  {
    if |s| > 0 && IsBlank(s[|s| - 1]) then
      var r := TrimRight(s[..|s| - 1]);
      assert s[|r|..] == s[..|s| - 1][|r|..] + [s[|s| - 1]];
      r
    else s
  }

  /** `trim($s)`. */
  function Trim(s: string): (r: string)
    ensures Trimmed(r) && |r| <= |s|
  {
    TrimRight(TrimLeft(s))
  }

  lemma {:induction false} TrimLeftPadding(p: string, rest: string)
    requires AllBlank(p)
    requires rest == [] || !IsBlank(rest[0])
    ensures TrimLeft(p + rest) == rest
  {
    if p != [] {
      assert (p + rest)[1..] == p[1..] + rest;
      TrimLeftPadding(p[1..], rest);
    }
  }

  lemma {:induction false} TrimRightPadding(rest: string, q: string)
    requires AllBlank(q)
    requires rest == [] || !IsBlank(rest[|rest| - 1])
    ensures TrimRight(rest + q) == rest
  {
    if q != [] {
      assert (rest + q)[..|rest + q| - 1] == rest + q[..|q| - 1];
      TrimRightPadding(rest, q[..|q| - 1]);
    }
  }

  /**
   * `trim` is characterised by what it removes: blank padding on both sides
   * of a string whose ends are not blank comes off, and nothing else does.
   */
  lemma TrimRemovesExactlyPadding(p: string, c: string, q: string)
    requires AllBlank(p) && AllBlank(q) && Trimmed(c)
    ensures Trim(p + c + q) == c
  {
    var s := p + c + q;
    if c == [] {
      assert s == (p + q) + [];
      assert AllBlank(p + q);
      TrimLeftPadding(p + q, []);
    } else {
      assert s == p + (c + q);
      TrimLeftPadding(p, c + q);
      TrimRightPadding(c, q);
    }
  }

  /** Trimming twice is trimming once. */
  lemma TrimIdempotent(s: string)
    ensures Trim(Trim(s)) == Trim(s)
  {
    var c := Trim(s);
    TrimRemovesExactlyPadding([], c, []);
    assert [] + c + [] == c;
  }

  /** `trim($s) === ''` exactly when every character of `s` is blank. */
  lemma TrimEmptyIffBlank(s: string)
    ensures Trim(s) == [] <==> AllBlank(s)
  {
    if AllBlank(s) {
      TrimRemovesExactlyPadding(s, [], []);
      assert s + [] + [] == s;
    }
    if Trim(s) == [] {
      var l := TrimLeft(s);
      assert TrimRight(l) == [];
      assert l[0..] == l;
      assert l == [];
      assert s[..|s|] == s;
    }
  }

  // ---------------------------------------------------------------------------
  // Truthiness
  // ---------------------------------------------------------------------------

  /** `(bool)$s` for a string: only '' and '0' are false. */
  predicate IsTruthyString(s: string) {
    s != "" && s != "0"
  }

  // ---------------------------------------------------------------------------
  // array_unique()
  // ---------------------------------------------------------------------------

  predicate NoDuplicates<T(==)>(s: seq<T>) {
    forall i, j :: 0 <= i < j < |s| ==> s[i] != s[j]
  }

  /**
   * `array_unique($list)` on a list: every value is kept at its first
   * position and later repetitions are dropped.
   */
  function ArrayUnique<T(==)>(s: seq<T>): (r: seq<T>)
    ensures NoDuplicates(r)
    ensures forall i :: 0 <= i < |s| ==> s[i] in r
    ensures forall i :: 0 <= i < |r| ==> r[i] in s
    ensures |r| <= |s|
  {
    if |s| == 0 then []
    else
      var d := ArrayUnique(s[..|s| - 1]);
      assert s == s[..|s| - 1] + [s[|s| - 1]];
      if s[|s| - 1] in d then d else d + [s[|s| - 1]]
  }

  /**
   * A left-to-right reference for `array_unique`: walk the list, keep a
   * value when it has not been seen before.
   */
  function FirstOccurrences<T(==)>(s: seq<T>, seen: set<T>): seq<T> {
    if |s| == 0 then []
    else if s[0] in seen then FirstOccurrences(s[1..], seen)
    else [s[0]] + FirstOccurrences(s[1..], seen + {s[0]})
  }

  lemma {:induction false} FirstOccurrencesAppend<T>(s: seq<T>, x: T, seen: set<T>)
    ensures FirstOccurrences(s + [x], seen)
         == FirstOccurrences(s, seen) + (if x in seen || x in s then [] else [x])
  {
    if |s| == 0 {
      assert s + [x] == [x];
    } else {
      assert (s + [x])[1..] == s[1..] + [x];
      assert (s + [x])[0] == s[0];
      if s[0] in seen {
        FirstOccurrencesAppend(s[1..], x, seen);
      } else {
        FirstOccurrencesAppend(s[1..], x, seen + {s[0]});
      }
    }
  }

  /** `ArrayUnique` keeps exactly the first occurrences, in their original order. */
  lemma {:induction false} ArrayUniqueIsFirstOccurrences<T>(s: seq<T>)
    ensures ArrayUnique(s) == FirstOccurrences(s, {})
  {
    if |s| > 0 {
      var p, x := s[..|s| - 1], s[|s| - 1];
      assert s == p + [x];
      ArrayUniqueIsFirstOccurrences(p);
      FirstOccurrencesAppend(p, x, {});
    }
  }

  /** A list without repetitions is left as it is. */
  lemma {:induction false} ArrayUniqueOfDistinct<T>(s: seq<T>)
    requires NoDuplicates(s)
    ensures ArrayUnique(s) == s
  {
    if |s| > 0 {
      var p := s[..|s| - 1];
      ArrayUniqueOfDistinct(p);
      assert s[|s| - 1] !in p;
      assert s == p + [s[|s| - 1]];
    }
  }

  /** Appending a value and de-duplicating: a known value changes nothing, a new one goes to the end. */
  lemma ArrayUniqueAppend<T>(s: seq<T>, x: T)
    requires NoDuplicates(s)
    ensures x in s ==> ArrayUnique(s + [x]) == s
    ensures x !in s ==> ArrayUnique(s + [x]) == s + [x]
  {
    assert (s + [x])[..|s + [x]| - 1] == s;
    ArrayUniqueOfDistinct(s);
  }
}
