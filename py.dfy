/** The handful of Python built-ins on `str` and `dict` that the harvester's
    logic is written with, given the meaning CPython gives them. */
module Py {

  datatype Option<+T> = None | Some(value: T)

  // ---------------------------------------------------------------------
  // str.split, str.join and the "last segment" idiom `s.split(c)[-1]`
  // ---------------------------------------------------------------------

  /** `s.split(sep)` for a non-empty separator: occurrences are found from
      the left and do not overlap; `s` without `sep` gives `[s]`. */
  function Split(s: string, sep: string): (parts: seq<string>)
    requires |sep| > 0
    ensures |parts| >= 1
    decreases |s|
  {
    if |s| < |sep| then [s]
    else if s[..|sep|] == sep then [""] + Split(s[|sep|..], sep)
    else
      var rest := Split(s[1..], sep);
      [[s[0]] + rest[0]] + rest[1..]
  }

  /** `sep.join(parts)` */
  function Join(parts: seq<string>, sep: string): string
  {
    if |parts| == 0 then ""
    else if |parts| == 1 then parts[0]
    else parts[0] + sep + Join(parts[1..], sep)
  }

  /** Splitting and joining with the same separator gives the string back. */
  lemma {:induction false} JoinSplit(s: string, sep: string)
    requires |sep| > 0
    ensures Join(Split(s, sep), sep) == s
    decreases |s|
  {
    if |s| < |sep| {
    } else if s[..|sep|] == sep {
      var rest := Split(s[|sep|..], sep);
      JoinSplit(s[|sep|..], sep);
      assert Split(s, sep) == [""] + rest;
      assert ([""] + rest)[1..] == rest;
      calc {
        Join(Split(s, sep), sep);
        "" + sep + Join(rest, sep);
        sep + s[|sep|..];
        { assert s == s[..|sep|] + s[|sep|..]; }
        s;
      }
    } else {
      var rest := Split(s[1..], sep);
      JoinSplit(s[1..], sep);
      var parts := [[s[0]] + rest[0]] + rest[1..];
      assert Split(s, sep) == parts;
      if |rest| == 1 {
        assert Join(rest, sep) == rest[0];
        assert [s[0]] + s[1..] == s;
      } else {
        assert parts[1..] == rest[1..];
        assert Join(rest, sep) == rest[0] + sep + Join(rest[1..], sep);
        calc {
          Join(parts, sep);
          ([s[0]] + rest[0]) + sep + Join(rest[1..], sep);
          [s[0]] + (rest[0] + sep + Join(rest[1..], sep));
          [s[0]] + s[1..];
          s;
        }
      }
    }
  }

  /** Splitting on one character cuts at every occurrence of it: no piece
      holds the character. */
  lemma {:induction false} SplitPiecesFree(s: string, c: char)
    ensures forall p :: p in Split(s, [c]) ==> c !in p
    decreases |s|
  {
    if |s| < 1 {
    } else if s[..1] == [c] {
      SplitPiecesFree(s[1..], c);
      assert Split(s, [c]) == [""] + Split(s[1..], [c]);
    } else {
      assert s[0] != c by { assert s[..1] == [s[0]]; }
      SplitPiecesFree(s[1..], c);
      var rest := Split(s[1..], [c]);
      assert Split(s, [c]) == [[s[0]] + rest[0]] + rest[1..];
      assert rest[0] in rest;
      forall p | p in rest[1..] ensures c !in p {
        assert p in rest;
      }
    }
  }

  /** `s.split(c)` has a second piece exactly when `c` occurs in `s`. */
  lemma {:induction false} SplitHasSecond(s: string, c: char)
    ensures |Split(s, [c])| >= 2 <==> c in s
    decreases |s|
  {
    if |s| < 1 {
    } else if s[..1] == [c] {
      assert s[0] == c by { assert s[..1][0] == s[0]; }
    } else {
      assert s[0] != c by { assert s[..1] == [s[0]]; }
      SplitHasSecond(s[1..], c);
      assert c in s <==> c in s[1..] by {
        assert s == [s[0]] + s[1..];
      }
    }
  }

  /** If the separator's first character does not occur in `a`, splitting
      `a + sep + b` cuts first right after `a`. */
  lemma {:induction false} SplitAfterFree(a: string, sep: string, b: string)
    requires |sep| > 0 && sep[0] !in a
    ensures Split(a + sep + b, sep) == [a] + Split(b, sep)
    decreases |a|
  {
    var s := a + sep + b;
    if |a| == 0 {
      assert s == sep + b;
      assert s[..|sep|] == sep;
      assert s[|sep|..] == b;
    } else {
      assert s[0] == a[0] && a[0] != sep[0];
      assert s[..|sep|] != sep by { assert s[..|sep|][0] == a[0]; }
      SplitAfterFree(a[1..], sep, b);
      assert s[1..] == a[1..] + sep + b;
      assert [a[0]] + a[1..] == a;
    }
  }

  /** A string without the separator's first character splits into itself. */
  lemma {:induction false} SplitFree(b: string, sep: string)
    requires |sep| > 0 && sep[0] !in b
    ensures Split(b, sep) == [b]
    decreases |b|
  {
    if |b| >= |sep| {
      assert b[..|sep|] != sep by { assert b[..|sep|][0] == b[0]; }
      SplitFree(b[1..], sep);
      assert [b[0]] + b[1..] == b;
    }
  }

  /** `s.split(c)[-1]`: what follows the last `c`, or all of `s`. */
  function LastSegment(s: string, c: char): string
  {
    var parts := Split(s, [c]);
    parts[|parts| - 1]
  }

  /** The last segment is the longest suffix of `s` free of `c`. */
  lemma {:induction false} LastSegmentIsFreeSuffix(s: string, c: char)
    ensures var r := LastSegment(s, c);
      && |r| <= |s| && s[|s| - |r|..] == r && c !in r
      && (|r| == |s| || s[|s| - |r| - 1] == c)
    decreases |s|
  {
    if |s| >= 1 {
      LastSegmentStep(s, c);
      if s[0] == c || c in s[1..] {
        LastSegmentIsFreeSuffix(s[1..], c);
        var r := LastSegment(s, c);
        assert s[|s| - |r|..] == s[1..][|s[1..]| - |r|..];
        if |r| < |s| - 1 {
          assert s[|s| - |r| - 1] == s[1..][|s[1..]| - |r| - 1];
        }
      } else {
        assert s == [s[0]] + s[1..];
      }
    }
  }

  /** `s.split(c)[-1]` is empty exactly when `s` is empty or ends with `c`. */
  lemma EmptyLastSegment(s: string, c: char)
    ensures LastSegment(s, c) == "" <==> s == [] || s[|s| - 1] == c
  {
    LastSegmentIsFreeSuffix(s, c);
    var r := LastSegment(s, c);
    if |r| > 0 {
      assert r[|r| - 1] == s[|s| - 1];
      assert r[|r| - 1] in r;
    }
  }

  /** Dropping the first character keeps the last segment, unless no `c`
      is left, when the last segment is all of `s`. */
  lemma LastSegmentStep(s: string, c: char)
    requires |s| >= 1
    ensures LastSegment(s, c) == if s[0] == c || c in s[1..] then LastSegment(s[1..], c) else s
  {
    var rest := Split(s[1..], [c]);
    if s[..1] == [c] {
      assert s[0] == c by { assert s[..1][0] == s[0]; }
      assert Split(s, [c]) == [""] + rest;
    } else {
      assert s[0] != c by { assert s[..1] == [s[0]]; }
      assert Split(s, [c]) == [[s[0]] + rest[0]] + rest[1..];
      SplitHasSecond(s[1..], c);
      if |rest| == 1 {
        JoinSplit(s[1..], [c]);
        assert [s[0]] + s[1..] == s;
      }
    }
  }

  // ---------------------------------------------------------------------
  // str.replace, str.strip, slicing with negative bounds
  // ---------------------------------------------------------------------

  /** `s.replace(a, b)` for one-character arguments. */
  function Replace(s: string, a: char, b: char): (r: string)
    ensures |r| == |s|
    ensures forall i :: 0 <= i < |s| ==> r[i] == if s[i] == a then b else s[i]
  {
    seq(|s|, i requires 0 <= i < |s| => if s[i] == a then b else s[i])
  }

  /** `s.lstrip(c)` */
  function StripLeft(s: string, c: char): string
  {
    if |s| > 0 && s[0] == c then StripLeft(s[1..], c) else s
  }

  /** `s.rstrip(c)` */
  function StripRight(s: string, c: char): string
  {
    if |s| > 0 && s[|s| - 1] == c then StripRight(s[..|s| - 1], c) else s
  }

  /** `s.strip(c)` */
  function Strip(s: string, c: char): string
  {
    StripRight(StripLeft(s, c), c)
  }

  /** `strip` leaves a string alone when `c` is at neither end. */
  lemma StripUntouched(s: string, c: char)
    requires |s| == 0 || (s[0] != c && s[|s| - 1] != c)
    ensures Strip(s, c) == s
  {
  }

  /** What `strip` returns is an infix of `s` that has `c` at neither end. */
  lemma {:induction false} StripEnds(s: string, c: char)
    ensures var r := Strip(s, c);
      && |r| <= |s| && (|r| == 0 || (r[0] != c && r[|r| - 1] != c))
  {
    StripLeftEnds(s, c);
    StripRightEnds(StripLeft(s, c), c);
  }

  lemma {:induction false} StripLeftEnds(s: string, c: char)
    ensures var l := StripLeft(s, c);
      && |l| <= |s| && s[|s| - |l|..] == l && (|l| == 0 || l[0] != c)
    decreases |s|
  {
    if |s| > 0 && s[0] == c {
      StripLeftEnds(s[1..], c);
    }
  }

  lemma {:induction false} StripRightEnds(s: string, c: char)
    ensures var r := StripRight(s, c);
      && |r| <= |s| && s[..|r|] == r && (|r| == 0 || r[|r| - 1] != c)
      && (|s| > 0 && s[0] != c ==> |r| > 0 && r[0] == s[0])
    decreases |s|
  {
    if |s| > 0 && s[|s| - 1] == c {
      StripRightEnds(s[..|s| - 1], c);
    }
  }

  /** `s[-n:]` */
  function LastChars(s: string, n: nat): string
  {
    if |s| >= n then s[|s| - n..] else s
  }

  /** `s[:-n]` */
  function DropLast(s: string, n: nat): string
  {
    if |s| >= n then s[..|s| - n] else ""
  }

  /** `s[-n:] == t` tests that `s` ends with `t` when `t` has length `n`. */
  lemma LastCharsIsSuffixTest(s: string, t: string)
    ensures LastChars(s, |t|) == t <==> |s| >= |t| && s[|s| - |t|..] == t
  {
  }

  /** `if s[-1] != "/": s += "/"` (Python raises IndexError on an empty `s`). */
  function WithTrailingSlash(s: string): (r: string)
    requires |s| > 0
    ensures |r| > 0 && r[|r| - 1] == '/'
    ensures r == s || r == s + "/"
    ensures r[..|s|] == s
  {
    if s[|s| - 1] != '/' then s + "/" else s
  }

  /** Appending the slash only when it is missing makes the step idempotent. */
  lemma TrailingSlashIdempotent(s: string)
    requires |s| > 0
    ensures WithTrailingSlash(WithTrailingSlash(s)) == WithTrailingSlash(s)
    ensures s[|s| - 1] == '/' ==> WithTrailingSlash(s) == s
  {
  }

  // ---------------------------------------------------------------------
  // dict: insertion-ordered keys and the mapping
  // ---------------------------------------------------------------------

  /** A Python dict: its keys in insertion order and the mapping itself. */
  datatype Dict<K, V> = Dict(keys: seq<K>, values: map<K, V>)
  {
    predicate Valid()
    {
      && (forall i, j :: 0 <= i < j < |keys| ==> keys[i] != keys[j])
      && values.Keys == (set k | k in keys)
    }
  }

  function EmptyDict<K, V>(): (d: Dict<K, V>)
    ensures d.Valid() && d.keys == [] && d.values == map[]
  {
    Dict([], map[])
  }

  /** `d[k] = v`: an existing key keeps its place, a new key goes last. */
  function Put<K, V>(d: Dict<K, V>, k: K, v: V): (r: Dict<K, V>)
    ensures d.Valid() ==> r.Valid()
    ensures r.values == d.values[k := v]
    ensures k in d.values ==> r.keys == d.keys
    ensures k !in d.values ==> r.keys == d.keys + [k]
  {
    if k in d.values then Dict(d.keys, d.values[k := v])
    else Dict(d.keys + [k], d.values[k := v])
  }
}
