// Shared value types and Python string semantics used by every module of
// the model: `str.split`, `str.join`, `str.replace`, `startswith`,
// `endswith`, substring tests and the decimal rendering of integers.

module Wrappers {
  datatype Option<T> = None | Some(value: T)
}

module PyStr {
  import opened Wrappers

  /** Python `s.startswith(p)`. */
  predicate StartsWith(s: string, p: string)
  {
    |p| <= |s| && s[..|p|] == p
  }

  /** Python `s.endswith(p)`. */
  predicate EndsWith(s: string, p: string)
  {
    |p| <= |s| && s[|s| - |p|..] == p
  }

  /** `t` occurs in `s` starting at position `p`. */
  predicate HasAt(s: string, t: string, p: int)
  {
    0 <= p && p + |t| <= |s| && s[p..p + |t|] == t
  }

  /** Python `t in s` on strings: `t` occurs somewhere in `s`. */
  predicate Contains(s: string, t: string)
  {
    exists p :: 0 <= p <= |s| && HasAt(s, t, p)
  }

  /** A string that lacks some character of `t` does not contain `t`. */
  lemma AbsentChar(s: string, t: string, i: nat)
    requires i < |t| && t[i] !in s
    ensures !Contains(s, t)
  {
    forall p | 0 <= p <= |s|
      ensures !HasAt(s, t, p)
    {
      if p + |t| <= |s| {
        assert s[p..p + |t|][i] == s[p + i];
      }
    }
  }

  /** Python's index normalisation for slices: a negative index counts
    * from the end, and the result is clipped to 0..|s|. */
  function SliceIndex(len: nat, i: int): (k: nat)
    ensures k <= len
  {
    if i < 0 then (if i + len < 0 then 0 else i + len) else if i > len then len else i
  }

  /** Python `s[i:j]`, which never fails. */
  function Slice(s: string, i: int, j: int): (r: string)
    ensures |r| <= |s|
  {
    var a := SliceIndex(|s|, i);
    var b := SliceIndex(|s|, j);
    if a <= b then s[a..b] else ""
  }

  /** Python `s[i:]`. */
  function From(s: string, i: int): string
  {
    Slice(s, i, |s|)
  }

  /** Python `s.split(sep)` for a non-empty separator: cut at every
    * occurrence of `sep`, scanning left to right without overlaps. */
  function Split(s: string, sep: string): (r: seq<string>)
    requires |sep| > 0
    ensures |r| >= 1
    decreases |s|
  {
    if |s| < |sep| then [s]
    else if s[..|sep|] == sep then [""] + Split(s[|sep|..], sep)
    else
      var rest := Split(s[1..], sep);
      [[s[0]] + rest[0]] + rest[1..]
  }

  /** Python `sep.join(parts)`. */
  function Join(parts: seq<string>, sep: string): string
  {
    if |parts| == 0 then ""
    else if |parts| == 1 then parts[0]
    else parts[0] + sep + Join(parts[1..], sep)
  }

  /** Python `s.replace(pat, repl)` for a non-empty `pat`: every
    * non-overlapping occurrence, left to right, is replaced. */
  function Replace(s: string, pat: string, repl: string): string
    requires |pat| > 0
    decreases |s|
  {
    if |s| < |pat| then s
    else if s[..|pat|] == pat then repl + Replace(s[|pat|..], pat, repl)
    else [s[0]] + Replace(s[1..], pat, repl)
  }

  // ASCII letter case: `str.upper`, `str.lower` and `str.capitalize` on
  // text whose letters are ASCII.

  predicate IsLowerChar(c: char) { 'a' <= c <= 'z' }
  predicate IsUpperChar(c: char) { 'A' <= c <= 'Z' }

  function UpperChar(c: char): (u: char)
    ensures IsLowerChar(c) ==> IsUpperChar(u)
  {
    if IsLowerChar(c) then (c as int - 32) as char else c
  }

  function LowerChar(c: char): (l: char)
    ensures IsUpperChar(c) ==> IsLowerChar(l)
  {
    if IsUpperChar(c) then (c as int + 32) as char else c
  }

  /** Python `s.upper()` on ASCII text. */
  function Upper(s: string): (r: string)
    ensures |r| == |s|
  {
    seq(|s|, i requires 0 <= i < |s| => UpperChar(s[i]))
  }

  /** Python `s.lower()` on ASCII text. */
  function Lower(s: string): (r: string)
    ensures |r| == |s|
  {
    seq(|s|, i requires 0 <= i < |s| => LowerChar(s[i]))
  }

  /** Python `s.capitalize()`: first letter upper case, the rest lower. */
  function Capitalize(s: string): (r: string)
    ensures |r| == |s|
  {
    if |s| == 0 then s else [UpperChar(s[0])] + Lower(s[1..])
  }

  lemma LowerAppend(a: string, b: string)
    ensures Lower(a + b) == Lower(a) + Lower(b)
  {
  }

  /** Text without upper case letters is its own lower case. */
  lemma LowerKeeps(s: string)
    requires forall k :: 0 <= k < |s| ==> !IsUpperChar(s[k])
    ensures Lower(s) == s
  {
  }

  /** Python `str.isspace` on one ASCII character. */
  predicate IsSpace(c: char)
  {
    c == ' ' || 9 <= c as int <= 13 || 28 <= c as int <= 31
  }

  function StripLeft(s: string): (r: string)
    ensures |r| <= |s| && s[|s| - |r|..] == r
    ensures r == [] || !IsSpace(r[0])
    decreases |s|
  {
    if |s| > 0 && IsSpace(s[0]) then StripLeft(s[1..]) else s
  }

  function StripRight(s: string): (r: string)
    ensures |r| <= |s| && s[..|r|] == r
    ensures r == [] || !IsSpace(r[|r| - 1])
    decreases |s|
  {
    if |s| > 0 && IsSpace(s[|s| - 1]) then StripRight(s[..|s| - 1]) else s
  }

  /** Python `s.strip()` on ASCII text: the text without leading and
    * trailing white space. */
  function Strip(s: string): (r: string)
    ensures |r| <= |s|
    ensures r == [] || (!IsSpace(r[0]) && !IsSpace(r[|r| - 1]))
  {
    var l := StripLeft(s);
    var r := StripRight(l);
    assert r == [] || r[0] == l[0];
    r
  }

  /** No part contains the first character of the separator, so no
    * occurrence of the separator can start inside a part. */
  predicate SepFree(parts: seq<string>, sep: string)
    requires |sep| > 0
  {
    forall k :: 0 <= k < |parts| ==> sep[0] !in parts[k]
  }

  lemma JoinConsHead(c: char, x: string, tail: seq<string>, sep: string)
    ensures Join([[c] + x] + tail, sep) == [c] + Join([x] + tail, sep)
  {
    if |tail| > 0 {
      assert ([[c] + x] + tail)[1..] == tail;
      assert ([x] + tail)[1..] == tail;
    }
  }

  /** Joining the pieces of a split gives back the original string. */
  lemma {:induction false} JoinSplit(s: string, sep: string)
    requires |sep| > 0
    ensures Join(Split(s, sep), sep) == s
    decreases |s|
  {
    if |s| < |sep| {
    } else if s[..|sep|] == sep {
      var rest := Split(s[|sep|..], sep);
      JoinSplit(s[|sep|..], sep);
      assert ([""] + rest)[1..] == rest;
      assert Join([""] + rest, sep) == "" + sep + Join(rest, sep);
      assert s == s[..|sep|] + s[|sep|..];
    } else {
      var rest := Split(s[1..], sep);
      JoinSplit(s[1..], sep);
      assert rest == [rest[0]] + rest[1..];
      JoinConsHead(s[0], rest[0], rest[1..], sep);
      assert s == [s[0]] + s[1..];
    }
  }

  /** `s.replace(pat, repl)` is `repl.join(s.split(pat))`: every occurrence
    * that `split` cuts at is the one `replace` substitutes. */
  lemma {:induction false} ReplaceSplitJoin(s: string, pat: string, repl: string)
    requires |pat| > 0
    ensures Replace(s, pat, repl) == Join(Split(s, pat), repl)
    decreases |s|
  {
    if |s| < |pat| {
    } else if s[..|pat|] == pat {
      var rest := Split(s[|pat|..], pat);
      ReplaceSplitJoin(s[|pat|..], pat, repl);
      assert ([""] + rest)[1..] == rest;
      assert Join([""] + rest, repl) == "" + repl + Join(rest, repl);
    } else {
      var rest := Split(s[1..], pat);
      ReplaceSplitJoin(s[1..], pat, repl);
      assert rest == [rest[0]] + rest[1..];
      JoinConsHead(s[0], rest[0], rest[1..], repl);
    }
  }

  lemma {:induction false} SplitPlain(p: string, sep: string)
    requires |sep| > 0 && sep[0] !in p
    ensures Split(p, sep) == [p]
    decreases |p|
  {
    if |p| >= |sep| {
      assert p[..|sep|][0] == p[0];
      SplitPlain(p[1..], sep);
      assert [p[0]] + p[1..] == p;
    }
  }

  lemma {:induction false} SplitAfterPart(p: string, sep: string, t: string)
    requires |sep| > 0 && sep[0] !in p
    ensures Split(p + sep + t, sep) == [p] + Split(t, sep)
    decreases |p|
  {
    var s := p + sep + t;
    if |p| == 0 {
      assert s == sep + t;
      assert s[..|sep|] == sep;
      assert s[|sep|..] == t;
    } else {
      assert s[..|sep|][0] == p[0];
      assert s[1..] == p[1..] + sep + t;
      SplitAfterPart(p[1..], sep, t);
      assert [p[0]] + p[1..] == p;
    }
  }

  /** Splitting a join recovers the parts when no part can hide a
    * separator. This is the round trip behind every "a:b" or
    * "KIND::name" key string of the model. */
  lemma {:induction false} SplitJoin(parts: seq<string>, sep: string)
    requires |sep| > 0 && |parts| >= 1 && SepFree(parts, sep)
    ensures Split(Join(parts, sep), sep) == parts
    decreases |parts|
  {
    if |parts| == 1 {
      SplitPlain(parts[0], sep);
    } else {
      SplitJoin(parts[1..], sep);
      SplitAfterPart(parts[0], sep, Join(parts[1..], sep));
      assert parts == [parts[0]] + parts[1..];
    }
  }

  /** Two-part instance of SplitJoin, the shape used for "node:path". */
  lemma SplitPair(a: string, b: string, sep: string)
    requires |sep| > 0 && sep[0] !in a && sep[0] !in b
    ensures Split(a + sep + b, sep) == [a, b]
  {
    SplitAfterPart(a, sep, b);
    SplitPlain(b, sep);
  }

  /** Splitting stops at the first separator: when no separator starts
    * inside `a`, the first piece of `a + sep + t` is `a`. */
  lemma {:induction false} SplitPrefix(a: string, sep: string, t: string)
    requires |sep| > 0
    requires forall p :: 0 <= p < |a| ==> !HasAt(a + sep + t, sep, p)
    ensures Split(a + sep + t, sep) == [a] + Split(t, sep)
    decreases |a|
  {
    var s := a + sep + t;
    if |a| == 0 {
      assert s == sep + t;
      assert s[..|sep|] == sep;
      assert s[|sep|..] == t;
    } else {
      assert !HasAt(s, sep, 0);
      assert s[1..] == a[1..] + sep + t;
      forall p | 0 <= p < |a[1..]|
        ensures !HasAt(a[1..] + sep + t, sep, p)
      {
        assert !HasAt(s, sep, p + 1);
        assert s[p + 1..p + 1 + |sep|] == s[1..][p..p + |sep|];
      }
      SplitPrefix(a[1..], sep, t);
      assert [a[0]] + a[1..] == a;
    }
  }

  /** A string without the separator's first character is a single
    * piece. */
  lemma SplitWithoutChar(s: string, sep: string)
    requires |sep| > 0 && sep[0] !in s
    ensures Split(s, sep) == [s]
  {
    forall p | 0 <= p < |s|
      ensures !HasAt(s, sep, p)
    {
      if p + |sep| <= |s| {
        assert s[p..p + |sep|][0] == s[p];
      }
    }
    SplitWhole(s, sep);
  }

  /** A string in which no separator starts is a single piece. */
  lemma {:induction false} SplitWhole(s: string, sep: string)
    requires |sep| > 0
    requires forall p :: 0 <= p < |s| ==> !HasAt(s, sep, p)
    ensures Split(s, sep) == [s]
    decreases |s|
  {
    if |s| >= |sep| {
      assert !HasAt(s, sep, 0);
      forall p | 0 <= p < |s[1..]|
        ensures !HasAt(s[1..], sep, p)
      {
        assert !HasAt(s, sep, p + 1);
        if p + 1 + |sep| <= |s| {
          assert s[p + 1..p + 1 + |sep|] == s[1..][p..p + |sep|];
        }
      }
      SplitWhole(s[1..], sep);
      assert [s[0]] + s[1..] == s;
    }
  }

  /** A string without the first character of `pat` is left unchanged
    * by `Replace`. */
  lemma {:induction false} ReplaceAbsent(s: string, pat: string, repl: string)
    requires |pat| > 0 && pat[0] !in s
    ensures Replace(s, pat, repl) == s
    decreases |s|
  {
    if |s| >= |pat| {
      assert s[..|pat|][0] == s[0];
      ReplaceAbsent(s[1..], pat, repl);
      assert [s[0]] + s[1..] == s;
    }
  }

  /** Replacing a single character distributes over concatenation: no
    * occurrence can straddle the seam. */
  lemma {:induction false} ReplaceCharAppend(a: string, b: string, c: char, repl: string)
    ensures Replace(a + b, [c], repl) == Replace(a, [c], repl) + Replace(b, [c], repl)
    decreases |a|
  {
    if |a| == 0 {
      assert a + b == b;
    } else {
      var rest := a[1..];
      assert (a + b)[1..] == rest + b;
      assert (a + b)[..1] == a[..1];
      ReplaceCharAppend(rest, b, c, repl);
      var head := if a[..1] == [c] then repl else [a[0]];
      assert Replace(a, [c], repl) == head + Replace(rest, [c], repl);
      assert Replace(a + b, [c], repl) == head + Replace(rest + b, [c], repl);
    }
  }

  /** A character that the replacement text lacks is absent from the
    * result when it was absent from the input or is the one replaced. */
  lemma {:induction false} ReplaceCharFree(s: string, c: char, repl: string, x: char)
    requires x !in repl && (x == c || x !in s)
    ensures x !in Replace(s, [c], repl)
    decreases |s|
  {
    if |s| >= 1 {
      ReplaceCharFree(s[1..], c, repl, x);
      if s[..1] != [c] {
        assert s[0] != c;
      }
    }
  }

  /** No piece of a split on a one-character separator holds that
    * character; in particular the first piece does not. */
  lemma {:induction false} SplitHeadFree(s: string, c: char)
    ensures c !in Split(s, [c])[0]
    decreases |s|
  {
    if |s| >= 1 && s[..1] != [c] {
      SplitHeadFree(s[1..], c);
      assert s[0] != c;
    }
  }

  /** Everything before the first separator character is the first piece
    * of the split. */
  lemma SplitHeadBefore(a: string, c: char, t: string)
    requires c !in a
    ensures Split(a + [c] + t, [c])[0] == a
  {
    SplitAfterPart(a, [c], t);
  }

  /** Python `s.find(t)`: the first position of `t` in `s`, or -1. */
  function Find(s: string, t: string): (r: int)
    ensures -1 <= r <= |s|
    ensures r >= 0 ==> HasAt(s, t, r) && forall p :: 0 <= p < r ==> !HasAt(s, t, p)
    ensures r == -1 ==> forall p :: !HasAt(s, t, p)
  {
    FindFrom(s, t, 0)
  }

  function FindFrom(s: string, t: string, i: nat): (r: int)
    ensures -1 <= r <= |s|
    ensures r >= 0 ==> i <= r && HasAt(s, t, r) && forall p :: i <= p < r ==> !HasAt(s, t, p)
    ensures r == -1 ==> forall p :: i <= p ==> !HasAt(s, t, p)
    decreases |s| - i
  {
    if i + |t| > |s| then -1
    else if HasAt(s, t, i) then i
    else FindFrom(s, t, i + 1)
  }

  /** `s.lstrip(c)` for a single character. */
  function LStrip(s: string, c: char): (r: string)
    ensures |r| <= |s| && (r == [] || r[0] != c)
    decreases |s|
  {
    if s != [] && s[0] == c then LStrip(s[1..], c) else s
  }

  /** `s.count(t)`: non-overlapping occurrences, scanned left to right. */
  function Count(s: string, t: string): nat
    requires |t| > 0
    decreases |s|
  {
    if |s| < |t| then 0
    else if s[..|t|] == t then 1 + Count(s[|t|..], t)
    else Count(s[1..], t)
  }

  // ------------------------------------------------------------------
  // Decimal integers, as Python's `str(i)` and `int(s)` render them.
  // ------------------------------------------------------------------

  predicate IsDigit(c: char) { '0' <= c <= '9' }

  function DigitChar(d: nat): (c: char)
    requires d < 10
    ensures IsDigit(c)
  {
    ['0', '1', '2', '3', '4', '5', '6', '7', '8', '9'][d]
  }

  function DigitValue(c: char): (d: nat)
    requires IsDigit(c)
    ensures d < 10
  {
    (c as int - '0' as int) as nat
  }

  /** Python `str(n)` for a natural number. */
  function NatToString(n: nat): (s: string)
    ensures |s| > 0
    ensures forall k :: 0 <= k < |s| ==> IsDigit(s[k])
    decreases n
  {
    if n < 10 then [DigitChar(n)] else NatToString(n / 10) + [DigitChar(n % 10)]
  }

  /** Python `int(s)` on a string of decimal digits. */
  function ParseNat(s: string): nat
    requires forall k :: 0 <= k < |s| ==> IsDigit(s[k])
    decreases |s|
  {
    if |s| == 0 then 0 else 10 * ParseNat(s[..|s| - 1]) + DigitValue(s[|s| - 1])
  }

  /** Python `str(i)` for any integer. */
  function IntToString(i: int): (s: string)
    ensures |s| > 0
  {
    if i < 0 then "-" + NatToString(-i) else NatToString(i)
  }

  /** Python `int(s)` on a plain decimal literal; nothing where it would
    * raise. */
  function ParseInt(s: string): (r: Option<int>)
    ensures s != "" && (forall k :: 0 <= k < |s| ==> IsDigit(s[k])) ==> r == Some(ParseNat(s))
  {
    if s != "" && forall k :: 0 <= k < |s| ==> IsDigit(s[k]) then Some(ParseNat(s))
    else if |s| >= 2 && s[0] == '-' && forall k :: 1 <= k < |s| ==> IsDigit(s[k]) then var v: int := ParseNat(s[1..]); Some(0 - v)
    else None
  }

  lemma DigitRoundTrip(d: nat)
    requires d < 10
    ensures DigitValue(DigitChar(d)) == d
  {
  }

  /** `int(str(n)) == n`. */
  lemma {:induction false} ParseNatToString(n: nat)
    ensures ParseNat(NatToString(n)) == n
    decreases n
  {
    var s := NatToString(n);
    if n < 10 {
      DigitRoundTrip(n);
    } else {
      ParseNatToString(n / 10);
      assert s[..|s| - 1] == NatToString(n / 10);
      DigitRoundTrip(n % 10);
    }
  }

  /** The rendering of a natural number has no character that the path
    * formats of the model use as delimiters. */
  lemma NatToStringDigits(n: nat, c: char)
    requires !IsDigit(c)
    ensures c !in NatToString(n)
  {
  }
}
