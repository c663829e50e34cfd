/** The Option type used across the model for Python's `None`. */
module Wrappers {
  datatype Option<T> = None | Some(value: T)
}

/**
 * The string operations the pipelines use, restricted to ASCII text:
 * `str.lower`, `in`, `str.split` (with and without a separator), `str.strip`,
 * `str.join`, `str.replace` on single characters, `str.isdigit` and `str.title`.
 */
module Text {

  /** Python's `str.isspace` on ASCII: tab, newline, vertical tab, form feed,
      carriage return, the four information separators and space. */
  predicate IsSpace(c: char) {
    (9 <= c as int <= 13) || (28 <= c as int <= 31) || c == ' '
  }

  predicate IsDigit(c: char) {
    '0' <= c <= '9'
  }

  predicate IsUpper(c: char) {
    'A' <= c <= 'Z'
  }

  predicate IsLowerLetter(c: char) {
    'a' <= c <= 'z'
  }

  predicate IsLetter(c: char) {
    IsUpper(c) || IsLowerLetter(c)
  }

  function LowerChar(c: char): (r: char)
    ensures !IsUpper(r)
    ensures IsUpper(c) || r == c
  {
    if IsUpper(c) then (c as int - 'A' as int + 'a' as int) as char else c
  }

  function UpperChar(c: char): (r: char)
    ensures !IsLowerLetter(r)
  {
    if IsLowerLetter(c) then (c as int - 'a' as int + 'A' as int) as char else c
  }

  /** `s.lower()`. */
  function Lower(s: string): (r: string)
    ensures |r| == |s|
  {
    if s == [] then "" else [LowerChar(s[0])] + Lower(s[1..])
  }

  lemma {:induction false} LowerAt(s: string)
    ensures forall i :: 0 <= i < |s| ==> Lower(s)[i] == LowerChar(s[i])
  {
    if s != [] {
      LowerAt(s[1..]);
      forall i | 0 < i < |s| ensures Lower(s)[i] == LowerChar(s[i]) {
        assert Lower(s)[i] == Lower(s[1..])[i - 1];
      }
    }
  }

  predicate NoUpper(s: string) {
    forall i :: 0 <= i < |s| ==> !IsUpper(s[i])
  }

  lemma {:induction false} LowerOfNoUpper(s: string)
    requires NoUpper(s)
    ensures Lower(s) == s
  {
    if s != [] {
      assert NoUpper(s[1..]) by {
        forall i | 0 <= i < |s| - 1 ensures !IsUpper(s[1..][i]) {
          assert s[1..][i] == s[i + 1];
        }
      }
      LowerOfNoUpper(s[1..]);
      assert !IsUpper(s[0]);
    }
  }

  lemma LowerIdempotent(s: string)
    ensures NoUpper(Lower(s))
    ensures Lower(Lower(s)) == Lower(s)
  {
    LowerAt(s);
    LowerOfNoUpper(Lower(s));
  }

  /** `t in s` for strings: `t` is a prefix of `s` or occurs in its tail. */
  predicate Contains(s: string, t: string)
    decreases |s|
  {
    t <= s || (s != [] && Contains(s[1..], t))
  }

  lemma {:induction false} ContainsAt(s: string, t: string, i: int)
    requires 0 <= i <= |s| - |t| && s[i..i + |t|] == t
    ensures Contains(s, t)
  {
    if i > 0 {
      assert s[1..][i - 1..i - 1 + |t|] == s[i..i + |t|];
      ContainsAt(s[1..], t, i - 1);
    }
  }

  /** `t` starts at position `i` of `s`. */
  predicate OccursAt(s: string, t: string, i: int) {
    0 <= i <= |s| - |t| && s[i..i + |t|] == t
  }

  /** `Contains` holds exactly when `t` starts at some position of `s`. */
  lemma {:induction false} ContainsExists(s: string, t: string)
    ensures Contains(s, t) <==> exists i :: OccursAt(s, t, i)
  {
    if exists i :: OccursAt(s, t, i) {
      var i :| OccursAt(s, t, i);
      ContainsAt(s, t, i);
    }
    if Contains(s, t) {
      if t <= s {
        assert OccursAt(s, t, 0);
      } else {
        assert s != [] && Contains(s[1..], t);
        ContainsExists(s[1..], t);
        var i :| OccursAt(s[1..], t, i);
        assert OccursAt(s, t, i + 1) by {
          assert s[i + 1..i + 1 + |t|] == s[1..][i..i + |t|];
        }
      }
    }
  }

  lemma ContainsInfix(a: string, t: string, b: string)
    ensures Contains(a + t + b, t)
  {
    assert (a + t + b)[|a|..|a| + |t|] == t;
    ContainsAt(a + t + b, t, |a|);
  }

  /** `c in s` for a single character. */
  predicate HasChar(s: string, c: char) {
    exists i :: 0 <= i < |s| && s[i] == c
  }

  lemma HasCharContains(s: string, c: char)
    ensures HasChar(s, c) <==> Contains(s, [c])
  {
    ContainsExists(s, [c]);
    if HasChar(s, c) {
      var i :| 0 <= i < |s| && s[i] == c;
      assert OccursAt(s, [c], i);
    }
    if Contains(s, [c]) {
      var i :| OccursAt(s, [c], i);
      assert s[i] == s[i..i + 1][0];
    }
  }

  /** Number of occurrences of `c` in `s`. */
  function Count(s: string, c: char): nat {
    if s == [] then 0 else (if s[0] == c then 1 else 0) + Count(s[1..], c)
  }

  /** `sep.join(parts)`. */
  function Join(parts: seq<string>, sep: string): string {
    if parts == [] then ""
    else if |parts| == 1 then parts[0]
    else parts[0] + sep + Join(parts[1..], sep)
  }

  /** `s.split(c)` for a single-character separator: never empty, and
      `a,,b` gives the three parts `a`, `` and `b`. */
  function Split(s: string, c: char): (r: seq<string>)
    ensures |r| >= 1
  {
    if s == [] then [""]
    else
      var rest := Split(s[1..], c);
      if s[0] == c then [""] + rest else [[s[0]] + rest[0]] + rest[1..]
  }

  lemma {:induction false} SplitCount(s: string, c: char)
    ensures |Split(s, c)| == Count(s, c) + 1
  {
    if s != [] {
      SplitCount(s[1..], c);
    }
  }

  lemma {:induction false} SplitPartsFree(s: string, c: char)
    ensures forall k :: 0 <= k < |Split(s, c)| ==> !HasChar(Split(s, c)[k], c)
  {
    if s != [] {
      SplitPartsFree(s[1..], c);
      var rest := Split(s[1..], c);
      if s[0] != c {
        assert !HasChar(rest[0], c);
        assert !HasChar([s[0]] + rest[0], c) by {
          forall i | 0 <= i < |[s[0]] + rest[0]| ensures ([s[0]] + rest[0])[i] != c {
            if i > 0 { assert ([s[0]] + rest[0])[i] == rest[0][i - 1]; }
          }
        }
        var r := Split(s, c);
        forall k | 0 <= k < |r| ensures !HasChar(r[k], c) {
          if k > 0 { assert r[k] == rest[k]; }
        }
      } else {
        var r := Split(s, c);
        forall k | 0 <= k < |r| ensures !HasChar(r[k], c) {
          if k > 0 { assert r[k] == rest[k - 1]; }
        }
      }
    }
  }

  /** Joining the parts of a split with the separator gives the string back. */
  lemma {:induction false} JoinSplit(s: string, c: char)
    ensures Join(Split(s, c), [c]) == s
  {
    if s != [] {
      JoinSplit(s[1..], c);
      var rest := Split(s[1..], c);
      if s[0] == c {
        assert Split(s, c) == [""] + rest;
        assert ([""] + rest)[1..] == rest;
      } else {
        var head := [s[0]] + rest[0];
        assert Split(s, c) == [head] + rest[1..];
        if |rest| == 1 {
          assert Join(rest, [c]) == rest[0];
        } else {
          assert Join(rest, [c]) == rest[0] + [c] + Join(rest[1..], [c]);
          assert ([head] + rest[1..])[1..] == rest[1..];
          assert head + [c] + Join(rest[1..], [c]) == [s[0]] + (rest[0] + [c] + Join(rest[1..], [c]));
        }
      }
    }
  }

  /** Without a separator the split is the string itself. */
  lemma {:induction false} SplitFree(s: string, c: char)
    requires !HasChar(s, c)
    ensures Split(s, c) == [s]
  {
    if s != [] {
      assert !HasChar(s[1..], c) by {
        forall i | 0 <= i < |s[1..]| ensures s[1..][i] != c {
          assert s[1..][i] == s[i + 1];
        }
      }
      SplitFree(s[1..], c);
      assert s[0] != c;
      assert [s[0]] + s[1..] == s;
    }
  }

  /** A separator-free head splits off as the first part. */
  lemma {:induction false} SplitAfterFree(a: string, b: string, c: char)
    requires !HasChar(a, c)
    ensures Split(a + [c] + b, c) == [a] + Split(b, c)
  {
    var s := a + [c] + b;
    if a == [] {
      assert s[0] == c && s[1..] == b;
    } else {
      assert s[0] == a[0] && s[1..] == a[1..] + [c] + b;
      assert !HasChar(a[1..], c) by {
        forall i | 0 <= i < |a[1..]| ensures a[1..][i] != c {
          assert a[1..][i] == a[i + 1];
        }
      }
      SplitAfterFree(a[1..], b, c);
      assert a[0] != c;
      assert [a[0]] + a[1..] == a;
    }
  }

  /** The first part of a split is the text before the first separator. */
  function Before(s: string, c: char): string {
    Split(s, c)[0]
  }

  /** `s.split(c)[0]` stops at the first separator: it is a prefix of `s`, and
      the character after it, if any, is `c`. */
  lemma {:induction false} BeforeMaximal(s: string, c: char)
    ensures |Before(s, c)| <= |s| && Before(s, c) == s[..|Before(s, c)|]
    ensures |Before(s, c)| < |s| ==> s[|Before(s, c)|] == c
  {
    if s != [] && s[0] != c {
      BeforeMaximal(s[1..], c);
    }
  }

  /** The last part of a split, `s.split(c)[-1]`. */
  function AfterLast(s: string, c: char): string {
    var parts := Split(s, c);
    parts[|parts| - 1]
  }

  /** Leading whitespace removed, `s.lstrip()`. */
  function TrimLeft(s: string): (r: string)
    ensures |r| <= |s|
  {
    if s != [] && IsSpace(s[0]) then TrimLeft(s[1..]) else s
  }

  /** What `lstrip` leaves is a suffix of `s` that does not start with whitespace. */
  lemma {:induction false} TrimLeftShape(s: string)
    ensures TrimLeft(s) == s[|s| - |TrimLeft(s)|..]
    ensures TrimLeft(s) != [] ==> !IsSpace(TrimLeft(s)[0])
  {
    if s != [] && IsSpace(s[0]) {
      TrimLeftShape(s[1..]);
    }
  }

  /** Trailing whitespace removed, `s.rstrip()`. */
  function TrimRight(s: string): (r: string)
    ensures |r| <= |s|
  {
    if s != [] && IsSpace(s[|s| - 1]) then TrimRight(s[..|s| - 1]) else s
  }

  /** What `rstrip` leaves is a prefix of `s` that does not end with whitespace. */
  lemma {:induction false} TrimRightShape(s: string)
    ensures TrimRight(s) == s[..|TrimRight(s)|]
    ensures TrimRight(s) != [] ==> !IsSpace(TrimRight(s)[|TrimRight(s)| - 1])
  {
    if s != [] && IsSpace(s[|s| - 1]) {
      TrimRightShape(s[..|s| - 1]);
    }
  }

  /** `s.strip()`: surrounding whitespace removed on both ends. */
  function Strip(s: string): (r: string)
    ensures |r| <= |s|
  {
    TrimRight(TrimLeft(s))
  }

  /** What `strip` leaves neither starts nor ends with whitespace. */
  lemma StripShape(s: string)
    ensures Strip(s) != [] ==> !IsSpace(Strip(s)[0]) && !IsSpace(Strip(s)[|Strip(s)| - 1])
  {
    var t := TrimLeft(s);
    TrimLeftShape(s);
    TrimRightShape(t);
    if Strip(s) != [] {
      assert Strip(s)[0] == t[0];
    }
  }

  lemma StripOfClean(s: string)
    requires s == [] || (!IsSpace(s[0]) && !IsSpace(s[|s| - 1]))
    ensures Strip(s) == s
  {
  }

  /** Stripping twice strips no more than stripping once. */
  lemma StripIdempotent(s: string)
    ensures Strip(Strip(s)) == Strip(s)
  {
    StripShape(s);
    StripOfClean(Strip(s));
  }

  /** Nothing but whitespace. */
  predicate AllSpace(s: string) {
    forall i :: 0 <= i < |s| ==> IsSpace(s[i])
  }

  lemma {:induction false} TrimLeftEmpty(s: string)
    ensures TrimLeft(s) == "" <==> AllSpace(s)
  {
    if s != [] && IsSpace(s[0]) {
      TrimLeftEmpty(s[1..]);
      assert forall i :: 0 < i < |s| ==> s[i] == s[1..][i - 1];
    }
  }

  lemma {:induction false} TrimRightEmpty(s: string)
    ensures TrimRight(s) == "" <==> AllSpace(s)
  {
    if s != [] && IsSpace(s[|s| - 1]) {
      TrimRightEmpty(s[..|s| - 1]);
      assert forall i :: 0 <= i < |s| - 1 ==> s[i] == s[..|s| - 1][i];
    }
  }

  /** `s.strip()` is empty exactly when `s` is all whitespace. */
  lemma StripEmpty(s: string)
    ensures Strip(s) == "" <==> AllSpace(s)
  {
    TrimLeftEmpty(s);
    TrimRightEmpty(TrimLeft(s));
    TrimLeftShape(s);
  }

  /** A leading space makes no difference to `strip`. */
  lemma StripLeadingSpace(s: string)
    ensures Strip(" " + s) == Strip(s)
  {
    assert (" " + s)[1..] == s;
  }

  /** `strip` cuts a slice out of `s`, so it adds no character. */
  lemma StripKeepsCharFree(s: string, c: char)
    requires !HasChar(s, c)
    ensures !HasChar(Strip(s), c)
  {
    var t := TrimLeft(s);
    TrimLeftShape(s);
    TrimRightShape(t);
    var r := Strip(s);
    forall i | 0 <= i < |r| ensures r[i] != c {
      assert r[i] == t[i] == s[|s| - |t| + i];
    }
  }

  /** Every character of a contained string occurs in the container. */
  lemma {:induction false} ContainsHasChar(s: string, t: string, c: char)
    requires Contains(s, t) && HasChar(t, c)
    ensures HasChar(s, c)
    decreases |s|
  {
    var i :| 0 <= i < |t| && t[i] == c;
    if t <= s {
      assert s[i] == c;
    } else {
      ContainsHasChar(s[1..], t, c);
      var j :| 0 <= j < |s[1..]| && s[1..][j] == c;
      assert s[j + 1] == c;
    }
  }

  /** Every character is replaced by `b` where it equals `a`. */
  function ReplaceChar(s: string, a: char, b: char): (r: string)
    ensures |r| == |s|
    ensures forall i :: 0 <= i < |s| ==> r[i] == (if s[i] == a then b else s[i])
  {
    seq(|s|, i requires 0 <= i < |s| => if s[i] == a then b else s[i])
  }

  /** `s.replace(a, '')`. */
  function RemoveChar(s: string, a: char): (r: string)
    ensures !HasChar(r, a)
    ensures |r| <= |s|
  {
    if s == [] then ""
    else if s[0] == a then RemoveChar(s[1..], a)
    else [s[0]] + RemoveChar(s[1..], a)
  }

  /** `s.isdigit()` on ASCII: non-empty and all decimal digits. */
  predicate AllDigits(s: string) {
    |s| > 0 && forall i :: 0 <= i < |s| ==> IsDigit(s[i])
  }

  /** The longest prefix of `s` that holds no whitespace. */
  function Word(s: string): (r: string)
    ensures |r| <= |s|
    ensures s != [] && !IsSpace(s[0]) ==> |r| > 0
  {
    if s == [] || IsSpace(s[0]) then "" else [s[0]] + Word(s[1..])
  }

  /** The word is a whitespace-free prefix of `s` that ends at the end of
      `s` or at a whitespace character. */
  lemma {:induction false} WordShape(s: string)
    ensures Word(s) <= s
    ensures forall i :: 0 <= i < |Word(s)| ==> !IsSpace(Word(s)[i])
    ensures |Word(s)| < |s| ==> IsSpace(s[|Word(s)|])
  {
    if s != [] && !IsSpace(s[0]) {
      WordShape(s[1..]);
    }
  }

  /** `s.split()`: the maximal runs of non-whitespace characters, in order. */
  function SplitWs(s: string): (r: seq<string>)
    decreases |s|
  {
    if s == [] then []
    else if IsSpace(s[0]) then SplitWs(s[1..])
    else
      var w := Word(s);
      [w] + SplitWs(s[|w|..])
  }

  /** A token of `str.split()`: non-empty and free of whitespace. */
  predicate IsToken(w: string) {
    |w| > 0 && forall i :: 0 <= i < |w| ==> !IsSpace(w[i])
  }

  lemma {:induction false} SplitWsTokens(s: string)
    ensures forall k :: 0 <= k < |SplitWs(s)| ==> IsToken(SplitWs(s)[k])
    decreases |s|
  {
    if s != [] {
      if IsSpace(s[0]) {
        SplitWsTokens(s[1..]);
      } else {
        var w := Word(s);
        WordShape(s);
        SplitWsTokens(s[|w|..]);
        var r := SplitWs(s);
        forall k | 0 <= k < |r| ensures IsToken(r[k]) {
          if k > 0 { assert r[k] == SplitWs(s[|w|..])[k - 1]; }
        }
      }
    }
  }

  lemma {:induction false} SplitWsLeadingSpace(s: string)
    requires s != [] && IsSpace(s[0])
    ensures SplitWs(s) == SplitWs(s[1..])
  {
  }

  lemma {:induction false} WordOfToken(w: string, rest: string)
    requires IsToken(w)
    requires rest == [] || IsSpace(rest[0])
    ensures Word(w + rest) == w
    decreases |w|
  {
    if |w| > 1 {
      WordOfToken(w[1..], rest);
      assert (w + rest)[1..] == w[1..] + rest;
    } else {
      assert (w + rest)[1..] == rest;
    }
  }

  /** Splitting the single-space join of tokens gives the tokens back. */
  lemma {:induction false} SplitWsJoin(ws: seq<string>)
    requires forall k :: 0 <= k < |ws| ==> IsToken(ws[k])
    ensures SplitWs(Join(ws, " ")) == ws
  {
    if |ws| == 1 {
      WordOfToken(ws[0], "");
      assert ws[0] + "" == ws[0];
      assert Join(ws, " ")[|ws[0]|..] == [];
    } else if |ws| > 1 {
      var tail := Join(ws[1..], " ");
      SplitWsJoin(ws[1..]);
      var s := Join(ws, " ");
      assert s == ws[0] + (" " + tail);
      WordOfToken(ws[0], " " + tail);
      assert s[|ws[0]|..] == " " + tail;
      SplitWsLeadingSpace(" " + tail);
      assert (" " + tail)[1..] == tail;
    }
  }

  /** `s.title()` on ASCII: a letter is upper-cased when the character before
      it is not a letter and lower-cased otherwise. */
  function Title(s: string): (r: string)
    ensures |r| == |s|
  {
    TitleAfter(s, false)
  }

  function TitleAfter(s: string, previousCased: bool): (r: string)
    ensures |r| == |s|
  {
    if s == [] then ""
    else
      var c := if !IsLetter(s[0]) then s[0] else if previousCased then LowerChar(s[0]) else UpperChar(s[0]);
      [c] + TitleAfter(s[1..], IsLetter(s[0]))
  }
  /** Title-casing changes only the case of letters. */
  lemma {:induction false} TitleAfterLower(s: string, previousCased: bool)
    ensures Lower(TitleAfter(s, previousCased)) == Lower(s)
  {
    if s != [] {
      TitleAfterLower(s[1..], IsLetter(s[0]));
      var t := TitleAfter(s, previousCased);
      assert t[1..] == TitleAfter(s[1..], IsLetter(s[0]));
      assert LowerChar(t[0]) == LowerChar(s[0]);
    }
  }

}

/** Order-preserving filters over sequences, Python's `[x for x in s if p(x)]`. */
module Seqs {
  import opened Wrappers

  /** The index of the first element that satisfies `p`: a `for` loop that returns at its first hit. */
  function FirstWhere<T>(s: seq<T>, p: T -> bool): (r: Option<nat>)
    ensures r.Some? ==> r.value < |s|
  {
    if s == [] then None
    else if p(s[0]) then Some(0)
    else match FirstWhere(s[1..], p)
      case None => None
      case Some(k) => Some(k + 1)
  }

  /** The index found satisfies `p` and none before it does; None means no element does. */
  lemma {:induction false} FirstWhereSpec<T>(s: seq<T>, p: T -> bool)
    ensures FirstWhere(s, p).Some? ==> p(s[FirstWhere(s, p).value])
    ensures FirstWhere(s, p).Some? ==> forall k :: 0 <= k < FirstWhere(s, p).value ==> !p(s[k])
    ensures FirstWhere(s, p).None? ==> forall k :: 0 <= k < |s| ==> !p(s[k])
  {
    if s != [] && !p(s[0]) {
      FirstWhereSpec(s[1..], p);
      assert forall k :: 0 < k < |s| ==> s[k] == s[1..][k - 1];
    }
  }

  /** Looking at one more element: it is the first hit exactly when there was none before. */
  lemma {:induction false} FirstWhereSnoc<T>(s: seq<T>, x: T, p: T -> bool)
    ensures FirstWhere(s + [x], p) ==
      if FirstWhere(s, p).Some? then FirstWhere(s, p) else if p(x) then Some(|s|) else None
  {
    if s == [] {
      assert s + [x] == [x];
      assert [x][1..] == [];
    } else {
      assert (s + [x])[0] == s[0];
      assert (s + [x])[1..] == s[1..] + [x];
      FirstWhereSnoc(s[1..], x, p);
    }
  }

  /** Once found, the first hit stays the first whatever follows. */
  lemma {:induction false} FirstWhereKeeps<T>(a: seq<T>, b: seq<T>, p: T -> bool)
    requires FirstWhere(a, p).Some?
    ensures FirstWhere(a + b, p) == FirstWhere(a, p)
  {
    assert (a + b)[0] == a[0];
    if !p(a[0]) {
      assert (a + b)[1..] == a[1..] + b;
      FirstWhereKeeps(a[1..], b, p);
    }
  }

  function Filter<T>(s: seq<T>, p: T -> bool): (r: seq<T>)
    ensures |r| <= |s|
    ensures forall k :: 0 <= k < |r| ==> r[k] in s && p(r[k])
  {
    if s == [] then []
    else if p(s[0]) then [s[0]] + Filter(s[1..], p)
    else Filter(s[1..], p)
  }

  /** `a` is `b` with some elements left out, the rest in their order. */
  ghost predicate IsSubsequence<T>(a: seq<T>, b: seq<T>)
    decreases |b|
  {
    if a == [] then true
    else if b == [] then false
    else (a[0] == b[0] && IsSubsequence(a[1..], b[1..])) || IsSubsequence(a, b[1..])
  }

  lemma {:induction false} SubsequenceExtend<T>(a: seq<T>, b: seq<T>, x: T)
    requires IsSubsequence(a, b)
    ensures IsSubsequence(a, b + [x])
    decreases |b|
  {
    if a != [] {
      assert (b + [x])[1..] == b[1..] + [x];
      if a[0] == b[0] && IsSubsequence(a[1..], b[1..]) {
        SubsequenceExtend(a[1..], b[1..], x);
      } else {
        SubsequenceExtend(a, b[1..], x);
      }
    }
  }

  lemma {:induction false} SubsequenceLast<T>(b: seq<T>, x: T)
    ensures IsSubsequence([x], b + [x])
    decreases |b|
  {
    if b != [] {
      assert (b + [x])[1..] == b[1..] + [x];
      SubsequenceLast(b[1..], x);
    } else {
      assert [x][1..] == [];
    }
  }

  lemma {:induction false} SubsequenceAppendBoth<T>(a: seq<T>, b: seq<T>, x: T)
    requires IsSubsequence(a, b)
    ensures IsSubsequence(a + [x], b + [x])
    decreases |b|
  {
    if a == [] {
      assert a + [x] == [x];
      SubsequenceLast(b, x);
    } else {
      assert (b + [x])[1..] == b[1..] + [x];
      assert (a + [x])[1..] == a[1..] + [x];
      if a[0] == b[0] && IsSubsequence(a[1..], b[1..]) {
        SubsequenceAppendBoth(a[1..], b[1..], x);
      } else {
        SubsequenceAppendBoth(a, b[1..], x);
      }
    }
  }

  /** Extending a sequence at the end keeps a subsequence of it one, with or
      without the new element. */
  lemma SubsequenceSnoc<T>(a: seq<T>, b: seq<T>, x: T, keep: bool)
    requires IsSubsequence(a, b)
    ensures IsSubsequence(if keep then a + [x] else a, b + [x])
  {
    if keep {
      SubsequenceAppendBoth(a, b, x);
    } else {
      SubsequenceExtend(a, b, x);
    }
  }

  /** Number of elements satisfying `p`. */
  function CountWhere<T>(s: seq<T>, p: T -> bool): nat {
    if s == [] then 0 else (if p(s[0]) then 1 else 0) + CountWhere(s[1..], p)
  }

  lemma {:induction false} FilterIsSubsequence<T>(s: seq<T>, p: T -> bool)
    ensures IsSubsequence(Filter(s, p), s)
    ensures |Filter(s, p)| == CountWhere(s, p)
    ensures forall x :: x in s && p(x) ==> x in Filter(s, p)
  {
    if s != [] {
      FilterIsSubsequence(s[1..], p);
      if p(s[0]) {
        assert Filter(s, p)[1..] == Filter(s[1..], p);
      } else if Filter(s, p) != [] {
        assert IsSubsequence(Filter(s[1..], p), s[1..]);
      }
      forall x | x in s && p(x) ensures x in Filter(s, p) {
        if x != s[0] { assert x in s[1..]; }
      }
    }
  }

  lemma {:induction false} CountWhereAppend<T>(a: seq<T>, b: seq<T>, p: T -> bool)
    ensures CountWhere(a + b, p) == CountWhere(a, p) + CountWhere(b, p)
  {
    if a == [] {
      assert a + b == b;
    } else {
      assert (a + b)[1..] == a[1..] + b;
      CountWhereAppend(a[1..], b, p);
    }
  }

  lemma {:induction false} FilterAppend<T>(a: seq<T>, b: seq<T>, p: T -> bool)
    ensures Filter(a + b, p) == Filter(a, p) + Filter(b, p)
  {
    if a == [] {
      assert a + b == b;
    } else {
      assert (a + b)[1..] == a[1..] + b;
      FilterAppend(a[1..], b, p);
    }
  }

  /** `f` applied to every element, the results laid end to end in order. */
  function FlatMap<T, U>(f: T -> seq<U>, s: seq<T>): seq<U> {
    if s == [] then [] else FlatMap(f, s[..|s| - 1]) + f(s[|s| - 1])
  }

  lemma {:induction false} FlatMapAppend<T, U>(f: T -> seq<U>, a: seq<T>, b: seq<T>)
    ensures FlatMap(f, a + b) == FlatMap(f, a) + FlatMap(f, b)
  {
    if b == [] {
      assert a + b == a;
    } else {
      var n := |b| - 1;
      assert (a + b)[..|a + b| - 1] == a + b[..n];
      FlatMapAppend(f, a, b[..n]);
    }
  }

  /** Every produced element comes from some element of `s`. */
  lemma {:induction false} FlatMapFrom<T, U>(f: T -> seq<U>, s: seq<T>)
    ensures forall y :: y in FlatMap(f, s) ==> exists x :: x in s && y in f(x)
  {
    if s != [] {
      var n := |s| - 1;
      FlatMapFrom(f, s[..n]);
      forall y | y in FlatMap(f, s) ensures exists x :: x in s && y in f(x) {
        if y in FlatMap(f, s[..n]) {
          var x :| x in s[..n] && y in f(x);
          assert x in s;
        } else {
          assert s[n] in s;
        }
      }
    }
  }

  /** What an element of `s` produces is produced. */
  lemma {:induction false} FlatMapHas<T, U>(f: T -> seq<U>, s: seq<T>, x: T, y: U)
    requires x in s && y in f(x)
    ensures y in FlatMap(f, s)
  {
    var n := |s| - 1;
    if s[n] != x {
      assert x in s[..n];
      FlatMapHas(f, s[..n], x, y);
    }
  }

  /** Taking the last element off `s` and an equal one off `t` keeps the multisets equal. */
  lemma MultisetRemove<T>(s: seq<T>, t: seq<T>, k: nat)
    requires s != [] && multiset(s) == multiset(t)
    requires k < |t| && t[k] == s[|s| - 1]
    ensures multiset(s[..|s| - 1]) == multiset(t[..k] + t[k + 1..])
  {
    var n := |s| - 1;
    var x := s[n];
    var rest := t[..k] + t[k + 1..];
    assert s == s[..n] + [x];
    assert t == t[..k] + [x] + t[k + 1..];
    assert multiset(s[..n]) + multiset{x} == multiset(rest) + multiset{x};
    forall y ensures multiset(s[..n])[y] == multiset(rest)[y] {
      assert (multiset(s[..n]) + multiset{x})[y] == (multiset(rest) + multiset{x})[y];
    }
  }

  /** Reordering the input reorders the output: equal multisets in, equal multisets out. */
  lemma {:induction false} FlatMapPerm<T, U>(f: T -> seq<U>, s: seq<T>, t: seq<T>)
    requires multiset(s) == multiset(t)
    ensures multiset(FlatMap(f, s)) == multiset(FlatMap(f, t))
    decreases |s|
  {
    if s == [] {
      assert |t| == |multiset(t)| == 0;
    } else {
      var n := |s| - 1;
      var x := s[n];
      assert x in multiset(s);
      var k :| 0 <= k < |t| && t[k] == x;
      var rest := t[..k] + t[k + 1..];
      MultisetRemove(s, t, k);
      FlatMapPerm(f, s[..n], rest);
      assert t == (t[..k] + [x]) + t[k + 1..];
      FlatMapAppend(f, t[..k] + [x], t[k + 1..]);
      FlatMapAppend(f, t[..k], [x]);
      FlatMapAppend(f, t[..k], t[k + 1..]);
      assert [x][..0] == [];
      assert FlatMap(f, [x]) == f(x);
      var before, after := FlatMap(f, t[..k]), FlatMap(f, t[k + 1..]);
      assert FlatMap(f, t) == before + f(x) + after;
      assert FlatMap(f, rest) == before + after;
      assert FlatMap(f, s) == FlatMap(f, s[..n]) + f(x);
    }
  }

  /** The positions `0, 1, ..., n - 1`. */
  function Positions(n: nat): (r: seq<nat>)
    ensures |r| == n && forall k :: 0 <= k < n ==> r[k] == k
  {
    seq(n, k requires 0 <= k < n => k as nat)
  }

  /** The pieces laid end to end. */
  function Concat<T>(ss: seq<seq<T>>): seq<T> {
    if ss == [] then [] else Concat(ss[..|ss| - 1]) + ss[|ss| - 1]
  }

  /** Where the chunk starting at `i` ends: `i + size`, cut at the end. */
  function ChunkEnd(total: nat, size: nat, i: nat): nat {
    if i + size <= total then i + size else total
  }

  /** `s[i:i + size]` for each `i` in `range(start, len(s), size)`. */
  function ChunksFrom<T>(s: seq<T>, size: nat, i: nat): seq<seq<T>>
    requires size > 0 && i <= |s|
    decreases |s| - i
  {
    if i == |s| then []
    else [s[i..ChunkEnd(|s|, size, i)]] + ChunksFrom(s, size, ChunkEnd(|s|, size, i))
  }

  /** The chunks of the whole sequence. */
  function Chunks<T>(s: seq<T>, size: nat): seq<seq<T>>
    requires size > 0
  {
    ChunksFrom(s, size, 0)
  }

  lemma ConcatCons<T>(x: seq<T>, ss: seq<seq<T>>)
    ensures Concat([x] + ss) == x + Concat(ss)
    decreases |ss|
  {
    if ss != [] {
      var init := ss[..|ss| - 1];
      assert ([x] + ss)[..|ss|] == [x] + init;
      ConcatCons(x, init);
    }
  }

  /** Taking the chunk at `i` moves it from the chunks to come to those done. */
  lemma ChunksFromStep<T>(s: seq<T>, size: nat, done: seq<seq<T>>, i: nat)
    requires size > 0 && i < |s|
    requires Chunks(s, size) == done + ChunksFrom(s, size, i)
    ensures Chunks(s, size) == (done + [s[i..ChunkEnd(|s|, size, i)]]) + ChunksFrom(s, size, ChunkEnd(|s|, size, i))
    ensures |done| < |Chunks(s, size)| && Chunks(s, size)[|done|] == s[i..ChunkEnd(|s|, size, i)]
  {
  }

  /** The chunks partition the sequence: laid end to end they are the
      sequence, and each holds 1 to `size` entries. */
  lemma {:induction false} ChunksPartition<T>(s: seq<T>, size: nat, i: nat)
    requires size > 0 && i <= |s|
    ensures Concat(ChunksFrom(s, size, i)) == s[i..]
    ensures forall k :: 0 <= k < |ChunksFrom(s, size, i)| ==> 0 < |ChunksFrom(s, size, i)[k]| <= size
    decreases |s| - i
  {
    if i < |s| {
      var end := ChunkEnd(|s|, size, i);
      ChunksPartition(s, size, end);
      ConcatCons(s[i..end], ChunksFrom(s, size, end));
      assert s[i..end] + s[end..] == s[i..];
    }
  }

  /** There are ⌈(|s| - i) / size⌉ chunks: the fewest pieces of at most
      `size` entries that hold the rest of the sequence. */
  lemma {:induction false} ChunksCount<T>(s: seq<T>, size: nat, i: nat)
    requires size > 0 && i <= |s|
    ensures |s| - i <= |ChunksFrom(s, size, i)| * size
    ensures |ChunksFrom(s, size, i)| > 0 ==> (|ChunksFrom(s, size, i)| - 1) * size < |s| - i
    decreases |s| - i
  {
    if i < |s| {
      var end := ChunkEnd(|s|, size, i);
      ChunksCount(s, size, end);
      var c := |ChunksFrom(s, size, end)|;
      assert |ChunksFrom(s, size, i)| == c + 1;
      MulSucc(c, size);
      if end == |s| {
        assert c == 0;
      } else if c > 0 {
        MulSucc(c - 1, size);
      }
    }
  }

  lemma MulSucc(c: nat, size: nat)
    ensures (c + 1) * size == c * size + size
  {
  }
}
