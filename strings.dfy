/** String and sequence helpers whose behaviour follows the JavaScript and
    Python library operations the chat client and the research agent call:
    `Array.prototype.join` / `str.join`, insertion-ordered `Set`, `String.prototype.trim`,
    UTF-16 `length`, Python's `in`, `str.replace` and `str.split(...)[0]`, and the
    decimal rendering of integers in template literals and f-strings. */
module Strings {

  // ---------------------------------------------------------------------------
  // Joining

  /** `parts.join(sep)`: the parts with `sep` between consecutive parts. */
  function Join(parts: seq<string>, sep: string): (r: string)
    ensures |parts| == 0 ==> r == ""
    ensures |parts| == 1 ==> r == parts[0]
    ensures |parts| > 0 ==> |r| >= |parts[0]| && r[..|parts[0]|] == parts[0]
  {
    if |parts| == 0 then ""
    else if |parts| == 1 then parts[0]
    else parts[0] + sep + Join(parts[1..], sep)
  }

  /** One more part is joined on after one more separator. */
  lemma {:induction false} JoinSnoc(parts: seq<string>, p: string, sep: string)
    requires |parts| > 0
    ensures Join(parts + [p], sep) == Join(parts, sep) + sep + p
  {
    var extended := parts + [p];
    assert extended[0] == parts[0] && extended[1..] == parts[1..] + [p];
    if |parts| > 1 {
      JoinSnoc(parts[1..], p, sep);
    } else {
      assert extended[1..] == [p];
    }
  }

  /** A join of at least one part is empty only if its first part is. */
  lemma JoinEmptyOnlyIfFirstEmpty(parts: seq<string>, sep: string)
    requires |parts| > 0 && parts[0] != ""
    ensures Join(parts, sep) != ""
  {
    assert Join(parts, sep)[..|parts[0]|] == parts[0];
  }

  /** The first `n` elements, or all of them when there are fewer (`slice(0, n)`). */
  function Take<T>(s: seq<T>, n: nat): (r: seq<T>)
    ensures |r| == if |s| < n then |s| else n
    ensures r == s[..|r|]
  {
    if |s| < n then s else s[..n]
  }

  /** A prefix grows by the next element. */
  lemma PrefixSnoc<T>(s: seq<T>, i: nat)
    requires i < |s|
    ensures s[..i + 1] == s[..i] + [s[i]]
  {
  }

  lemma PrefixAll<T>(s: seq<T>)
    ensures s[..|s|] == s
  {
  }

  // ---------------------------------------------------------------------------
  // Insertion-ordered de-duplication (`[...new Set(xs)]`)

  predicate NoDuplicates<T(==)>(s: seq<T>)
  {
    forall i, j :: 0 <= i < j < |s| ==> s[i] != s[j]
  }

  /** Index of the first occurrence of `x` in `s`. */
  function FirstIndex<T(==)>(s: seq<T>, x: T): (k: nat)
    requires x in s
    ensures k < |s| && s[k] == x
    ensures forall j :: 0 <= j < k ==> s[j] != x
  {
    if s[0] == x then 0 else 1 + FirstIndex(s[1..], x)
  }

  /** The first index of an element of a prefix is the same in the prefix as in the whole. */
  lemma {:induction false} FirstIndexPrefix<T>(s: seq<T>, n: nat, x: T)
    requires n <= |s| && x in s[..n]
    ensures x in s && FirstIndex(s[..n], x) == FirstIndex(s, x)
  {
    var k := FirstIndex(s[..n], x);
    assert s[k] == x;
  }

  /** An element not seen before position `i` has its first occurrence at `i`. */
  lemma FirstIndexOfNew<T>(s: seq<T>, i: nat)
    requires i < |s| && s[i] !in s[..i]
    ensures FirstIndex(s, s[i]) == i
  {
    assert forall k :: 0 <= k < i ==> s[..i][k] == s[k];
  }

  /** The elements of `s`, each kept at its first occurrence, in the order first seen. */
  function Dedup<T(==,!new)>(s: seq<T>): (r: seq<T>)
    ensures forall x :: x in r <==> x in s
    ensures NoDuplicates(r)
  {
    if |s| == 0 then []
    else
      var init := s[..|s| - 1];
      var d := Dedup(init);
      var last := s[|s| - 1];
      assert forall x :: x in s <==> x in init || x == last by {
        assert s == init + [last];
      }
      if last in d then d else d + [last]
  }

  /** The de-duplicated elements appear in the order of their first occurrences. */
  lemma {:induction false} DedupFirstSeenOrder<T(!new)>(s: seq<T>, i: nat, j: nat)
    requires i < j < |Dedup(s)|
    ensures Dedup(s)[i] in s && Dedup(s)[j] in s
    ensures FirstIndex(s, Dedup(s)[i]) < FirstIndex(s, Dedup(s)[j])
  {
    var init := s[..|s| - 1];
    var last := s[|s| - 1];
    assert s == init + [last];
    var d := Dedup(init);
    var x, y := Dedup(s)[i], Dedup(s)[j];
    assert x in d by {
      assert i < |d|;
    }
    FirstIndexPrefix(s, |s| - 1, x);
    if j < |d| {
      DedupFirstSeenOrder(init, i, j);
      FirstIndexPrefix(s, |s| - 1, y);
    } else {
      assert y == last && last !in d;
      assert last !in init;
      assert FirstIndex(s, y) == |s| - 1;
    }
  }

  /** Extending the input by one element extends the result only if that element is new. */
  lemma DedupSnoc<T(!new)>(s: seq<T>, x: T)
    ensures Dedup(s + [x]) == if x in Dedup(s) then Dedup(s) else Dedup(s) + [x]
  {
    assert (s + [x])[..|s|] == s;
  }

  // ---------------------------------------------------------------------------
  // JavaScript `trim` and `length`

  /** ECMAScript WhiteSpace and LineTerminator code points: what `trim` removes. */
  predicate IsJsWhitespace(c: char)
  {
    c == '\U{0009}' || c == '\U{000A}' || c == '\U{000B}' || c == '\U{000C}' || c == '\U{000D}'
    || c == '\U{0020}' || c == '\U{00A0}' || c == '\U{1680}'
    || ('\U{2000}' <= c <= '\U{200A}')
    || c == '\U{2028}' || c == '\U{2029}' || c == '\U{202F}' || c == '\U{205F}'
    || c == '\U{3000}' || c == '\U{FEFF}'
  }

  predicate IsBlank(s: string)
  {
    forall i :: 0 <= i < |s| ==> IsJsWhitespace(s[i])
  }

  /** Leading whitespace removed. */
  function TrimStart(s: string): (r: string)
    ensures |r| <= |s| && r == s[|s| - |r|..]
    ensures IsBlank(s[..|s| - |r|])
    ensures r == [] || !IsJsWhitespace(r[0])
  {
    if |s| > 0 && IsJsWhitespace(s[0]) then
      var r := TrimStart(s[1..]);
      assert s[..|s| - |r|] == [s[0]] + s[1..][..|s| - 1 - |r|];
      r
    else s
  }

  /** Trailing whitespace removed. */
  function TrimEnd(s: string): (r: string)
    ensures |r| <= |s| && r == s[..|r|]
    ensures IsBlank(s[|r|..])
    ensures r == [] || !IsJsWhitespace(r[|r| - 1])
  {
    if |s| > 0 && IsJsWhitespace(s[|s| - 1]) then
      var r := TrimEnd(s[..|s| - 1]);
      assert s[|r|..] == s[..|s| - 1][|r|..] + [s[|s| - 1]];
      r
    else s
  }

  /** `s.trim()`: the middle piece of `s` left once the whitespace on both
      sides is dropped; it neither starts nor ends with whitespace. */
  function Trim(s: string): (r: string)
    ensures |r| <= |s|
    ensures r == [] || (!IsJsWhitespace(r[0]) && !IsJsWhitespace(r[|r| - 1]))
  {
    var t := TrimStart(s);
    var r := TrimEnd(t);
    assert r != [] ==> r[0] == t[0];
    r
  }

  /** `m` sits in `s` at index `k` with only whitespace before and after it. */
  predicate IsMiddle(s: string, m: string, k: nat)
  {
    k + |m| <= |s| && m == s[k..k + |m|] && IsBlank(s[..k]) && IsBlank(s[k + |m|..])
  }

  /** `s.trim()` removes whitespace on the outside and nothing else: the text
      before and after it in `s` is all whitespace. */
  lemma TrimIsMiddle(s: string)
    ensures exists k: nat :: IsMiddle(s, Trim(s), k)
  {
    var t := TrimStart(s);
    var r := TrimEnd(t);
    var k := |s| - |t|;
    SlicesOfSuffix(s, k, |r|);
    assert IsMiddle(s, r, k);
    assert Trim(s) == r;
  }

  /** The front and the rest of a suffix, as slices of the whole. */
  lemma SlicesOfSuffix<T>(s: seq<T>, k: nat, n: nat)
    requires k + n <= |s|
    ensures s[k..][..n] == s[k..k + n]
    ensures s[k..][n..] == s[k + n..]
  {
  }

  /** `s.trim()` is empty exactly when every character of `s` is whitespace. */
  lemma TrimEmptyIffBlank(s: string)
    ensures Trim(s) == "" <==> IsBlank(s)
  {
    var t := TrimStart(s);
    if t == [] {
      assert s[..|s| - |t|] == s;
    } else {
      assert !IsJsWhitespace(t[0]);
      assert s[|s| - |t|] == t[0];
      assert IsBlank(t[|TrimEnd(t)|..]);
    }
  }

  /** JavaScript's `length`: the number of UTF-16 code units; a code point
      above U+FFFF takes a surrogate pair. */
  function Utf16Length(s: string): (n: nat)
    ensures |s| <= n <= 2 * |s|
  {
    if |s| == 0 then 0
    else (if s[0] as int > 0xFFFF then 2 else 1) + Utf16Length(s[1..])
  }

  /** Each further character adds two code units above U+FFFF and one otherwise. */
  lemma {:induction false} Utf16LengthSnoc(s: string, c: char)
    ensures Utf16Length(s + [c]) == Utf16Length(s) + (if c as int > 0xFFFF then 2 else 1)
  {
    var extended := s + [c];
    if |s| == 0 {
      assert extended[1..] == [];
    } else {
      Utf16LengthSnoc(s[1..], c);
      assert extended[0] == s[0] && extended[1..] == s[1..] + [c];
    }
  }

  /** On text of the Basic Multilingual Plane, `length` counts characters. */
  lemma {:induction false} Utf16LengthBmp(s: string)
    requires forall i :: 0 <= i < |s| ==> s[i] as int <= 0xFFFF
    ensures Utf16Length(s) == |s|
  {
    if |s| > 0 {
      Utf16LengthBmp(s[1..]);
    }
  }

  // ---------------------------------------------------------------------------
  // Python substring test, `str.replace` and `str.split(sep)[0]`

  predicate IsPrefix(p: string, s: string)
  {
    |p| <= |s| && s[..|p|] == p
  }

  /** `p` occurs in `s` starting at index `i`. */
  predicate OccursAt(s: string, p: string, i: nat)
  {
    i + |p| <= |s| && s[i..i + |p|] == p
  }

  /** Occurrences in `s` past its first character are the occurrences in `s[1..]`, shifted by one. */
  lemma OccursShift(s: string, p: string)
    requires |s| > 0
    ensures forall i: nat :: 1 <= i ==> (OccursAt(s, p, i) <==> OccursAt(s[1..], p, i - 1))
  {
    forall i: nat | 1 <= i
      ensures OccursAt(s, p, i) <==> OccursAt(s[1..], p, i - 1)
    {
      if i + |p| <= |s| {
        var here, there := s[i..i + |p|], s[1..][i - 1..i - 1 + |p|];
        assert |here| == |there|;
        assert forall k :: 0 <= k < |p| ==> here[k] == s[i + k] == there[k];
      }
    }
  }

  /** Python's `p in s`: some index starts an occurrence of `p`. The empty
      string occurs in every string. */
  predicate Contains(s: string, p: string)
    ensures Contains(s, p) <==> exists i: nat :: i <= |s| && OccursAt(s, p, i)
    decreases |s|
  {
    assert OccursAt(s, p, 0) <==> IsPrefix(p, s);
    if |s| == 0 then IsPrefix(p, s)
    else
      OccursShift(s, p);
      assert Contains(s[1..], p) ==> exists i: nat :: i <= |s| && OccursAt(s, p, i) by {
        if Contains(s[1..], p) {
          var j: nat :| j <= |s[1..]| && OccursAt(s[1..], p, j);
          assert OccursAt(s, p, j + 1);
        }
      }
      IsPrefix(p, s) || Contains(s[1..], p)
  }

  /** `s.replace("", r)`: `r` inserted before every character and at the end. */
  function InsertEverywhere(s: string, r: string): (t: string)
    ensures |s| == 0 ==> t == r
    ensures |t| == |s| + (|s| + 1) * |r|
  {
    if |s| == 0 then r else r + [s[0]] + InsertEverywhere(s[1..], r)
  }

  /** One more character puts it, and one more copy of `r`, at the end. */
  lemma {:induction false} InsertEverywhereSnoc(s: string, c: char, r: string)
    ensures InsertEverywhere(s + [c], r) == InsertEverywhere(s, r) + [c] + r
  {
    if |s| == 0 {
      assert [c][1..] == [];
    } else {
      InsertEverywhereSnoc(s[1..], c, r);
      assert (s + [c])[0] == s[0] && (s + [c])[1..] == s[1..] + [c];
    }
  }

  /** Python's `s.replace(p, r)`: every non-overlapping occurrence of `p`,
      scanning left to right, replaced by `r`. */
  function ReplaceAll(s: string, p: string, r: string): (t: string)
    ensures |p| == 0 ==> t == InsertEverywhere(s, r)
    ensures |p| > 0 && IsPrefix(p, s) ==> IsPrefix(r, t)
    ensures |p| > 0 && |r| == |p| ==> |t| == |s|
    decreases |s|
  {
    if |p| == 0 then InsertEverywhere(s, r)
    else if IsPrefix(p, s) then r + ReplaceAll(s[|p|..], p, r)
    else if |s| == 0 then s
    else [s[0]] + ReplaceAll(s[1..], p, r)
  }

  /** Replacing a pattern that does not occur leaves the text as it is. */
  lemma {:induction false} ReplaceAbsent(s: string, p: string, r: string)
    requires !Contains(s, p)
    ensures ReplaceAll(s, p, r) == s
    decreases |s|
  {
    assert |p| > 0;
    if |s| > 0 {
      ReplaceAbsent(s[1..], p, r);
    }
  }

  /** With a non-empty pattern, the text before the first occurrence is kept,
      that occurrence becomes `r`, and the scan resumes right after it. */
  lemma ReplaceAtFirst(s: string, p: string, r: string, i: nat)
    requires |p| > 0 && OccursAt(s, p, i)
    requires forall j: nat :: j < i ==> !OccursAt(s, p, j)
    ensures ReplaceAll(s, p, r) == s[..i] + r + ReplaceAll(s[i + |p|..], p, r)
  {
    ReplaceClearPrefix(s, p, r, i);
    ReplaceOccurrenceAt(s, p, r, i);
    ConcatAssoc(s[..i], r, ReplaceAll(s[i + |p|..], p, r));
  }

  /** An occurrence at `i` becomes `r` when the scan reaches it. */
  lemma ReplaceOccurrenceAt(s: string, p: string, r: string, i: nat)
    requires |p| > 0 && OccursAt(s, p, i)
    ensures ReplaceAll(s[i..], p, r) == r + ReplaceAll(s[i + |p|..], p, r)
  {
    var here := s[i..];
    assert IsPrefix(p, here);
    assert here[|p|..] == s[i + |p|..];
  }

  /** A prefix in which no occurrence starts is copied as it is. */
  lemma {:induction false} ReplaceClearPrefix(s: string, p: string, r: string, i: nat)
    requires |p| > 0 && i <= |s|
    requires forall j: nat :: j < i ==> !OccursAt(s, p, j)
    ensures ReplaceAll(s, p, r) == s[..i] + ReplaceAll(s[i..], p, r)
    decreases i
  {
    if i > 0 {
      var tail := s[1..];
      assert !OccursAt(s, p, 0);
      ReplaceSkip(s, p, r);
      ClearPrefixShift(s, p, i);
      ReplaceClearPrefix(tail, p, r, i - 1);
      HeadAndTailSlices(s, i);
      ConcatAssoc([s[0]], tail[..i - 1], ReplaceAll(s[i..], p, r));
    }
  }

  lemma ConcatAssoc<T>(a: seq<T>, b: seq<T>, c: seq<T>)
    ensures a + (b + c) == a + b + c
  {
  }

  /** Slices of `s` around index `i`, read off its tail `s[1..]`. */
  lemma HeadAndTailSlices<T>(s: seq<T>, i: nat)
    requires 1 <= i <= |s|
    ensures s[1..][i - 1..] == s[i..]
    ensures s[..i] == [s[0]] + s[1..][..i - 1]
  {
  }

  /** No occurrence starting before `i` in `s` means none before `i - 1` in its tail. */
  lemma ClearPrefixShift(s: string, p: string, i: nat)
    requires 1 <= i <= |s|
    requires forall j: nat :: j < i ==> !OccursAt(s, p, j)
    ensures forall j: nat :: j < i - 1 ==> !OccursAt(s[1..], p, j)
  {
    OccursShift(s, p);
    forall j: nat | j < i - 1
      ensures !OccursAt(s[1..], p, j)
    {
      assert !OccursAt(s, p, j + 1);
    }
  }

  /** Where the pattern does not start the text, the first character is kept. */
  lemma ReplaceSkip(s: string, p: string, r: string)
    requires |p| > 0 && |s| > 0 && !OccursAt(s, p, 0)
    ensures ReplaceAll(s, p, r) == [s[0]] + ReplaceAll(s[1..], p, r)
  {
    assert !IsPrefix(p, s);
  }

  /** Python's `s.split(c)[0]`: the text before the first `c`, or all of it. */
  function BeforeFirst(s: string, c: char): (r: string)
    ensures c !in r
    ensures IsPrefix(r, s)
    ensures r == s || s[|r|] == c
  {
    if |s| == 0 || s[0] == c then "" else [s[0]] + BeforeFirst(s[1..], c)
  }

  // ---------------------------------------------------------------------------
  // Decimal rendering of integers (`${n}`, f"{n}") and its inverse

  predicate IsDigit(c: char)
  {
    '0' <= c <= '9'
  }

  function DigitChar(d: nat): (c: char)
    requires d < 10
    ensures IsDigit(c) && (c as int) - ('0' as int) == d
  {
    ('0' as int + d) as char
  }

  /** The decimal digits of `n`, without leading zeros. */
  function NatToString(n: nat): (r: string)
    ensures |r| > 0
    ensures forall i :: 0 <= i < |r| ==> IsDigit(r[i])
    ensures |r| > 1 ==> r[0] != '0'
  {
    if n < 10 then [DigitChar(n)] else NatToString(n / 10) + [DigitChar(n % 10)]
  }

  /** The number a string of decimal digits denotes. */
  function DigitsValue(s: string): nat
    requires forall i :: 0 <= i < |s| ==> IsDigit(s[i])
  {
    if |s| == 0 then 0
    else
      assert IsDigit(s[|s| - 1]);
      10 * DigitsValue(s[..|s| - 1]) + ((s[|s| - 1] as int) - ('0' as int))
  }

  /** Reading the rendered digits back gives the number. */
  lemma {:induction false} NatToStringRoundTrip(n: nat)
    ensures DigitsValue(NatToString(n)) == n
  {
    if n >= 10 {
      NatToStringRoundTrip(n / 10);
      var s := NatToString(n);
      assert s[..|s| - 1] == NatToString(n / 10);
    }
  }

  /** Distinct numbers render as distinct strings. */
  lemma NatToStringInjective(m: nat, n: nat)
    requires NatToString(m) == NatToString(n)
    ensures m == n
  {
    NatToStringRoundTrip(m);
    NatToStringRoundTrip(n);
  }

  /** A Python int in an f-string: a minus sign for negative values. */
  function IntToString(i: int): (r: string)
    ensures |r| > 0
    ensures i >= 0 ==> r == NatToString(i)
    ensures i < 0 ==> r == "-" + NatToString(-i)
  {
    if i < 0 then "-" + NatToString(-i) else NatToString(i)
  }
}
