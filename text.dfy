/**
 * Python `str` operations used by the ingestion code, over Dafny strings
 * (sequences of Unicode code points): `str.isspace`, `str.strip()`,
 * `len(str.split())`, `str.split("\n")`, `sep.join(...)`, `in` on strings,
 * and `str(int)`.
 */
module Text {

  /**
   * The code points Python treats as whitespace in `str.split()` and
   * `str.strip()` without arguments: U+0009..U+000D, U+001C..U+0020, U+0085,
   * U+00A0, U+1680, U+2000..U+200A, U+2028, U+2029, U+202F, U+205F, U+3000.
   */
  predicate IsSpace(c: char) {
    || ('\t' <= c <= '\r')
    || ('\U{1C}' <= c <= ' ')
    || c == '\U{85}' || c == '\U{A0}' || c == '\U{1680}'
    || ('\U{2000}' <= c <= '\U{200A}')
    || c == '\U{2028}' || c == '\U{2029}' || c == '\U{202F}' || c == '\U{205F}' || c == '\U{3000}'
  }

  /** `s.lstrip()`: drops exactly the leading whitespace. */
  function TrimStart(s: string): (r: string)
    ensures |r| <= |s|
    ensures r == [] || !IsSpace(r[0])
    ensures forall i | 0 <= i < |s| - |r| :: IsSpace(s[i])
  {
    if |s| > 0 && IsSpace(s[0]) then TrimStart(s[1..]) else s
  }

  /** What `s.lstrip()` keeps is the tail of `s`. */
  lemma {:induction false} TrimStartSuffix(s: string)
    ensures TrimStart(s) == s[|s| - |TrimStart(s)|..]
  {
    if |s| > 0 && IsSpace(s[0]) {
      TrimStartSuffix(s[1..]);
      assert s[1..][|s| - 1 - |TrimStart(s)|..] == s[|s| - |TrimStart(s)|..];
    }
  }

  /** `s.rstrip()`: drops exactly the trailing whitespace. */
  function TrimEnd(s: string): (r: string)
    ensures |r| <= |s| && r == s[..|r|]
    ensures r == [] || !IsSpace(r[|r| - 1])
    ensures forall i | |r| <= i < |s| :: IsSpace(s[i])
  {
    if |s| > 0 && IsSpace(s[|s| - 1]) then TrimEnd(s[..|s| - 1]) else s
  }

  /** `s.strip()` */
  function Strip(s: string): string {
    TrimEnd(TrimStart(s))
  }

  /** Every character of `Strip(s)` is a character of `s`. */
  lemma StripChars(s: string)
    ensures forall c | c in Strip(s) :: c in s
  {
    var t := TrimStart(s);
    TrimStartSuffix(s);
    assert forall c | c in Strip(s) :: c in t;
    assert forall c | c in t :: c in s;
  }

  /** Stripping twice is stripping once. */
  lemma StripIdempotent(s: string)
    ensures Strip(Strip(s)) == Strip(s)
  {
    var r := Strip(s);
    assert TrimStart(r) == r by {
      if r != [] {
        assert r[0] == TrimStart(s)[0];
      }
    }
  }

  /**
   * Number of words counted from `s` on, where `afterSpace` tells whether the
   * character before `s` was whitespace (or `s` starts the string).
   */
  function CountWords(s: string, afterSpace: bool): nat {
    if |s| == 0 then 0
    else (if afterSpace && !IsSpace(s[0]) then 1 else 0) + CountWords(s[1..], IsSpace(s[0]))
  }

  /** `len(s.split())`: the number of maximal runs of non-whitespace characters. */
  function WordCount(s: string): nat {
    CountWords(s, true)
  }

  lemma {:induction false} CountWordsDropTrailingSpace(s: string, afterSpace: bool)
    requires |s| > 0 && IsSpace(s[|s| - 1])
    ensures CountWords(s, afterSpace) == CountWords(s[..|s| - 1], afterSpace)
  {
    if |s| > 1 {
      CountWordsDropTrailingSpace(s[1..], IsSpace(s[0]));
      assert s[1..][..|s[1..]| - 1] == s[..|s| - 1][1..];
    }
  }

  lemma {:induction false} WordCountTrimStart(s: string)
    ensures WordCount(TrimStart(s)) == WordCount(s)
  {
    if |s| > 0 && IsSpace(s[0]) {
      WordCountTrimStart(s[1..]);
    }
  }

  lemma {:induction false} WordCountTrimEnd(s: string)
    ensures WordCount(TrimEnd(s)) == WordCount(s)
  {
    if |s| > 0 && IsSpace(s[|s| - 1]) {
      CountWordsDropTrailingSpace(s, true);
      WordCountTrimEnd(s[..|s| - 1]);
    }
  }

  /** Surrounding whitespace does not change the word count. */
  lemma WordCountStrip(s: string)
    ensures WordCount(Strip(s)) == WordCount(s)
  {
    WordCountTrimStart(s);
    WordCountTrimEnd(TrimStart(s));
  }

  /** Python's `p in s` for strings: `p` occurs in `s` as a contiguous piece. */
  predicate Contains(s: string, p: string) {
    p <= s || (|s| > 0 && Contains(s[1..], p))
  }

  /** `s.split("\n")`: never empty, and no piece holds a line feed. */
  function SplitLines(s: string): (r: seq<string>)
    ensures |r| >= 1
    ensures forall line | line in r :: '\n' !in line
  {
    if |s| == 0 then [""]
    else if s[0] == '\n' then [""] + SplitLines(s[1..])
    else
      var rest := SplitLines(s[1..]);
      [[s[0]] + rest[0]] + rest[1..]
  }

  /** `sep.join(parts)` */
  function Join(parts: seq<string>, sep: string): string {
    if |parts| == 0 then ""
    else if |parts| == 1 then parts[0]
    else parts[0] + sep + Join(parts[1..], sep)
  }

  /** Sum of the lengths of `parts`. */
  function TotalLength(parts: seq<string>): nat {
    if |parts| == 0 then 0 else |parts[0]| + TotalLength(parts[1..])
  }

  /** A join is as long as its parts plus one separator between each pair. */
  lemma {:induction false} JoinLength(parts: seq<string>, sep: string)
    requires |parts| > 0
    ensures |Join(parts, sep)| == TotalLength(parts) + |sep| * (|parts| - 1)
  {
    if |parts| > 1 {
      JoinLength(parts[1..], sep);
    }
  }

  /** Where part `i` of `Join(parts, sep)` starts: the parts before it, each followed by `sep`. */
  function JoinOffset(parts: seq<string>, sep: string, i: nat): nat
    requires i <= |parts|
  {
    if i == 0 then 0 else |parts[0]| + |sep| + JoinOffset(parts[1..], sep, i - 1)
  }

  /**
   * Part `i` of the join sits at its offset; a separator follows it unless it is
   * the last part, which ends the join.
   */
  predicate JoinPlaced(r: string, parts: seq<string>, sep: string, i: nat)
    requires i < |parts|
  {
    var o := JoinOffset(parts, sep, i);
    && o + |parts[i]| <= |r| && r[o..o + |parts[i]|] == parts[i]
    && (i + 1 < |parts| ==> o + |parts[i]| + |sep| <= |r| && r[o + |parts[i]|..o + |parts[i]| + |sep|] == sep)
    && (i + 1 == |parts| ==> o + |parts[i]| == |r|)
  }

  /** The join, from the start of part `i` on, is the join of the parts from `i` on. */
  lemma {:induction false} JoinDrop(parts: seq<string>, sep: string, i: nat)
    requires i < |parts|
    ensures JoinOffset(parts, sep, i) <= |Join(parts, sep)|
    ensures Join(parts, sep)[JoinOffset(parts, sep, i)..] == Join(parts[i..], sep)
  {
    if i == 0 {
      assert parts[0..] == parts;
    } else {
      var rest := parts[1..];
      JoinDrop(rest, sep, i - 1);
      assert rest[i - 1..] == parts[i..];
      var r := Join(parts, sep);
      var head := parts[0] + sep;
      assert r == head + Join(rest, sep);
      var o := JoinOffset(rest, sep, i - 1);
      assert r[|head|..] == Join(rest, sep);
      assert r[|head| + o..] == r[|head|..][o..];
    }
  }

  /** Every part of a join is placed as `JoinPlaced` says. */
  lemma JoinLayout(parts: seq<string>, sep: string)
    ensures forall i | 0 <= i < |parts| :: JoinPlaced(Join(parts, sep), parts, sep, i)
  {
    var r := Join(parts, sep);
    forall i | 0 <= i < |parts|
      ensures JoinPlaced(r, parts, sep, i)
    {
      JoinDrop(parts, sep, i);
      var o := JoinOffset(parts, sep, i);
      var q := parts[i..];
      if |q| == 1 {
        assert Join(q, sep) == parts[i];
        PieceAt(r, o, parts[i], "");
      } else {
        var tail := Join(q[1..], sep);
        assert Join(q, sep) == parts[i] + (sep + tail);
        PieceAt(r, o, parts[i], sep + tail);
        PieceAt(r, o + |parts[i]|, sep, tail);
      }
    }
  }

  /** A piece at the front of a suffix of `s` sits at the suffix's offset. */
  lemma PieceAt(s: string, o: nat, x: string, rest: string)
    requires o <= |s| && s[o..] == x + rest
    ensures o + |x| <= |s| && s[o..o + |x|] == x && s[o + |x|..] == rest
  {
    assert s[o..o + |x|] == s[o..][..|x|];
    assert s[o + |x|..] == s[o..][|x|..];
  }

  /** Joining the pieces of a split on line feeds gives the text back. */
  lemma {:induction false} JoinSplitLines(s: string)
    ensures Join(SplitLines(s), "\n") == s
  {
    if |s| > 0 {
      JoinSplitLines(s[1..]);
      var rest := SplitLines(s[1..]);
      if s[0] != '\n' && |rest| > 1 {
        assert Join(rest, "\n") == rest[0] + "\n" + Join(rest[1..], "\n");
        assert [[s[0]] + rest[0]] + rest[1..] == [[s[0]] + rest[0]] + rest[1..];
        assert Join([[s[0]] + rest[0]] + rest[1..], "\n")
            == ([s[0]] + rest[0]) + "\n" + Join(rest[1..], "\n");
      }
    }
  }

  lemma {:induction false} SplitLinesSingle(line: string)
    requires '\n' !in line
    ensures SplitLines(line) == [line]
  {
    if |line| > 0 {
      SplitLinesSingle(line[1..]);
      assert [line[0]] + line[1..] == line;
    }
  }

  lemma {:induction false} SplitLinesAfter(line: string, t: string)
    requires '\n' !in line
    ensures SplitLines(line + "\n" + t) == [line] + SplitLines(t)
  {
    if |line| == 0 {
      assert line + "\n" + t == "\n" + t;
      assert ("\n" + t)[1..] == t;
    } else {
      SplitLinesAfter(line[1..], t);
      assert (line + "\n" + t)[1..] == line[1..] + "\n" + t;
      assert [line[0]] + line[1..] == line;
    }
  }

  /** Splitting a join of line-feed-free lines on line feeds gives the lines back. */
  lemma {:induction false} SplitJoinLines(lines: seq<string>)
    requires |lines| > 0
    requires forall i | 0 <= i < |lines| :: '\n' !in lines[i]
    ensures SplitLines(Join(lines, "\n")) == lines
  {
    if |lines| == 1 {
      SplitLinesSingle(lines[0]);
    } else {
      SplitJoinLines(lines[1..]);
      SplitLinesAfter(lines[0], Join(lines[1..], "\n"));
      assert [lines[0]] + lines[1..] == lines;
    }
  }

  /** `a` is an order-preserving subsequence of `b`. */
  ghost predicate IsSubsequence<T>(a: seq<T>, b: seq<T>) {
    a == [] || (b != [] && ((a[0] == b[0] && IsSubsequence(a[1..], b[1..])) || IsSubsequence(a, b[1..])))
  }

  lemma {:induction false} SubsequenceAppend<T>(a: seq<T>, b: seq<T>, x: T)
    requires IsSubsequence(a, b)
    ensures IsSubsequence(a + [x], b + [x])
  {
    if a == [] {
      if b != [] {
        SubsequenceAppend(a, b[1..], x);
        assert (b + [x])[1..] == b[1..] + [x];
      } else {
        assert a + [x] == [x];
        assert IsSubsequence([x][1..], (b + [x])[1..]);
      }
    } else if a[0] == b[0] && IsSubsequence(a[1..], b[1..]) {
      SubsequenceAppend(a[1..], b[1..], x);
      assert (a + [x])[1..] == a[1..] + [x];
      assert (b + [x])[1..] == b[1..] + [x];
    } else {
      SubsequenceAppend(a, b[1..], x);
      assert (b + [x])[1..] == b[1..] + [x];
    }
  }

  lemma {:induction false} SubsequenceExtend<T>(a: seq<T>, b: seq<T>, x: T)
    requires IsSubsequence(a, b)
    ensures IsSubsequence(a, b + [x])
  {
    if a != [] {
      if a[0] == b[0] && IsSubsequence(a[1..], b[1..]) {
        SubsequenceExtend(a[1..], b[1..], x);
      } else {
        SubsequenceExtend(a, b[1..], x);
      }
      assert (b + [x])[1..] == b[1..] + [x];
    }
  }

  /** `s.index(x)`: where `x` first occurs in `s`. */
  function FirstIndex<T(==)>(s: seq<T>, x: T): (i: nat)
    requires x in s
    ensures i < |s| && s[i] == x
    ensures forall j | 0 <= j < i :: s[j] != x
  {
    if s[0] == x then 0 else 1 + FirstIndex(s[1..], x)
  }

  /** Appending an element does not move the first occurrence of one already present. */
  lemma FirstIndexAppend<T>(s: seq<T>, y: T, x: T)
    requires x in s
    ensures FirstIndex(s + [y], x) == FirstIndex(s, x)
  {
    var i := FirstIndex(s, x);
    assert (s + [y])[i] == x;
    assert forall j | 0 <= j < |s| :: (s + [y])[j] == s[j];
  }

  /** A new element appended at the end first occurs there. */
  lemma FirstIndexLast<T>(s: seq<T>, x: T)
    requires x !in s
    ensures FirstIndex(s + [x], x) == |s|
  {
    assert forall j | 0 <= j < |s| :: (s + [x])[j] == s[j];
  }

  /** The decimal digit for `d < 10`. */
  function Digit(d: nat): char
    requires d < 10
  {
    "0123456789"[d]
  }

  /** Python's `str(n)` for a non-negative integer: its decimal digits. */
  function NatToString(n: nat): (r: string)
    ensures |r| >= 1 && IsDigits(r)
    ensures r[0] == '0' ==> n == 0
    decreases n
  {
    if n < 10 then [Digit(n)] else NatToString(n / 10) + [Digit(n % 10)]
  }

  /** `s` consists of decimal digits only. */
  predicate IsDigits(s: string) {
    forall i | 0 <= i < |s| :: '0' <= s[i] <= '9'
  }

  /** Reads a string of decimal digits as a number. */
  function ParseNat(s: string): nat
    requires IsDigits(s)
  {
    if |s| == 0 then 0
    else ParseNat(s[..|s| - 1]) * 10 + (s[|s| - 1] as int - '0' as int)
  }

  /** The decimal text of a number reads back as that number. */
  lemma {:induction false} ParseNatToString(n: nat)
    ensures ParseNat(NatToString(n)) == n
    decreases n
  {
    var s := NatToString(n);
    DigitValue(n % 10);
    if n >= 10 {
      ParseNatToString(n / 10);
      assert s[..|s| - 1] == NatToString(n / 10);
    }
    assert s[|s| - 1] == Digit(n % 10);
  }

  /** The character `Digit(d)` has the value `d`. */
  lemma DigitValue(d: nat)
    requires d < 10
    ensures Digit(d) as int - '0' as int == d
  {
  }

  /** Python's slice `s[:k]` for any integer `k`; a negative `k` counts from the end. */
  function PyPrefix(s: string, k: int): (r: string)
    ensures r <= s
    ensures 0 <= k <= |s| ==> |r| == k
    ensures k >= |s| ==> r == s
    ensures k < 0 ==> |r| == if |s| + k >= 0 then |s| + k else 0
  {
    if k >= |s| then s
    else if k >= 0 then s[..k]
    else if |s| + k >= 0 then s[..|s| + k]
    else ""
  }

  /** Concatenation of all parts, in order: `"".join(parts)`. */
  function Concat(parts: seq<string>): (r: string)
    ensures |r| == TotalLength(parts)
  {
    if |parts| == 0 then "" else parts[0] + Concat(parts[1..])
  }

  lemma {:induction false} ConcatAppend(parts: seq<string>, last: string)
    ensures Concat(parts + [last]) == Concat(parts) + last
  {
    if |parts| == 0 {
      assert parts + [last] == [last];
    } else {
      ConcatAppend(parts[1..], last);
      assert (parts + [last])[1..] == parts[1..] + [last];
    }
  }

  lemma AppendAssoc<T>(x: seq<T>, y: seq<T>, z: seq<T>)
    ensures (x + y) + z == x + (y + z)
  {
  }

  /** A join of line-feed-free parts with a line-feed-free separator has no line feed. */
  lemma {:induction false} JoinNoLineFeed(parts: seq<string>, sep: string)
    requires '\n' !in sep
    requires forall p | p in parts :: '\n' !in p
    ensures '\n' !in Join(parts, sep)
  {
    if |parts| > 1 {
      assert forall p | p in parts[1..] :: p in parts;
      JoinNoLineFeed(parts[1..], sep);
      assert parts[0] in parts;
    } else if |parts| == 1 {
      assert parts[0] in parts;
    }
  }
}
