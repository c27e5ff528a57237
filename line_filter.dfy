/**
 * The text cleaning shared by `filter_text` in nodes/DataParsingNode.py and in
 * chunking.py: split on line feeds, keep the lines whose word count passes a
 * threshold, strip them, cut everything from the first line that contains a
 * stop phrase, and join the rest with line feeds. The two copies differ only in
 * the threshold (`>=` against `>`), which is the `Threshold` here.
 */
module LineFilter {
  import opened Text

  /** How a line's word count is compared with `min_words`. */
  datatype Threshold = AtLeast(n: int) | MoreThan(n: int) {
    predicate Admits(words: nat) {
      if AtLeast? then words >= n else words > n
    }
  }

  /** Phrases that mark the start of page boilerplate (cookie notices, reference lists). */
  const StopPhrases: seq<string> := [
    "Политика в отношении файлов cookie",
    "Мы используем cookie",
    "Дата обращения:",
    "Использованная литература и источники:"
  ]

  /** `any(phrase in line for phrase in stop_phrases)` */
  predicate HasStopPhrase(line: string) {
    HasAnyPhrase(line, StopPhrases)
  }

  /** Some phrase of `phrases` occurs in `line`, trying them in order. */
  predicate HasAnyPhrase(line: string, phrases: seq<string>) {
    |phrases| > 0 && (Contains(line, phrases[0]) || HasAnyPhrase(line, phrases[1..]))
  }

  /** `[line.strip() for line in lines]` */
  function StripAll(lines: seq<string>): (r: seq<string>)
    ensures |r| == |lines|
    ensures forall i | 0 <= i < |lines| :: r[i] == Strip(lines[i])
  {
    if |lines| == 0 then [] else [Strip(lines[0])] + StripAll(lines[1..])
  }

  /** `[line.strip() for line in lines if len(line.split()) passes t]` */
  function Kept(lines: seq<string>, t: Threshold): (r: seq<string>)
    ensures forall line | line in r :: t.Admits(WordCount(line)) && Strip(line) == line
    ensures (forall line | line in lines :: '\n' !in line) ==> forall line | line in r :: '\n' !in line
  {
    if |lines| == 0 then []
    else
      var line := lines[0];
      var rest := Kept(lines[1..], t);
      if t.Admits(WordCount(line)) then
        WordCountStrip(line);
        StripIdempotent(line);
        StripChars(line);
        assert forall l | l in [Strip(line)] + rest :: l == Strip(line) || l in rest;
        [Strip(line)] + rest
      else
        rest
  }

  /** The kept lines are the stripped input lines in their original order, some left out. */
  lemma {:induction false} KeptIsSubsequence(lines: seq<string>, t: Threshold)
    ensures IsSubsequence(Kept(lines, t), StripAll(lines))
  {
    if |lines| > 0 {
      KeptIsSubsequence(lines[1..], t);
      assert StripAll(lines)[1..] == StripAll(lines[1..]);
      var rest := Kept(lines[1..], t);
      if t.Admits(WordCount(lines[0])) {
        assert Kept(lines, t) == [Strip(lines[0])] + rest;
        assert (Kept(lines, t))[1..] == rest;
      } else {
        assert Kept(lines, t) == rest;
      }
    }
  }

  /**
   * `next((i for i, line in enumerate(lines) if has a stop phrase), None)`, with
   * `|lines|` standing for `None`.
   */
  function FirstStop(lines: seq<string>): (k: nat)
    ensures k <= |lines|
    ensures forall i | 0 <= i < k :: !HasStopPhrase(lines[i])
    ensures k < |lines| ==> HasStopPhrase(lines[k])
  {
    if |lines| == 0 || HasStopPhrase(lines[0]) then 0 else 1 + FirstStop(lines[1..])
  }

  /** The lines `filter_text` joins: the kept lines before the first stop line. */
  function OutputLines(text: string, t: Threshold): seq<string> {
    var kept := Kept(SplitLines(text), t);
    kept[..FirstStop(kept)]
  }

  /** `filter_text(text, min_words)` with the comparison `t`. */
  function Filter(text: string, t: Threshold): string {
    if text == "" then "" else Join(OutputLines(text, t), "\n")
  }

  /**
   * What survives: every output line passes the threshold, is stripped, holds
   * no line feed and no stop phrase; the output lines are the kept lines up to,
   * and not including, the first kept line with a stop phrase; and they are the
   * stripped input lines in their original order, some left out.
   */
  lemma OutputLinesSpec(text: string, t: Threshold)
    ensures var out := OutputLines(text, t);
      && (forall line | line in out :: t.Admits(WordCount(line)) && Strip(line) == line && '\n' !in line && !HasStopPhrase(line))
      && out <= Kept(SplitLines(text), t)
      && (|out| < |Kept(SplitLines(text), t)| ==> HasStopPhrase(Kept(SplitLines(text), t)[|out|]))
      && IsSubsequence(out, StripAll(SplitLines(text)))
  {
    var kept := Kept(SplitLines(text), t);
    var k := FirstStop(kept);
    var out := kept[..k];
    assert IsSubsequence(out, StripAll(SplitLines(text))) by {
      KeptIsSubsequence(SplitLines(text), t);
      PrefixIsSubsequence(out, kept);
      SubsequenceTrans(out, kept, StripAll(SplitLines(text)));
    }
    assert forall line | line in out :: t.Admits(WordCount(line)) && Strip(line) == line && '\n' !in line by {
      assert forall line | line in out :: line in kept;
    }
    assert forall line | line in out :: !HasStopPhrase(line) by {
      forall line | line in out ensures !HasStopPhrase(line) {
        var j :| 0 <= j < k && out[j] == line;
      }
    }
  }

  lemma {:induction false} PrefixIsSubsequence<T>(a: seq<T>, b: seq<T>)
    requires a <= b
    ensures IsSubsequence(a, b)
  {
    if a != [] {
      PrefixIsSubsequence(a[1..], b[1..]);
    }
  }

  lemma {:induction false} SubsequenceTrans<T>(a: seq<T>, b: seq<T>, c: seq<T>)
    requires IsSubsequence(a, b) && IsSubsequence(b, c)
    ensures IsSubsequence(a, c)
    decreases |c|
  {
    if a != [] {
      assert b != [] && c != [];
      if b[0] == c[0] && IsSubsequence(b[1..], c[1..]) {
        if a[0] == b[0] && IsSubsequence(a[1..], b[1..]) {
          SubsequenceTrans(a[1..], b[1..], c[1..]);
        } else {
          SubsequenceTrans(a, b[1..], c[1..]);
        }
      } else {
        SubsequenceTrans(a, b, c[1..]);
      }
    }
  }

  /** The lines of a non-empty result are exactly the output lines. */
  lemma LinesOfFilter(text: string, t: Threshold)
    ensures Filter(text, t) != "" ==> SplitLines(Filter(text, t)) == OutputLines(text, t)
  {
    var out := OutputLines(text, t);
    if Filter(text, t) != "" {
      OutputLinesSpec(text, t);
      forall i | 0 <= i < |out| ensures '\n' !in out[i] {
        assert out[i] in out;
      }
      SplitJoinLines(out);
    }
  }

  /** A line that passes the threshold and is already stripped. */
  predicate Settled(line: string, t: Threshold) {
    t.Admits(WordCount(line)) && Strip(line) == line
  }

  /** Lines that already pass, are stripped and carry no stop phrase survive unchanged. */
  lemma {:induction false} KeptFixpoint(lines: seq<string>, t: Threshold)
    requires forall i | 0 <= i < |lines| :: Settled(lines[i], t)
    ensures Kept(lines, t) == lines
  {
    if |lines| > 0 {
      assert forall i | 0 <= i < |lines[1..]| :: Settled(lines[1..][i], t) by {
        assert forall i | 0 <= i < |lines[1..]| :: lines[1..][i] == lines[i + 1];
      }
      KeptFixpoint(lines[1..], t);
      KeptFront(lines, t);
    }
  }

  /** A first line that passes and is already stripped, in front of lines kept unchanged. */
  lemma KeptFront(lines: seq<string>, t: Threshold)
    requires |lines| > 0 && Settled(lines[0], t)
    requires Kept(lines[1..], t) == lines[1..]
    ensures Kept(lines, t) == lines
  {
    assert [lines[0]] + lines[1..] == lines;
  }

  lemma {:induction false} FirstStopAbsent(lines: seq<string>)
    requires forall line | line in lines :: !HasStopPhrase(line)
    ensures FirstStop(lines) == |lines|
  {
    if |lines| > 0 {
      assert lines[0] in lines;
      FirstStopAbsent(lines[1..]);
    }
  }

  /** Filtering a filtered text again returns it unchanged. */
  lemma FilterIdempotent(text: string, t: Threshold)
    ensures Filter(Filter(text, t), t) == Filter(text, t)
  {
    var r := Filter(text, t);
    if r != "" {
      var out := OutputLines(text, t);
      assert OutputLines(r, t) == out by {
        LinesOfFilter(text, t);
        OutputLinesSpec(text, t);
        assert forall line | line in out :: Settled(line, t) && !HasStopPhrase(line);
        RefilterLines(out, t);
      }
    }
  }

  /** Output lines survive a second pass of the filter unchanged. */
  lemma RefilterLines(out: seq<string>, t: Threshold)
    requires forall line | line in out :: Settled(line, t) && !HasStopPhrase(line)
    ensures Kept(out, t)[..FirstStop(Kept(out, t))] == out
  {
    assert forall i | 0 <= i < |out| :: out[i] in out;
    KeptFixpoint(out, t);
    FirstStopAbsent(out);
    assert out[..|out|] == out;
  }

  /** The kept lines of one line followed by more: that line, stripped, if it passes; then theirs. */
  lemma KeptCons(line: string, rest: seq<string>, t: Threshold)
    ensures Kept([line] + rest, t) == (if t.Admits(WordCount(line)) then [Strip(line)] else []) + Kept(rest, t)
  {
    assert ([line] + rest)[1..] == rest;
  }

  /** Filtering line by line: the kept lines of `a + b` are those of `a`, then those of `b`. */
  lemma {:induction false} KeptAppend(a: seq<string>, b: seq<string>, t: Threshold)
    ensures Kept(a + b, t) == Kept(a, t) + Kept(b, t)
  {
    if |a| == 0 {
      assert a + b == b;
    } else {
      var line := a[0];
      var rest := a[1..];
      var own := if t.Admits(WordCount(line)) then [Strip(line)] else [];
      calc {
        Kept(a + b, t);
        { assert a + b == [line] + (rest + b); }
        Kept([line] + (rest + b), t);
        { KeptCons(line, rest + b, t); }
        own + Kept(rest + b, t);
        { KeptAppend(rest, b, t); }
        own + (Kept(rest, t) + Kept(b, t));
        { AppendAssoc(own, Kept(rest, t), Kept(b, t)); }
        (own + Kept(rest, t)) + Kept(b, t);
        { assert a == [line] + rest; KeptCons(line, rest, t); }
        Kept(a, t) + Kept(b, t);
      }
    }
  }

  /** Up to a passing line `i`: the kept lines before it, then its stripped form. */
  lemma KeptThrough(lines: seq<string>, t: Threshold, i: int)
    requires 0 <= i < |lines| && t.Admits(WordCount(lines[i]))
    ensures Kept(lines[..i + 1], t) == Kept(lines[..i], t) + [Strip(lines[i])]
  {
    var line := lines[i];
    calc {
      Kept(lines[..i + 1], t);
      { assert lines[..i + 1] == lines[..i] + [line]; }
      Kept(lines[..i] + [line], t);
      { KeptAppend(lines[..i], [line], t); }
      Kept(lines[..i], t) + Kept([line], t);
      { KeptCons(line, [], t); assert [line] + [] == [line]; }
      Kept(lines[..i], t) + [Strip(line)];
    }
  }

  /** When no passing line of `lines` carries a stop phrase, no kept line does. */
  lemma {:induction false} KeptNoStop(lines: seq<string>, t: Threshold)
    requires forall j | 0 <= j < |lines| && t.Admits(WordCount(lines[j])) :: !HasStopPhrase(Strip(lines[j]))
    ensures forall line | line in Kept(lines, t) :: !HasStopPhrase(line)
  {
    if |lines| > 0 {
      assert forall j | 0 <= j < |lines[1..]| :: lines[1..][j] == lines[j + 1];
      KeptNoStop(lines[1..], t);
    }
  }

  lemma {:induction false} FirstStopAtLeast(lines: seq<string>, n: nat)
    requires n <= |lines|
    requires forall k | 0 <= k < n :: !HasStopPhrase(lines[k])
    ensures FirstStop(lines) >= n
  {
    if n > 0 {
      assert forall k | 0 <= k < n - 1 :: lines[1..][k] == lines[k + 1];
      FirstStopAtLeast(lines[1..], n - 1);
    }
  }

  /** The first stop line comes after a head that has none. */
  lemma StopFreeHead(head: seq<string>, tail: seq<string>)
    requires forall line | line in head :: !HasStopPhrase(line)
    ensures FirstStop(head + tail) >= |head|
  {
    var all := head + tail;
    forall k | 0 <= k < |head|
      ensures !HasStopPhrase(all[k])
    {
      assert all[k] == head[k];
      assert head[k] in head;
    }
    FirstStopAtLeast(all, |head|);
  }

  /**
   * Input line `i` comes before the cut: it passes the threshold, and neither it
   * nor any passing line before it carries a stop phrase once stripped.
   */
  predicate BeforeCutoff(lines: seq<string>, t: Threshold, i: int)
    requires 0 <= i < |lines|
  {
    && t.Admits(WordCount(lines[i]))
    && forall j | 0 <= j <= i && t.Admits(WordCount(lines[j])) :: !HasStopPhrase(Strip(lines[j]))
  }

  /** Completeness: every input line before the cut reaches the output, stripped. */
  lemma OutputLinesComplete(text: string, t: Threshold, i: int)
    requires 0 <= i < |SplitLines(text)|
    requires BeforeCutoff(SplitLines(text), t, i)
    ensures Strip(SplitLines(text)[i]) in OutputLines(text, t)
  {
    KeptBeforeStop(SplitLines(text), t, i);
  }

  /** A line before the cut is, stripped, among the kept lines before the first stop line. */
  lemma KeptBeforeStop(lines: seq<string>, t: Threshold, i: int)
    requires 0 <= i < |lines|
    requires BeforeCutoff(lines, t, i)
    ensures Strip(lines[i]) in Kept(lines, t)[..FirstStop(Kept(lines, t))]
  {
    var before := Kept(lines[..i], t);
    var head := Kept(lines[..i + 1], t);
    var kept := Kept(lines, t);
    KeptThrough(lines, t, i);
    KeptSplit(lines, t, i + 1);
    HeadNoStop(lines, t, i);
    StopFreeHead(head, Kept(lines[i + 1..], t));
    assert kept[|before|] == Strip(lines[i]);
    assert kept[..FirstStop(kept)][|before|] == Strip(lines[i]);
  }

  /** The kept lines of `lines`, cut anywhere: those of the front, then those of the back. */
  lemma KeptSplit(lines: seq<string>, t: Threshold, n: int)
    requires 0 <= n <= |lines|
    ensures Kept(lines, t) == Kept(lines[..n], t) + Kept(lines[n..], t)
  {
    assert lines == lines[..n] + lines[n..];
    KeptAppend(lines[..n], lines[n..], t);
  }

  /** Every line that passes the threshold is kept, stripped. */
  lemma KeptPassing(lines: seq<string>, t: Threshold, i: int)
    requires 0 <= i < |lines| && t.Admits(WordCount(lines[i]))
    ensures Strip(lines[i]) in Kept(lines, t)
  {
    KeptThrough(lines, t, i);
    KeptSplit(lines, t, i + 1);
    assert Kept(lines, t)[|Kept(lines[..i], t)|] == Strip(lines[i]);
  }

  /** No kept line up to a line before the cut carries a stop phrase. */
  lemma HeadNoStop(lines: seq<string>, t: Threshold, i: int)
    requires 0 <= i < |lines|
    requires BeforeCutoff(lines, t, i)
    ensures forall line | line in Kept(lines[..i + 1], t) :: !HasStopPhrase(line)
  {
    var upTo := lines[..i + 1];
    assert forall j | 0 <= j < |upTo| :: upTo[j] == lines[j];
    KeptNoStop(upTo, t);
  }

  /** A line before the cut is a line of the joined result. */
  lemma FilterCompleteAt(text: string, t: Threshold, i: int)
    requires 0 <= i < |SplitLines(text)|
    requires BeforeCutoff(SplitLines(text), t, i)
    ensures Strip(SplitLines(text)[i]) in SplitLines(Filter(text, t))
  {
    var line := Strip(SplitLines(text)[i]);
    var r := Filter(text, t);
    OutputLinesComplete(text, t, i);
    if text == "" {
      assert SplitLines(text) == [""];
      assert line == "";
      assert SplitLines(r) == [""];
    } else if r != "" {
      LinesOfFilter(text, t);
    } else {
      var out := OutputLines(text, t);
      JoinLength(out, "\n");
      assert |out| == 1;
      assert line == out[0] == "";
      assert SplitLines(r) == [""];
    }
  }

  /** Completeness of the joined result: every line before the cut is a line of it. */
  lemma FilterComplete(text: string, t: Threshold)
    ensures forall i | 0 <= i < |SplitLines(text)| && BeforeCutoff(SplitLines(text), t, i) ::
      Strip(SplitLines(text)[i]) in SplitLines(Filter(text, t))
  {
    forall i | 0 <= i < |SplitLines(text)| && BeforeCutoff(SplitLines(text), t, i)
      ensures Strip(SplitLines(text)[i]) in SplitLines(Filter(text, t))
    {
      FilterCompleteAt(text, t, i);
    }
  }

  /**
   * A single line with exactly `n` words and no stop phrase is kept by the
   * inclusive threshold of nodes/DataParsingNode.py and dropped by the strict
   * one of chunking.py.
   */
  lemma BoundaryLine(line: string, n: int)
    requires '\n' !in line && line != ""
    requires WordCount(line) == n
    requires !HasStopPhrase(Strip(line))
    ensures Filter(line, AtLeast(n)) == Strip(line)
    ensures Filter(line, MoreThan(n)) == ""
  {
    SplitLinesSingle(line);
    assert Kept([line], AtLeast(n)) == [Strip(line)] by {
      assert [line][1..] == [];
    }
    assert Kept([line], MoreThan(n)) == [] by {
      assert [line][1..] == [];
    }
    assert [Strip(line)][1..] == [];
  }
}
