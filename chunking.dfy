/**
 * chunking.py: its own copy of `filter_text` (with a strict threshold) and
 * `generate_chunks`, which labels every piece of every page with the page's
 * description. The LangChain splitter is a function parameter `split`,
 * configured outside the model (separators, `chunk_size`, `chunk_overlap`).
 */
module Chunking {
  import opened Text
  import opened LineFilter
  import opened DataElements

  /**
   * `filter_text(text, min_words=3)` of chunking.py: the strict threshold, so a
   * line with exactly `minWords` words is dropped. Every line of a non-empty
   * result has more than `minWords` words, is stripped and holds no stop
   * phrase, and the result's lines are the stripped input lines in their
   * original order, some left out. Conversely, every line with more than
   * `minWords` words that comes before the first such line holding a stop
   * phrase reaches the result, stripped, and nothing from that line on
   * survives: the result's lines are exactly `OutputLines`.
   */
  function FilterText(text: string, minWords: int := 3): (r: string)
    ensures text == "" ==> r == ""
    ensures r != "" ==> forall line | line in SplitLines(r) ::
      WordCount(line) > minWords && Strip(line) == line && !HasStopPhrase(line)
    ensures r != "" ==> IsSubsequence(SplitLines(r), StripAll(SplitLines(text)))
    ensures forall i | 0 <= i < |SplitLines(text)| && BeforeCutoff(SplitLines(text), MoreThan(minWords), i) ::
      Strip(SplitLines(text)[i]) in SplitLines(r)
    ensures r != "" ==> SplitLines(r) == OutputLines(text, MoreThan(minWords))
  {
    LinesOfFilter(text, MoreThan(minWords));
    OutputLinesSpec(text, MoreThan(minWords));
    FilterComplete(text, MoreThan(minWords));
    Filter(text, MoreThan(minWords))
  }

  /** Filtering a text that `FilterText` already cleaned leaves it unchanged. */
  lemma FilterTextIdempotent(text: string, minWords: int)
    ensures FilterText(FilterText(text, minWords), minWords) == FilterText(text, minWords)
  {
    FilterIdempotent(text, MoreThan(minWords));
  }

  /** `f"[Источник: {description}]\n"`: the label put before every piece. */
  function SourceLabel(description: string): string {
    "[Источник: " + description + "]\n"
  }

  /** An entry `generate_chunks` can read: it has both a `text` and a `description`. */
  predicate IsDocument(e: Entry) {
    TextKey in e && DescriptionKey in e
  }

  /** The labelled pieces of one document, in splitter order. */
  function Labelled(e: Entry, split: string -> seq<string>): (r: seq<string>)
    requires IsDocument(e)
    ensures |r| == |split(e[TextKey])|
    ensures forall j | 0 <= j < |r| :: r[j] == SourceLabel(e[DescriptionKey]) + split(e[TextKey])[j]
  {
    var pieces := split(e[TextKey]);
    seq(|pieces|, j requires 0 <= j < |pieces| => SourceLabel(e[DescriptionKey]) + pieces[j])
  }

  /** The chunks of all documents: each document's labelled pieces, documents in order. */
  function AllChunks(docs: seq<Entry>, split: string -> seq<string>): seq<string>
    requires forall k | 0 <= k < |docs| :: IsDocument(docs[k])
  {
    if |docs| == 0 then [] else AllChunks(docs[..|docs| - 1], split) + Labelled(docs[|docs| - 1], split)
  }

  /** Number of pieces the splitter makes of all of `docs`. */
  function PieceCount(docs: seq<Entry>, split: string -> seq<string>): nat
    requires forall k | 0 <= k < |docs| :: IsDocument(docs[k])
  {
    if |docs| == 0 then 0
    else
      var last := docs[|docs| - 1];
      assert IsDocument(last);
      PieceCount(docs[..|docs| - 1], split) + |split(last[TextKey])|
  }

  /** There is one chunk per piece: the total is the sum of the per-document piece counts. */
  lemma {:induction false} AllChunksCount(docs: seq<Entry>, split: string -> seq<string>)
    requires forall k | 0 <= k < |docs| :: IsDocument(docs[k])
    ensures |AllChunks(docs, split)| == PieceCount(docs, split)
  {
    if |docs| > 0 {
      AllChunksCount(docs[..|docs| - 1], split);
    }
  }

  /**
   * Piece `j` of document `k` is labelled and placed after all pieces of the
   * documents before `k`, in document order and then splitter order.
   */
  lemma {:induction false} AllChunksAt(docs: seq<Entry>, split: string -> seq<string>, k: nat, j: nat)
    requires forall i | 0 <= i < |docs| :: IsDocument(docs[i])
    requires k < |docs| && IsDocument(docs[k])
    requires j < |split(docs[k][TextKey])|
    ensures PieceCount(docs[..k], split) + j < |AllChunks(docs, split)|
    ensures AllChunks(docs, split)[PieceCount(docs[..k], split) + j]
         == SourceLabel(docs[k][DescriptionKey]) + split(docs[k][TextKey])[j]
  {
    var init := docs[..|docs| - 1];
    assert forall i | 0 <= i < |init| :: init[i] == docs[i];
    AllChunksCount(init, split);
    if k == |docs| - 1 {
      assert docs[..k] == init;
    } else {
      AllChunksAt(init, split, k, j);
      assert init[..k] == docs[..k];
    }
  }

  lemma AllChunksStep(docs: seq<Entry>, split: string -> seq<string>, k: nat)
    requires forall i | 0 <= i < |docs| :: IsDocument(docs[i])
    requires k < |docs|
    ensures AllChunks(docs[..k + 1], split) == AllChunks(docs[..k], split) + Labelled(docs[k], split)
  {
    assert docs[..k + 1][..k] == docs[..k];
  }

  /**
   * `generate_chunks(url_data)`: for every entry in insertion order, every
   * piece the splitter makes of its text, prefixed with its source label.
   */
  method GenerateChunks(urlData: UrlData, split: string -> seq<string>) returns (allChunks: seq<string>)
    requires urlData.Valid()
    requires forall url | url in urlData.values :: IsDocument(urlData.values[url])
    ensures allChunks == AllChunks(urlData.Values(), split)
  {
    var docs := urlData.Values();
    assert forall k | 0 <= k < |docs| :: docs[k] == urlData.values[urlData.keys[k]];
    assert forall k | 0 <= k < |docs| :: IsDocument(docs[k]);
    allChunks := [];
    for k := 0 to |docs|
      invariant allChunks == AllChunks(docs[..k], split)
    {
      allChunks := AppendLabelled(allChunks, docs[k], split);
      AllChunksStep(docs, split, k);
    }
    assert docs[..|docs|] == docs;
  }

  /** The inner loop of `generate_chunks`: appends one document's labelled pieces in splitter order. */
  method AppendLabelled(allChunks: seq<string>, data: Entry, split: string -> seq<string>) returns (r: seq<string>)
    requires IsDocument(data)
    ensures r == allChunks + Labelled(data, split)
  {
    var chunks := split(data[TextKey]);
    ghost var labelled := Labelled(data, split);
    r := allChunks;
    for j := 0 to |chunks|
      invariant |r| == |allChunks| + j
      invariant r[..|allChunks|] == allChunks
      invariant forall t | 0 <= t < j :: r[|allChunks| + t] == labelled[t]
    {
      var formatted := SourceLabel(data[DescriptionKey]) + chunks[j];
      r := r + [formatted];
    }
    assert r == allChunks + labelled;
  }
}
