/**
 * elements/DataElement.py: the record that carries one ingestion run (the URL
 * list, the target collection, parsed page data, chunks) and the strings its
 * `__str__`, `save_parsing_result` and `save_chunks` produce. Writing those
 * strings to files and printing are not modelled.
 */
module DataElements {
  import opened Wrappers
  import opened Text
  import Dict

  /** One value of `url_data`: a Python dict from field name to string. */
  type Entry = map<string, string>

  const TextKey: string := "text"
  const DescriptionKey: string := "description"

  /** `url_data`: URL to entry, in insertion order. */
  type UrlData = Dict.Dict<string, Entry>

  class DataElement {
    var urlList: seq<string>
    var collectionDbName: string
    var urlData: Option<UrlData>
    var chunks: Option<seq<string>>

    /** `DataElement(url_list, collection_db_name="default", url_data=None, chunks=None)` */
    constructor (urlList: seq<string>, collectionDbName: string := "default",
                 urlData: Option<UrlData> := None, chunks: Option<seq<string>> := None)
      ensures this.urlList == urlList && this.collectionDbName == collectionDbName
      ensures this.urlData == urlData && this.chunks == chunks
    {
      this.urlList := urlList;
      this.collectionDbName := collectionDbName;
      this.urlData := urlData;
      this.chunks := chunks;
    }

    /**
     * `str(element)`: the summary's lines are the header, the collection name,
     * the URL, data and chunks parts, and the closing parenthesis, whenever the
     * name and the URLs hold no line feed.
     */
    function ToString(): (r: string)
      reads this
      ensures ('\n' !in collectionDbName && forall u | u in urlList :: '\n' !in u) ==>
        SplitLines(r) == SummaryLines(collectionDbName, urlList, urlData, chunks)
    {
      var lines := SummaryLines(collectionDbName, urlList, urlData, chunks);
      if '\n' !in collectionDbName && forall u | u in urlList :: '\n' !in u then
        SummaryLinesNoLineFeed(collectionDbName, urlList, urlData, chunks);
        SplitJoinLines(lines);
        Join(lines, "\n")
      else
        Join(lines, "\n")
    }

    /**
     * `save_chunks`: the text written for the chunks, one record per chunk in
     * order (the file itself is not modelled).
     */
    method ChunksDump() returns (out: string)
      requires chunks.Some?
      ensures out == Concat(ChunkRecords(chunks.value))
      ensures |out| == TotalLength(ChunkRecords(chunks.value))
    {
      var cs := chunks.value;
      out := "";
      for i := 0 to |cs|
        invariant out == Concat(ChunkRecords(cs[..i]))
      {
        assert ChunkRecords(cs[..i + 1]) == ChunkRecords(cs[..i]) + [ChunkRecord(i, cs[i])];
        ConcatAppend(ChunkRecords(cs[..i]), ChunkRecord(i, cs[i]));
        out := out + ChunkRecord(i, cs[i]);
      }
      assert cs[..|cs|] == cs;
    }
  }

  /** The lines of `str(element)`, in order. */
  function SummaryLines(name: string, urls: seq<string>, urlData: Option<UrlData>, chunks: Option<seq<string>>): seq<string> {
    [ "DataElement(",
      "  Сollection db name: " + name,
      "  URLs: " + UrlsPart(urls),
      "  URL Data: " + DataPart(urlData),
      "  Chunks: " + ChunksPart(chunks),
      ")" ]
  }

  /** No summary line holds a line feed when neither the name nor any URL does. */
  lemma SummaryLinesNoLineFeed(name: string, urls: seq<string>, urlData: Option<UrlData>, chunks: Option<seq<string>>)
    requires '\n' !in name && forall u | u in urls :: '\n' !in u
    ensures var lines := SummaryLines(name, urls, urlData, chunks);
      forall i | 0 <= i < |lines| :: '\n' !in lines[i]
  {
    JoinNoLineFeed(urls, ", ");
    LabelsNoLineFeed();
    UnionNoLineFeed("  Сollection db name: ", name);
    UnionNoLineFeed("  URLs: ", UrlsPart(urls));
    UnionNoLineFeed("  URL Data: ", DataPart(urlData));
    UnionNoLineFeed("  Chunks: ", ChunksPart(chunks));
  }

  lemma LabelsNoLineFeed()
    ensures '\n' !in "DataElement(" && '\n' !in "  Сollection db name: " && '\n' !in "  URLs: "
    ensures '\n' !in "  URL Data: " && '\n' !in "  Chunks: " && '\n' !in ")"
  {
  }

  lemma UnionNoLineFeed(a: string, b: string)
    requires '\n' !in a && '\n' !in b
    ensures '\n' !in a + b
  {
  }

  /** The URL part of the summary: `", ".join(url_list) if url_list else "No URLs"`. */
  function UrlsPart(urls: seq<string>): (r: string)
    ensures urls == [] ==> r == "No URLs"
    ensures |urls| == 1 ==> r == urls[0]
    ensures |urls| > 0 ==> |r| == TotalLength(urls) + 2 * (|urls| - 1)
    ensures |urls| > 0 ==> forall i | 0 <= i < |urls| :: JoinPlaced(r, urls, ", ", i)
  {
    if urls == [] then "No URLs"
    else
      JoinLength(urls, ", ");
      JoinLayout(urls, ", ");
      Join(urls, ", ")
  }

  /**
   * `f"{n} <unit>" if n else <none>`: the count is written in decimal and can be
   * read back from the part.
   */
  function CountPart(n: nat, unit: string, none: string): (r: string)
    ensures n == 0 ==> r == none
    ensures n > 0 ==> |r| > |unit| + 1 && r[|r| - |unit| - 1..] == " " + unit
    ensures n > 0 ==> IsDigits(r[..|r| - |unit| - 1]) && ParseNat(r[..|r| - |unit| - 1]) == n
    ensures '\n' !in unit && '\n' !in none ==> '\n' !in r
  {
    if n == 0 then none
    else
      var digits := NatToString(n);
      assert '\n' !in digits by {
        forall i | 0 <= i < |digits| ensures digits[i] != '\n' { }
      }
      ParseNatToString(n);
      var r := digits + " " + unit;
      assert r[..|r| - |unit| - 1] == digits;
      r
  }

  const EntriesUnit: string := " entries"
  const ChunksUnit: string := " chunks"

  /** The data part: `"No data"` when `url_data` is `None` or empty, else `"<n> entries"`. */
  function DataPart(urlData: Option<UrlData>): (r: string)
    ensures (urlData.None? || urlData.value.Len() == 0) <==> r == "No data"
    ensures '\n' !in r
    ensures r != "No data" ==>
      && urlData.Some? && |r| > |EntriesUnit| && r[|r| - |EntriesUnit|..] == EntriesUnit
      && IsDigits(r[..|r| - |EntriesUnit|]) && ParseNat(r[..|r| - |EntriesUnit|]) == urlData.value.Len()
  {
    var n := if urlData.None? then 0 else urlData.value.Len();
    var r := CountPart(n, EntriesUnit[1..], "No data");
    assert " " + EntriesUnit[1..] == EntriesUnit;
    assert n > 0 ==> IsDigits(r[..1]) && r[0] == r[..1][0];
    r
  }

  /** The chunks part: `"No chunks"` when `chunks` is `None` or empty, else `"<n> chunks"`. */
  function ChunksPart(chunks: Option<seq<string>>): (r: string)
    ensures (chunks.None? || |chunks.value| == 0) <==> r == "No chunks"
    ensures '\n' !in r
    ensures r != "No chunks" ==>
      && chunks.Some? && |r| > |ChunksUnit| && r[|r| - |ChunksUnit|..] == ChunksUnit
      && IsDigits(r[..|r| - |ChunksUnit|]) && ParseNat(r[..|r| - |ChunksUnit|]) == |chunks.value|
  {
    var n := if chunks.None? then 0 else |chunks.value|;
    var r := CountPart(n, ChunksUnit[1..], "No chunks");
    assert " " + ChunksUnit[1..] == ChunksUnit;
    assert n > 0 ==> IsDigits(r[..1]) && r[0] == r[..1][0];
    r
  }

  /** `[data['text'] for data in entries if 'text' in data]` */
  function TextsOf(entries: seq<Entry>): (r: seq<string>)
    ensures |r| <= |entries|
    ensures (forall i | 0 <= i < |entries| :: TextKey in entries[i]) ==>
      |r| == |entries| && forall i | 0 <= i < |entries| :: r[i] == entries[i][TextKey]
    ensures (forall i | 0 <= i < |entries| :: TextKey !in entries[i]) ==> r == []
    ensures forall t | t in r :: exists i | 0 <= i < |entries| :: TextKey in entries[i] && entries[i][TextKey] == t
  {
    if |entries| == 0 then []
    else
      var rest := TextsOf(entries[1..]);
      assert forall i | 1 <= i < |entries| :: entries[1..][i - 1] == entries[i];
      if TextKey in entries[0] then [entries[0][TextKey]] + rest else rest
  }

  /** The texts of one entry followed by more: its `text`, if any, then theirs. */
  lemma TextsOfCons(e: Entry, rest: seq<Entry>)
    ensures TextsOf([e] + rest) == (if TextKey in e then [e[TextKey]] else []) + TextsOf(rest)
  {
    assert ([e] + rest)[1..] == rest;
  }

  /** Taking the texts commutes with concatenating entry lists. */
  lemma {:induction false} TextsOfAppend(a: seq<Entry>, b: seq<Entry>)
    ensures TextsOf(a + b) == TextsOf(a) + TextsOf(b)
  {
    if |a| == 0 {
      assert a + b == b;
    } else {
      var e := a[0];
      var rest := a[1..];
      var own := if TextKey in e then [e[TextKey]] else [];
      calc {
        TextsOf(a + b);
        { assert a + b == [e] + (rest + b); }
        TextsOf([e] + (rest + b));
        { TextsOfCons(e, rest + b); }
        own + TextsOf(rest + b);
        { TextsOfAppend(rest, b); }
        own + (TextsOf(rest) + TextsOf(b));
        { AppendAssoc(own, TextsOf(rest), TextsOf(b)); }
        (own + TextsOf(rest)) + TextsOf(b);
        { assert a == [e] + rest; TextsOfCons(e, rest); }
        TextsOf(a) + TextsOf(b);
      }
    }
  }

  /**
   * The text `save_parsing_result` writes: the `text` of every entry that has
   * one, in insertion order, joined by two blank lines.
   */
  function CombinedText(urlData: UrlData): (r: string)
    requires urlData.Valid()
    ensures var texts := TextsOf(urlData.Values());
      && (texts == [] ==> r == "")
      && (texts != [] ==> |r| == TotalLength(texts) + 3 * (|texts| - 1))
      && (forall i | 0 <= i < |texts| :: JoinPlaced(r, texts, "\n\n\n", i))
  {
    var texts := TextsOf(urlData.Values());
    if texts == [] then ""
    else
      JoinLength(texts, "\n\n\n");
      JoinLayout(texts, "\n\n\n");
      Join(texts, "\n\n\n")
  }

  /** The pieces of a `save_chunks` record header: `"Чанк <n> (<len> символов):\n"`. */
  const RecordLead: string := "Чанк "
  const RecordMid: string := " ("
  const RecordTail: string := " символов):\n"
  /** A line feed, `'=' * 50` and a line feed. */
  const RecordRule: string := "\n==================================================\n"

  /** The record `save_chunks` writes for the chunk at index `i`: numbered `i + 1`. */
  function ChunkRecord(i: nat, chunk: string): string {
    RecordOf(NatToString(i + 1), NatToString(|chunk|), chunk)
  }

  /** A record with the number and the length already written out. */
  function RecordOf(num: string, len: string, chunk: string): string {
    RecordLead + (num + (RecordMid + (len + (RecordTail + (chunk + RecordRule)))))
  }

  /** One record per chunk, in order. */
  function ChunkRecords(chunks: seq<string>): (r: seq<string>)
    ensures |r| == |chunks|
    ensures forall i | 0 <= i < |chunks| :: r[i] == ChunkRecord(i, chunks[i])
  {
    seq(|chunks|, i requires 0 <= i < |chunks| => ChunkRecord(i, chunks[i]))
  }

  /**
   * A record is laid out, end to end, as the lead, the written-out number, the
   * separator, the written-out length, the tail, the chunk itself and the
   * closing rule.
   */
  lemma RecordOfLayout(num: string, len: string, chunk: string)
    ensures var r := RecordOf(num, len, chunk);
      var k := |RecordLead| + |num| + |RecordMid|;
      var m := k + |len| + |RecordTail|;
      && |r| == m + |chunk| + |RecordRule|
      && r[..|RecordLead|] == RecordLead
      && r[|RecordLead|..|RecordLead| + |num|] == num
      && r[|RecordLead| + |num|..k] == RecordMid
      && r[k..k + |len|] == len
      && r[k + |len|..m] == RecordTail
      && r[m..m + |chunk|] == chunk
      && r[m + |chunk|..] == RecordRule
  {
    FieldsOfRecord(RecordLead, num, RecordMid, len, RecordTail, chunk, RecordRule);
  }

  /**
   * The header of a record reads back: whatever the lead, separators and rule,
   * a record that writes out `n` and `l` in decimal around its separators holds
   * digits that parse as `n` and `l`, followed by the chunk unchanged. The
   * record for index `i` is this shape with `n = i + 1`, `l = |chunk|` and the
   * pieces `RecordLead`, `RecordMid`, `RecordTail` and `RecordRule`.
   */
  lemma HeaderReadsBack(r: string, a: string, num: string, b: string, len: string, c: string, chunk: string, d: string, n: nat, l: nat)
    requires r == a + (num + (b + (len + (c + (chunk + d)))))
    requires num == NatToString(n) && len == NatToString(l)
    ensures |a| + |num| + |b| + |len| + |c| + |chunk| <= |r|
    ensures IsDigits(r[|a|..|a| + |num|]) && ParseNat(r[|a|..|a| + |num|]) == n
    ensures IsDigits(r[|a| + |num| + |b|..|a| + |num| + |b| + |len|])
      && ParseNat(r[|a| + |num| + |b|..|a| + |num| + |b| + |len|]) == l
    ensures r[|a| + |num| + |b| + |len| + |c|..|a| + |num| + |b| + |len| + |c| + |chunk|] == chunk
  {
    FieldsOfRecord(a, num, b, len, c, chunk, d);
    ParseNatToString(n);
    ParseNatToString(l);
  }

  /** Where each of the seven pieces of a concatenation sits: they tile it end to end. */
  lemma FieldsOfRecord(a: string, num: string, b: string, len: string, c: string, chunk: string, d: string)
    ensures var r := a + (num + (b + (len + (c + (chunk + d)))));
      var k := |a| + |num| + |b|;
      var m := k + |len| + |c|;
      && |r| == m + |chunk| + |d|
      && r[..|a|] == a
      && r[|a|..|a| + |num|] == num
      && r[|a| + |num|..k] == b
      && r[k..k + |len|] == len
      && r[k + |len|..m] == c
      && r[m..m + |chunk|] == chunk
      && r[m + |chunk|..] == d
  {
    var r5 := chunk + d;
    var r4 := c + r5;
    var r3 := len + r4;
    var r2 := b + r3;
    var r1 := num + r2;
    var r := a + r1;
    assert r[0..] == r;
    PieceAt(r, 0, a, r1);
    PieceAt(r, |a|, num, r2);
    PieceAt(r, |a| + |num|, b, r3);
    PieceAt(r, |a| + |num| + |b|, len, r4);
    PieceAt(r, |a| + |num| + |b| + |len|, c, r5);
    PieceAt(r, |a| + |num| + |b| + |len| + |c|, chunk, d);
  }
}
