/**
 * nodes/DataParsingNode.py: fetches every URL of an ingestion run, cleans the
 * page text and records it in the element's `url_data`. Fetching and HTML
 * extraction (`parse_url`) are a function parameter here.
 */
module Parsing {
  import opened Wrappers
  import opened Text
  import opened LineFilter
  import Dict
  import opened DataElements

  /** What `parse_url` returns: `{'text': ..., 'description': ...}`; a failed fetch has text `''`. */
  datatype Parsed = Parsed(text: string, description: string)

  /**
   * `DataParsingNode.filter_text(text, min_words=3)`: the inclusive threshold.
   * Every line of a non-empty result has at least `minWords` words, is
   * stripped and holds no stop phrase, and the result's lines are the stripped
   * input lines in their original order, some left out. Conversely, every
   * line with at least `minWords` words that comes before the first such line
   * holding a stop phrase reaches the result, stripped, and nothing from that
   * line on survives: the result's lines are exactly `OutputLines`.
   */
  function FilterText(text: string, minWords: int := 3): (r: string)
    ensures text == "" ==> r == ""
    ensures r != "" ==> forall line | line in SplitLines(r) ::
      WordCount(line) >= minWords && Strip(line) == line && !HasStopPhrase(line)
    ensures r != "" ==> IsSubsequence(SplitLines(r), StripAll(SplitLines(text)))
    ensures forall i | 0 <= i < |SplitLines(text)| && BeforeCutoff(SplitLines(text), AtLeast(minWords), i) ::
      Strip(SplitLines(text)[i]) in SplitLines(r)
    ensures r != "" ==> SplitLines(r) == OutputLines(text, AtLeast(minWords))
  {
    LinesOfFilter(text, AtLeast(minWords));
    OutputLinesSpec(text, AtLeast(minWords));
    FilterComplete(text, AtLeast(minWords));
    Filter(text, AtLeast(minWords))
  }

  /** Filtering a text that `FilterText` already cleaned leaves it unchanged. */
  lemma FilterTextIdempotent(text: string, minWords: int)
    ensures FilterText(FilterText(text, minWords), minWords) == FilterText(text, minWords)
  {
    FilterIdempotent(text, AtLeast(minWords));
  }

  /**
   * The entry stored for a fetched page: the text filtered with the default
   * `min_words=3` (the node's configured value is not passed) and the page's
   * description.
   */
  function EntryFor(p: Parsed): Entry {
    map[TextKey := FilterText(p.text), DescriptionKey := p.description]
  }

  /** The `url_data` the loop in `process` has built after visiting `urls`. */
  function UrlDataFor(urls: seq<string>, parse: string -> Parsed): (d: UrlData)
    ensures d.Valid()
  {
    if |urls| == 0 then Dict.Empty()
    else
      var d := UrlDataFor(urls[..|urls| - 1], parse);
      var url := urls[|urls| - 1];
      if parse(url).text != "" then d.Put(url, EntryFor(parse(url))) else d
  }

  /**
   * A URL is a key of `url_data` exactly when it is in the list and its page
   * text is non-empty, so a failed fetch leaves it out; its entry keeps the
   * parsed description and the filtered text, even when that is empty.
   */
  lemma {:induction false} UrlDataForEntries(urls: seq<string>, parse: string -> Parsed)
    ensures var d := UrlDataFor(urls, parse);
      && (forall url :: url in d.values <==> url in urls && parse(url).text != "")
      && (forall url | url in d.values :: d.values[url] == EntryFor(parse(url)))
  {
    if |urls| > 0 {
      var init := urls[..|urls| - 1];
      UrlDataForEntries(init, parse);
      assert urls == init + [urls[|urls| - 1]];
    }
  }

  /**
   * The keys of `url_data` follow the order of the URL list: a URL listed more
   * than once keeps the place of its first occurrence, as a Python `dict` keeps
   * a key where it was first inserted.
   */
  lemma UrlDataForOrder(urls: seq<string>, parse: string -> Parsed)
    ensures var keys := UrlDataFor(urls, parse).keys;
      && IsSubsequence(keys, urls)
      && (forall k | k in keys :: k in urls)
      && (forall i, j | 0 <= i < j < |keys| :: FirstIndex(urls, keys[i]) < FirstIndex(urls, keys[j]))
  {
    UrlDataForSubsequence(urls, parse);
    UrlDataForFirstSeen(urls, parse);
  }

  lemma {:induction false} UrlDataForSubsequence(urls: seq<string>, parse: string -> Parsed)
    ensures IsSubsequence(UrlDataFor(urls, parse).keys, urls)
  {
    if |urls| > 0 {
      var init := urls[..|urls| - 1];
      var url := urls[|urls| - 1];
      var before := UrlDataFor(init, parse).keys;
      UrlDataForSubsequence(init, parse);
      UrlDataForStep(urls, parse);
      if UrlDataFor(urls, parse).keys == before {
        SubsequenceExtend(before, init, url);
      } else {
        SubsequenceAppend(before, init, url);
      }
    }
  }

  lemma {:induction false} UrlDataForFirstSeen(urls: seq<string>, parse: string -> Parsed)
    ensures var keys := UrlDataFor(urls, parse).keys;
      && (forall k | k in keys :: k in urls)
      && (forall i, j | 0 <= i < j < |keys| :: FirstIndex(urls, keys[i]) < FirstIndex(urls, keys[j]))
  {
    if |urls| > 0 {
      var init := urls[..|urls| - 1];
      var url := urls[|urls| - 1];
      var keys := UrlDataFor(urls, parse).keys;
      var before := UrlDataFor(init, parse).keys;
      UrlDataForFirstSeen(init, parse);
      UrlDataForStep(urls, parse);
      if keys == before {
        FirstSeenExtend(keys, init, url, urls);
      } else {
        FirstSeenAppend(before, init, url, keys, urls);
      }
    }
  }

  /** One more URL: its key is added at the end when it is new and fetched, else the keys stay. */
  lemma UrlDataForStep(urls: seq<string>, parse: string -> Parsed)
    requires |urls| > 0
    ensures var init := urls[..|urls| - 1];
      var url := urls[|urls| - 1];
      && urls == init + [url]
      && (UrlDataFor(urls, parse).keys == UrlDataFor(init, parse).keys
        || (url !in init && UrlDataFor(urls, parse).keys == UrlDataFor(init, parse).keys + [url]))
  {
    var init := urls[..|urls| - 1];
    var url := urls[|urls| - 1];
    assert urls == init + [url];
    UrlDataForEntries(init, parse);
  }

  /** Keys in first-occurrence order stay so when the list grows by one element `x`. */
  lemma FirstSeenExtend<T>(keys: seq<T>, s: seq<T>, x: T, s': seq<T>)
    requires s' == s + [x]
    requires forall k | k in keys :: k in s
    requires forall i, j | 0 <= i < j < |keys| :: FirstIndex(s, keys[i]) < FirstIndex(s, keys[j])
    ensures forall k | k in keys :: k in s'
    ensures forall i, j | 0 <= i < j < |keys| :: FirstIndex(s', keys[i]) < FirstIndex(s', keys[j])
  {
    forall k | k in keys
      ensures k in s' && FirstIndex(s', k) == FirstIndex(s, k)
    {
      FirstIndexAppend(s, x, k);
    }
  }

  /** ... and a new element `x` joins them at the end. */
  lemma FirstSeenAppend<T>(keys: seq<T>, s: seq<T>, x: T, keys': seq<T>, s': seq<T>)
    requires x !in s && keys' == keys + [x] && s' == s + [x]
    requires forall k | k in keys :: k in s
    requires forall i, j | 0 <= i < j < |keys| :: FirstIndex(s, keys[i]) < FirstIndex(s, keys[j])
    ensures forall k | k in keys' :: k in s'
    ensures forall i, j | 0 <= i < j < |keys'| :: FirstIndex(s', keys'[i]) < FirstIndex(s', keys'[j])
  {
    FirstSeenExtend(keys, s, x, s');
    FirstIndexLast(s, x);
    forall i, j | 0 <= i < j < |keys'|
      ensures FirstIndex(s', keys'[i]) < FirstIndex(s', keys'[j])
    {
      assert keys'[i] == keys[i] && keys[i] in keys;
      if j < |keys| {
        assert keys'[j] == keys[j];
      }
    }
  }

  class DataParsingNode {
    /** `config["min_words"]`: stored, but `process` never passes it on. */
    const minWords: int

    constructor (minWords: int)
      ensures this.minWords == minWords
    {
      this.minWords := minWords;
    }

    /**
     * `process`: visits the element's URLs in order, keeps a cleaned entry for
     * every page whose text is non-empty, and sets `url_data` on the same
     * element; nothing else of the element changes.
     */
    method Process(element: DataElement, parse: string -> Parsed)
      modifies element
      ensures element.urlData == Some(UrlDataFor(old(element.urlList), parse))
      ensures element.urlList == old(element.urlList)
      ensures element.collectionDbName == old(element.collectionDbName)
      ensures element.chunks == old(element.chunks)
    {
      var urls := element.urlList;
      var urlData: UrlData := Dict.Empty();
      for i := 0 to |urls|
        invariant urlData == UrlDataFor(urls[..i], parse)
      {
        assert urls[..i + 1][..i] == urls[..i];
        var parsed := parse(urls[i]);
        if parsed.text != "" {
          var filtered := FilterText(parsed.text);
          urlData := urlData.Put(urls[i], map[TextKey := filtered, DescriptionKey := parsed.description]);
        }
      }
      assert urls[..|urls|] == urls;
      element.urlData := Some(urlData);
    }
  }
}
