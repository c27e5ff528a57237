/**
 * nodes/VectorDBNode.py: collection bookkeeping on a Milvus server and the
 * post-processing of similarity search. The server's state is the map
 * `collections` from collection name to its records; what the client's
 * `search` call returns is a parameter (`None` when the call raises).
 */
module VectorDB {
  import opened Wrappers
  import opened Text

  /** An embedding vector; its floats are opaque to the model. */
  type Embedding = seq<real>

  /**
   * One stored row: the `embedding`, `text`, `chunk_length` and `time_insert`
   * fields of the collection schema. The `id` field is assigned by the server.
   */
  datatype Record = Record(embedding: Embedding, text: string, chunkLength: int, timeInsert: int)

  /** A collection: the vector dimension fixed at creation and its rows in insertion order. */
  datatype Collection = Collection(dim: nat, records: seq<Record>)

  /** The server: collection name to collection. */
  type Store = map<string, Collection>

  /** One search hit: its distance and the output fields `text` and `chunk_length`. */
  datatype Hit = Hit(text: string, distance: real, chunkLength: int)

  /**
   * `create_milvus_collection`: a no-op when the collection exists, otherwise an
   * empty collection of dimension `dim` is added; no other collection changes.
   */
  function AfterCreate(store: Store, name: string, dim: nat): (r: Store)
    ensures name in r
    ensures name in store ==> r == store
    ensures name !in store ==> r[name] == Collection(dim, [])
    ensures forall other | other != name :: (other in r <==> other in store)
    ensures forall other | other != name && other in r :: r[other] == store[other]
  {
    if name in store then store else store[name := Collection(dim, [])]
  }

  /**
   * `delete_milvus_collection`: removes the collection when it exists and is
   * otherwise a no-op; no other collection changes.
   */
  function AfterDelete(store: Store, name: string): (r: Store)
    ensures name !in r
    ensures name !in store ==> r == store
    ensures forall other | other != name :: (other in r <==> other in store)
    ensures forall other | other != name && other in r :: r[other] == store[other]
  {
    store - {name}
  }

  /** The four columns `insert_data_into_milvus` sends: vectors, texts, lengths and times. */
  datatype Columns = Columns(embeddings: seq<Embedding>, texts: seq<string>, lengths: seq<int>, times: seq<int>)

  /**
   * The insert columns for `chunks`: text `i` is chunk `i`, length `i` is its
   * length in characters, every row has the same timestamp `now`, and every
   * column but the vectors has one entry per chunk.
   */
  function InsertColumns(chunks: seq<string>, embeddings: seq<Embedding>, now: int): (c: Columns)
    ensures c.embeddings == embeddings
    ensures |c.texts| == |c.lengths| == |c.times| == |chunks|
    ensures forall i | 0 <= i < |chunks| :: c.texts[i] == chunks[i] && c.lengths[i] == |chunks[i]| && c.times[i] == now
  {
    Columns(embeddings, chunks, seq(|chunks|, i requires 0 <= i < |chunks| => |chunks[i]|), seq(|chunks|, _ => now))
  }

  /** The server accepts columns of equal length whose vectors have the collection's dimension. */
  predicate Accepts(coll: Collection, c: Columns) {
    && |c.embeddings| == |c.texts| == |c.lengths| == |c.times|
    && forall e | e in c.embeddings :: |e| == coll.dim
  }

  /** The rows the columns describe, row `i` made of entry `i` of every column. */
  function RowsOf(c: Columns): (rows: seq<Record>)
    requires |c.embeddings| == |c.texts| == |c.lengths| == |c.times|
    ensures |rows| == |c.texts|
    ensures forall i | 0 <= i < |rows| :: rows[i] == Record(c.embeddings[i], c.texts[i], c.lengths[i], c.times[i])
  {
    seq(|c.texts|, i requires 0 <= i < |c.texts| => Record(c.embeddings[i], c.texts[i], c.lengths[i], c.times[i]))
  }

  /** How `insert_data_into_milvus` ends. */
  datatype InsertOutcome =
    | Inserted(count: nat)      // the server took every row
    | NoSuchCollection          // logged, nothing inserted, returns normally
    | ChunksNotIterable         // `chunks` is `None`: the list comprehension raises
    | Rejected                  // the server refuses the columns and the client raises

  /**
   * `insert_data_into_milvus(name, chunks, embeddings)` at time `now`. A
   * missing collection, a `None` chunk list and refused columns leave the
   * store unchanged; otherwise every chunk becomes one record appended to the
   * collection, with its text, its length and the shared timestamp, and
   * nothing else changes.
   */
  function AfterInsert(store: Store, name: string, chunks: Option<seq<string>>, embeddings: seq<Embedding>, now: int)
    : (r: (Store, InsertOutcome))
    ensures name !in store ==> r == (store, NoSuchCollection)
    ensures name in store && chunks.None? ==> r == (store, ChunksNotIterable)
    ensures !r.1.Inserted? ==> r.0 == store
    ensures r.1.Inserted? <==>
      name in store && chunks.Some? && Accepts(store[name], InsertColumns(chunks.value, embeddings, now))
    ensures r.1.Inserted? ==>
      && name in store && name in r.0 && r.1.count == |chunks.value|
      && r.0.Keys == store.Keys
      && r.0[name].dim == store[name].dim
      && |r.0[name].records| == |store[name].records| + |chunks.value|
      && r.0[name].records[..|store[name].records|] == store[name].records
      && (forall other | other in store && other != name :: r.0[other] == store[other])
    ensures r.1.Inserted? ==>
      var n := |store[name].records|;
      forall i | 0 <= i < |chunks.value| ::
        r.0[name].records[n + i] == Record(embeddings[i], chunks.value[i], |chunks.value[i]|, now)
  {
    if name !in store then (store, NoSuchCollection)
    else if chunks.None? then (store, ChunksNotIterable)
    else
      var columns := InsertColumns(chunks.value, embeddings, now);
      var coll := store[name];
      if Accepts(coll, columns) then
        var rows := RowsOf(columns);
        var records := coll.records + rows;
        assert records[..|coll.records|] == coll.records;
        (store[name := Collection(coll.dim, records)], Inserted(|chunks.value|))
      else
        (store, Rejected)
  }

  /** The texts of `hits`. */
  function TextSet(hits: seq<Hit>): set<string> {
    set h | h in hits :: h.text
  }

  /** No two hits share a text. */
  ghost predicate DistinctTexts(hits: seq<Hit>) {
    forall i, j | 0 <= i < j < |hits| :: hits[i].text != hits[j].text
  }

  /** Hit `j` is the first with its text. */
  ghost predicate IsFirst(hits: seq<Hit>, j: nat)
    requires j < |hits|
  {
    forall i | 0 <= i < j :: hits[i].text != hits[j].text
  }

  /** The hits kept by the `seen_text` loop: each text's first hit, in hit order. */
  function FirstOccurrences(hits: seq<Hit>): seq<Hit> {
    if |hits| == 0 then []
    else
      var kept := FirstOccurrences(hits[..|hits| - 1]);
      var hit := hits[|hits| - 1];
      if hit.text in TextSet(kept) then kept else kept + [hit]
  }

  lemma TextSetAppend(hits: seq<Hit>, hit: Hit)
    ensures TextSet(hits + [hit]) == TextSet(hits) + {hit.text}
  {
    assert forall h | h in hits + [hit] :: h in hits || h == hit;
  }

  /** De-duplication leaves no two hits with the same text. */
  lemma {:induction false} FirstOccurrencesDistinct(hits: seq<Hit>)
    ensures DistinctTexts(FirstOccurrences(hits))
  {
    if |hits| > 0 {
      var init := hits[..|hits| - 1];
      var hit := hits[|hits| - 1];
      var kept := FirstOccurrences(init);
      FirstOccurrencesDistinct(init);
      if hit.text !in TextSet(kept) {
        assert forall i | 0 <= i < |kept| :: kept[i].text in TextSet(kept);
      }
    }
  }

  /** De-duplication keeps an order-preserving subsequence of the hits, never longer than they are. */
  lemma {:induction false} FirstOccurrencesSubsequence(hits: seq<Hit>)
    ensures IsSubsequence(FirstOccurrences(hits), hits)
    ensures |FirstOccurrences(hits)| <= |hits|
  {
    if |hits| > 0 {
      var init := hits[..|hits| - 1];
      var hit := hits[|hits| - 1];
      var kept := FirstOccurrences(init);
      FirstOccurrencesSubsequence(init);
      assert hits == init + [hit];
      if hit.text in TextSet(kept) {
        SubsequenceExtend(kept, init, hit);
      } else {
        SubsequenceAppend(kept, init, hit);
      }
    }
  }

  /** Every text among the hits survives de-duplication. */
  lemma {:induction false} FirstOccurrencesTexts(hits: seq<Hit>)
    ensures TextSet(FirstOccurrences(hits)) == TextSet(hits)
  {
    if |hits| > 0 {
      var init := hits[..|hits| - 1];
      var hit := hits[|hits| - 1];
      var kept := FirstOccurrences(init);
      FirstOccurrencesTexts(init);
      assert hits == init + [hit];
      TextSetAppend(init, hit);
      if hit.text !in TextSet(kept) {
        TextSetAppend(kept, hit);
      }
    }
  }

  /** The first hit with each text is kept, with its own distance and length. */
  lemma {:induction false} FirstOccurrencesKeepsFirst(hits: seq<Hit>, j: nat)
    requires j < |hits| && IsFirst(hits, j)
    ensures hits[j] in FirstOccurrences(hits)
  {
    var init := hits[..|hits| - 1];
    var hit := hits[|hits| - 1];
    var kept := FirstOccurrences(init);
    if j < |hits| - 1 {
      assert init[j] == hits[j];
      FirstOccurrencesKeepsFirst(init, j);
    } else {
      // A text already kept would be the text of an earlier hit.
      FirstOccurrencesTexts(init);
    }
  }

  class VectorDBNode {
    /** `config["dim"]`: the vector dimension of the collections this node creates. */
    const dim: nat
    /** The Milvus server the node's client talks to. */
    var collections: Store

    constructor (dim: nat, collections: Store)
      ensures this.dim == dim && this.collections == collections
    {
      this.dim := dim;
      this.collections := collections;
    }

    method CreateMilvusCollection(name: string)
      modifies this
      ensures collections == AfterCreate(old(collections), name, dim)
    {
      if name in collections {
        return;
      }
      collections := collections[name := Collection(dim, [])];
    }

    method DeleteMilvusCollection(name: string)
      modifies this
      ensures collections == AfterDelete(old(collections), name)
    {
      if name in collections {
        collections := collections - {name};
      }
    }

    /** `list_milvus_collections`: the names of all collections on the server. */
    method ListMilvusCollections() returns (names: set<string>)
      ensures names == collections.Keys
    {
      names := collections.Keys;
    }

    method InsertDataIntoMilvus(name: string, chunks: Option<seq<string>>, embeddings: seq<Embedding>, now: int)
      returns (outcome: InsertOutcome)
      modifies this
      ensures (collections, outcome) == AfterInsert(old(collections), name, chunks, embeddings, now)
    {
      if name !in collections {
        return NoSuchCollection;
      }
      if chunks.None? {
        return ChunksNotIterable;
      }
      var columns := InsertColumns(chunks.value, embeddings, now);
      if !Accepts(collections[name], columns) {
        return Rejected;
      }
      var coll := collections[name];
      collections := collections[name := Collection(coll.dim, coll.records + RowsOf(columns))];
      outcome := Inserted(|chunks.value|);
    }

    /**
     * `search_similar_chunks`: `[]` when the collection does not exist or the
     * client's search raises; otherwise the de-duplicated hits, which hold no
     * two equal texts and, for every text among the hits, its first hit.
     */
    method SearchSimilarChunks(name: string, queryEmbedding: Embedding, searchResult: Option<seq<Hit>>, topK: int := 15)
      returns (similar: seq<Hit>)
      ensures name !in collections || searchResult.None? ==> similar == []
      ensures name in collections && searchResult.Some? ==>
        && similar == FirstOccurrences(searchResult.value)
        && DistinctTexts(similar)
        && IsSubsequence(similar, searchResult.value)
        && TextSet(similar) == TextSet(searchResult.value)
        && |similar| <= |searchResult.value|
        && (forall j | 0 <= j < |searchResult.value| && IsFirst(searchResult.value, j) ::
              searchResult.value[j] in similar)
    {
      if name !in collections {
        return [];
      }
      if searchResult.None? {
        return [];
      }
      var results := searchResult.value;
      similar := [];
      var seenText: set<string> := {};
      for i := 0 to |results|
        invariant similar == FirstOccurrences(results[..i])
        invariant seenText == TextSet(similar)
      {
        var hit := results[i];
        assert results[..i + 1] == results[..i] + [hit];
        if hit.text !in seenText {
          TextSetAppend(similar, hit);
          seenText := seenText + {hit.text};
          similar := similar + [hit];
        }
      }
      assert results[..|results|] == results;
      FirstOccurrencesDistinct(results);
      FirstOccurrencesSubsequence(results);
      FirstOccurrencesTexts(results);
      forall j | 0 <= j < |results| && IsFirst(results, j) ensures results[j] in similar {
        FirstOccurrencesKeepsFirst(results, j);
      }
    }
  }
}
