/**
 * services/MakeDatasetRAG.py: one ingestion run. The pages are parsed, the
 * chunking node runs, the chunks are embedded, and the target collection is
 * deleted, created afresh and filled. The page fetcher, the splitter, the
 * embedding server and the clock are parameters.
 */
module Ingestion {
  import opened Wrappers
  import opened VectorDB
  import opened DataElements
  import Parsing
  import Chunking

  /** The embedding server's answer: HTTP status, the decoded JSON vectors and the raw body. */
  datatype EmbedResponse = EmbedResponse(statusCode: int, vectors: seq<Embedding>, body: string)

  /**
   * `embed_documents`: a 200 answer yields its vectors; any other status
   * raises with the status and the body.
   */
  function EmbedDocuments(resp: EmbedResponse): (r: Result<seq<Embedding>, (int, string)>)
    ensures r.Success? <==> resp.statusCode == 200
    ensures r.Success? ==> r.value == resp.vectors
    ensures r.Failure? ==> r.error == (resp.statusCode, resp.body)
  {
    if resp.statusCode == 200 then Success(resp.vectors) else Failure((resp.statusCode, resp.body))
  }

  /** How a run of `process` ends. */
  datatype IngestOutcome =
    | EmbedFailed(status: int, body: string)   // the embedder raised
    | Stored(insert: InsertOutcome)            // the collection was replaced; how the insert ended
    | ChunksDumpFailed                         // `save_chunks` raised on `chunks = None`

  /**
   * The store after embedding `chunks` (answered by `resp`), deleting,
   * creating and inserting into `name`. A failed embedding changes nothing.
   * Otherwise `name` is a fresh collection of dimension `dim` holding, when
   * the insert is accepted, exactly one record per chunk of this run and no
   * earlier record, and holding nothing when it is not; no other collection
   * changes.
   */
  function IngestSpec(store: Store, name: string, dim: nat, chunks: Option<seq<string>>, resp: EmbedResponse, now: int)
    : (r: (Store, IngestOutcome))
    ensures resp.statusCode != 200 ==> r == (store, EmbedFailed(resp.statusCode, resp.body))
    ensures resp.statusCode == 200 ==>
      && r.1.Stored? && !r.1.insert.NoSuchCollection?
      && r.0.Keys == store.Keys + {name}
      && r.0[name].dim == dim
      && (forall other | other in store && other != name :: r.0[other] == store[other])
    ensures resp.statusCode == 200 ==>
      (r.1.insert.Inserted? <==>
        chunks.Some? && |resp.vectors| == |chunks.value| && forall e | e in resp.vectors :: |e| == dim)
    ensures resp.statusCode == 200 && !r.1.insert.Inserted? ==> r.0[name].records == []
    ensures resp.statusCode == 200 && r.1.insert.Inserted? ==>
      && r.1.insert.count == |chunks.value|
      && |r.0[name].records| == |chunks.value|
      && forall i | 0 <= i < |chunks.value| ::
           r.0[name].records[i] == Record(resp.vectors[i], chunks.value[i], |chunks.value[i]|, now)
  {
    match EmbedDocuments(resp)
    case Failure(e) => (store, EmbedFailed(e.0, e.1))
    case Success(vectors) =>
      var created := AfterCreate(AfterDelete(store, name), name, dim);
      var (after, inserted) := AfterInsert(created, name, chunks, vectors, now);
      (after, Stored(inserted))
  }

  /**
   * Replacing, not appending: a second successful run with the same chunks
   * leaves the same texts and lengths in the same number of records.
   */
  lemma IngestTwiceReplaces(store: Store, name: string, dim: nat, chunks: seq<string>, resp: EmbedResponse, now1: int, now2: int)
    requires resp.statusCode == 200 && |resp.vectors| == |chunks|
    requires forall e | e in resp.vectors :: |e| == dim
    ensures var once := IngestSpec(store, name, dim, Some(chunks), resp, now1).0;
      var twice := IngestSpec(once, name, dim, Some(chunks), resp, now2).0;
      && twice.Keys == once.Keys
      && |twice[name].records| == |once[name].records| == |chunks|
      && (forall i | 0 <= i < |chunks| ::
            && twice[name].records[i].text == once[name].records[i].text == chunks[i]
            && twice[name].records[i].chunkLength == once[name].records[i].chunkLength)
      && (forall other | other in once && other != name :: twice[other] == once[other])
  {
  }

  /**
   * As written, `process` hands `chunks = None` onward: a successful embedding
   * still wipes the collection, and the insert then raises, so no run stores
   * a chunk.
   */
  lemma ProcessWithoutChunksWipes(store: Store, name: string, dim: nat, resp: EmbedResponse, now: int)
    requires resp.statusCode == 200
    ensures var r := IngestSpec(store, name, dim, None, resp, now);
      && r.1 == Stored(ChunksNotIterable)
      && r.0[name] == Collection(dim, [])
  {
  }

  /** The chunks `generate_chunks` makes from the parsed pages of `urlList`. */
  function ChunksOf(urlList: seq<string>, parse: string -> Parsing.Parsed, split: string -> seq<string>): seq<string> {
    var d := Parsing.UrlDataFor(urlList, parse);
    Parsing.UrlDataForEntries(urlList, parse);
    assert forall k | 0 <= k < |d.Values()| :: Chunking.IsDocument(d.Values()[k]) by {
      forall k | 0 <= k < |d.Values()| ensures Chunking.IsDocument(d.Values()[k]) {
        assert d.keys[k] in d.values;
      }
    }
    Chunking.AllChunks(d.Values(), split)
  }

  class MakeDatasetRAG {
    const dataParsingNode: Parsing.DataParsingNode
    const vectorDbNode: VectorDBNode

    /** The nodes built from the configuration: `min_words`, `dim` and the server's current state. */
    constructor (minWords: int, dim: nat, store: Store)
      ensures fresh(dataParsingNode) && fresh(vectorDbNode)
      ensures dataParsingNode.minWords == minWords
      ensures vectorDbNode.dim == dim && vectorDbNode.collections == store
    {
      dataParsingNode := new Parsing.DataParsingNode(minWords);
      vectorDbNode := new VectorDBNode(dim, store);
    }

    /** The embed, delete, create and insert steps of `process`, in that order. */
    method Ingest(name: string, chunks: Option<seq<string>>, embed: Option<seq<string>> -> EmbedResponse, now: int)
      returns (outcome: IngestOutcome)
      modifies vectorDbNode
      ensures (vectorDbNode.collections, outcome) ==
        IngestSpec(old(vectorDbNode.collections), name, vectorDbNode.dim, chunks, embed(chunks), now)
    {
      var embedded := EmbedDocuments(embed(chunks));
      if embedded.Failure? {
        return EmbedFailed(embedded.error.0, embedded.error.1);
      }
      vectorDbNode.DeleteMilvusCollection(name);
      vectorDbNode.CreateMilvusCollection(name);
      var inserted := vectorDbNode.InsertDataIntoMilvus(name, chunks, embedded.value, now);
      outcome := Stored(inserted);
    }

    /**
     * `process` as written. The chunking node returns the element unchanged,
     * so its chunks are still `None`: with `show_data_info` the dump raises
     * before the store is touched; without it the run is `Ingest` on `None`,
     * which never stores a chunk.
     */
    method Process(urlList: seq<string>, parse: string -> Parsing.Parsed, embed: Option<seq<string>> -> EmbedResponse,
                   now: int, collectionDbName: string := "default", showDataInfo: bool := false)
      returns (outcome: IngestOutcome)
      modifies vectorDbNode
      ensures showDataInfo ==>
        outcome == ChunksDumpFailed && vectorDbNode.collections == old(vectorDbNode.collections)
      ensures !showDataInfo ==>
        (vectorDbNode.collections, outcome) ==
          IngestSpec(old(vectorDbNode.collections), collectionDbName, vectorDbNode.dim, None, embed(None), now)
      ensures outcome.Stored? ==> outcome.insert == ChunksNotIterable
    {
      var element := new DataElement(urlList, collectionDbName);
      dataParsingNode.Process(element, parse);
      // The chunking node is the identity on the element.
      if showDataInfo {
        // `save_chunks` enumerates `element.chunks`, which is `None`.
        return ChunksDumpFailed;
      }
      outcome := Ingest(collectionDbName, element.chunks, embed, now);
    }

    /**
     * `process` with the chunks of `generate_chunks` put on the element
     * before embedding: the run is `Ingest` on those chunks, so a successful
     * one leaves exactly one record per chunk in the collection.
     */
    method ProcessWithChunking(urlList: seq<string>, parse: string -> Parsing.Parsed, split: string -> seq<string>,
                               embed: Option<seq<string>> -> EmbedResponse, now: int,
                               collectionDbName: string := "default")
      returns (outcome: IngestOutcome)
      modifies vectorDbNode
      ensures var chunks := ChunksOf(urlList, parse, split);
        (vectorDbNode.collections, outcome) ==
          IngestSpec(old(vectorDbNode.collections), collectionDbName, vectorDbNode.dim, Some(chunks), embed(Some(chunks)), now)
    {
      var element := new DataElement(urlList, collectionDbName);
      dataParsingNode.Process(element, parse);
      Parsing.UrlDataForEntries(urlList, parse);
      var chunks := Chunking.GenerateChunks(element.urlData.value, split);
      element.chunks := Some(chunks);
      outcome := Ingest(collectionDbName, element.chunks, embed, now);
    }
  }
}
