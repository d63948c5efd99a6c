/**
 * The HTTP service in front of the question-answering pipeline. A global
 * handle to the pipeline is set once at startup, or stays absent when the
 * pipeline could not be built; every endpoint checks it first. Failures are
 * answered with an HTTP status and a detail message.
 */
module Backend {
  import opened Wrappers
  import opened Text
  import opened Sequences
  import opened VectorStore
  import opened RagSystem

  /** What an endpoint needs of a built pipeline: the name of its embedding
      model, the embedding, search and chat services, and the collection's
      replies to count() and get(include=["metadatas"]) when asked. */
  datatype RagHandle = RagHandle(
    embeddingModel: string,
    embed: QueryEmbedder,
    search: Search,
    generate: Generator,
    count: Result<nat, string>,
    stored: Result<seq<Metadata>, string>)

  /** An HTTPException: status code and detail. */
  datatype HttpError = HttpError(status: nat, detail: string)

  datatype QueryRequest = QueryRequest(query: string, nResults: int)

  datatype RootReply = RootReply(message: string, status: string)

  datatype SystemInfoResponse = SystemInfoResponse(
    status: string,
    documentCount: Option<nat>,
    embeddingModel: Option<string>,
    llmModel: Option<string>,
    error: Option<string>)

  datatype QueryResponse = QueryResponse(response: string, sources: seq<Source>, query: string, status: string)

  const NotInitialized := "RAG system not initialized"
  const NotInitializedForQuery := "RAG system not initialized. Please check server logs."
  const EmptyQuery := "Query cannot be empty"

  /** The reply of a built pipeline's get_system_info, as the response model. */
  function InfoResponse(info: SystemInfo): (r: SystemInfoResponse)
    ensures info.Ready? ==> r == SystemInfoResponse("ready", Some(info.documentCount), Some(info.embeddingModel), Some(info.llmModel), None)
    ensures info.InfoError? ==> r == SystemInfoResponse("error", None, None, None, Some(info.error))
  {
    match info
    case Ready(n, embeddingModel, llmModel) => SystemInfoResponse("ready", Some(n), Some(embeddingModel), Some(llmModel), None)
    case InfoError(e) => SystemInfoResponse("error", None, None, None, Some(e))
  }

  // ---------------------------------------------------------------------------
  // /videos
  // ---------------------------------------------------------------------------

  datatype Video = Video(title: string, url: string, filename: string)

  /** The video a chunk's metadata names; missing fields read "Unknown", "" and "". */
  function VideoOf(m: Metadata): Video {
    Video(Get(m, "video_title", "Unknown"), Get(m, "video_url", ""), Get(m, "filename", ""))
  }

  function Titles(videos: seq<Video>): seq<string> {
    seq(|videos|, k requires 0 <= k < |videos| => videos[k].title)
  }

  function TitleList(metas: seq<Metadata>): seq<string> {
    seq(|metas|, i requires 0 <= i < |metas| => VideoOf(metas[i]).title)
  }

  /** The catalogue of stored chunks: one video per title, taken from the first
      chunk with that title, in the order titles first appear. */
  function Catalogue(metas: seq<Metadata>): seq<Video>
    decreases |metas|
  {
    if |metas| == 0 then []
    else
      var previous, v := Catalogue(metas[..|metas| - 1]), VideoOf(metas[|metas| - 1]);
      if v.title in Titles(previous) then previous else previous + [v]
  }

  /** metas[i] is the first chunk carrying its title. */
  predicate FirstOfTitle(metas: seq<Metadata>, i: int) {
    0 <= i < |metas| && forall j :: 0 <= j < i ==> VideoOf(metas[j]).title != VideoOf(metas[i]).title
  }

  /** The catalogue's titles are the chunks' titles, each once, in first-seen order. */
  lemma {:induction false} CatalogueSpec(metas: seq<Metadata>)
    ensures Titles(Catalogue(metas)) == Dedup(TitleList(metas))
    decreases |metas|
  {
    if |metas| > 0 {
      var p := metas[..|metas| - 1];
      var v := VideoOf(metas[|metas| - 1]);
      var previous := Catalogue(p);
      CatalogueSpec(p);
      DedupMembers(TitleList(p));
      assert TitleList(metas) == TitleList(p) + [v.title];
      assert TitleList(metas)[..|metas| - 1] == TitleList(p);
      if v.title !in Titles(previous) {
        assert Titles(previous + [v]) == Titles(previous) + [v.title];
      }
    }
  }

  /** Each catalogue entry is the video of the first chunk carrying its title. */
  lemma {:induction false} CatalogueFirstChunk(metas: seq<Metadata>, k: int)
    requires 0 <= k < |Catalogue(metas)|
    ensures exists i :: FirstOfTitle(metas, i) && Catalogue(metas)[k] == VideoOf(metas[i])
    decreases |metas|
  {
    var p := metas[..|metas| - 1];
    var v := VideoOf(metas[|metas| - 1]);
    var previous := Catalogue(p);
    if k < |previous| {
      assert Catalogue(metas)[k] == previous[k];
      CatalogueFirstChunk(p, k);
      var i :| FirstOfTitle(p, i) && previous[k] == VideoOf(p[i]);
      assert forall j :: 0 <= j <= i ==> p[j] == metas[j];
      assert FirstOfTitle(metas, i);
    } else {
      assert v.title !in Titles(previous);
      CatalogueSpec(p);
      DedupMembers(TitleList(p));
      forall j | 0 <= j < |p|
        ensures VideoOf(metas[j]).title != v.title
      {
        assert TitleList(p)[j] == VideoOf(metas[j]).title;
      }
      assert FirstOfTitle(metas, |metas| - 1);
    }
  }

  /** The state of the listing loop after the chunks metas: a dictionary from
      title to video whose insertion order is order, holding the catalogue. */
  predicate Tracks(videos: map<string, Video>, order: seq<string>, metas: seq<Metadata>) {
    && Distinct(order)
    && videos.Keys == (set t | t in order)
    && order == Titles(Catalogue(metas))
    && forall k :: 0 <= k < |order| ==> order[k] in videos && videos[order[k]] == Catalogue(metas)[k]
  }

  /** One more chunk: a new title is inserted at the end, a known one changes nothing. */
  lemma TracksStep(videos: map<string, Video>, order: seq<string>, metas: seq<Metadata>, m: Metadata)
    requires Tracks(videos, order, metas)
    ensures var v := VideoOf(m);
      if v.title in videos then Tracks(videos, order, metas + [m])
      else Tracks(videos[v.title := v], order + [v.title], metas + [m])
  {
    var v, c := VideoOf(m), Catalogue(metas);
    assert (metas + [m])[..|metas|] == metas;
    assert v.title in Titles(c) <==> v.title in videos;
    if v.title !in videos {
      var c2, order2, videos2 := c + [v], order + [v.title], videos[v.title := v];
      assert Catalogue(metas + [m]) == c2;
      assert Titles(c2) == order2;
      assert videos2.Keys == (set t | t in order2);
      forall k | 0 <= k < |order2|
        ensures order2[k] in videos2 && videos2[order2[k]] == c2[k]
      {
        if k < |order| {
          assert order[k] in order;
        }
      }
    }
  }

  /** The titles of the catalogue are all different. */
  lemma CatalogueTitlesDistinct(metas: seq<Metadata>)
    ensures Distinct(Titles(Catalogue(metas)))
    ensures |Catalogue(metas)| <= |metas|
  {
    CatalogueSpec(metas);
    DedupMembers(TitleList(metas));
  }

  datatype VideoList = VideoList(videos: seq<Video>, totalCount: nat)

  // ---------------------------------------------------------------------------
  // /search
  // ---------------------------------------------------------------------------

  /** A search hit's content: the first 200 characters and "..." when the
      document is longer, else the whole document. */
  function Truncate(doc: string): (r: string)
    ensures |doc| <= 200 ==> r == doc
    ensures |doc| > 200 ==> |r| == 203 && r[..200] == doc[..200] && r[200..] == "..."
  {
    if |doc| > 200 then doc[..200] + "..." else doc
  }

  datatype Hit = Hit(content: string, videoTitle: string, videoUrl: string, similarityScore: real, filename: string)

  function HitOf(doc: string, m: Metadata, distance: real): Hit {
    Hit(Truncate(doc), Get(m, "video_title", "Unknown"), Get(m, "video_url", ""), 1.0 - distance, Get(m, "filename", ""))
  }

  function Min3(a: int, b: int, c: int): int {
    Min(a, Min(b, c))
  }

  /** The hits of zip(docs, metas, distances): as many as the shortest list has. */
  function Hits(docs: seq<string>, metas: seq<Metadata>, distances: seq<real>): seq<Hit> {
    seq(Min3(|docs|, |metas|, |distances|),
      i requires 0 <= i < Min3(|docs|, |metas|, |distances|) => HitOf(docs[i], metas[i], distances[i]))
  }

  function Zeros(n: nat): seq<real> {
    seq(n, _ => 0.0)
  }

  /** The distances used for the hits: the first distance list when there is
      one, else a zero for every document. */
  function DistancesOf(results: RetrievalResults, docs: seq<string>): seq<real> {
    if |results.distances| > 0 then results.distances[0] else Zeros(|docs|)
  }

  /** Hit i reports chunk i: its shortened text, its metadata fields and one minus
      its distance as similarity; without distances every similarity is 1. */
  lemma HitsSpec(docs: seq<string>, metas: seq<Metadata>, distances: seq<real>)
    ensures |Hits(docs, metas, distances)| == Min3(|docs|, |metas|, |distances|)
    ensures forall i :: 0 <= i < |Hits(docs, metas, distances)| ==>
      var h := Hits(docs, metas, distances)[i];
      && h.similarityScore + distances[i] == 1.0
      && h.videoTitle == Get(metas[i], "video_title", "Unknown")
      && h.videoUrl == Get(metas[i], "video_url", "")
      && h.filename == Get(metas[i], "filename", "")
      && (|docs[i]| <= 200 ==> h.content == docs[i])
      && (|docs[i]| > 200 ==> h.content == docs[i][..200] + "...")
    ensures |metas| >= |docs| ==> forall i :: 0 <= i < |Hits(docs, metas, Zeros(|docs|))| ==>
      Hits(docs, metas, Zeros(|docs|))[i].similarityScore == 1.0
    ensures |metas| >= |docs| ==> |Hits(docs, metas, Zeros(|docs|))| == |docs|
  {
  }

  datatype SearchResponse = SearchResponse(query: string, results: seq<Hit>, totalResults: nat)

  /** The server process: the global pipeline handle and the endpoints. */
  class Server {
    var rag: Option<RagHandle>

    /** At import the handle is absent. */
    constructor ()
      ensures rag == None
    {
      rag := None;
    }

    /** startup_event: builds the pipeline; a failure leaves the handle absent. */
    method Startup(init: Result<RagHandle, string>)
      modifies this
      ensures init.Ok? ==> rag == Some(init.value)
      ensures init.Err? ==> rag == None
    {
      match init
      case Ok(handle) => rag := Some(handle);
      case Err(_) => rag := None;
    }

    /** GET /: the service is healthy exactly when the pipeline was built. */
    function Root(): (r: RootReply)
      reads this
      ensures r.message == "YouTube Transcript RAG API is running"
      ensures r.status == "healthy" <==> rag.Some?
      ensures r.status == "unhealthy" <==> rag.None?
    {
      RootReply("YouTube Transcript RAG API is running", if rag.Some? then "healthy" else "unhealthy")
    }

    /** GET /system-info as written: an error status without a pipeline; else the
        pipeline's report, whose status is "ready" exactly when counting the
        collection worked, and which names the hard-coded chat model. */
    function GetSystemInfoEndpoint(): (r: SystemInfoResponse)
      reads this
      ensures rag.None? ==> r == SystemInfoResponse("error", None, None, None, Some(NotInitialized))
      ensures rag.Some? ==> (r.status == "ready" <==> rag.value.count.Ok?)
      ensures rag.Some? && rag.value.count.Ok? ==>
        r.documentCount == Some(rag.value.count.value) && r.embeddingModel == Some(rag.value.embeddingModel) &&
        r.llmModel == Some(ReportedModelAsWritten)
      ensures rag.Some? && rag.value.count.Err? ==> r.error == Some(rag.value.count.error) && r.documentCount == None
    {
      match rag
      case None => SystemInfoResponse("error", None, None, None, Some(NotInitialized))
      case Some(handle) => InfoResponse(SystemInfoAsWritten(handle.count, handle.embeddingModel))
    }

    /** GET /system-info over the corrected report: the same reply, except that a
        ready reply names the chat model that generates the answers. */
    function GetSystemInfoEndpointCorrected(): (r: SystemInfoResponse)
      reads this
      ensures rag.None? ==> r == SystemInfoResponse("error", None, None, None, Some(NotInitialized))
      ensures rag.Some? ==> (r.status == "ready" <==> rag.value.count.Ok?)
      ensures rag.Some? && rag.value.count.Ok? ==>
        r.documentCount == Some(rag.value.count.value) && r.embeddingModel == Some(rag.value.embeddingModel) &&
        r.llmModel == Some(GenerationModel)
      ensures rag.Some? && rag.value.count.Err? ==> r.error == Some(rag.value.count.error) && r.documentCount == None
      ensures rag.Some? && rag.value.count.Ok? ==> r == GetSystemInfoEndpoint().(llmModel := Some(GenerationModel))
      ensures rag.None? || rag.value.count.Err? ==> r == GetSystemInfoEndpoint()
    {
      match rag
      case None => SystemInfoResponse("error", None, None, None, Some(NotInitialized))
      case Some(handle) => InfoResponse(RagSystem.SystemInfoCorrected(handle.count, handle.embeddingModel))
    }

    /** POST /query: 503 without a pipeline, 400 for a blank question, otherwise
        the pipeline's answer, sources and question with status "success". */
    method QueryTranscripts(request: QueryRequest) returns (r: Result<QueryResponse, HttpError>)
      ensures rag.None? ==> r == Err(HttpError(503, NotInitializedForQuery))
      ensures rag.Some? && IsBlank(request.query) ==> r == Err(HttpError(400, EmptyQuery))
      ensures rag.Some? && !IsBlank(request.query) ==>
        var handle := rag.value;
        var retrieved := RetrieveRelevantChunks(request.query, request.nResults, handle.embed, handle.search);
        && r.Ok? && r.value.status == "success" && r.value.query == request.query
        && (retrieved.Err? ==>
              r.value.response == "Error processing your query: " + retrieved.error && r.value.sources == [])
        && (retrieved.Ok? ==>
              r.value.response == GenerateResponse(request.query, Context(retrieved.value), handle.generate) &&
              r.value.sources == SourcesOf(retrieved.value))
    {
      if rag.None? {
        return Err(HttpError(503, NotInitializedForQuery));
      }
      StripEmptyIffBlank(request.query);
      if Strip(request.query) == "" {
        return Err(HttpError(400, EmptyQuery));
      }
      var handle := rag.value;
      var result := Query(request.query, request.nResults, handle.embed, handle.search, handle.generate);
      r := Ok(QueryResponse(result.response, result.sources, result.query, "success"));
    }

    /** GET /videos: 503 without a pipeline, 500 when reading the collection
        fails, otherwise one entry per distinct title, in first-seen order, and
        their number. */
    method GetAvailableVideos() returns (r: Result<VideoList, HttpError>)
      ensures rag.None? ==> r == Err(HttpError(503, NotInitialized))
      ensures rag.Some? && rag.value.stored.Err? ==> r == Err(HttpError(500, rag.value.stored.error))
      ensures rag.Some? && rag.value.stored.Ok? ==>
        r.Ok? && r.value.videos == Catalogue(rag.value.stored.value) && r.value.totalCount == |r.value.videos|
    {
      if rag.None? {
        return Err(HttpError(503, NotInitialized));
      }
      if rag.value.stored.Err? {
        return Err(HttpError(500, rag.value.stored.error));
      }
      var metadatas := rag.value.stored.value;
      var videos: map<string, Video> := map[];
      var order: seq<string> := [];  // the dictionary's insertion order
      for i := 0 to |metadatas|
        invariant Tracks(videos, order, metadatas[..i])
      {
        var videoTitle := Get(metadatas[i], "video_title", "Unknown");
        var videoUrl := Get(metadatas[i], "video_url", "");
        var filename := Get(metadatas[i], "filename", "");
        assert metadatas[..i + 1] == metadatas[..i] + [metadatas[i]];
        TracksStep(videos, order, metadatas[..i], metadatas[i]);
        if videoTitle !in videos {
          videos := videos[videoTitle := Video(videoTitle, videoUrl, filename)];
          order := order + [videoTitle];
        }
      }
      assert metadatas[..|metadatas|] == metadatas;
      DistinctSetSize(order);
      var values := ValuesInOrder(videos, order);
      assert values == Catalogue(metadatas);
      r := Ok(VideoList(values, |videos|));
    }

    /** POST /search: 503 without a pipeline, 400 for a blank question, 500 when
        retrieval fails or documents come without metadata; otherwise one hit per
        retrieved chunk and their number. */
    method SearchSimilarContent(request: QueryRequest) returns (r: Result<SearchResponse, HttpError>)
      ensures rag.None? ==> r == Err(HttpError(503, NotInitialized))
      ensures rag.Some? && IsBlank(request.query) ==> r == Err(HttpError(400, EmptyQuery))
      ensures rag.Some? && !IsBlank(request.query) ==>
        var retrieved := RetrieveRelevantChunks(request.query, request.nResults, rag.value.embed, rag.value.search);
        && (retrieved.Err? ==> r == Err(HttpError(500, retrieved.error)))
        && (retrieved.Ok? && |retrieved.value.documents| == 0 ==> r == Ok(SearchResponse(request.query, [], 0)))
        && (retrieved.Ok? && |retrieved.value.documents| > 0 && |retrieved.value.metadatas| == 0 ==>
              r == Err(HttpError(500, "list index out of range")))
        && (retrieved.Ok? && |retrieved.value.documents| > 0 && |retrieved.value.metadatas| > 0 ==>
              var docs := retrieved.value.documents[0];
              var hits := Hits(docs, retrieved.value.metadatas[0], DistancesOf(retrieved.value, docs));
              r == Ok(SearchResponse(request.query, hits, |hits|)))
    {
      if rag.None? {
        return Err(HttpError(503, NotInitialized));
      }
      StripEmptyIffBlank(request.query);
      if Strip(request.query) == "" {
        return Err(HttpError(400, EmptyQuery));
      }
      var retrieved := RetrieveRelevantChunks(request.query, request.nResults, rag.value.embed, rag.value.search);
      if retrieved.Err? {
        return Err(HttpError(500, retrieved.error));
      }
      var formatted := FormatHits(retrieved.value);
      if formatted.Err? {
        return Err(formatted.error);
      }
      var results := formatted.value;
      r := Ok(SearchResponse(request.query, results, |results|));
    }
  }

  /** The result formatting of /search: no hits without documents; documents
      without metadata raise an index error; otherwise one hit per chunk. */
  method FormatHits(retrievalResults: RetrievalResults) returns (r: Result<seq<Hit>, HttpError>)
    ensures |retrievalResults.documents| == 0 ==> r == Ok([])
    ensures |retrievalResults.documents| > 0 && |retrievalResults.metadatas| == 0 ==>
      r == Err(HttpError(500, "list index out of range"))
    ensures |retrievalResults.documents| > 0 && |retrievalResults.metadatas| > 0 ==>
      var docs := retrievalResults.documents[0];
      r == Ok(Hits(docs, retrievalResults.metadatas[0], DistancesOf(retrievalResults, docs)))
  {
    var results: seq<Hit> := [];
    if |retrievalResults.documents| > 0 {
      var documents := retrievalResults.documents[0];
      if |retrievalResults.metadatas| == 0 {
        return Err(HttpError(500, "list index out of range"));
      }
      var metadatas := retrievalResults.metadatas[0];
      var distances := if |retrievalResults.distances| > 0 then retrievalResults.distances[0] else Zeros(|documents|);
      var n := Min3(|documents|, |metadatas|, |distances|);
      for i := 0 to n
        invariant results == Hits(documents[..i], metadatas[..i], distances[..i])
      {
        var doc := documents[i];
        var content := if |doc| > 200 then doc[..200] + "..." else doc;
        results := results + [Hit(content, Get(metadatas[i], "video_title", "Unknown"), Get(metadatas[i], "video_url", ""),
                                  1.0 - distances[i], Get(metadatas[i], "filename", ""))];
      }
      assert results == Hits(documents, metadatas, distances);
    }
    r := Ok(results);
  }

  /** list(videos.values()): the values of a dictionary in its insertion order. */
  function ValuesInOrder(videos: map<string, Video>, order: seq<string>): (values: seq<Video>)
    requires forall k :: 0 <= k < |order| ==> order[k] in videos
    ensures |values| == |order|
    ensures forall k :: 0 <= k < |order| ==> values[k] == videos[order[k]]
  {
    seq(|order|, k requires 0 <= k < |order| => videos[order[k]])
  }
}
