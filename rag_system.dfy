/**
 * The question-answering pipeline over the transcript collection: embed the
 * question, fetch its nearest chunks, format them into a context block, ask
 * the chat model, and list the distinct videos the chunks came from.
 *
 * The embedding service, the nearest-neighbour search and the chat model are
 * parameters: each is a function from its request to its reply or an error
 * message.
 */
module RagSystem {
  import opened Wrappers
  import opened Text
  import opened Sequences
  import opened VectorStore

  /** The result of collection.query for one query vector: each field is the
      outer list of Chroma's answer, whose element 0 belongs to that vector. An
      empty outer list stands for a missing field as well as an empty one. */
  datatype RetrievalResults = RetrievalResults(
    documents: seq<seq<string>>,
    metadatas: seq<seq<Metadata>>,
    distances: seq<seq<real>>)

  /** The embedding service for a query text. */
  type QueryEmbedder = string -> Result<Embedding, string>

  /** The nearest-neighbour search of the collection: a vector and n_results. */
  type Search = (Embedding, int) -> Result<RetrievalResults, string>

  /** The chat model: its reply to a request for the named model, the question
      and the context, or the message of the exception the call raised. */
  type Generator = (string, string, string) -> Result<string, string>

  /** retrieve_relevant_chunks: embed the question, then search with its vector.
      An embedding failure stops before the search. */
  function RetrieveRelevantChunks(query: string, nResults: int, embed: QueryEmbedder, search: Search): (r: Result<RetrievalResults, string>)
    ensures embed(query).Err? ==> r == Err(embed(query).error)
    ensures embed(query).Ok? ==> r == search(embed(query).value, nResults)
  {
    match embed(query)
    case Err(e) => Err(e)
    case Ok(vector) => search(vector, nResults)
  }

  // ---------------------------------------------------------------------------
  // format_context
  // ---------------------------------------------------------------------------

  /** The context block of one retrieved chunk; a missing title reads "Unknown Video". */
  function ContextBlock(doc: string, m: Metadata): string {
    "\nVideo: " + Get(m, "video_title", "Unknown Video") + "\nURL: " + Get(m, "video_url", "") + "\nContent: " + doc + "\n---\n"
  }

  function Min(a: int, b: int): int {
    if a <= b then a else b
  }

  /** One block per pair of zip(docs, metas): as many as the shorter list has. */
  function ContextBlocks(docs: seq<string>, metas: seq<Metadata>): seq<string> {
    seq(Min(|docs|, |metas|), i requires 0 <= i < Min(|docs|, |metas|) => ContextBlock(docs[i], metas[i]))
  }

  /** Whether the results hold at least one (document, metadata) pair. */
  predicate HasPairs(results: RetrievalResults) {
    |results.documents| > 0 && |results.metadatas| > 0 &&
    Min(|results.documents[0]|, |results.metadatas[0]|) > 0
  }

  /** The context handed to the chat model: the blocks joined by line breaks;
      the empty string when a field has no element 0 (the indexing raises and
      the error is swallowed). */
  function Context(results: RetrievalResults): string {
    if |results.documents| == 0 || |results.metadatas| == 0 then ""
    else Join(ContextBlocks(results.documents[0], results.metadatas[0]), "\n")
  }

  /** format_context */
  method FormatContext(results: RetrievalResults) returns (context: string)
    ensures context == Context(results)
  {
    if |results.documents| == 0 || |results.metadatas| == 0 {
      return "";
    }
    var documents, metadatas := results.documents[0], results.metadatas[0];
    var parts: seq<string> := [];
    var n := Min(|documents|, |metadatas|);
    for i := 0 to n
      invariant parts == ContextBlocks(documents[..i], metadatas[..i])
    {
      var title := Get(metadatas[i], "video_title", "Unknown Video");
      var url := Get(metadatas[i], "video_url", "");
      parts := parts + ["\nVideo: " + title + "\nURL: " + url + "\nContent: " + documents[i] + "\n---\n"];
    }
    assert parts == ContextBlocks(documents, metadatas);
    context := Join(parts, "\n");
  }

  /** The context is empty exactly when there is no pair to format; otherwise it
      starts with the block of the best match. */
  lemma ContextEmptyIff(results: RetrievalResults)
    ensures Context(results) == "" <==> !HasPairs(results)
    ensures HasPairs(results) ==> ContextBlock(results.documents[0][0], results.metadatas[0][0]) <= Context(results)
  {
    if HasPairs(results) {
      var blocks := ContextBlocks(results.documents[0], results.metadatas[0]);
      assert |blocks[0]| > 0;
    }
  }

  /** One more pair adds its block behind a line break, after the blocks so far:
      blocks appear in retrieval order. */
  lemma ContextBlocksExtend(docs: seq<string>, metas: seq<Metadata>, doc: string, m: Metadata)
    requires |docs| == |metas|
    ensures ContextBlocks(docs + [doc], metas + [m]) == ContextBlocks(docs, metas) + [ContextBlock(doc, m)]
    ensures |docs| > 0 ==>
      Join(ContextBlocks(docs + [doc], metas + [m]), "\n") == Join(ContextBlocks(docs, metas), "\n") + "\n" + ContextBlock(doc, m)
  {
    var blocks := ContextBlocks(docs, metas);
    assert ContextBlocks(docs + [doc], metas + [m]) == blocks + [ContextBlock(doc, m)];
    if |docs| > 0 {
      JoinSnoc(blocks, ContextBlock(doc, m), "\n");
    }
  }

  // ---------------------------------------------------------------------------
  // Sources
  // ---------------------------------------------------------------------------

  /** The source record of a chunk; missing fields read "Unknown", "" and "". */
  datatype Source = Source(videoTitle: string, videoUrl: string, filename: string)

  function SourceOf(m: Metadata): Source {
    Source(Get(m, "video_title", "Unknown"), Get(m, "video_url", ""), Get(m, "filename", ""))
  }

  function SourceList(metas: seq<Metadata>): seq<Source> {
    seq(|metas|, i requires 0 <= i < |metas| => SourceOf(metas[i]))
  }

  /** The sources of the retrieved chunks, each once, in retrieval order. */
  function SourcesOf(results: RetrievalResults): seq<Source> {
    if |results.metadatas| == 0 then [] else Dedup(SourceList(results.metadatas[0]))
  }

  /** The source loop of query: appends every source record not yet listed. */
  method CollectSources(results: RetrievalResults) returns (sources: seq<Source>)
    ensures sources == SourcesOf(results)
  {
    sources := [];
    if |results.metadatas| == 0 {
      return;
    }
    var metadatas := results.metadatas[0];
    for i := 0 to |metadatas|
      invariant sources == Dedup(SourceList(metadatas[..i]))
    {
      var sourceInfo := Source(Get(metadatas[i], "video_title", "Unknown"), Get(metadatas[i], "video_url", ""), Get(metadatas[i], "filename", ""));
      var listed := SourceList(metadatas[..i]);
      assert SourceList(metadatas[..i + 1]) == listed + [sourceInfo];
      assert (listed + [sourceInfo])[..i] == listed;
      DedupMembers(listed);
      if sourceInfo !in sources {
        sources := sources + [sourceInfo];
      }
    }
    assert metadatas[..|metadatas|] == metadatas;
  }

  /** A record is listed exactly when some retrieved chunk has it; none twice;
      no more records than chunks; in the order of their first chunk. */
  lemma SourcesSpec(results: RetrievalResults)
    requires |results.metadatas| > 0
    ensures var metas := results.metadatas[0];
      forall s :: s in SourcesOf(results) <==> exists i :: 0 <= i < |metas| && SourceOf(metas[i]) == s
    ensures Distinct(SourcesOf(results))
    ensures |SourcesOf(results)| <= |results.metadatas[0]|
    ensures var list := SourceList(results.metadatas[0]);
      forall i, j :: 0 <= i < j < |SourcesOf(results)| ==>
        SourcesOf(results)[i] in list && SourcesOf(results)[j] in list &&
        FirstIndex(list, SourcesOf(results)[i]) < FirstIndex(list, SourcesOf(results)[j])
  {
    var metas := results.metadatas[0];
    var list := SourceList(metas);
    DedupSpec(list);
    forall s | s in list
      ensures exists i :: 0 <= i < |metas| && SourceOf(metas[i]) == s
    {
      var i :| 0 <= i < |list| && list[i] == s;
    }
    forall i | 0 <= i < |metas|
      ensures SourceOf(metas[i]) in list
    {
      assert list[i] == SourceOf(metas[i]);
    }
  }

  /** With no metadata list there are no sources. */
  lemma SourcesOfNothing(results: RetrievalResults)
    requires |results.metadatas| == 0
    ensures SourcesOf(results) == []
  {
  }

  // ---------------------------------------------------------------------------
  // generate_response and query
  // ---------------------------------------------------------------------------

  /** The chat model every answer is generated with. */
  const GenerationModel := "llama-3.1-8b-instant"

  /** The text of a chat reply; an exception becomes an apology that names it. */
  function ResponseText(reply: Result<string, string>): (text: string)
    ensures reply.Ok? ==> text == reply.value
    ensures reply.Err? ==> text == "Error generating response: " + reply.error
  {
    match reply
    case Ok(answer) => answer
    case Err(e) => "Error generating response: " + e
  }

  /** generate_response: asks the generation model; never fails. The answer is
      that model's reply, or an apology naming the error the call raised. */
  function GenerateResponse(query: string, context: string, generate: Generator): (answer: string)
    ensures generate(GenerationModel, query, context).Ok? ==> answer == generate(GenerationModel, query, context).value
    ensures generate(GenerationModel, query, context).Err? ==>
      answer == "Error generating response: " + generate(GenerationModel, query, context).error
  {
    ResponseText(generate(GenerationModel, query, context))
  }

  datatype QueryResult = QueryResult(response: string, sources: seq<Source>, context: string, query: string)

  /** query: the complete pipeline. The only failure that reaches it is the
      retrieval's; it answers with an apology, no sources and no context. The
      question is always echoed back. */
  method Query(userQuery: string, nResults: int, embed: QueryEmbedder, search: Search, generate: Generator)
    returns (result: QueryResult)
    ensures result.query == userQuery
    ensures var retrieved := RetrieveRelevantChunks(userQuery, nResults, embed, search);
      retrieved.Err? ==> result == QueryResult("Error processing your query: " + retrieved.error, [], "", userQuery)
    ensures var retrieved := RetrieveRelevantChunks(userQuery, nResults, embed, search);
      retrieved.Ok? ==>
        && result.context == Context(retrieved.value)
        && result.response == GenerateResponse(userQuery, Context(retrieved.value), generate)
        && result.sources == SourcesOf(retrieved.value)
  {
    var retrieved := RetrieveRelevantChunks(userQuery, nResults, embed, search);
    if retrieved.Err? {
      return QueryResult("Error processing your query: " + retrieved.error, [], "", userQuery);
    }
    var context := FormatContext(retrieved.value);
    var response := GenerateResponse(userQuery, context, generate);
    var sources := CollectSources(retrieved.value);
    result := QueryResult(response, sources, context, userQuery);
  }

  // ---------------------------------------------------------------------------
  // get_system_info
  // ---------------------------------------------------------------------------

  datatype SystemInfo =
    | Ready(documentCount: nat, embeddingModel: string, llmModel: string)
    | InfoError(error: string)

  /** The model name get_system_info reports, as the code has it. */
  const ReportedModelAsWritten := "llama3-8b-8192"

  /** get_system_info as written: the reported chat model is not the one
      generate_response calls. */
  function SystemInfoAsWritten(count: Result<nat, string>, embeddingModel: string): (info: SystemInfo)
    ensures info.Ready? <==> count.Ok?
    ensures count.Ok? ==> info.documentCount == count.value && info.embeddingModel == embeddingModel
    ensures count.Ok? ==> info.llmModel == ReportedModelAsWritten && info.llmModel != GenerationModel
    ensures count.Err? ==> info.error == count.error
  {
    match count
    case Err(e) => InfoError(e)
    case Ok(n) =>
      assert |ReportedModelAsWritten| != |GenerationModel|;
      Ready(n, embeddingModel, ReportedModelAsWritten)
  }

  /** get_system_info, reporting the chat model that answers: the collection
      size and the models when counting succeeds, the error otherwise. */
  function SystemInfoCorrected(count: Result<nat, string>, embeddingModel: string): (info: SystemInfo)
    ensures info.Ready? <==> count.Ok?
    ensures count.Ok? ==> info.documentCount == count.value && info.embeddingModel == embeddingModel
    ensures count.Err? ==> info.error == count.error
  {
    match count
    case Err(e) => InfoError(e)
    case Ok(n) => Ready(n, embeddingModel, GenerationModel)
  }

  /** The report as written and the corrected one agree on everything but the
      name of the chat model. */
  lemma SystemInfoDiffersOnlyInModel(count: Result<nat, string>, embeddingModel: string)
    ensures count.Err? ==> SystemInfoAsWritten(count, embeddingModel) == SystemInfoCorrected(count, embeddingModel)
    ensures count.Ok? ==>
      && SystemInfoCorrected(count, embeddingModel).Ready?
      && SystemInfoAsWritten(count, embeddingModel) == SystemInfoCorrected(count, embeddingModel).(llmModel := ReportedModelAsWritten)
  {
  }

  /** The reported model is the one whose replies become the answers. */
  lemma ReportedModelAnswers(n: nat, embeddingModel: string, query: string, context: string, generate: Generator)
    ensures SystemInfoCorrected(Ok(n), embeddingModel).llmModel == GenerationModel
    ensures GenerateResponse(query, context, generate) ==
      ResponseText(generate(SystemInfoCorrected(Ok(n), embeddingModel).llmModel, query, context))
  {
  }

  /** As written, the report names a model whose replies are not the answers:
      a chat service that answers differently per model shows it. */
  lemma ReportedModelAsWrittenIsNotUsed(n: nat, embeddingModel: string, query: string, context: string)
    ensures SystemInfoAsWritten(Ok(n), embeddingModel).llmModel != GenerationModel
    ensures exists generate: Generator ::
      GenerateResponse(query, context, generate) !=
      ResponseText(generate(SystemInfoAsWritten(Ok(n), embeddingModel).llmModel, query, context))
  {
    var reported := SystemInfoAsWritten(Ok(n), embeddingModel).llmModel;
    assert |reported| != |GenerationModel|;
    var generate: Generator := (model, q, c) => if model == GenerationModel then Ok("a") else Ok("b");
    assert GenerateResponse(query, context, generate) == "a";
    assert ResponseText(generate(reported, query, context)) == "b";
  }
}
