/**
 * Loading transcript files into documents and rebuilding the Chroma
 * collection from their chunks. Every run replaces the whole collection:
 * it deletes every stored id first, then embeds the chunks one by one, and
 * adds them all in one call at the end.
 */
module DataIngestion {
  import opened Wrappers
  import opened Text
  import opened Sequences
  import opened VectorStore
  import YoutubeDownloader

  const TitleMarker := "Video Title:"
  const UrlMarker := "Video URL:"

  // ---------------------------------------------------------------------------
  // Reading a transcript file
  // ---------------------------------------------------------------------------

  datatype ParsedTranscript = ParsedTranscript(title: string, url: string, body: string)

  /** The value on a header line: the line with every occurrence of the marker
      removed, then stripped, when the line starts with the marker; else "". */
  function HeaderValue(line: string, marker: string): (value: string)
    requires |marker| > 0
    ensures value != "" ==> StartsWith(line, marker)
    ensures |value| > 0 ==> !IsSpace(value[0]) && !IsSpace(value[|value| - 1])
    ensures StartsWith(line, marker) ==> |value| <= |line| - |marker|
  {
    if StartsWith(line, marker) then Strip(RemoveAll(line, marker)) else ""
  }

  /** The header parsing of load_transcripts. The title comes from the first line
      and the URL from the second. Whenever there are more than three lines the
      first three are dropped from the body, whether or not they were a header;
      otherwise the body is the whole text. Title and URL are single lines, and a
      title is only read from a text that starts with the title marker. */
  function ParseTranscript(content: string): (p: ParsedTranscript)
    ensures '\n' !in p.title && '\n' !in p.url
    ensures p.title != "" ==> StartsWith(content, TitleMarker)
  {
    var lines := Split(content, '\n');
    var title := if |lines| > 0 then HeaderValue(lines[0], TitleMarker) else "";
    var url := if |lines| > 1 then HeaderValue(lines[1], UrlMarker) else "";
    var body := if |lines| > 3 then Join(lines[3..], "\n") else content;
    HeaderLinesOfContent(content);
    ParsedTranscript(title, url, body)
  }

  /** The body is the end of the text; when the text has more than three lines,
      at least their three line breaks are cut off in front of it. */
  lemma ParsedBodyIsEnd(content: string)
    ensures var body := ParseTranscript(content).body;
      |body| <= |content| && body == content[|content| - |body|..]
    ensures |Split(content, '\n')| > 3 ==> |ParseTranscript(content).body| + 3 <= |content|
  {
    var lines := Split(content, '\n');
    if |lines| > 3 {
      JoinSplit(content, '\n');
      JoinAfterThree(lines, "\n");
      var head := lines[0] + "\n" + lines[1] + "\n" + lines[2] + "\n";
      assert content == head + Join(lines[3..], "\n");
    }
  }

  /** A header value holds no character its line does not hold. */
  lemma HeaderValueWithout(line: string, marker: string, c: char)
    requires |marker| > 0 && c !in line
    ensures c !in HeaderValue(line, marker)
  {
    if StartsWith(line, marker) {
      var t := RemoveAll(line, marker);
      RemoveAllWithout(line, marker, c);
    }
  }

  /** The header lines of a text give values without a line break, and the first
      line starts the text. */
  lemma HeaderLinesOfContent(content: string)
    ensures var lines := Split(content, '\n');
      && '\n' !in HeaderValue(lines[0], TitleMarker)
      && (|lines| > 1 ==> '\n' !in HeaderValue(lines[1], UrlMarker))
      && (StartsWith(lines[0], TitleMarker) ==> StartsWith(content, TitleMarker))
  {
    var lines := Split(content, '\n');
    SplitPartsHaveNoSeparator(content, '\n');
    HeaderValueWithout(lines[0], TitleMarker, '\n');
    if |lines| > 1 {
      HeaderValueWithout(lines[1], UrlMarker, '\n');
    }
    JoinSplit(content, '\n');
  }

  /** A title or URL that survives being written on a header line and read back:
      no line feed and no carriage return (a text-mode read turns it into a line
      break), no occurrence of the line's marker, no surrounding whitespace. */
  predicate HeaderSafe(s: string, marker: string) {
    '\n' !in s && '\r' !in s && !Occurs(s, marker) && (|s| > 0 ==> !IsSpace(s[0]) && !IsSpace(s[|s| - 1]))
  }

  /** Reading back one header line written as marker + " " + value. */
  lemma HeaderLineRoundTrip(marker: string, value: string)
    requires |marker| > 0 && marker[0] != ' '
    requires HeaderSafe(value, marker)
    ensures HeaderValue(marker + " " + value, marker) == value
  {
    var line := marker + " " + value;
    assert line[..|marker|] == marker;
    assert line == marker + ([' '] + value);
    RemoveAllLeading(marker, [' '] + value);
    RemoveAllAfterChar(' ', value, marker);
    RemoveAllUnchangedIff(value, marker);
    StripAfterSpace(value);
  }

  /** A line-free piece, a line break and a text: the piece is the first line. */
  lemma SplitLine(a: string, rest: string)
    requires '\n' !in a
    ensures Split(a + "\n" + rest, '\n') == [a] + Split(rest, '\n')
  {
    SplitAppend(a, rest, '\n');
    SplitNoSeparator(a, '\n');
  }

  /** The lines of three line-free pieces joined by line breaks, then a text. */
  lemma SplitThreeLines(a: string, b: string, c: string, body: string)
    requires '\n' !in a && '\n' !in b && '\n' !in c
    ensures Split(a + "\n" + b + "\n" + c + "\n" + body, '\n') == [a, b, c] + Split(body, '\n')
  {
    var r2 := c + "\n" + body;
    var r1 := b + "\n" + r2;
    assert a + "\n" + b + "\n" + c + "\n" + body == a + "\n" + r1;
    SplitLine(c, body);
    SplitLine(b, r2);
    SplitLine(a, r1);
  }

  /** Parsing a text whose first three lines are a, b and c: the header values of
      a and b, and everything behind the third line break as body, however many
      lines that is. */
  lemma ParseHeaderLines(a: string, b: string, c: string, body: string)
    requires '\n' !in a && '\n' !in b && '\n' !in c
    ensures ParseTranscript(a + "\n" + b + "\n" + c + "\n" + body) ==
      ParsedTranscript(HeaderValue(a, TitleMarker), HeaderValue(b, UrlMarker), body)
  {
    var lines := Split(a + "\n" + b + "\n" + c + "\n" + body, '\n');
    assert |lines| > 3 && lines[0] == a && lines[1] == b && Join(lines[3..], "\n") == body by {
      SplitThreeLines(a, b, c, body);
      assert lines[3..] == Split(body, '\n');
      JoinSplit(body, '\n');
    }
  }

  /** A transcript file: a title line, a URL line, a line-free separator and then
      the body, which parses back to the title, the URL and the body. */
  lemma ParseWrittenLines(title: string, url: string, rule: string, body: string)
    requires HeaderSafe(title, TitleMarker) && HeaderSafe(url, UrlMarker) && '\n' !in rule
    ensures ParseTranscript((TitleMarker + " " + title) + "\n" + (UrlMarker + " " + url) + "\n" + rule + "\n" + body)
      == ParsedTranscript(title, url, body)
  {
    var l0, l1 := TitleMarker + " " + title, UrlMarker + " " + url;
    assert '\n' !in l0 && '\n' !in l1;
    ParseHeaderLines(l0, l1, rule, body);
    HeaderLineRoundTrip(TitleMarker, title);
    HeaderLineRoundTrip(UrlMarker, url);
  }

  /** A written transcript file is its two header lines and the separator, then
      as body an empty line and the cleaned text. */
  lemma TranscriptTextLines(title: string, url: string, clean: string)
    ensures YoutubeDownloader.TranscriptText(title, url, clean) ==
      (TitleMarker + " " + title) + "\n" + (UrlMarker + " " + url) + "\n" + YoutubeDownloader.Rule + "\n" + ("\n" + clean)
    ensures '\n' !in YoutubeDownloader.Rule
  {
    assert YoutubeDownloader.TitlePrefix == TitleMarker + " ";
    assert YoutubeDownloader.UrlPrefix == UrlMarker + " ";
    assert forall i :: 0 <= i < |YoutubeDownloader.Rule| ==> YoutubeDownloader.Rule[i] == '=';
    WrittenLines(YoutubeDownloader.TitlePrefix, YoutubeDownloader.UrlPrefix, YoutubeDownloader.Rule, title, url, clean,
      YoutubeDownloader.TranscriptText(title, url, clean));
  }

  /** The two line breaks behind the rule end the rule's line and make the body
      start with an empty line. */
  lemma WrittenLines(titlePrefix: string, urlPrefix: string, rule: string, title: string, url: string, clean: string, text: string)
    requires text == titlePrefix + title + "\n" + urlPrefix + url + "\n" + rule + "\n\n" + clean
    requires titlePrefix == TitleMarker + " " && urlPrefix == UrlMarker + " "
    ensures text == (TitleMarker + " " + title) + "\n" + (UrlMarker + " " + url) + "\n" + rule + "\n" + ("\n" + clean)
  {
    var head := titlePrefix + title + "\n" + urlPrefix + url + "\n" + rule;
    assert text == head + "\n\n" + clean;
    assert "\n\n" + clean == "\n" + ("\n" + clean);
  }

  /** Parsing a file written by the subtitle converter gives back its title and
      URL, and as body the cleaned text behind one extra line break (the blank
      line after the separator). */
  lemma ParseTranscriptText(title: string, url: string, clean: string)
    requires HeaderSafe(title, TitleMarker) && HeaderSafe(url, UrlMarker)
    ensures ParseTranscript(YoutubeDownloader.TranscriptText(title, url, clean)) == ParsedTranscript(title, url, "\n" + clean)
  {
    TranscriptTextLines(title, url, clean);
    ParseWrittenLines(title, url, YoutubeDownloader.Rule, "\n" + clean);
  }

  /** The first three lines are dropped even when they are not a header. */
  lemma ParseDropsThreeLinesWithoutHeader(a: string, b: string, c: string, body: string)
    requires '\n' !in a && '\n' !in b && '\n' !in c
    requires !StartsWith(a, TitleMarker) && !StartsWith(b, UrlMarker)
    ensures ParseTranscript(a + "\n" + b + "\n" + c + "\n" + body) == ParsedTranscript("", "", body)
  {
    ParseHeaderLines(a, b, c, body);
  }

  /** With only the two header lines, the header is parsed and also kept as the body. */
  lemma ParseKeepsShortHeaderInBody(title: string, url: string)
    requires HeaderSafe(title, TitleMarker) && HeaderSafe(url, UrlMarker)
    ensures var content := TitleMarker + " " + title + "\n" + UrlMarker + " " + url;
      ParseTranscript(content) == ParsedTranscript(title, url, content)
  {
    var l0, l1 := TitleMarker + " " + title, UrlMarker + " " + url;
    var content := l0 + "\n" + l1;
    assert content == TitleMarker + " " + title + "\n" + UrlMarker + " " + url;
    assert '\n' !in l0 && '\n' !in l1;
    assert Split(content, '\n') == [l0, l1] by {
      SplitLine(l0, l1);
      SplitNoSeparator(l1, '\n');
    }
    assert HeaderValue(l0, TitleMarker) == title by {
      HeaderLineRoundTrip(TitleMarker, title);
    }
    assert HeaderValue(l1, UrlMarker) == url by {
      HeaderLineRoundTrip(UrlMarker, url);
    }
  }

  /** Both occurrences of the title marker are removed from the line. */
  lemma InnerMarkerRemoved()
    ensures RemoveAll(TitleMarker + " A " + TitleMarker + " B", TitleMarker) == " A  B"
  {
    var tail := TitleMarker + " B";
    assert TitleMarker + " A " + TitleMarker + " B" == TitleMarker + (" A " + tail);
    RemoveAllLeading(TitleMarker, " A " + tail);
    RemoveAllKeepsPrefix(" A ", tail, TitleMarker);
    RemoveAllLeading(TitleMarker, " B");
    assert " B" == " B" + "";
    RemoveAllKeepsPrefix(" B", "", TitleMarker);
    assert " A " + " B" == " A  B";
  }

  /** The marker is removed wherever it occurs on the title line, not only at its
      start: a title that itself contains the marker is not read back. */
  lemma ParseRemovesInnerTitleMarker()
    ensures HeaderValue(TitleMarker + " A " + TitleMarker + " B", TitleMarker) == "A  B"
  {
    var line := TitleMarker + " A " + TitleMarker + " B";
    assert line[..|TitleMarker|] == TitleMarker;
    InnerMarkerRemoved();
    assert " A  B" == " " + "A  B";
    StripAfterSpace("A  B");
  }

  // ---------------------------------------------------------------------------
  // load_transcripts
  // ---------------------------------------------------------------------------

  /** One file matched by the folder's glob: its path and its content, unless
      reading it failed. */
  datatype TranscriptRead = TranscriptRead(path: string, content: Option<string>)

  /** A langchain Document: text plus metadata. */
  datatype Document = Document(pageContent: string, metadata: Metadata)

  /** os.path.basename: the part of the path after its last '/'. */
  function Basename(path: string): (name: string)
    ensures '/' !in name
    ensures |name| <= |path| && path[|path| - |name|..] == name
    ensures |name| < |path| ==> path[|path| - |name| - 1] == '/'
    decreases |path|
  {
    if |path| == 0 || path[|path| - 1] == '/' then ""
    else
      var name := Basename(path[..|path| - 1]);
      assert path == path[..|path| - 1] + [path[|path| - 1]];
      BasenameStep(path[..|path| - 1], path[|path| - 1], name);
      name + [path[|path| - 1]]
  }

  /** The name of p + [c], for c not '/', is the name of p followed by c. */
  lemma BasenameStep(p: string, c: char, name: string)
    requires c != '/' && '/' !in name
    requires |name| <= |p| && p[|p| - |name|..] == name
    requires |name| < |p| ==> p[|p| - |name| - 1] == '/'
    ensures '/' !in name + [c]
    ensures (p + [c])[|p| - |name|..] == name + [c]
    ensures |name| < |p| ==> (p + [c])[|p| - |name| - 1] == '/'
  {
    assert (p + [c])[|p| - |name|..] == p[|p| - |name|..] + [c];
  }

  /** The document made from one file, or None when the file could not be read. */
  function LoadedDocument(file: TranscriptRead): Option<Document> {
    match file.content
    case None => None
    case Some(content) =>
      var parsed := ParseTranscript(content);
      Some(Document(parsed.body, map[
        "source" := file.path,
        "video_title" := parsed.title,
        "video_url" := parsed.url,
        "filename" := Basename(file.path)]))
  }

  /** The documents loaded from the matched files, in glob order. */
  function LoadedDocuments(files: seq<TranscriptRead>): seq<Document> {
    FilterMap(files, LoadedDocument)
  }

  /** load_transcripts: one document per readable file; unreadable files are skipped. */
  method LoadTranscripts(files: seq<TranscriptRead>) returns (documents: seq<Document>)
    ensures documents == LoadedDocuments(files)
  {
    documents := [];
    if |files| == 0 {
      return;
    }
    for i := 0 to |files|
      invariant documents == LoadedDocuments(files[..i])
    {
      assert files[..i + 1][..i] == files[..i];
      var file := files[i];
      if file.content.Some? {
        var parsed := ParseTranscript(file.content.value);
        var doc := Document(parsed.body, map[
          "source" := file.path,
          "video_title" := parsed.title,
          "video_url" := parsed.url,
          "filename" := Basename(file.path)]);
        documents := documents + [doc];
      }
    }
    assert files[..|files|] == files;
  }

  /** Every loaded document comes from a readable file whose path it records as
      source and whose base name it records as filename; every readable file
      gives one; there are never more documents than files. */
  lemma LoadedDocumentsSpec(files: seq<TranscriptRead>)
    ensures |LoadedDocuments(files)| <= |files|
    ensures (forall i :: 0 <= i < |files| ==> files[i].content.Some?) ==> |LoadedDocuments(files)| == |files|
    ensures forall d :: d in LoadedDocuments(files) ==>
      exists i :: 0 <= i < |files| && files[i].content.Some? && LoadedDocument(files[i]) == Some(d)
    ensures forall i :: 0 <= i < |files| && files[i].content.Some? ==> LoadedDocument(files[i]).value in LoadedDocuments(files)
  {
    FilterMapSpec(files, LoadedDocument);
  }

  /** A readable file's document records its path as source and its base name
      as filename, next to the parsed title and URL, and holds the parsed body. */
  lemma LoadedDocumentSpec(file: TranscriptRead)
    ensures LoadedDocument(file).Some? <==> file.content.Some?
    ensures file.content.Some? ==>
      var d, parsed := LoadedDocument(file).value, ParseTranscript(file.content.value);
      && d.pageContent == parsed.body
      && d.metadata.Keys == {"source", "video_title", "video_url", "filename"}
      && d.metadata["source"] == file.path
      && d.metadata["filename"] == Basename(file.path)
      && d.metadata["video_title"] == parsed.title
      && d.metadata["video_url"] == parsed.url
  {
    if file.content.Some? {
      var parsed := ParseTranscript(file.content.value);
      var m := map["source" := file.path, "video_title" := parsed.title, "video_url" := parsed.url, "filename" := Basename(file.path)];
      assert LoadedDocument(file) == Some(Document(parsed.body, m));
      MetadataFields(file.path, parsed.title, parsed.url, Basename(file.path));
    }
  }

  /** The four fields of a document's metadata map. */
  lemma MetadataFields(source: string, title: string, url: string, filename: string)
    ensures var m := map["source" := source, "video_title" := title, "video_url" := url, "filename" := filename];
      && m.Keys == {"source", "video_title", "video_url", "filename"}
      && m["source"] == source && m["video_title"] == title
      && m["video_url"] == url && m["filename"] == filename
  {
    assert |"source"| == 6 && |"video_title"| == 11 && |"video_url"| == 9 && |"filename"| == 8;
  }

  /** A converted transcript file loads with the title and URL it was written
      with, the cleaned text behind a line break as body, and its path as source. */
  lemma LoadConvertedTranscript(path: string, title: string, url: string, clean: string)
    requires HeaderSafe(title, TitleMarker) && HeaderSafe(url, UrlMarker)
    ensures LoadedDocument(TranscriptRead(path, Some(YoutubeDownloader.TranscriptText(title, url, clean)))) ==
      Some(Document("\n" + clean, map["source" := path, "video_title" := title, "video_url" := url, "filename" := Basename(path)]))
  {
    ParseTranscriptText(title, url, clean);
  }

  // ---------------------------------------------------------------------------
  // Rebuilding the collection
  // ---------------------------------------------------------------------------

  /** The id of the i-th chunk: f"doc_{i}". */
  function DocId(i: nat): string {
    "doc_" + NatToString(i)
  }

  lemma DocIdInjective(i: nat, j: nat)
    requires DocId(i) == DocId(j)
    ensures i == j
  {
    assert DocId(i)[4..] == NatToString(i);
    assert DocId(j)[4..] == NatToString(j);
    NatToStringInjective(i, j);
  }

  function DocIds(n: nat): set<string> {
    set i | 0 <= i < n :: DocId(i)
  }

  /** The ids of n + 1 chunks are those of n chunks and one more, new id. */
  lemma DocIdsStep(n: nat)
    ensures DocIds(n + 1) == DocIds(n) + {DocId(n)}
    ensures DocId(n) !in DocIds(n)
  {
    if DocId(n) in DocIds(n) {
      var i :| 0 <= i < n && DocId(i) == DocId(n);
      DocIdInjective(i, n);
    }
  }

  /** The ids of n chunks are n different strings. */
  lemma {:induction false} DocIdsCount(n: nat)
    ensures |DocIds(n)| == n
  {
    if n > 0 {
      DocIdsCount(n - 1);
      DocIdsStep(n - 1);
    }
  }

  /** The ids "doc_0", "doc_1", ... in order are all different, and as a set
      they are the ids of that many chunks. */
  lemma DocIdList(ids: seq<string>)
    requires forall j :: 0 <= j < |ids| ==> ids[j] == DocId(j)
    ensures Distinct(ids)
    ensures (set id | id in ids) == DocIds(|ids|)
    ensures |DocIds(|ids|)| == |ids|
  {
    forall j, k | 0 <= j < k < |ids|
      ensures ids[j] != ids[k]
    {
      if ids[j] == ids[k] {
        DocIdInjective(j, k);
      }
    }
    forall id | id in DocIds(|ids|)
      ensures id in ids
    {
      var j :| 0 <= j < |ids| && DocId(j) == id;
      assert ids[j] == id;
    }
    DocIdsCount(|ids|);
  }

  /** The embedding service: its reply to the i-th embedding request of a run,
      made for the given text, is a vector or an error message. */
  type Embedder = (nat, string) -> Result<Embedding, string>

  predicate AllEmbedded(chunks: seq<Document>, embed: Embedder) {
    forall i :: 0 <= i < |chunks| ==> embed(i, chunks[i].pageContent).Ok?
  }

  /** The collection holds exactly the chunks: chunk i under "doc_i", with its
      text, its metadata and the vector the service returned for it. */
  predicate Holds(entries: map<string, Entry>, chunks: seq<Document>, embed: Embedder) {
    && entries.Keys == DocIds(|chunks|)
    && forall i :: 0 <= i < |chunks| ==>
         embed(i, chunks[i].pageContent).Ok? &&
         entries[DocId(i)] == Entry(chunks[i].pageContent, chunks[i].metadata, embed(i, chunks[i].pageContent).value)
  }

  /** The batch columns of the first i chunks: their texts, their metadata,
      their ids and the vectors the service returned for them. */
  predicate Batch(chunks: seq<Document>, embed: Embedder, i: int,
                  texts: seq<string>, metadatas: seq<Metadata>, ids: seq<string>, embeddings: seq<Embedding>) {
    && 0 <= i <= |chunks|
    && |texts| == |metadatas| == |ids| == |embeddings| == i
    && forall j :: 0 <= j < i ==>
         && texts[j] == chunks[j].pageContent
         && metadatas[j] == chunks[j].metadata
         && ids[j] == DocId(j)
         && embed(j, chunks[j].pageContent) == Ok(embeddings[j])
  }

  /** After the batch of the i-th chunks, built from the chunks and their
      vectors, is added to an empty collection, the collection holds the chunks. */
  lemma BatchHolds(entries: map<string, Entry>, chunks: seq<Document>, embed: Embedder,
                   texts: seq<string>, metadatas: seq<Metadata>, ids: seq<string>, embeddings: seq<Embedding>)
    requires Batch(chunks, embed, |chunks|, texts, metadatas, ids, embeddings)
    requires entries.Keys == {} + (set id | id in ids)
    requires forall j :: 0 <= j < |ids| ==> entries[ids[j]] == Entry(texts[j], metadatas[j], embeddings[j])
    ensures Holds(entries, chunks, embed) && |entries| == |chunks|
  {
    DocIdList(ids);
    assert |entries| == |entries.Keys|;
  }

  /** The first failing request of a run is request i, with message e. */
  predicate FirstFailure(chunks: seq<Document>, embed: Embedder, i: int, e: string) {
    && 0 <= i < |chunks|
    && embed(i, chunks[i].pageContent) == Err(e)
    && forall j :: 0 <= j < i ==> embed(j, chunks[j].pageContent).Ok?
  }

  /** The embedding loop of add_to_chromadb: asks for the chunks' vectors in
      order and stops at the first failure, whose message it reports; otherwise
      it returns the batch columns of all chunks. */
  method EmbedChunks(chunks: seq<Document>, embed: Embedder)
    returns (failure: Option<string>, texts: seq<string>, metadatas: seq<Metadata>, ids: seq<string>, embeddings: seq<Embedding>)
    ensures failure.None? <==> AllEmbedded(chunks, embed)
    ensures failure.Some? ==> exists i :: FirstFailure(chunks, embed, i, failure.value)
    ensures failure.None? ==> Batch(chunks, embed, |chunks|, texts, metadatas, ids, embeddings)
  {
    texts, metadatas, ids, embeddings := [], [], [], [];
    var i := 0;
    while i < |chunks|
      invariant Batch(chunks, embed, i, texts, metadatas, ids, embeddings)
    {
      var reply := embed(i, chunks[i].pageContent);
      if reply.Err? {
        assert FirstFailure(chunks, embed, i, reply.error);
        return Some(reply.error), texts, metadatas, ids, embeddings;
      }
      texts := texts + [chunks[i].pageContent];
      metadatas := metadatas + [chunks[i].metadata];
      ids := ids + [DocId(i)];
      embeddings := embeddings + [reply.value];
      i := i + 1;
    }
    failure := None;
  }

  class TranscriptIngestion {
    const collection: Collection

    /** The ingestion system over the collection found in the store. */
    constructor (collection: Collection)
      ensures this.collection == collection
    {
      this.collection := collection;
    }

    /** add_to_chromadb: deletes every stored entry, embeds the chunks in order,
        and adds them in one call. An embedding failure ends the run after the
        deletion and before the add, so it leaves the collection empty. */
    method AddToChromadb(documents: seq<Document>, embed: Embedder) returns (outcome: Result<(), string>)
      modifies collection
      ensures outcome.Ok? <==> AllEmbedded(documents, embed)
      ensures outcome.Ok? ==> Holds(collection.entries, documents, embed) && |collection.entries| == |documents|
      ensures outcome.Err? ==>
        collection.entries == map[] && exists i :: FirstFailure(documents, embed, i, outcome.error)
    {
      var allIds := collection.GetIds();
      if |allIds| > 0 {
        collection.Delete(allIds);
      }
      assert collection.entries == map[];

      var failure, texts, metadatas, ids, embeddings := EmbedChunks(documents, embed);
      if failure.Some? {
        return Err(failure.value);
      }

      DocIdList(ids);
      collection.Add(embeddings, texts, metadatas, ids);
      BatchHolds(collection.entries, documents, embed, texts, metadatas, ids, embeddings);
      outcome := Ok(());
    }

    /** ingest_transcripts: load, split, rebuild the collection; true exactly when
        documents were loaded, splitting succeeded and every chunk was embedded.
        With nothing loaded, or a failed split, the collection is not touched. */
    method IngestTranscripts(files: seq<TranscriptRead>, split: seq<Document> -> Result<seq<Document>, string>, embed: Embedder)
      returns (ok: bool)
      modifies collection
      ensures var docs := LoadedDocuments(files);
        ok <==> |docs| > 0 && split(docs).Ok? && AllEmbedded(split(docs).value, embed)
      ensures var docs := LoadedDocuments(files);
        |docs| == 0 || split(docs).Err? ==> collection.entries == old(collection.entries)
      ensures var docs := LoadedDocuments(files);
        |docs| > 0 && split(docs).Ok? ==>
          if ok then Holds(collection.entries, split(docs).value, embed) else collection.entries == map[]
    {
      var documents := LoadTranscripts(files);
      if |documents| == 0 {
        return false;
      }
      var chunks := split(documents);
      if chunks.Err? {
        return false;
      }
      var outcome := AddToChromadb(chunks.value, embed);
      ok := outcome.Ok?;
    }
  }
}
