# YouTube transcript RAG tutor — a Dafny model

This project models the text handling and bookkeeping of a retrieval-augmented
question-answering service over YouTube transcripts, and proves properties of it.

- **Subtitle conversion.** WebVTT subtitle files become plain transcript files. The
  syntax lines are dropped, whitespace is collapsed, and a three-line header
  (title, URL, a rule of fifty `=`) plus a blank line goes in front of the text.
  The download step is gated on the download's outcome.
- **Ingestion.** Transcript files are read back into documents with title, URL,
  source and filename metadata. The Chroma collection is then rebuilt:
  - every stored id is deleted;
  - the chunks are embedded one by one;
  - one bulk add stores chunk `i` under `doc_i`.
- **Query pipeline.**
  - Retrieved chunks are formatted into labelled context blocks, in retrieval order.
  - Source records are deduplicated by their whole (title, url, filename) triple, in first-seen order.
  - Generation and retrieval failures degrade into answer text instead of exceptions.
- **HTTP layer.**
  - A global pipeline handle is set at startup.
  - `/query` and `/search` answer 503 without a pipeline and 400 for a blank question.
  - `/videos` deduplicates by title only.
  - `/search` shapes results: documents are cut to 200 characters plus `...`, and similarity is `1 - distance`, with zero distances when none are returned.

Modules:
- `Wrappers`: `Option` and `Result`.
- `Text`: Python's `strip`, `split`, `join`, `replace` and `split()`/`' '.join`, over ASCII.
- `Sequences`: order-preserving dedup, and the filter-map of append loops.
- `VectorStore`: the collection as a class over a map from id to entry.
- `YoutubeDownloader`, `DataIngestion`, `RagSystem`, `Backend`: one per source file.

The embedding service, the nearest-neighbour search, the chat model, the text
splitter, the collection's `count()` and `get()` replies and the file system are
parameters. Each is a function whose value is a reply or an error message. A
file that cannot be read is given with no content.

## Model

| member | source | states |
|---|---|---|
| `YoutubeDownloader.FilterTextLines` | youtube_downloader.py:54-66 | the loop's list is the filter-map of the stripped lines through the text-line test (non-empty, not `WEBVTT`/`NOTE`/`<`-prefixed, no `-->`, not all digits) |
| `YoutubeDownloader.TextLinesSpec` | youtube_downloader.py:57-66 | every kept line passes the test and is the stripped form of some input line; every input line whose stripped form passes is kept; the kept lines of `a + b` are those of `a` then those of `b`, so input order is preserved |
| `YoutubeDownloader.CleanVtt` | youtube_downloader.py:54-71 | the cleaned text is the normalised space-join of the kept lines |
| `YoutubeDownloader.CleanTextSpec` | youtube_downloader.py:69-71 | the cleaned text has no surrounding whitespace, no whitespace but single spaces between words, and its words are the words of the kept lines in order |
| `Text.NormalizeIdempotent` | youtube_downloader.py:71 | `' '.join(s.split())` is idempotent |
| `Text.NormalizeFixpointIff` | youtube_downloader.py:71 | a text is left unchanged by the normalisation exactly when it is already normalised |
| `YoutubeDownloader.StemOfVtt` | youtube_downloader.py:75-88 | the stem of `base.vtt` is `base`; `.vtt` alone has no suffix |
| `YoutubeDownloader.TranscriptText` | youtube_downloader.py:92-96 | the written text starts with the title line, is 78 characters (both prefixes, the fifty-character rule and four line breaks) longer than title, URL and cleaned text together, and ends with the cleaned text |
| `YoutubeDownloader.Converted` | youtube_downloader.py:50-96 | a subtitle file yields a written file exactly when it could be read; that file is named `stem + ".txt"` and ends with the file's cleaned text |
| `YoutubeDownloader.ConvertVttToTxt` | youtube_downloader.py:45-101 | the written files are the conversions of the readable subtitle files, in processing order |
| `YoutubeDownloader.ConvertedFilesSpec` | youtube_downloader.py:45-101 | each readable file yields exactly one written file named `stem + ".txt"`; unreadable files yield none; no more files are written than read |
| `YoutubeDownloader.ConvertedWithoutInfo` | youtube_downloader.py:74-96 | without a readable info JSON the header names the stem and an empty URL, above the cleaned text |
| `YoutubeDownloader.ProcessYoutubePlaylist` | youtube_downloader.py:105-122 | conversion runs only after a successful download, and the result is exactly the download's outcome |
| `DataIngestion.TranscriptTextLines` | youtube_downloader.py:92-96 | a written file is its title line, its URL line, the rule, an empty line and the cleaned text, joined by line breaks; the rule has no line break |
| `DataIngestion.HeaderValue` | data_ingestion.py:106-109 | a header value is non-empty only when the line starts with the marker, has no surrounding whitespace, and is shorter than the line by at least the marker |
| `DataIngestion.HeaderLineRoundTrip` | data_ingestion.py:106-109 | reading back `marker + " " + v` gives `v` when `v` has no line feed or carriage return, no marker and no surrounding whitespace |
| `DataIngestion.ParseTranscript` | data_ingestion.py:100-111 | the title and URL read from the header never contain a line break, and a title is read only from a text that starts with "Video Title:" |
| `DataIngestion.ParsedBodyIsEnd` | data_ingestion.py:103-111 | the body is always the end of the file's text; with more than three lines at least their three line breaks are cut off in front of it |
| `DataIngestion.ParseHeaderLines` | data_ingestion.py:100-111 | for any text behind three line breaks, title and URL are the header values of lines 0 and 1 and the body is exactly the text behind the third line break, whether it has one line or many |
| `DataIngestion.ParseWrittenLines` | data_ingestion.py:100-111 | a transcript laid out as title line, URL line, a separator line and a body parses to that title, URL and body, for a title and URL without line feed, carriage return, marker or surrounding whitespace |
| `DataIngestion.ParseTranscriptText` | data_ingestion.py:100-111 | round trip with the writer of youtube_downloader.py:93-96: parsing a written file gives back its title and URL, and the cleaned text behind one extra leading line break |
| `DataIngestion.ParseDropsThreeLinesWithoutHeader` | data_ingestion.py:106-111 | three lines are dropped from the body even when none of them was a header, and title and URL stay empty |
| `DataIngestion.ParseKeepsShortHeaderInBody` | data_ingestion.py:103-111 | with only two lines the header is parsed and the whole text, header included, is the body |
| `DataIngestion.ParseRemovesInnerTitleMarker` | data_ingestion.py:107 | the marker is removed wherever it occurs on the line, not only as prefix |
| `DataIngestion.Basename` | data_ingestion.py:120 | the base name has no `/`, ends the path, and is preceded by `/` when shorter than the path |
| `DataIngestion.LoadTranscripts` | data_ingestion.py:87-130 | the loaded documents are the filter-map of the matched files through the reader, in glob order |
| `DataIngestion.LoadedDocumentsSpec` | data_ingestion.py:94-127 | every document comes from a readable file; every readable file gives one; no more documents than files, and as many when all are readable |
| `DataIngestion.LoadedDocumentSpec` | data_ingestion.py:114-121 | a document's metadata has exactly the keys source, video_title, video_url, filename, with source = path and filename = base name |
| `DataIngestion.LoadConvertedTranscript` | data_ingestion.py:100-121 | a converted file loads with the title and URL it was written with and body `"\n" + clean`, for a title and URL without line feed, carriage return, marker or surrounding whitespace |
| `DataIngestion.DocIdInjective` | data_ingestion.py:180 | different chunk numbers give different ids `doc_i` |
| `DataIngestion.DocIdsCount` | data_ingestion.py:180 | the ids of n chunks are n distinct strings |
| `DataIngestion.DocIdList` | data_ingestion.py:180-191 | the id list built by the loop has no repetition and its set is the ids of that many chunks |
| `DataIngestion.EmbedChunks` | data_ingestion.py:169-184 | no failure exactly when every chunk's embedding request succeeds, and then column j holds chunk j's text, metadata, id `doc_j` and vector; otherwise the reported error is that of the first failing request |
| `DataIngestion.BatchHolds` | data_ingestion.py:187-192 | after the bulk add into an empty collection it holds exactly the chunks, chunk i under `doc_i` |
| `DataIngestion.TranscriptIngestion.constructor` | data_ingestion.py:16-51 | the ingestion object works on the collection it found or created |
| `DataIngestion.TranscriptIngestion.AddToChromadb` | data_ingestion.py:150-198 | success exactly when every embedding request succeeds, and then the collection holds exactly n entries `doc_0..doc_{n-1}` with chunk i's text, metadata and vector; on failure the first failing request's error is raised and the collection is left empty |
| `DataIngestion.TranscriptIngestion.IngestTranscripts` | data_ingestion.py:200-228 | true exactly when documents were loaded, splitting succeeded and every chunk was embedded; with no documents or a failed split the collection is untouched; otherwise it holds the chunks or is empty |
| `VectorStore.Collection.constructor` | data_ingestion.py:43-47 | the collection as found in the store |
| `VectorStore.Collection.GetIds` | data_ingestion.py:162 | every stored id exactly once |
| `VectorStore.Collection.Delete` | data_ingestion.py:163-164 | the named ids are removed and nothing else |
| `VectorStore.Collection.Add` | data_ingestion.py:187-192 | entry j is stored under `ids[j]`; earlier entries are kept |
| `RagSystem.RetrieveRelevantChunks` | rag_system.py:61-87 | an embedding failure is the retrieval's failure; otherwise the search runs on the query vector with n_results |
| `RagSystem.FormatContext` | rag_system.py:89-121 | the context is the blocks of the zipped (document, metadata) pairs joined by line breaks, or "" when a field has no first list |
| `RagSystem.ContextEmptyIff` | rag_system.py:99-121 | the context is empty exactly when there is no pair to format; otherwise it starts with the block of the best match |
| `RagSystem.ContextBlocksExtend` | rag_system.py:105-117 | one more pair appends its block behind a line break, so blocks keep retrieval order |
| `RagSystem.CollectSources` | rag_system.py:195-204 | the loop's list is the order-preserving dedup of the defaulted source triples, or empty without metadata |
| `Sequences.DedupSpec` | rag_system.py:195-204 | the order-preserving dedup keeps exactly the input's elements, each once, no more than the input has, in order of first occurrence |
| `RagSystem.SourcesSpec` | rag_system.py:195-204 | a triple is listed exactly when some retrieved chunk has it, none twice, no more than the chunks, in order of first occurrence |
| `RagSystem.SourcesOfNothing` | rag_system.py:196 | no metadata list gives no sources |
| `RagSystem.GenerateResponse` | rag_system.py:123-169 | the answer is the reply of the "llama-3.1-8b-instant" model when the call succeeds, and "Error generating response: " with the error when it raises |
| `RagSystem.ResponseText` | rag_system.py:165-169 | the reply's text, or "Error generating response: " and the error |
| `RagSystem.Query` | rag_system.py:171-220 | the query is echoed; a retrieval failure gives "Error processing your query: " and the error, no sources and no context; otherwise context, answer and sources are computed from the retrieval, even when generation failed |
| `RagSystem.SystemInfoAsWritten` | rag_system.py:222-241 | ready with count and embedding model exactly when counting works, else the error; a ready report names "llama3-8b-8192", which is not the generation model (see Findings) |
| `RagSystem.SystemInfoCorrected` | rag_system.py:222-241 | the corrected report: ready with count and embedding model exactly when counting works, else the error (reports the generation model, see Findings) |
| `RagSystem.SystemInfoDiffersOnlyInModel` | rag_system.py:229-241 | the report as written and the corrected one agree on everything except the chat model's name |
| `RagSystem.ReportedModelAnswers` | rag_system.py:155-165 | the model the corrected report names is the one whose replies become the answers |
| `RagSystem.ReportedModelAsWrittenIsNotUsed` | rag_system.py:229-236 | the model named by the report as written differs from the generation model, and a chat service answering per model tells them apart |
| `Backend.InfoResponse` | backend.py:87-89 | the pipeline's report as the response model: ready fields or the error |
| `Backend.Server.constructor` | backend.py:30 | no pipeline at import |
| `Backend.Server.Startup` | backend.py:56-66 | the handle is set when building the pipeline succeeds and absent when it fails |
| `Backend.Server.Root` | backend.py:69-75 | "healthy" exactly when the pipeline was built, "unhealthy" otherwise |
| `Backend.Server.GetSystemInfoEndpoint` | backend.py:78-92 | status "error" with "RAG system not initialized" without a pipeline; otherwise "ready" exactly when counting works, with count, embedding model and the hard-coded chat model "llama3-8b-8192" of rag_system.py:235 |
| `Backend.Server.GetSystemInfoEndpointCorrected` | backend.py:78-92 | the same reply over the corrected report: a ready reply names the generation model, and nothing else differs from the endpoint as written |
| `Backend.Server.QueryTranscripts` | backend.py:95-134 | 503 without a pipeline, then 400 for an empty or whitespace question, otherwise status "success" with the pipeline's answer, its sources in order and the question, even when the answer is an error text |
| `Backend.CatalogueSpec` | backend.py:150-166 | the video list's titles are the chunks' titles deduplicated in first-seen order |
| `Backend.CatalogueFirstChunk` | backend.py:151-161 | each listed video is the one built from the first chunk carrying its title |
| `Backend.CatalogueTitlesDistinct` | backend.py:156-161 | no title is listed twice and there are no more videos than chunks |
| `Backend.TracksStep` | backend.py:151-161 | one more chunk keeps the loop's dictionary equal to the catalogue of the chunks seen so far: a new title is inserted at the end, a known one changes nothing |
| `Backend.ValuesInOrder` | backend.py:164 | the dictionary's values in insertion order |
| `Backend.Server.GetAvailableVideos` | backend.py:137-170 | 503 without a pipeline, 500 with the error when reading fails, otherwise the title-deduplicated catalogue and total_count equal to its length |
| `Backend.Truncate` | backend.py:205 | a document of at most 200 characters is unchanged; a longer one becomes its first 200 characters and "..." |
| `Backend.HitsSpec` | backend.py:197-214 | one hit per zipped triple, as many as the shortest list; hit i has similarity 1 - distance i, metadata i's title (default "Unknown"), URL and filename (default "") and the shortened text; with zero distances every score is 1 |
| `Backend.FormatHits` | backend.py:197-209 | no hits without documents; documents without metadata raise "list index out of range"; otherwise the hits, with zero distances when none came back |
| `Backend.Server.SearchSimilarContent` | backend.py:173-219 | 503 without a pipeline, then 400 for a blank question, 500 on a retrieval failure, otherwise the hits and total_results equal to their number |

## Left out

- Downloading with yt-dlp, globbing, reading and writing files, and parsing the info JSON are I/O. They are inputs: a file's content, or none when reading fails, and the info fields, or none.
- The info JSON's name is not modelled. `with_suffix('.info.json')` on a name like `X.en.vtt` gives `X.en.info.json`, while yt-dlp names the file `X.info.json`. So in practice the header likely falls back to the stem; which name yt-dlp writes is outside this code.
- The chunker (`RecursiveCharacterTextSplitter`) is a library whose source is not part of this model. `split_documents` is a parameter returning chunks or an error, and no property of chunking is claimed.
- The Ollama embedding calls, Chroma's nearest-neighbour search and the Groq chat call are parameters. The prompt wording sent to the chat model is folded into the chat parameter, which receives the model name, the question and the context.
- `VectorStore.Collection.Add`: Chroma's own checks are not modelled. These include the rejection of an empty batch and of ids already present. In `AddToChromadb` the collection is always empty at that point, but an empty chunk list is accepted here. The failure of `get()` or `delete()` inside `add_to_chromadb` is not modelled either.
- File contents are taken after Python's newline translation on reading in text mode: every `\r\n` and lone `\r` of a file is already `\n` in the content given to the model. So a VTT file whose lines end in `\r` splits into lines as the program does. For the same reason a written title or URL must not hold a `\r`: the reader would take it for a line break, and `HeaderSafe` excludes it.
- A failed write of the output file is not modelled. If `open` or `write` at youtube_downloader.py:92-96 raises, the exception is caught at youtube_downloader.py:100 and that file is skipped, possibly leaving a partial file. `ConvertedFilesSpec` assumes every write succeeds.
- A field of Chroma's query result that is `None` is modelled as an empty outer list. For `documents` and `distances` the two behave alike at backend.py:197-200, because both are falsy. For `metadatas` they do not: `/search` with documents but no metadata gives the 500 with "list index out of range" here, which is right for an empty list, while `None` makes Python raise a `TypeError` with a different message.
- Distances and similarity scores are Python floats; they are `real` here, with no rounding, ordering or bounds claimed.
- A metadata entry that is `None` instead of a dictionary is not modelled. Neither are metadata values that are not strings, nor a request whose `n_results` is `null`.
- Python's `strip`, `split()`, `isdigit` and `isspace` are modelled on ASCII: whitespace is tab through carriage return, the four separators 28-31 and space, and digits are `0`-`9`. Unicode whitespace and digits are not modelled.
- Startup builds the pipeline through Chroma's and Groq's clients. Only whether that succeeds is modelled.
- `get_collection_info` (a logged `count()` returning 0 on failure), `setup.py`, the Streamlit app, CORS, logging and the uvicorn runner are not part of this model.
- The 500 branches of `/system-info` and `/query` are not modelled: the pipeline's `get_system_info` and `query` catch every exception themselves, so those branches cannot be reached.
- Concurrency between ingestion and queries is not modelled. Each operation is one sequential run.
- The clear happens before the first embedding request, as the code does, not immediately before the bulk insert. So an embedding failure leaves the store empty, and `AddToChromadb` and `IngestTranscripts` state that.

## Findings

| source | as written | input that shows it | evidently intended | confidence | as-written member | corrected member |
|---|---|---|---|---|---|---|
| rag_system.py:235 | `get_system_info` reports `llm_model` "llama3-8b-8192", but `generate_response` asks for "llama-3.1-8b-instant" (rag_system.py:160) | any system-info request when counting the collection succeeds | the report names the model that generates the answers | high; not executed | `RagSystem.ReportedModelAsWrittenIsNotUsed`, `Backend.Server.GetSystemInfoEndpoint` | `RagSystem.SystemInfoCorrected`, `Backend.Server.GetSystemInfoEndpointCorrected` |
