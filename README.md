# ISOPmark core in Dafny

ISOPmark helps a company rewrite its ISO (27001, 9001) and Privacy Mark
documents when a standard changes. An uploaded document goes through these steps:

1. Its text is extracted (PDF, DOCX or plain text).
2. The text is cut into overlapping chunks.
3. The chunks are embedded and stored in an in-memory vector store under a fresh
   `doc_<uuid>` id.
4. A retrieval-augmented prompt is built from the new standard and up to five
   chunks of that document.
5. The model's rewrite is compared with the original text in a markdown diff
   report.

A batch processor runs this for several documents. It records four processing
steps per document and isolates failures, so one failed document does not stop
the batch.

Around the pipeline there are four smaller parts:

- a dialog manager for AI questions and user answers;
- a template manager with `[key]` placeholder substitution;
- a session log buffer;
- a file-type check.

One Dafny module per source file:

- Modules built on functions and lemmas: `Chunker`, `Extractor`, `Rag`,
  `DiffGenerator`, `Helpers`.
- Modules built on classes whose methods change their fields:
  - `VectorStore`: `Collection` and `Registry`.
  - `Batch`: `BatchProcessor`.
  - `Dialogs`: `DialogManager`.
  - `Templates`: `TemplateManager`.
  - `Logging`: `Session` and `StreamlitLogger`.
- `DocumentService` is a method over the registry.
- Four support modules:
  - `Wrappers`: `Option`, `Result`, `Outcome`.
  - `PySlices`: Python slice semantics.
  - `Text`: `join`, `replace`, substring containment, ASCII case.
  - `Providers`: the embedding and completion clients.

How Python's behaviour is represented:

- A Python exception is a `Failure`/`Fail` value of an error datatype, one
  constructor per exception the source raises or lets through.
- The library and network calls are parameters: pypdf and python-docx parsing,
  UTF-8 decoding, `str.splitlines`, `difflib`, the OpenAI embedding and completion
  clients, `uuid4` and the clock.
- Each loop in the source is a `while`/`for` loop in a method. The method is
  proved equal to a specification function, and the properties are proved about
  that function.

## Model

| member | source | states |
|---|---|---|
| Chunker.Chunks | document_processor/chunker.py:14-21 | the configuration is refused exactly when the overlap is not smaller than the window; otherwise the result is empty exactly when the text is empty |
| Chunker.ChunkText | document_processor/chunker.py:4-28 | the guard and the window loop return exactly `Chunks(text, size, overlap)` |
| Chunker.Window | document_processor/chunker.py:23 | the window `text[start:end]` for a start inside the text, written without Python's negative-index rule (which `WindowIsSlice` shows it agrees with) |
| Chunker.ChunksFrom | document_processor/chunker.py:21-26 | the windows the loop emits from `start` onwards; its shape is stated by the `ChunksFrom…` and `ChunkFrom…` lemmas below |
| Chunker.WindowIsSlice | document_processor/chunker.py:23 | the window taken is Python's `text[start:end]`, negative-bound rule included |
| Chunker.ChunksFromCons | document_processor/chunker.py:21-26 | a window that stops short of the end is a full `size` slice, followed by the windows from `size - overlap` further on (non-empty when the overlap is non-negative) |
| Chunker.ChunksFromLast | document_processor/chunker.py:22-25 | a window reaching the end of the text is the last chunk and runs to the end |
| Chunker.ChunksFromFirst | document_processor/chunker.py:21-23 | the loop emits a chunk exactly when the start is inside the text, and the first chunk is `text[start:min(start+size, len)]` |
| Chunker.WindowStartIsLinear | document_processor/chunker.py:26 | window `k` starts at `start + k*(size - overlap)` |
| Chunker.ChunksFromSkip | document_processor/chunker.py:21-26 | after `k` windows the loop continues exactly as if it had started at the `k`-th window start, which lies inside the text |
| Chunker.ChunkFromAt | document_processor/chunker.py:22-23 | chunk `k` is the slice from the `k`-th window start, of length `size` or up to the end of the text |
| Chunker.LastWindow | document_processor/chunker.py:24-25 | a window reaches the end of the text exactly when it is the last one |
| Chunker.ChunkFromLengths | document_processor/chunker.py:22-25 | every chunk is non-empty with at most `size` characters; all but the last have exactly `size`; the last ends at the end of the text |
| Chunker.ChunkShape | document_processor/chunker.py:18-26 | for every accepted configuration with non-negative overlap: chunk `k` is `text[k*step : min(k*step+size, len)]`, the length bounds, the first chunk starts at 0 and the last ends at `len(text)` |
| Chunker.ChunkFromOverlap | document_processor/chunker.py:26 | consecutive chunks share exactly `overlap` characters, tail of one = head of the next |
| Chunker.ChunkOverlap | document_processor/chunker.py:26 | the overlap property for every adjacent pair of `chunk_text`'s result |
| Chunker.StitchChunksFrom | document_processor/chunker.py:21-26 | dropping each chunk's shared tail and concatenating gives the text from the start back |
| Chunker.ChunksCoverText | document_processor/chunker.py:17-28 | the chunks cover the whole text: stitched together they are the text, character for character |
| Chunker.ChunkCount | document_processor/chunker.py:21-26 | the number of chunks `m` is the least with `(m-1)*step + size >= len(text)` |
| Chunker.ThreeThousandCharacters | tests/test_chunker.py:4-9 | any 3000-character text with size 1000 and overlap 200 gives 4 chunks, each sharing 200 characters with the next |
| VectorStore.Zip | vector_db_manager/chroma.py:42 | `zip` pairs documents and metadatas index by index up to the shorter list |
| VectorStore.MatchingDocuments | vector_db_manager/chroma.py:40-44 | the filter never returns more documents than there are records; the lemmas below say which ones it keeps |
| VectorStore.MatchingSound | vector_db_manager/chroma.py:40-44 | every document the `document_id` filter keeps comes from a record whose metadata matches |
| VectorStore.MatchingComplete | vector_db_manager/chroma.py:40-44 | every matching record's document is kept |
| VectorStore.MatchingAppend | vector_db_manager/chroma.py:40-44 | filtering distributes over appended records, so insertion order is kept |
| VectorStore.MetadataFor | vector_db_manager/chroma.py:65 | the `k`-th new metadata is `{document_id: doc_id, chunk_index: k}`, one per chunk |
| VectorStore.MatchingOwnChunks | vector_db_manager/chroma.py:65-67 | the chunks stored under one id match a filter for that id, all of them in order, and match no other filter |
| VectorStore.Collection.constructor | vector_db_manager/chroma.py:25-31 | a new collection has three empty lists |
| VectorStore.Collection.Add | vector_db_manager/chroma.py:33-36 | each of the three lists is extended at its end by the new items, in order |
| VectorStore.Collection.Query | vector_db_manager/chroma.py:38-47 | at most `n_results` documents; with a `document_id` filter, the first `n_results` of the documents whose metadata matches, in insertion order; without one, the first `n_results` documents |
| VectorStore.StoreDocumentChunks | vector_db_manager/chroma.py:59-67 | empty chunks or embeddings leave the collection unchanged; otherwise chunks, embeddings and their metadata are appended after the earlier records; `len(documents) == len(metadatas)` is preserved |
| VectorStore.BuildDocumentFilter | vector_db_manager/chroma.py:70-73 | the filter has the single key `document_id`, mapped to the id |
| VectorStore.SearchSimilarChunks | vector_db_manager/chroma.py:76-83 | the query embedding is ignored; the result is the query's single result list, at most `top_k` long |
| VectorStore.StoreThenMatch | vector_db_manager/chroma.py:59-67 | after a store, a search filtered to the stored id returns the earlier matches followed by the new chunks; searches for other ids are unaffected |
| VectorStore.SearchReturnsOnlyMatching | vector_db_manager/chroma.py:76-83 | each document a filtered search returns was stored with that document id |
| VectorStore.Registry.constructor | vector_db_manager/chroma.py:50 | the registry starts empty |
| VectorStore.Registry.GetOrCreateCollection | vector_db_manager/chroma.py:53-56 | an existing name returns its collection and changes nothing; a new name gets a fresh empty collection and no other name changes |
| VectorStore.GetOrCreateTwice | vector_db_manager/chroma.py:53-56 | a second call with the same name returns the same object and leaves every other name's collection in place |
| VectorStore.FilterIsolationScenario | tests/test_rag_filter.py:11-25 | chunks stored under doc1 and doc2, searched with doc1's filter, give exactly `["doc1 chunk"]` |
| Extractor.ExtractText | document_processor/extractor.py:20-31 | the three MIME types are dispatched to their extractors and any other type is refused with that type; PDF and DOCX failures are their `ValueError`s; plain text is the UTF-8 decoding, succeeding exactly when decoding does |
| Extractor.ExtractTextFromPdf | document_processor/extractor.py:33-45 | the page texts concatenated in order, a missing text as `""`; an unreadable file or page gives the one PDF error and no partial text |
| Extractor.ExtractTextFromDocx | document_processor/extractor.py:47-62 | without the library, the library error; an unparsable file gives the DOCX error; otherwise each paragraph followed by a newline |
| Extractor.ExtractPdf | document_processor/extractor.py:33-45 | the PDF result fails only with the one PDF error; `ExtractTextFromPdf` states its text: the page texts concatenated, or that error when the file or a page cannot be read |
| Extractor.ExtractDocx | document_processor/extractor.py:47-62 | the DOCX result fails only with the library error or the DOCX error; `ExtractTextFromDocx` states its text: the paragraphs each followed by a newline |
| Extractor.ExtractTxt | document_processor/extractor.py:64-68 | the plain-text result succeeds exactly when UTF-8 decoding does, and is then the decoded text |
| Extractor.ConcatPages | document_processor/extractor.py:40-41 | the page texts in page order; the two lemmas below are its properties |
| Extractor.ConcatParagraphs | document_processor/extractor.py:57-58 | each paragraph followed by a newline, so at least one character per paragraph; `DocxNewlines` counts the newlines |
| Extractor.ConcatPagesAppend | document_processor/extractor.py:40-41 | the text of two runs of pages is the first run's text followed by the second's |
| Extractor.EmptyPagesAddNothing | document_processor/extractor.py:41 | pages without a text layer contribute nothing |
| Extractor.DocxNewlines | document_processor/extractor.py:57-58 | exactly one newline per paragraph when the paragraphs hold none |
| Extractor.OneParagraph | tests/test_extractor.py:29-35 | a one-paragraph DOCX extracts to that paragraph plus a newline |
| DocumentService.Decide | services/document_service.py:24-58 | what `process_and_store_document` does before storing: raise, skip with `(None, 0)`, or store these chunks and vectors; it raises an extraction error exactly when extraction fails, and then that error; `EmptyTextSkips` and `DecideStore` state the other cases |
| DocumentService.EmptyTextSkips | services/document_service.py:26-29 | empty extracted text returns `(None, 0)` before embedding or storing |
| DocumentService.DecideStore | services/document_service.py:26-61 | the store is reached only with non-empty text, its chunks with the 1000/200 defaults (at least one, covering the text) and a non-empty embedding of exactly those chunks |
| DocumentService.ProcessAndStoreDocument | services/document_service.py:18-70 | extraction and embedding exceptions propagate, and an empty text or embedding returns `(None, 0)`, all with the store untouched; on success `("doc_" + uuid, len(chunks))` is returned and the default collection gains exactly the chunks, vectors and metadata under that id, every other collection unchanged |
| Rag.BuildPrompt | ai_agent/rag.py:56-71 | the prompt is the fixed instructions with the new standard and the context in their two holes |
| Rag.PromptCarriesInputs | ai_agent/rag.py:56-71 | the prompt contains the new standard text, the context and the marker `[要確認]` |
| Rag.RetrievedContext | ai_agent/rag.py:44-48 | no chunks give the fixed placeholder sentence; a single chunk is the context itself |
| Rag.ChunksReachPrompt | ai_agent/rag.py:44-65 | every retrieved chunk appears in the prompt, joined with the `---` separator |
| Rag.QueryEmbedding | ai_agent/rag.py:20-32 | a query vector exists exactly when the embedding returned a non-empty first vector; an exception yields the `Error:` message with its text |
| Rag.RetrievalFilteredAndCapped | ai_agent/rag.py:36-43 | retrieval uses at most 5 chunks, each stored under the existing document's id, which must be set |
| Rag.RewriteDocumentWithRag | ai_agent/rag.py:12-78 | an embedding failure returns its error string and touches nothing; otherwise the default collection is looked up or created and the completion of the prompt over the filtered top-5 retrieval is returned unchanged |
| DiffGenerator.FormatLine | diff_generator/generator.py:51-52 | a `+`/`-` line becomes sign, space, rest; every other line passes unchanged |
| DiffGenerator.FormatLineInverse | diff_generator/generator.py:51-52 | removing the inserted space gives the diff line back |
| DiffGenerator.FormatLineChange | diff_generator/generator.py:51-61 | a formatted line starts with `"+ "` or `"- "` exactly when its diff line started with `+` or `-` |
| DiffGenerator.StartsWithSign | diff_generator/generator.py:51 | the two `startswith` tests are the sign test |
| DiffGenerator.FormattedLines | diff_generator/generator.py:49-53 | the two header lines are dropped and the rest are formatted in order |
| DiffGenerator.FormattedLinesSnoc | diff_generator/generator.py:49-53 | each diff line past the headers adds exactly its formatted line at the end |
| DiffGenerator.ReportStep | diff_generator/generator.py:53-54 | one loop step past the headers appends the line to both the list and the report |
| DiffGenerator.MarkdownReport | diff_generator/generator.py:49-65 | the markdown report of a unified diff is the "no differences" sentence or starts with the ```` ```diff ```` fence; `NoDifferencesIff` states which one and what follows the fence |
| DiffGenerator.NoDifferencesIff | diff_generator/generator.py:58-65 | the "no differences" sentence is returned exactly when no line after index 1 starts with `+`/`-`; otherwise the report is the fence, each formatted line with a newline, and the closing fence |
| DiffGenerator.HeadersIgnored | diff_generator/generator.py:49-50 | the two header lines never influence the report |
| DiffGenerator.ContextOnlyDiff | diff_generator/generator.py:49-63 | a diff of headers and context lines only reports no differences |
| DiffGenerator.GenerateMarkdownDiff | diff_generator/generator.py:27-65 | the loop over the unified diff returns exactly `MarkdownReport` of it |
| DiffGenerator.GenerateDiffReport | diff_generator/generator.py:3-25 | a format other than markdown/html is refused with the one `Unsupported format` error; markdown gives the markdown report of the two texts' lines, html the library's table |
| DiffGenerator.IdenticalTexts | tests/test_diff_generator.py:4-7 | when the diff of a text with itself is empty, the report is the "no differences" sentence |
| Batch.CompleteLast | services/batch_processor.py:115-116 | only the last step changes: it is marked completed with its details |
| Batch.BeginStep | services/batch_processor.py:107-111 | appending the next step in the fixed order keeps the order, with only the new step still started |
| Batch.FinishStep | services/batch_processor.py:131-133 | completing the step started last leaves every recorded step completed and in order |
| Batch.FailedAt | services/batch_processor.py:169-172 | a document failing at the step started last is an `error` result with that error, well formed |
| Batch.SucceededWith | services/batch_processor.py:162-167 | a `success` result carries the rewritten document, diff report and original text, and is well formed |
| Batch.CountsPartition | services/batch_processor.py:66-71 | every finished result counts exactly once, as a success or a failure |
| Batch.RecordResult | services/batch_processor.py:65-71 | appending a result keeps all results well formed and adds one to exactly the matching counter |
| Batch.NameResult | services/batch_processor.py:59-65 | result `k` carries document `k`'s name, or `Document_{k+1}` |
| Batch.ExpectedStatus | services/batch_processor.py:105-173 | the status processing one document ends with, never `processing`: `error` when extraction fails, the `name` key is missing or ingestion raises, `success` otherwise |
| Batch.StatusResult | services/batch_processor.py:59-71 | appending the next document's result keeps every result's status that of processing its own document alone |
| Batch.MiddleExtractionFails | services/batch_processor.py:59-80 | a three-document batch whose middle document cannot be extracted counts two successes and one failure, and both other documents keep their rewrite and diff report |
| Batch.DisplayName | services/batch_processor.py:99 | the document's name when it has one, otherwise `Document_` followed by decimal digits only |
| Batch.UnnamedDistinct | services/batch_processor.py:99 | two unnamed documents at different positions of the batch get different names |
| Batch.SanitizeName | services/batch_processor.py:194 | both separators replaced by `_`, keeping the length; `SanitizeNameClean` states the rest of the result |
| Batch.SanitizeNameClean | services/batch_processor.py:194 | a sanitised name has no `/` or `\`, the same length, and every other character in place |
| Batch.PathJoin | services/batch_processor.py:187 | an absolute file name replaces the directory, as `os.path.join` does |
| Batch.PathJoinEndsWithFile | services/batch_processor.py:197-202 | the joined path ends with the file name |
| Batch.WellFormedSavable | services/batch_processor.py:163-167 | every well-formed successful result carries both documents to save |
| Batch.PlannedWrites | services/batch_processor.py:192-204 | the planned writes of `save_batch_results`; the lemmas below state their shape and number |
| Batch.OwnWrites | services/batch_processor.py:193-204 | a successful result gives two files and any other result none |
| Batch.PlannedWritesSnoc | services/batch_processor.py:192-204 | one more result adds its own files after the earlier ones |
| Batch.PlannedWritesCount | services/batch_processor.py:192-204 | exactly two files per successful document |
| Batch.RewriteAndCompare | services/batch_processor.py:135-160 | the AI rewrite and diff steps follow the first two in order, all completed; the rewrite is the embedding error message, or the completion of the prompt over the chunks retrieved for the given document id from the default collection; the diff report is the markdown diff of the extracted text against the rewrite; every existing collection name keeps its collection |
| Batch.BatchProcessor.constructor | services/batch_processor.py:22-25 | no batch id, no results, no config |
| Batch.BatchProcessor.StartBatch | services/batch_processor.py:27-42 | the id is `batch_<stamp>_<first 8 of uuid>`, the results are reset, and the config is running under the given or default name |
| Batch.BatchProcessor.ProcessDocumentBatch | services/batch_processor.py:44-93 | a batch is started if none is running; one well-formed result per document in input order, result `k` with the status processing document `k` alone gives, so one failing document never changes another's; `successful + failed == processed == total == len(documents)` with the counters equal to the statuses; every existing collection name keeps its collection; the config ends completed and holds the summary |
| Batch.BatchProcessor.ProcessNext | services/batch_processor.py:59-71 | one turn of the loop: the next document's result keeps the names, statuses and counts of the results in order, and every existing collection name its collection |
| Batch.BatchProcessor.ProcessSingleDocument | services/batch_processor.py:95-175 | steps are appended in the fixed order and marked completed; the first exception gives status `error`, with that step left started, nothing after it and the vector store unchanged; success carries the rewrite, the diff of the original against it and the original text; on success the vectorization step reports `("doc_" + uuid, len(chunks))` or `(None, 0)`, and the rewrite retrieves with that document id; a stored document's chunks, embeddings and metadatas are appended to the default collection, created empty when absent, and every other collection is unchanged; a skipped one changes no existing collection |
| Batch.BatchProcessor.VectorizeAndRewrite | services/batch_processor.py:118-173 | steps 2 to 4 for an extracted, named document: `error` with the ingestion error when ingestion raises, leaving the store unchanged; otherwise success with the stored chunks appended to the default collection, the RAG rewrite and the diff report |
| Batch.BatchProcessor.SaveBatchResults | services/batch_processor.py:177-207 | refused without a config; otherwise the batch file path and two writes per successful result under the sanitised name, in result order |
| Dialogs.LatestPending | ai_agent/dialog_manager.py:71-75 | what it finds is a pending AI message of the list |
| Dialogs.LatestPendingIsLast | ai_agent/dialog_manager.py:71-75 | the search finds nothing exactly when no AI message awaits a response, and otherwise finds the last such message |
| Dialogs.UserReplyKeepsQuestion | ai_agent/dialog_manager.py:55-62 | appending a user message does not change the latest pending question |
| Dialogs.AiQuestionIsLatest | ai_agent/dialog_manager.py:38-47 | a new AI question becomes the latest pending one |
| Dialogs.DialogManager.constructor | ai_agent/dialog_manager.py:15-17 | no dialogs and no current dialog |
| Dialogs.DialogManager.StartNewDialog | ai_agent/dialog_manager.py:19-31 | a new active dialog without messages is stored under its id and becomes current; other dialogs are unchanged |
| Dialogs.DialogManager.AddAiMessage | ai_agent/dialog_manager.py:33-48 | an unknown id is refused with nothing changed; otherwise exactly one AI message requiring a response is appended and `updated_at` set |
| Dialogs.DialogManager.AddUserMessage | ai_agent/dialog_manager.py:50-63 | an unknown id is refused with nothing changed; otherwise exactly one user message is appended, and the latest pending question stays the same |
| Dialogs.DialogManager.GetLatestAiQuestion | ai_agent/dialog_manager.py:65-75 | the reverse scan returns the last pending AI message of the dialog, or none, and none for an unknown id |
| Dialogs.DialogManager.GetDialogHistory | ai_agent/dialog_manager.py:77-82 | the dialog's messages, `[]` for an unknown id |
| Dialogs.DialogManager.CloseDialog | ai_agent/dialog_manager.py:84-88 | a known dialog becomes closed with its messages kept; an unknown id changes nothing |
| Dialogs.GenerateAiQuestionsForDocumentUpdate | ai_agent/dialog_manager.py:126-140 | the same eight distinct questions whatever the arguments |
| Templates.Placeholder | services/template_manager.py:59 | the placeholder is the key in square brackets |
| Templates.ApplyAll | services/template_manager.py:57-60 | the substitutions applied in the order of the custom data: no custom data leaves the content as it is; the lemmas below state the rest |
| Templates.ApplyAllWithoutBrackets | services/template_manager.py:57-60 | content without `[` is never changed by substitution |
| Templates.ApplyAllSelf | services/template_manager.py:57-60 | filling each placeholder with itself leaves the content unchanged |
| Templates.OnePlaceholder | services/template_manager.py:57-60 | a template consisting of one placeholder becomes the value |
| Templates.PlaceholderOpensOnce | services/template_manager.py:59 | only the first character of a placeholder for a key without `[` is `[` |
| Templates.ReplaceAllJoin | services/template_manager.py:59-60 | text made of placeholder-free parts joined by one key's placeholder becomes the parts joined by the value: every occurrence is replaced and nothing else changes |
| Templates.FillsEveryOccurrence | services/template_manager.py:57-60 | the same for the substitution of one custom-data key |
| Templates.LoadedIndexed | services/template_manager.py:25-36 | after loading, the key order lists every stored name exactly once |
| Templates.LoadedCovers | services/template_manager.py:25-36 | every file read is stored under its stem |
| Templates.LoadedFrom | services/template_manager.py:30-36 | every stored template is a file that was read, under its own name |
| Templates.LoadedLast | services/template_manager.py:25-36 | of several files with one stem, the last one read is the one stored |
| Templates.TemplateManager.constructor | services/template_manager.py:15-36 | the dict is `LoadedMap` of the files read and its key order `LoadedOrder`; so every loaded template's name is stored, each stored template is a loaded template of that name, and of several files with one name the last one loaded is stored |
| Templates.TemplateManager.GetAvailableTemplates | services/template_manager.py:40-42 | exactly the stored templates, one per name |
| Templates.TemplateManager.GetTemplate | services/template_manager.py:44-46 | the stored template, or none for an unknown name |
| Templates.TemplateManager.ApplyTemplate | services/template_manager.py:48-62 | an unknown name is refused; without custom data the stored content; otherwise each key's placeholder replaced everywhere in turn; the stored template is not modified |
| Logging.FilterLevel | utils/logger.py:91-92 | the level filter never returns more entries than it is given; the lemmas below say which ones |
| Logging.FilterLevelExact | utils/logger.py:91-92 | the level filter keeps exactly the entries of that level |
| Logging.FilterLevelAppend | utils/logger.py:91-92 | filtering commutes with appending, so order is kept |
| Logging.SelectLogs | utils/logger.py:90-94 | `get_logs` never returns more entries than the log has, nor more than a positive limit; the two lemmas below state the level and limit rules |
| Logging.SelectLogsLimit | utils/logger.py:94 | a positive limit gives the last `limit` entries; no limit or 0 gives all |
| Logging.SelectLogsLevel | utils/logger.py:91-94 | with a level, only entries of `level.upper()` are returned |
| Logging.TextLines | utils/logger.py:107-109 | one `[ts] LEVEL: message` line per entry, in order |
| Logging.TextExportHasEntry | utils/logger.py:106-110 | each exported entry's line appears in the text export |
| Logging.TextExportBound | utils/logger.py:102 | the export covers at most the last 100 entries |
| Logging.StreamlitLogger.constructor | utils/logger.py:31-32 | the session log is created empty only when absent; existing entries survive |
| Logging.StreamlitLogger.LogInfo | utils/logger.py:34-44 | exactly one `INFO` entry appended at the end |
| Logging.StreamlitLogger.LogWarning | utils/logger.py:46-56 | exactly one `WARNING` entry appended at the end |
| Logging.StreamlitLogger.LogError | utils/logger.py:58-71 | exactly one `ERROR` entry appended, with the error's type and message when given |
| Logging.StreamlitLogger.LogProcessingStep | utils/logger.py:73-85 | exactly one `INFO` entry `処理ステップ: step - status` appended |
| Logging.StreamlitLogger.GetLogs | utils/logger.py:87-94 | `[]` without a session log; at most `limit` entries for a positive limit |
| Logging.StreamlitLogger.ClearLogs | utils/logger.py:96-98 | the log becomes empty |
| Logging.StreamlitLogger.ExportLogs | utils/logger.py:100-112 | json gives the last 100 entries; text gives their lines joined by newlines; any other format is refused |
| Helpers.ValidateFileType | utils/helpers.py:20-22 | an accepted name has an extension of at least four characters starting with a dot; `ValidateBySuffix` states exactly which names are accepted |
| Helpers.LastIndexOf | utils/helpers.py:21 | the last index of the character, or -1 when absent |
| Helpers.Extension | utils/helpers.py:21 | the extension is empty or a dot-led suffix of the name |
| Helpers.ExtensionIsFinal | utils/helpers.py:21 | an extension has no further dot or separator, so only the final one counts |
| Helpers.ExtensionOfSuffixed | utils/helpers.py:21 | a name ending in a dot-led suffix after an ordinary stem character has exactly that extension |
| Helpers.ValidateBySuffix | utils/helpers.py:20-22 | such a name is accepted exactly when its lower-cased extension is `.pdf`, `.docx` or `.txt` |
| Helpers.UpperCasePdfAccepted | utils/helpers.py:22 | `X.PDF` is accepted |
| Helpers.ArchiveRejected | utils/helpers.py:21-22 | `a.txt.zip` is rejected |
| Text.Join | ai_agent/rag.py:48 | `sep.join(parts)`: `""` for no parts and the part itself for one; `JoinContainsPart` and `JoinLength` are its properties |
| Text.DecimalStringInjective | services/batch_processor.py:99 | `str(n)` of two different numbers differ |
| Text.JoinContainsPart | ai_agent/rag.py:48 | every part is found in the joined string |
| Text.ReplaceAll | services/template_manager.py:60 | `str.replace` for a non-empty pattern, scanning left to right; the lemmas below are its properties |
| Text.ReplaceAllAbsent | services/template_manager.py:60 | a string without the pattern is returned unchanged |
| Text.ReplaceAllIdentity | services/template_manager.py:60 | replacing the pattern by itself changes nothing |
| Text.ReplaceAllSkip | services/template_manager.py:60 | a prefix where no occurrence starts is copied through, and the scan resumes after it |
| Helpers.NoExtensionRejected | utils/helpers.py:21-22 | a name without a dot, or a hidden file's leading dot alone, is rejected |

## Left out

- The network clients (llm_client/completion.py, llm_client/embedding.py) are opaque functions, `Embedder` and `Completer`.
- The parsing libraries are opaque functions: pypdf, python-docx, UTF-8 decoding, `str.splitlines`, `difflib.unified_diff` and `HtmlDiff`.
- `uuid4` values and timestamps are parameters. `Services.docUuid` gives one uuid per document index.
- Step timestamps (`timestamp`, `end_timestamp`) and a result's `start_time`/`end_time` are not recorded.
- `start_time`/`end_time` of the batch config are not recorded either.
- File-system I/O is not modelled: the directory creation and file writes of `save_batch_results` become a returned plan of writes.
- `TemplateManager.load_templates` and `create_custom_template` are not modelled. The templates that were read are a constructor parameter.
- `load_env_variables` and the `os.path.exists` checks are not modelled.
- The JSON export of `export_logs` is returned as its entries rather than as the `json.dumps` text.
- The Python `logging` output and tracebacks are not modelled.
- `get_batch_summary` and the success rate are floating point and are not modelled.
- The UI helpers are Streamlit rendering, and `app_core/app.py` and `run_app.py` are not part of this model. The UI helpers are:
  - `create_batch_interface`, `create_dialog_interface`, `create_question_interface`, `create_template_interface`, `create_log_display`;
  - `save_dialog_to_session`, `load_dialog_from_session`;
  - `get_standard_templates`.
- The `except` in `rewrite_document_with_rag` around the search (ai_agent/rag.py:50-52) is not modelled. In the in-memory store, lookup and search cannot raise.
- The outer `except` of `process_document_batch` (services/batch_processor.py:73-80) is not modelled. `_process_single_document` catches every exception itself.
- Because of the outer `except`, `processed_documents` always equals `total_documents` in the model.
- `str(e)` is modelled as the error datatype of the exception that was raised, not as its message text.
- Custom template values are taken as strings: `str(value)` of a non-string value (a date) is outside the model.
- `Text.Lower` and `Text.Upper` change ASCII letters only. Python's `lower()`/`upper()` also map other scripts.
- Chunker.ChunkShape, Chunker.ChunkOverlap, Chunker.ChunksCoverText and Chunker.ChunkCount require `0 <= overlap`:
  - `Chunks` and `ChunkText` model a negative overlap as the source runs it.
  - With a negative overlap, windows leave gaps and the overlap and coverage properties do not hold.
- DiffGenerator.GenerateDiffReport: the `UnsupportedFormat` error carries the rejected format. The source's `ValueError` message is fixed and does not name it.
- Batch.BatchProcessor.ProcessSingleDocument takes a `Document` whose content and file type are always present. The `KeyError` a dict without these keys would raise is not modelled. The batch UI always builds documents with all three keys (services/batch_processor.py:265-270).
- DocumentService.ProcessAndStoreDocument ignores the document name. The source uses it only in a log line.
- Helpers.Extension models POSIX `os.path.splitext` (`/` as the separator). It does not model the Windows variant.
