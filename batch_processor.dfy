/** Batch processing of several documents against one new standard
    (services/batch_processor.py). */
module Batch {
  import opened Wrappers
  import opened Providers
  import Text
  import PySlices
  import Extractor
  import DocumentService
  import Rag
  import DiffGenerator
  import VectorStore

  /** An uploaded document; `name` is absent when the dict has no `'name'` key. */
  datatype Document = Document(name: Option<string>, content: Extractor.Bytes, fileType: string)

  /** The services a batch calls. `docUuid(i)` is the uuid the ingestion
      draws for the i-th document. */
  datatype Services = Services(
    parsers: Extractor.Parsers,
    embed: Embedder,
    complete: Completer,
    diffLib: DiffGenerator.DiffLibrary,
    docUuid: nat -> string)

  /** The clock readings `start_batch` formats: `%Y%m%d_%H%M%S` for the id
      and `%Y-%m-%d %H:%M` for the default name. */
  datatype Clock = Clock(idStamp: string, nameStamp: string)

  datatype StepKind = TextExtraction | Vectorization | AiRewrite | DiffGeneration

  const StepOrder: seq<StepKind> := [TextExtraction, Vectorization, AiRewrite, DiffGeneration]

  /** A processing step: `'started'` until it is marked `'completed'`. */
  datatype Step = Step(kind: StepKind, completed: bool, details: Option<DocumentService.Ingested>)

  datatype DocStatus = Processing | Succeeded | Failed

  /** What `str(e)` reports, by the exception it came from. */
  datatype BatchError =
    | ExtractionFailed(cause: Extractor.ExtractError)
    | MissingName
    | IngestionFailed(reason: DocumentService.ServiceError)

  datatype DocResult = DocResult(
    documentName: string,
    status: DocStatus,
    steps: seq<Step>,
    error: Option<BatchError>,
    rewrittenDocument: Option<string>,
    diffReport: Option<string>,
    originalText: Option<string>)

  datatype BatchStatus = Running | Completed

  datatype BatchSummary = BatchSummary(
    batchId: string, total: nat, processed: nat, successful: nat, failed: nat, results: seq<DocResult>)

  datatype BatchConfig = BatchConfig(
    batchId: string, batchName: string, status: BatchStatus, results: Option<BatchSummary>)

  /** A file `save_batch_results` writes. */
  datatype FileWrite = FileWrite(path: string, content: string)

  datatype SaveError = BatchNotStarted

  const BatchIdPrefix: string := "batch_"
  const DefaultNamePrefix: string := "バッチ処理_"
  const DocumentNamePrefix: string := "Document_"

  /** `doc.get('name', f'Document_{i}')` */
  function DisplayName(document: Document, docIndex: nat): (n: string)
    ensures document.name.Some? ==> n == document.name.value
    ensures document.name.None? ==>
      && Text.StartsWith(n, DocumentNamePrefix) && |n| > |DocumentNamePrefix|
      && forall i :: |DocumentNamePrefix| <= i < |n| ==> '0' <= n[i] <= '9'
  {
    if document.name.Some? then document.name.value else DocumentNamePrefix + Text.DecimalString(docIndex)
  }

  /** Documents without a name at different positions of a batch get
      different names. */
  lemma UnnamedDistinct(d1: Document, d2: Document, i: nat, j: nat)
    requires d1.name.None? && d2.name.None? && i != j
    ensures DisplayName(d1, i) != DisplayName(d2, j)
  {
    if DisplayName(d1, i) == DisplayName(d2, j) {
      var p := |DocumentNamePrefix|;
      assert DisplayName(d1, i)[p..] == Text.DecimalString(i);
      assert DisplayName(d2, j)[p..] == Text.DecimalString(j);
      Text.DecimalStringInjective(i, j);
    }
  }

  /** Marks the last step `'completed'`, with the details it reports. */
  function CompleteLast(steps: seq<Step>, details: Option<DocumentService.Ingested>): (r: seq<Step>)
    requires steps != []
    ensures |r| == |steps| && r[..|r| - 1] == steps[..|steps| - 1]
    ensures r[|r| - 1] == Step(steps[|steps| - 1].kind, true, details)
  {
    steps[..|steps| - 1] + [Step(steps[|steps| - 1].kind, true, details)]
  }

  /** The steps recorded so far follow the fixed order. */
  predicate StepsInOrder(steps: seq<Step>)
  {
    |steps| <= |StepOrder| && forall i :: 0 <= i < |steps| ==> steps[i].kind == StepOrder[i]
  }

  /** Every step but the last is completed. */
  predicate EarlierStepsCompleted(steps: seq<Step>)
  {
    forall i :: 0 <= i < |steps| - 1 ==> steps[i].completed
  }

  /** Every step recorded so far is completed. */
  predicate AllStepsCompleted(steps: seq<Step>)
  {
    forall i :: 0 <= i < |steps| ==> steps[i].completed
  }

  /** Starting the next step of the fixed order after completed ones. */
  lemma BeginStep(steps: seq<Step>, kind: StepKind)
    requires StepsInOrder(steps) && AllStepsCompleted(steps)
    requires |steps| < |StepOrder| && kind == StepOrder[|steps|]
    ensures var next := steps + [Step(kind, false, None)];
      && StepsInOrder(next) && EarlierStepsCompleted(next) && !next[|next| - 1].completed
  {
  }

  /** Completing the step that was started last. */
  lemma FinishStep(steps: seq<Step>, details: Option<DocumentService.Ingested>)
    requires StepsInOrder(steps) && steps != [] && EarlierStepsCompleted(steps)
    ensures StepsInOrder(CompleteLast(steps, details)) && AllStepsCompleted(CompleteLast(steps, details))
  {
    var r := CompleteLast(steps, details);
    forall i | 0 <= i < |r|
      ensures r[i].kind == StepOrder[i] && r[i].completed
    {
      if i < |r| - 1 {
        assert r[i] == r[..|r| - 1][i];
      }
    }
  }

  /** A document that failed at the step started last. */
  function FailedAt(name: string, steps: seq<Step>, error: BatchError): (r: DocResult)
    requires StepsInOrder(steps) && steps != [] && EarlierStepsCompleted(steps) && !steps[|steps| - 1].completed
    ensures WellFormedResult(r) && r.documentName == name && r.status == Failed && r.steps == steps
    ensures r.error == Some(error)
  {
    DocResult(name, Failed, steps, Some(error), None, None, None)
  }

  /** A document whose four steps all completed. */
  function SucceededWith(name: string, steps: seq<Step>, rewritten: string, diff: string, original: string): (r: DocResult)
    requires StepsInOrder(steps) && AllStepsCompleted(steps) && |steps| == |StepOrder|
    ensures WellFormedResult(r) && r.documentName == name && r.status == Succeeded && r.steps == steps
    ensures r.rewrittenDocument == Some(rewritten) && r.diffReport == Some(diff) && r.originalText == Some(original)
  {
    DocResult(name, Succeeded, steps, None, Some(rewritten), Some(diff), Some(original))
  }

  /** The shape every result of `_process_single_document` has: steps in
      order; success exactly when all four steps completed, and then the
      rewritten document, diff and original text are present; on error the
      step that failed is left `'started'` and nothing after it is recorded. */
  predicate WellFormedResult(r: DocResult)
  {
    && StepsInOrder(r.steps) && r.steps != [] && EarlierStepsCompleted(r.steps)
    && r.status != Processing
    && (r.status == Succeeded <==> |r.steps| == |StepOrder| && r.steps[|r.steps| - 1].completed)
    && (r.status == Succeeded ==>
          r.error.None? && r.rewrittenDocument.Some? && r.diffReport.Some? && r.originalText.Some?)
    && (r.status == Failed ==> r.error.Some? && !r.steps[|r.steps| - 1].completed)
  }

  function CountSucceeded(rs: seq<DocResult>): nat
  {
    if rs == [] then 0 else CountSucceeded(rs[..|rs| - 1]) + (if rs[|rs| - 1].status == Succeeded then 1 else 0)
  }

  function CountFailed(rs: seq<DocResult>): nat
  {
    if rs == [] then 0 else CountFailed(rs[..|rs| - 1]) + (if rs[|rs| - 1].status == Failed then 1 else 0)
  }

  /** Every finished result is counted exactly once, as a success or a failure. */
  lemma {:induction false} CountsPartition(rs: seq<DocResult>)
    requires forall i :: 0 <= i < |rs| ==> rs[i].status != Processing
    ensures CountSucceeded(rs) + CountFailed(rs) == |rs|
  {
    if rs != [] {
      CountsPartition(rs[..|rs| - 1]);
    }
  }

  /** `name.replace('/', '_').replace('\\', '_')` */
  function SanitizeName(name: string): (r: string)
    ensures |r| == |name|
  {
    Text.ReplaceChar(Text.ReplaceChar(name, '/', '_'), '\\', '_')
  }

  /** A sanitised name has the same length, no path separator, and every
      other character in place. */
  lemma SanitizeNameClean(name: string)
    ensures |SanitizeName(name)| == |name|
    ensures forall i :: 0 <= i < |name| ==>
      var c := SanitizeName(name)[i];
      && c != '/' && c != '\\'
      && (name[i] != '/' && name[i] != '\\' ==> c == name[i])
  {
    var once := Text.ReplaceChar(name, '/', '_');
    assert forall i :: 0 <= i < |name| ==> once[i] == if name[i] == '/' then '_' else name[i];
  }

  /** POSIX `os.path.join(directory, file)` of two components. */
  function PathJoin(directory: string, file: string): (p: string)
    ensures Text.StartsWith(file, "/") ==> p == file
  {
    if Text.StartsWith(file, "/") then file
    else if directory == [] || directory[|directory| - 1] == '/' then directory + file
    else directory + "/" + file
  }

  lemma PathJoinEndsWithFile(directory: string, file: string)
    ensures |file| <= |PathJoin(directory, file)|
    ensures PathJoin(directory, file)[|PathJoin(directory, file)| - |file|..] == file
  {
  }

  predicate AllWellFormed(rs: seq<DocResult>)
  {
    forall i :: 0 <= i < |rs| ==> WellFormedResult(rs[i])
  }

  /** Appending one finished result keeps every result well formed and
      adds it to exactly one of the two counts. */
  lemma RecordResult(rs: seq<DocResult>, r: DocResult)
    requires AllWellFormed(rs) && WellFormedResult(r)
    ensures AllWellFormed(rs + [r])
    ensures CountSucceeded(rs + [r]) == CountSucceeded(rs) + (if r.status == Succeeded then 1 else 0)
    ensures CountFailed(rs + [r]) == CountFailed(rs) + (if r.status == Failed then 1 else 0)
  {
    assert (rs + [r])[..|rs|] == rs;
  }

  /** Result `k` carries the display name of document `k`, numbered from 1. */
  predicate NamedInOrder(rs: seq<DocResult>, documents: seq<Document>)
  {
    |rs| == |documents| && forall k :: 0 <= k < |rs| ==> rs[k].documentName == DisplayName(documents[k], k + 1)
  }

  lemma NameResult(rs: seq<DocResult>, documents: seq<Document>, i: nat, r: DocResult)
    requires i < |documents| && NamedInOrder(rs, documents[..i])
    requires r.documentName == DisplayName(documents[i], i + 1)
    ensures NamedInOrder(rs + [r], documents[..i + 1])
  {
  }

  /** The status `_process_single_document` ends with for a document:
      `'error'` when extraction fails, the name is missing or ingestion
      raises, and `'success'` otherwise. Processing always finishes. */
  function ExpectedStatus(document: Document, services: Services): (s: DocStatus)
    ensures s != Processing
  {
    if || Extractor.ExtractText(document.content, document.fileType, services.parsers).Failure?
       || document.name.None?
       || DocumentService.Decide(document.content, document.fileType, services.parsers, services.embed).Raise?
    then Failed
    else Succeeded
  }

  /** Result `k` has the status processing document `k` on its own gives. */
  predicate StatusesAsExpected(rs: seq<DocResult>, documents: seq<Document>, services: Services)
  {
    |rs| <= |documents| && forall k :: 0 <= k < |rs| ==> rs[k].status == ExpectedStatus(documents[k], services)
  }

  lemma StatusResult(rs: seq<DocResult>, documents: seq<Document>, services: Services, r: DocResult)
    requires StatusesAsExpected(rs, documents, services) && |rs| < |documents|
    requires r.status == ExpectedStatus(documents[|rs|], services)
    ensures StatusesAsExpected(rs + [r], documents, services)
  {
  }

  /** A three-document batch whose middle document cannot be extracted
      reports two successes and one failure, and both successful documents
      still carry their rewrite and diff report. */
  lemma MiddleExtractionFails(results: seq<DocResult>, documents: seq<Document>, services: Services)
    requires |documents| == 3 && |results| == 3
    requires AllWellFormed(results)
    requires forall k :: 0 <= k < 3 ==> results[k].status == ExpectedStatus(documents[k], services)
    requires Extractor.ExtractText(documents[1].content, documents[1].fileType, services.parsers).Failure?
    requires ExpectedStatus(documents[0], services) == Succeeded && ExpectedStatus(documents[2], services) == Succeeded
    ensures CountSucceeded(results) == 2 && CountFailed(results) == 1
    ensures forall k :: 0 <= k < 3 && k != 1 ==>
      results[k].rewrittenDocument.Some? && results[k].diffReport.Some?
  {
    assert ExpectedStatus(documents[1], services) == Failed;
    CountThree(results);
  }

  /** Counting a success, a failure and a success. */
  lemma CountThree(results: seq<DocResult>)
    requires |results| == 3
    requires results[0].status == Succeeded && results[1].status == Failed && results[2].status == Succeeded
    ensures CountSucceeded(results) == 2 && CountFailed(results) == 1
  {
    var first := results[..1];
    var firstTwo := results[..2];
    assert firstTwo[..1] == first && first[..0] == [];
    assert CountSucceeded(first) == 1 && CountFailed(first) == 0;
    assert CountSucceeded(firstTwo) == 1;
    assert CountFailed(firstTwo) == 1;
  }

  /** What saving needs of a result: a success carries both documents. */
  predicate Savable(r: DocResult)
  {
    r.status == Succeeded ==> r.rewrittenDocument.Some? && r.diffReport.Some?
  }

  predicate AllSavable(rs: seq<DocResult>)
  {
    forall i :: 0 <= i < |rs| ==> Savable(rs[i])
  }

  lemma AllSavablePrefix(rs: seq<DocResult>, i: nat)
    requires AllSavable(rs) && i <= |rs|
    ensures AllSavable(rs[..i])
  {
    forall k | 0 <= k < i
      ensures Savable(rs[..i][k])
    {
      assert rs[..i][k] == rs[k];
    }
  }

  /** A well-formed success carries both documents, so every well-formed
      result can be saved. */
  lemma WellFormedSavable(rs: seq<DocResult>)
    requires AllWellFormed(rs)
    ensures AllSavable(rs)
  {
    forall i | 0 <= i < |rs|
      ensures Savable(rs[i])
    {
      assert WellFormedResult(rs[i]);
    }
  }

  /** The two files written for one successful result, none otherwise. */
  function OwnWrites(outputDir: string, batchId: string, r: DocResult): (ws: seq<FileWrite>)
    requires Savable(r)
    ensures |ws| == if r.status == Succeeded then 2 else 0
  {
    if r.status == Succeeded then
      var docName := SanitizeName(r.documentName);
      [ FileWrite(PathJoin(outputDir, batchId + "_" + docName + "_rewritten.md"), r.rewrittenDocument.value),
        FileWrite(PathJoin(outputDir, batchId + "_" + docName + "_diff.md"), r.diffReport.value) ]
    else []
  }

  /** The files written for the successful results, two per success: the
      rewritten document and the diff report, in result order. */
  function PlannedWrites(outputDir: string, batchId: string, results: seq<DocResult>): (ws: seq<FileWrite>)
    requires AllSavable(results)
  {
    if results == [] then []
    else
      AllSavablePrefix(results, |results| - 1);
      PlannedWrites(outputDir, batchId, results[..|results| - 1]) + OwnWrites(outputDir, batchId, results[|results| - 1])
  }

  /** Saving one more result adds its own files after the earlier ones. */
  lemma PlannedWritesSnoc(outputDir: string, batchId: string, results: seq<DocResult>, i: nat)
    requires AllSavable(results) && i < |results|
    ensures AllSavable(results[..i]) && AllSavable(results[..i + 1])
    ensures PlannedWrites(outputDir, batchId, results[..i + 1])
         == PlannedWrites(outputDir, batchId, results[..i]) + OwnWrites(outputDir, batchId, results[i])
  {
    AllSavablePrefix(results, i);
    AllSavablePrefix(results, i + 1);
    assert results[..i + 1][..i] == results[..i];
  }

  lemma AppendTwo<T>(s: seq<T>, x: T, y: T)
    ensures s + [x] + [y] == s + [x, y]
  {
  }

  /** Exactly two files per successful document. */
  lemma {:induction false} PlannedWritesCount(outputDir: string, batchId: string, results: seq<DocResult>)
    requires AllSavable(results)
    ensures |PlannedWrites(outputDir, batchId, results)| == 2 * CountSucceeded(results)
  {
    if results != [] {
      AllSavablePrefix(results, |results| - 1);
      PlannedWritesCount(outputDir, batchId, results[..|results| - 1]);
    }
  }

  /** Steps 3 and 4 of `_process_single_document`, after a successful
      ingestion: the AI rewrite of the document against the new standard,
      then the markdown diff of the extracted text against the rewrite, each
      recorded as a step started and then completed. Neither call raises. */
  method RewriteAndCompare(registry: VectorStore.Registry, stepsBefore: seq<Step>, docId: Option<string>,
                           existingDocText: string, newStandardText: string, services: Services)
    returns (steps: seq<Step>, rewrittenDoc: string, diffReport: string)
    requires registry.Valid()
    requires StepsInOrder(stepsBefore) && AllStepsCompleted(stepsBefore) && |stepsBefore| == 2
    modifies registry
    ensures registry.Valid()
    ensures forall o :: o in registry.collections.Values ==> o in old(registry.collections.Values) || fresh(o)
    ensures forall n :: n in old(registry.collections) ==>
      n in registry.collections && registry.collections[n] == old(registry.collections[n])
    ensures StepsInOrder(steps) && AllStepsCompleted(steps) && |steps| == |StepOrder|
    ensures steps[..2] == stepsBefore
    ensures var q := Rag.QueryEmbedding(services.embed([newStandardText]));
      && (q.Failure? ==> rewrittenDoc == q.error)
      && (q.Success? ==>
            && VectorStore.DefaultCollectionName in registry.collections
            && rewrittenDoc == services.complete(Rag.BuildPrompt(newStandardText, Rag.RetrievedContext(
                 VectorStore.SearchSimilarChunks(registry.collections[VectorStore.DefaultCollectionName], q.value,
                                                 Rag.TopK, Some(VectorStore.BuildDocumentFilter(docId)))))))
    ensures diffReport == DiffGenerator.MarkdownReport(services.diffLib.unifiedDiff(
      services.diffLib.splitLines(existingDocText), services.diffLib.splitLines(rewrittenDoc)))
  {
    steps := stepsBefore;
    // step 3: AI rewrite
    BeginStep(steps, AiRewrite);
    steps := steps + [Step(AiRewrite, false, None)];
    rewrittenDoc := Rag.RewriteDocumentWithRag(registry, docId, newStandardText, services.embed, services.complete);
    FinishStep(steps, None);
    steps := CompleteLast(steps, None);
    // step 4: diff generation
    BeginStep(steps, DiffGeneration);
    steps := steps + [Step(DiffGeneration, false, None)];
    var report := DiffGenerator.GenerateDiffReport(
      existingDocText, rewrittenDoc, DiffGenerator.MarkdownFormat, services.diffLib);
    FinishStep(steps, None);
    steps := CompleteLast(steps, None);
    diffReport := report.value;
  }

  /** The files `save_batch_results` writes, besides the batch file itself. */
  datatype SavePlan = SavePlan(batchFile: string, writes: seq<FileWrite>)

  class BatchProcessor {
    var batchId: Option<string>
    var batchResults: seq<DocResult>
    var batchConfig: Option<BatchConfig>

    /** The id and the config are set together, the id is never empty, and
        recorded results have the shape `_process_single_document` gives. */
    predicate Consistent()
      reads this
    {
      && (batchId.Some? <==> batchConfig.Some?)
      && (batchId.Some? ==> batchId.value != "" && batchConfig.value.batchId == batchId.value)
      && (batchConfig.Some? && batchConfig.value.results.Some? ==>
            AllWellFormed(batchConfig.value.results.value.results)
            && AllSavable(batchConfig.value.results.value.results))
    }

    constructor ()
      ensures batchId == None && batchResults == [] && batchConfig == None
      ensures Consistent()
    {
      batchId := None;
      batchResults := [];
      batchConfig := None;
    }

    /** `start_batch`: a new id from the clock and the uuid's first eight
        characters, no results, and a running config. */
    method StartBatch(batchName: Option<string>, clock: Clock, uuid: string) returns (id: string)
      modifies this
      ensures id == BatchIdPrefix + clock.idStamp + "_" + PySlices.Take(uuid, 8)
      ensures batchId == Some(id) && batchResults == []
      ensures batchConfig == Some(BatchConfig(
        id,
        if batchName.Some? && batchName.value != "" then batchName.value else DefaultNamePrefix + clock.nameStamp,
        Running,
        None))
      ensures Consistent()
    {
      id := BatchIdPrefix + clock.idStamp + "_" + PySlices.Take(uuid, 8);
      batchId := Some(id);
      batchResults := [];
      var name := if batchName.Some? && batchName.value != "" then batchName.value else DefaultNamePrefix + clock.nameStamp;
      batchConfig := Some(BatchConfig(id, name, Running, None));
    }

    /** `process_document_batch`: starts a batch if none is running, then
        processes every document in order, one result each; a failed
        document is counted and the loop goes on. The config ends
        `'completed'` and holds the summary. */
    method ProcessDocumentBatch(registry: VectorStore.Registry, documents: seq<Document>, newStandardText: string,
                                services: Services, clock: Clock, uuid: string)
      returns (results: BatchSummary)
      requires registry.Valid() && Consistent()
      modifies this, registry, registry.collections.Values
      ensures registry.Valid() && Consistent()
      ensures results.total == |documents| && results.processed == |documents| && |results.results| == |documents|
      ensures results.successful + results.failed == results.total
      ensures results.successful == CountSucceeded(results.results) && results.failed == CountFailed(results.results)
      ensures forall n :: n in old(registry.collections) ==>
        n in registry.collections && registry.collections[n] == old(registry.collections[n])
      ensures NamedInOrder(results.results, documents)
      ensures forall k :: 0 <= k < |documents| ==> results.results[k].status == ExpectedStatus(documents[k], services)
      ensures AllWellFormed(results.results)
      ensures old(batchId).Some? ==> batchId == old(batchId)
      ensures batchId.Some? && results.batchId == batchId.value
      ensures batchConfig.Some? && batchConfig.value.status == Completed && batchConfig.value.results == Some(results)
      ensures batchResults == old(batchResults) || batchResults == []
    {
      if batchId.None? || batchId.value == "" {
        var _ := StartBatch(None, clock, uuid);
      }
      var id := batchId.value;
      var config := batchConfig.value;
      ghost var before := registry.collections;
      var docResults: seq<DocResult> := [];
      var processed: nat := 0;
      var successful: nat := 0;
      var failed: nat := 0;
      for i := 0 to |documents|
        invariant registry.Valid()
        invariant forall o :: o in registry.collections.Values ==> o in old(registry.collections.Values) || fresh(o)
        invariant batchId == Some(id) && batchConfig == Some(config) && Consistent()
        invariant batchResults == old(batchResults) || batchResults == []
        invariant |docResults| == i && processed == i && successful + failed == i
        invariant successful == CountSucceeded(docResults) && failed == CountFailed(docResults)
        invariant forall n :: n in before ==> n in registry.collections && registry.collections[n] == before[n]
        invariant NamedInOrder(docResults, documents[..i])
        invariant StatusesAsExpected(docResults, documents, services)
        invariant AllWellFormed(docResults)
      {
        var docResult := ProcessNext(registry, docResults, documents, newStandardText, services);
        docResults := docResults + [docResult];
        processed := processed + 1;
        if docResult.status == Succeeded {
          successful := successful + 1;
        } else {
          failed := failed + 1;
        }
      }
      WellFormedSavable(docResults);
      assert documents[..|documents|] == documents;
      results := BatchSummary(id, |documents|, processed, successful, failed, docResults);
      batchConfig := Some(config.(status := Completed, results := Some(results)));
    }

    /** One turn of the batch loop: document `|done| + 1` is processed and
        its result extends what the loop keeps about the results so far. */
    method ProcessNext(registry: VectorStore.Registry, done: seq<DocResult>, documents: seq<Document>,
                       newStandardText: string, services: Services)
      returns (docResult: DocResult)
      requires registry.Valid() && |done| < |documents|
      requires NamedInOrder(done, documents[..|done|]) && StatusesAsExpected(done, documents, services)
      requires AllWellFormed(done)
      modifies registry, registry.collections.Values
      ensures registry.Valid()
      ensures forall o :: o in registry.collections.Values ==> o in old(registry.collections.Values) || fresh(o)
      ensures forall n :: n in old(registry.collections) ==>
        n in registry.collections && registry.collections[n] == old(registry.collections[n])
      ensures NamedInOrder(done + [docResult], documents[..|done| + 1])
      ensures StatusesAsExpected(done + [docResult], documents, services)
      ensures AllWellFormed(done + [docResult])
      ensures CountSucceeded(done + [docResult]) == CountSucceeded(done) + (if docResult.status == Succeeded then 1 else 0)
      ensures CountFailed(done + [docResult]) == CountFailed(done) + (if docResult.status == Failed then 1 else 0)
      ensures docResult.status != Processing
    {
      var i := |done|;
      docResult := ProcessSingleDocument(registry, documents[i], newStandardText, i + 1, services);
      RecordResult(done, docResult);
      NameResult(done, documents, i, docResult);
      StatusResult(done, documents, services, docResult);
    }

    /** `_process_single_document`: text extraction, vectorization, AI
        rewrite and diff generation, each recorded as a step when it starts
        and marked completed when it returns; the first exception ends the
        document with status `'error'`. */
    /** Steps 2 to 4 of `_process_single_document` once the text is
        extracted and the document has a name: ingestion, then the RAG
        rewrite and the diff report. */
    method VectorizeAndRewrite(registry: VectorStore.Registry, document: Document, newStandardText: string,
                               docIndex: nat, services: Services, name: string, steps: seq<Step>,
                               existingDocText: string)
      returns (result: DocResult)
      requires registry.Valid() && document.name.Some?
      requires Extractor.ExtractText(document.content, document.fileType, services.parsers) == Success(existingDocText)
      requires StepsInOrder(steps) && |steps| == 2 && EarlierStepsCompleted(steps) && !steps[1].completed
      modifies registry, registry.collections.Values
      ensures registry.Valid()
      ensures forall o :: o in registry.collections.Values ==> o in old(registry.collections.Values) || fresh(o)
      ensures WellFormedResult(result) && result.documentName == name
      ensures var decision := DocumentService.Decide(document.content, document.fileType, services.parsers, services.embed);
        && (decision.Raise? ==> result.status == Failed && |result.steps| == 2
                                && result.error == Some(IngestionFailed(decision.error)))
        && (!decision.Raise? ==> result.status == Succeeded)
      ensures result.status == Succeeded ==>
        var original := existingDocText;
        && result.originalText == Some(original)
        && result.diffReport == Some(DiffGenerator.MarkdownReport(services.diffLib.unifiedDiff(
             services.diffLib.splitLines(original), services.diffLib.splitLines(result.rewrittenDocument.value))))
      ensures result.status == Succeeded ==>
        var d := DocumentService.Decide(document.content, document.fileType, services.parsers, services.embed);
        var docId := if d.Store? then Some(DocumentService.DocIdPrefix + services.docUuid(docIndex)) else None;
        var q := Rag.QueryEmbedding(services.embed([newStandardText]));
        && !d.Raise? && |result.steps| == |StepOrder|
        && result.steps[1].details == Some(DocumentService.Ingested(docId, if d.Store? then |d.chunks| else 0))
        && (q.Failure? ==> result.rewrittenDocument == Some(q.error))
        && (q.Success? ==>
              && VectorStore.DefaultCollectionName in registry.collections
              && result.rewrittenDocument == Some(services.complete(Rag.BuildPrompt(newStandardText, Rag.RetrievedContext(
                   VectorStore.SearchSimilarChunks(registry.collections[VectorStore.DefaultCollectionName], q.value,
                                                   Rag.TopK, Some(VectorStore.BuildDocumentFilter(docId))))))))
      ensures result.status == Failed ==>
        unchanged(registry) && forall o :: o in old(registry.collections.Values) ==> unchanged(o)
      ensures result.status == Succeeded ==>
        forall n :: n in old(registry.collections) ==>
          n in registry.collections && registry.collections[n] == old(registry.collections[n])
      ensures var d := DocumentService.Decide(document.content, document.fileType, services.parsers, services.embed);
        result.status == Succeeded && !d.Store? ==>
          forall o :: o in old(registry.collections.Values) ==> unchanged(o)
      ensures var d := DocumentService.Decide(document.content, document.fileType, services.parsers, services.embed);
        var name := VectorStore.DefaultCollectionName;
        result.status == Succeeded && d.Store? ==>
          && name in registry.collections
          && var c := registry.collections[name];
             && c.documents == (if name in old(registry.collections) then old(c.documents) else []) + d.chunks
             && c.embeddings == (if name in old(registry.collections) then old(c.embeddings) else []) + d.vectors
             && c.metadatas == (if name in old(registry.collections) then old(c.metadatas) else [])
                               + VectorStore.MetadataFor(DocumentService.DocIdPrefix + services.docUuid(docIndex), |d.chunks|)
             && (forall o :: o in old(registry.collections.Values) && o != c ==> unchanged(o))
    {
      var ingested := DocumentService.ProcessAndStoreDocument(
        registry, document.content, document.fileType, document.name.value,
        services.parsers, services.embed, services.docUuid(docIndex));
      if ingested.Failure? {
        return FailedAt(name, steps, IngestionFailed(ingested.error));
      }
      FinishStep(steps, Some(ingested.value));
      var done := CompleteLast(steps, Some(ingested.value));
      var finalSteps, rewrittenDoc, diffReport := RewriteAndCompare(
        registry, done, ingested.value.docId, existingDocText, newStandardText, services);
      assert finalSteps[1] == finalSteps[..2][1] == done[1];
      return SucceededWith(name, finalSteps, rewrittenDoc, diffReport, existingDocText);
    }

    method ProcessSingleDocument(registry: VectorStore.Registry, document: Document, newStandardText: string,
                                 docIndex: nat, services: Services)
      returns (result: DocResult)
      requires registry.Valid()
      modifies registry, registry.collections.Values
      ensures registry.Valid()
      ensures forall o :: o in registry.collections.Values ==> o in old(registry.collections.Values) || fresh(o)
      ensures WellFormedResult(result)
      ensures result.status == ExpectedStatus(document, services)
      ensures result.documentName == DisplayName(document, docIndex)
      ensures var ext := Extractor.ExtractText(document.content, document.fileType, services.parsers);
        && (ext.Failure? ==>
              result.status == Failed && |result.steps| == 1 && result.error == Some(ExtractionFailed(ext.error)))
        && (ext.Success? && document.name.None? ==>
              result.status == Failed && |result.steps| == 2 && result.error == Some(MissingName))
        && (ext.Success? && document.name.Some? ==>
              var decision := DocumentService.Decide(document.content, document.fileType, services.parsers, services.embed);
              && (decision.Raise? ==> result.status == Failed && |result.steps| == 2
                                      && result.error == Some(IngestionFailed(decision.error)))
              && (!decision.Raise? ==> result.status == Succeeded))
      ensures result.status == Succeeded ==>
        var original := Extractor.ExtractText(document.content, document.fileType, services.parsers).value;
        && result.originalText == Some(original)
        && result.diffReport == Some(DiffGenerator.MarkdownReport(services.diffLib.unifiedDiff(
             services.diffLib.splitLines(original), services.diffLib.splitLines(result.rewrittenDocument.value))))
      ensures result.status == Succeeded ==>
        var d := DocumentService.Decide(document.content, document.fileType, services.parsers, services.embed);
        var docId := if d.Store? then Some(DocumentService.DocIdPrefix + services.docUuid(docIndex)) else None;
        var q := Rag.QueryEmbedding(services.embed([newStandardText]));
        && !d.Raise? && |result.steps| == |StepOrder|
        && result.steps[1].details == Some(DocumentService.Ingested(docId, if d.Store? then |d.chunks| else 0))
        && (q.Failure? ==> result.rewrittenDocument == Some(q.error))
        && (q.Success? ==>
              && VectorStore.DefaultCollectionName in registry.collections
              && result.rewrittenDocument == Some(services.complete(Rag.BuildPrompt(newStandardText, Rag.RetrievedContext(
                   VectorStore.SearchSimilarChunks(registry.collections[VectorStore.DefaultCollectionName], q.value,
                                                   Rag.TopK, Some(VectorStore.BuildDocumentFilter(docId))))))))
      ensures result.status == Failed ==>
        unchanged(registry) && forall o :: o in old(registry.collections.Values) ==> unchanged(o)
      ensures result.status == Succeeded ==>
        forall n :: n in old(registry.collections) ==>
          n in registry.collections && registry.collections[n] == old(registry.collections[n])
      ensures var d := DocumentService.Decide(document.content, document.fileType, services.parsers, services.embed);
        result.status == Succeeded && !d.Store? ==>
          forall o :: o in old(registry.collections.Values) ==> unchanged(o)
      ensures var d := DocumentService.Decide(document.content, document.fileType, services.parsers, services.embed);
        var name := VectorStore.DefaultCollectionName;
        result.status == Succeeded && d.Store? ==>
          && name in registry.collections
          && var c := registry.collections[name];
             && c.documents == (if name in old(registry.collections) then old(c.documents) else []) + d.chunks
             && c.embeddings == (if name in old(registry.collections) then old(c.embeddings) else []) + d.vectors
             && c.metadatas == (if name in old(registry.collections) then old(c.metadatas) else [])
                               + VectorStore.MetadataFor(DocumentService.DocIdPrefix + services.docUuid(docIndex), |d.chunks|)
             && (forall o :: o in old(registry.collections.Values) && o != c ==> unchanged(o))
    {
      var name := DisplayName(document, docIndex);
      var steps: seq<Step> := [];
      // step 1: text extraction
      BeginStep(steps, TextExtraction);
      steps := steps + [Step(TextExtraction, false, None)];
      var extracted := Extractor.ExtractText(document.content, document.fileType, services.parsers);
      if extracted.Failure? {
        return FailedAt(name, steps, ExtractionFailed(extracted.error));
      }
      FinishStep(steps, None);
      steps := CompleteLast(steps, None);
      // step 2: vectorization; `document['name']` raises when the key is absent
      BeginStep(steps, Vectorization);
      steps := steps + [Step(Vectorization, false, None)];
      if document.name.None? {
        return FailedAt(name, steps, MissingName);
      }
      result := VectorizeAndRewrite(registry, document, newStandardText, docIndex, services, name, steps, extracted.value);
    }

    /** `save_batch_results`: refused before a batch was started; otherwise
        the batch file's path and, for each successful result, its rewritten
        document and its diff report under the sanitised document name. */
    method SaveBatchResults(outputDir: string) returns (r: Result<SavePlan, SaveError>)
      requires Consistent()
      ensures r.Failure? <==> batchConfig.None?
      ensures r.Success? ==>
        var config := batchConfig.value;
        && r.value.batchFile == PathJoin(outputDir, config.batchId + ".json")
        && r.value.writes ==
             (if config.results.Some? then PlannedWrites(outputDir, config.batchId, config.results.value.results) else [])
    {
      if batchConfig.None? {
        return Failure(BatchNotStarted);
      }
      var id := batchId.value;
      var batchFile := PathJoin(outputDir, id + ".json");
      var saved: seq<FileWrite> := [];
      var config := batchConfig.value;
      var results := if config.results.Some? then config.results.value.results else [];
      assert AllSavable(results);
      for i := 0 to |results|
        invariant AllSavable(results[..i])
        invariant saved == PlannedWrites(outputDir, id, results[..i])
      {
        var result := results[i];
        PlannedWritesSnoc(outputDir, id, results, i);
        if result.status == Succeeded {
          ghost var before := saved;
          var docName := SanitizeName(result.documentName);
          var rewrittenFile := PathJoin(outputDir, id + "_" + docName + "_rewritten.md");
          saved := saved + [FileWrite(rewrittenFile, result.rewrittenDocument.value)];
          var diffFile := PathJoin(outputDir, id + "_" + docName + "_diff.md");
          saved := saved + [FileWrite(diffFile, result.diffReport.value)];
          AppendTwo(before, FileWrite(rewrittenFile, result.rewrittenDocument.value), FileWrite(diffFile, result.diffReport.value));
        }
      }
      assert results[..|results|] == results;
      return Success(SavePlan(batchFile, saved));
    }
  }
}
