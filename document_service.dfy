/** The ingestion pipeline (services/document_service.py):
    extract, chunk, embed, then store under a fresh document id. */
module DocumentService {
  import opened Wrappers
  import opened Providers
  import Extractor
  import Chunker
  import VectorStore

  /** The exceptions `process_and_store_document` lets through. */
  datatype ServiceError =
    | ExtractionError(cause: Extractor.ExtractError)
    | EmbeddingError(message: string)

  /** The `(doc_id, num_chunks)` pair it returns. */
  datatype Ingested = Ingested(docId: Option<string>, numChunks: nat)

  const DocIdPrefix: string := "doc_"

  /** What the pipeline decides before it touches the store. */
  datatype Decision =
    | Raise(error: ServiceError)                     // an exception propagates
    | Skip                                           // returns (None, 0)
    | Store(chunks: seq<string>, vectors: seq<Vector>)

  /** The pipeline's decision for a file, with the extractor's parsers and the
      embedding client given. */
  function Decide(fileContent: Extractor.Bytes, fileType: string,
                  parsers: Extractor.Parsers, embed: Embedder): (d: Decision)
    ensures (d.Raise? && d.error.ExtractionError?) <==> Extractor.ExtractText(fileContent, fileType, parsers).Failure?
    ensures d.Raise? && d.error.ExtractionError? ==> d.error.cause == Extractor.ExtractText(fileContent, fileType, parsers).error
  {
    match Extractor.ExtractText(fileContent, fileType, parsers)
    case Failure(e) => Raise(ExtractionError(e))
    case Success(text) =>
      if text == "" then Skip
      else
        var chunks := Chunker.Chunks(text, Chunker.DefaultChunkSize, Chunker.DefaultChunkOverlap).value;
        match embed(chunks)
        case EmbedRaised(m) => Raise(EmbeddingError(m))
        case Embedded(vectors) => if vectors == [] then Skip else Store(chunks, vectors)
  }

  /** Documents stored only when text was extracted and embedded: the chunks
      are those of the extracted text with the default window, there is at
      least one, and the vectors come from embedding exactly those chunks. */
  lemma DecideStore(fileContent: Extractor.Bytes, fileType: string,
                    parsers: Extractor.Parsers, embed: Embedder)
    requires Decide(fileContent, fileType, parsers, embed).Store?
    ensures var d := Decide(fileContent, fileType, parsers, embed);
      var ext := Extractor.ExtractText(fileContent, fileType, parsers);
      && ext.Success? && ext.value != ""
      && d.chunks == Chunker.Chunks(ext.value, 1000, 200).value
      && d.chunks != []
      && embed(d.chunks) == Embedded(d.vectors) && d.vectors != []
      && Chunker.Stitch(d.chunks, 200) == ext.value
  {
    var ext := Extractor.ExtractText(fileContent, fileType, parsers);
    Chunker.ChunksCoverText(ext.value, 1000, 200);
  }

  /** Empty extracted text never reaches the embedding client or the store. */
  lemma EmptyTextSkips(fileContent: Extractor.Bytes, fileType: string,
                       parsers: Extractor.Parsers, embed: Embedder)
    requires Extractor.ExtractText(fileContent, fileType, parsers) == Success("")
    ensures Decide(fileContent, fileType, parsers, embed) == Skip
  {
  }

  /** `process_and_store_document`. The extractor, chunker and embedding
      client run first; only when all succeed is the default collection
      looked up and the chunks appended there under `"doc_" + uuid`. */
  method ProcessAndStoreDocument(registry: VectorStore.Registry, fileContent: Extractor.Bytes,
                                 fileType: string, documentName: string,
                                 parsers: Extractor.Parsers, embed: Embedder, uuid: string)
    returns (r: Result<Ingested, ServiceError>)
    requires registry.Valid()
    modifies registry, registry.collections.Values
    ensures registry.Valid()
    ensures forall o :: o in registry.collections.Values ==> o in old(registry.collections.Values) || fresh(o)
    ensures var d := Decide(fileContent, fileType, parsers, embed);
      && (d.Raise? ==> r == Failure(d.error))
      && (d.Skip? ==> r == Success(Ingested(None, 0)))
      && (d.Store? ==> r == Success(Ingested(Some(DocIdPrefix + uuid), |d.chunks|)))
    ensures !Decide(fileContent, fileType, parsers, embed).Store? ==>
      && unchanged(registry)
      && forall c :: c in old(registry.collections.Values) ==> unchanged(c)
    ensures Decide(fileContent, fileType, parsers, embed).Store? ==>
      var d := Decide(fileContent, fileType, parsers, embed);
      var name := VectorStore.DefaultCollectionName;
      && registry.collections.Keys == old(registry.collections.Keys) + {name}
      && (forall n :: n in old(registry.collections) ==> registry.collections[n] == old(registry.collections[n]))
      && var c := registry.collections[name];
         && (name !in old(registry.collections) ==> fresh(c))
         && c.documents == (if name in old(registry.collections) then old(c.documents) else []) + d.chunks
         && c.embeddings == (if name in old(registry.collections) then old(c.embeddings) else []) + d.vectors
         && c.metadatas == (if name in old(registry.collections) then old(c.metadatas) else [])
                           + VectorStore.MetadataFor(DocIdPrefix + uuid, |d.chunks|)
         && (forall o :: o in old(registry.collections.Values) && o != c ==> unchanged(o))
  {
    // 1. text extraction; its exceptions propagate
    var extracted := Extractor.ExtractText(fileContent, fileType, parsers);
    if extracted.Failure? {
      return Failure(ExtractionError(extracted.error));
    }
    var text := extracted.value;
    if text == "" {
      return Success(Ingested(None, 0));
    }
    // 2. chunking with the defaults
    var chunked := Chunker.ChunkText(text, Chunker.DefaultChunkSize, Chunker.DefaultChunkOverlap);
    var chunks := chunked.value;
    var numChunks := |chunks|;
    // 3. embeddings; an exception propagates, an empty result aborts
    var embedded := embed(chunks);
    if embedded.EmbedRaised? {
      return Failure(EmbeddingError(embedded.message));
    }
    var embeddings := embedded.vectors;
    if embeddings == [] {
      return Success(Ingested(None, 0));
    }
    // 4. storage under a fresh id
    var docId := DocIdPrefix + uuid;
    var collection := registry.GetOrCreateCollection(VectorStore.DefaultCollectionName);
    VectorStore.StoreDocumentChunks(collection, chunks, embeddings, docId);
    return Success(Ingested(Some(docId), numChunks));
  }
}
