/** Rewriting an existing document for a new standard by retrieval-augmented
    generation (ai_agent/rag.py). */
module Rag {
  import opened Wrappers
  import opened Providers
  import Text
  import VectorStore

  const TopK: int := 5
  const ContextSeparator: string := "\n\n---\n\n"
  const NoContextMessage: string := "関連する既存の文書情報は見つかりませんでした。"
  const NoEmbeddingMessage: string := "Error: Could not generate embedding for the new standard."
  const EmbeddingErrorPrefix: string := "Error: 新規格のベクトル化中にエラーが発生しました。 "

  /** The fixed parts of the prompt's f-string, around the two holes. */
  const PromptHead: string :=
    "\n    あなたは、企業のISO規格担当者です。"
    + "\n    以下の新しい規格内容と、それに関連する既存の社内文書の抜粋を参考にして、"
    + "\n    既存の文書を新しい規格に適合するように書き換えてください。"
    + "\n\n    # 新しい規格内容:\n    "
  const PromptMiddle: string := "\n\n    # 既存の社内文書からの関連抜粋:\n    "
  const ReviewMarker: string := "[要確認]"
  const TailBeforeMarker: string :=
    "\n\n    # 指示:"
    + "\n    - 上記の情報を基に、既存の文書を全面的に見直し、新しい規格に準拠した内容のマークダウン形式の文書を生成してください。"
    + "\n    - 変更点だけでなく、文書全体を出力してください。"
    + "\n    - AIの判断だけでは対応が難しい、あるいは解釈の確認が必要な項目があれば、`"
  const TailAfterMarker: string := "`というプレフィックスを付けてその項目を記述してください。\n    "
  const PromptTail: string := TailBeforeMarker + ReviewMarker + TailAfterMarker

  /** The prompt: the instructions with the new standard and the retrieved
      context filled in. */
  function BuildPrompt(newStandardText: string, context: string): (p: string)
    ensures Text.StartsWith(p, PromptHead)
    ensures |p| == |PromptHead| + |newStandardText| + |PromptMiddle| + |context| + |PromptTail|
  {
    PromptHead + newStandardText + PromptMiddle + context + PromptTail
  }

  /** The prompt holds the new standard, the context, and the instruction to
      mark items needing confirmation with `[要確認]`. */
  lemma PromptCarriesInputs(newStandardText: string, context: string)
    ensures Text.Contains(BuildPrompt(newStandardText, context), newStandardText)
    ensures Text.Contains(BuildPrompt(newStandardText, context), context)
    ensures Text.Contains(BuildPrompt(newStandardText, context), ReviewMarker)
  {
    var withStandard := PromptHead + newStandardText;
    var withContext := withStandard + PromptMiddle + context;
    // the new standard
    Text.ContainsSelf(newStandardText);
    Text.ContainsRight(PromptHead, newStandardText, newStandardText);
    Text.ContainsLeft(withStandard, PromptMiddle, newStandardText);
    Text.ContainsLeft(withStandard + PromptMiddle, context, newStandardText);
    Text.ContainsLeft(withContext, PromptTail, newStandardText);
    // the context
    Text.ContainsSelf(context);
    Text.ContainsRight(withStandard + PromptMiddle, context, context);
    Text.ContainsLeft(withContext, PromptTail, context);
    // the marker
    Text.ContainsSelf(ReviewMarker);
    Text.ContainsRight(TailBeforeMarker, ReviewMarker, ReviewMarker);
    Text.ContainsLeft(TailBeforeMarker + ReviewMarker, TailAfterMarker, ReviewMarker);
    Text.ContainsRight(withContext, PromptTail, ReviewMarker);
  }

  /** The context passed to the model: a placeholder sentence when nothing was
      retrieved, otherwise the chunks separated by `---` lines. */
  function RetrievedContext(chunks: seq<string>): (ctx: string)
    ensures chunks == [] ==> ctx == NoContextMessage
    ensures |chunks| == 1 ==> ctx == chunks[0]
  {
    if chunks == [] then NoContextMessage else Text.Join(chunks, ContextSeparator)
  }

  /** Every retrieved chunk reaches the prompt. */
  lemma ChunksReachPrompt(newStandardText: string, chunks: seq<string>, i: nat)
    requires i < |chunks|
    ensures Text.Contains(BuildPrompt(newStandardText, RetrievedContext(chunks)), chunks[i])
  {
    var ctx := RetrievedContext(chunks);
    Text.JoinContainsPart(chunks, ContextSeparator, i);
    Text.ContainsInfix(PromptHead + newStandardText + PromptMiddle, ctx, PromptTail, chunks[i]);
  }

  /** The query vector `rewrite_document_with_rag` retrieves with, or the
      message it returns instead. */
  function QueryEmbedding(embedded: EmbedOutcome): (r: Result<Vector, string>)
    ensures r.Success? <==> embedded.Embedded? && embedded.vectors != [] && embedded.vectors[0] != []
    ensures r.Success? ==> r.value == embedded.vectors[0]
    ensures embedded.EmbedRaised? ==> r == Failure(EmbeddingErrorPrefix + embedded.message)
  {
    match embedded
    case EmbedRaised(m) => Failure(EmbeddingErrorPrefix + m)
    case Embedded(vectors) =>
      if vectors == [] || vectors[0] == [] then Failure(NoEmbeddingMessage) else Success(vectors[0])
  }

  /** The retrieval step uses at most five chunks, each stored under the
      existing document's id. */
  lemma RetrievalFilteredAndCapped(collection: VectorStore.Collection, query: Vector,
                                   existingDocId: Option<string>, k: nat)
    requires k < |VectorStore.SearchSimilarChunks(collection, query, TopK, Some(VectorStore.BuildDocumentFilter(existingDocId)))|
    ensures |VectorStore.SearchSimilarChunks(collection, query, TopK, Some(VectorStore.BuildDocumentFilter(existingDocId)))| <= 5
    ensures exists i ::
      && existingDocId.Some?
      && 0 <= i < |collection.documents| && i < |collection.metadatas|
      && collection.metadatas[i].documentId == existingDocId.value
      && VectorStore.SearchSimilarChunks(collection, query, TopK, Some(VectorStore.BuildDocumentFilter(existingDocId)))[k]
         == collection.documents[i]
  {
    VectorStore.SearchReturnsOnlyMatching(collection, query, TopK, existingDocId, k);
  }

  /** `rewrite_document_with_rag`. The new standard is embedded first; on
      failure an error message is returned and the store is not touched.
      Otherwise the default collection is looked up (created empty if
      missing), up to five chunks of the existing document are retrieved,
      and the completion of the resulting prompt is returned unchanged. */
  method RewriteDocumentWithRag(registry: VectorStore.Registry, existingDocId: Option<string>,
                                newStandardText: string, embed: Embedder, complete: Completer)
    returns (out: string)
    requires registry.Valid()
    modifies registry
    ensures registry.Valid()
    ensures forall o :: o in registry.collections.Values ==> o in old(registry.collections.Values) || fresh(o)
    ensures var q := QueryEmbedding(embed([newStandardText]));
      q.Failure? ==> out == q.error && unchanged(registry)
    ensures var q := QueryEmbedding(embed([newStandardText]));
      q.Success? ==>
        var name := VectorStore.DefaultCollectionName;
        && registry.collections.Keys == old(registry.collections.Keys) + {name}
        && (forall n :: n in old(registry.collections) ==> registry.collections[n] == old(registry.collections[n]))
        && var chunks := VectorStore.SearchSimilarChunks(registry.collections[name], q.value, TopK,
                                                         Some(VectorStore.BuildDocumentFilter(existingDocId)));
           && out == complete(BuildPrompt(newStandardText, RetrievedContext(chunks)))
           && (name !in old(registry.collections) ==> chunks == [])
  {
    // 1. the query vector
    var embedded := embed([newStandardText]);
    if embedded.EmbedRaised? {
      return EmbeddingErrorPrefix + embedded.message;
    }
    var embeddings := embedded.vectors;
    if embeddings == [] {
      return NoEmbeddingMessage;
    }
    var queryEmbedding := embeddings[0];
    if queryEmbedding == [] {
      return NoEmbeddingMessage;
    }
    // 2. retrieval from the existing document's chunks
    var collection := registry.GetOrCreateCollection(VectorStore.DefaultCollectionName);
    var retrievedChunks := VectorStore.SearchSimilarChunks(collection, queryEmbedding, TopK,
                                                          Some(VectorStore.BuildDocumentFilter(existingDocId)));
    if VectorStore.DefaultCollectionName !in old(registry.collections) {
      assert collection.documents == [];
      assert retrievedChunks == [];
    }
    var retrievedContext := RetrievedContext(retrievedChunks);
    // 3. and 4. the prompt and its completion
    var prompt := BuildPrompt(newStandardText, retrievedContext);
    out := complete(prompt);
  }
}
