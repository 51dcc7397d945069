/** The embedding and completion clients (llm_client/), seen from their callers.
    Both are network calls and are taken as opaque functions. */
module Providers {

  /** An embedding vector; its numbers are never inspected by the core. */
  type Vector = seq<real>

  /** What `generate_embeddings` yields: the list of vectors (the client returns
      `[]` for empty input and after a provider failure), or an exception raised
      from inside the call. */
  datatype EmbedOutcome = Embedded(vectors: seq<Vector>) | EmbedRaised(message: string)

  type Embedder = seq<string> -> EmbedOutcome

  /** `get_completion`: the generated text, `""` for an empty prompt, or an
      `"Error: ..."` string after a provider failure. It never raises. */
  type Completer = string -> string
}
