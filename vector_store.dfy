/** In-memory vector store (vector_db_manager/chroma.py): a process-wide
    registry of named collections, each holding three append-only lists. */
module VectorStore {
  import opened Wrappers
  import opened Providers
  import PySlices

  const DefaultCollectionName: string := "iso_documents"
  const DocumentIdKey: string := "document_id"

  /** `{"document_id": doc_id, "chunk_index": i}` */
  datatype Metadata = Metadata(documentId: string, chunkIndex: nat)

  /** A `where` filter: metadata key to wanted value (`None` is Python's `None`). */
  type Filter = map<string, Option<string>>

  /** A stored (document, metadata) pair, as `zip(documents, metadatas)` yields it. */
  type Record = (string, Metadata)

  function Min(a: int, b: int): int
  {
    if a < b then a else b
  }

  /** `zip(documents, metadatas)`: pairs up to the shorter list. */
  function Zip(documents: seq<string>, metadatas: seq<Metadata>): (rs: seq<Record>)
    ensures |rs| == Min(|documents|, |metadatas|)
    ensures forall i :: 0 <= i < |rs| ==> rs[i] == (documents[i], metadatas[i])
  {
    seq(Min(|documents|, |metadatas|), i requires 0 <= i < Min(|documents|, |metadatas|) =>
      (documents[i], metadatas[i]))
  }

  /** `meta.get("document_id") == wanted`, metadata always carrying a string id. */
  predicate Matches(m: Metadata, wanted: Option<string>)
  {
    wanted == Some(m.documentId)
  }

  /** The document of one record if its metadata matches `wanted`. */
  function Kept(rec: Record, wanted: Option<string>): seq<string>
  {
    if Matches(rec.1, wanted) then [rec.0] else []
  }

  /** The documents of the records whose metadata matches `wanted`, in order. */
  function MatchingDocuments(rs: seq<Record>, wanted: Option<string>): (r: seq<string>)
    ensures |r| <= |rs|
  {
    if rs == [] then [] else Kept(rs[0], wanted) + MatchingDocuments(rs[1..], wanted)
  }

  /** Every document the filter keeps comes from a matching record. */
  lemma {:induction false} MatchingSound(rs: seq<Record>, wanted: Option<string>, k: nat)
    requires k < |MatchingDocuments(rs, wanted)|
    ensures exists i :: 0 <= i < |rs| && Matches(rs[i].1, wanted) && MatchingDocuments(rs, wanted)[k] == rs[i].0
  {
    var head := Kept(rs[0], wanted);
    var rest := MatchingDocuments(rs[1..], wanted);
    assert MatchingDocuments(rs, wanted) == head + rest;
    if k < |head| {
      assert Matches(rs[0].1, wanted) && MatchingDocuments(rs, wanted)[k] == rs[0].0;
    } else {
      MatchingSound(rs[1..], wanted, k - |head|);
      var i :| 0 <= i < |rs[1..]| && Matches(rs[1..][i].1, wanted) && rest[k - |head|] == rs[1..][i].0;
      assert rs[1..][i] == rs[i + 1];
      assert Matches(rs[i + 1].1, wanted) && MatchingDocuments(rs, wanted)[k] == rs[i + 1].0;
    }
  }

  /** Every matching record's document is kept. */
  lemma {:induction false} MatchingComplete(rs: seq<Record>, wanted: Option<string>, i: nat)
    requires i < |rs| && Matches(rs[i].1, wanted)
    ensures rs[i].0 in MatchingDocuments(rs, wanted)
  {
    if i > 0 {
      MatchingComplete(rs[1..], wanted, i - 1);
      assert rs[1..][i - 1] == rs[i];
    }
  }

  /** Filtering distributes over appending records. */
  lemma {:induction false} MatchingAppend(a: seq<Record>, b: seq<Record>, wanted: Option<string>)
    ensures MatchingDocuments(a + b, wanted) == MatchingDocuments(a, wanted) + MatchingDocuments(b, wanted)
  {
    if a == [] {
      assert a + b == b;
    } else {
      var ab := a + b;
      assert ab[0] == a[0];
      assert ab[1..] == a[1..] + b;
      MatchingAppend(a[1..], b, wanted);
      assert MatchingDocuments(ab, wanted) == Kept(a[0], wanted) + MatchingDocuments(a[1..] + b, wanted);
    }
  }

  lemma MatchingSingle(rec: Record, wanted: Option<string>)
    ensures MatchingDocuments([rec], wanted) == Kept(rec, wanted)
  {
    assert [rec][1..] == [];
  }

  /** The metadata `store_document_chunks` attaches to `n` chunks of `docId`. */
  function MetadataFor(docId: string, n: nat): (ms: seq<Metadata>)
    ensures |ms| == n
    ensures forall k :: 0 <= k < n ==> ms[k] == Metadata(docId, k)
  {
    seq(n, k requires 0 <= k < n => Metadata(docId, k))
  }

  /** Records freshly stored under one document all match it and nothing else. */
  lemma {:induction false} MatchingOwnChunks(chunks: seq<string>, docId: string, wanted: Option<string>)
    ensures MatchingDocuments(Zip(chunks, MetadataFor(docId, |chunks|)), wanted)
         == if wanted == Some(docId) then chunks else []
    decreases |chunks|
  {
    var rs := Zip(chunks, MetadataFor(docId, |chunks|));
    if chunks != [] {
      var last := |chunks| - 1;
      MatchingOwnChunks(chunks[..last], docId, wanted);
      assert rs == Zip(chunks[..last], MetadataFor(docId, last)) + [rs[last]];
      MatchingAppend(Zip(chunks[..last], MetadataFor(docId, last)), [rs[last]], wanted);
      MatchingSingle(rs[last], wanted);
      assert rs[last] == (chunks[last], Metadata(docId, last));
      assert chunks[..last] + [chunks[last]] == chunks;
    }
  }

  lemma ZipAppend(d1: seq<string>, m1: seq<Metadata>, d2: seq<string>, m2: seq<Metadata>)
    requires |d1| == |m1|
    ensures Zip(d1 + d2, m1 + m2) == Zip(d1, m1) + Zip(d2, m2)
  {
  }

  /** An in-memory collection: three parallel lists. */
  class Collection {
    var documents: seq<string>
    var embeddings: seq<Vector>
    var metadatas: seq<Metadata>

    constructor ()
      ensures documents == [] && embeddings == [] && metadatas == []
    {
      documents, embeddings, metadatas := [], [], [];
    }

    /** The invariant every store keeps: one metadata per document. */
    predicate Aligned()
      reads this
    {
      |documents| == |metadatas|
    }

    /** `_Collection.add`: the three lists are extended in place. */
    method Add(newEmbeddings: seq<Vector>, newDocuments: seq<string>, newMetadatas: seq<Metadata>)
      modifies this
      ensures documents == old(documents) + newDocuments
      ensures embeddings == old(embeddings) + newEmbeddings
      ensures metadatas == old(metadatas) + newMetadatas
    {
      embeddings := embeddings + newEmbeddings;
      documents := documents + newDocuments;
      metadatas := metadatas + newMetadatas;
    }

    /** `_Collection.query`: with a `document_id` filter, the matching documents
        in insertion order; otherwise all documents; then `[:n_results]`. */
    function Query(nResults: int, where: Option<Filter>): (r: seq<string>)
      reads this
      ensures 0 <= nResults ==> |r| <= nResults
      ensures !(where.Some? && DocumentIdKey in where.value) ==> r == PySlices.Take(documents, nResults)
      ensures where.Some? && DocumentIdKey in where.value ==>
        r == PySlices.Take(MatchingDocuments(Zip(documents, metadatas), where.value[DocumentIdKey]), nResults)
    {
      var docs :=
        if where.Some? && DocumentIdKey in where.value
        then MatchingDocuments(Zip(documents, metadatas), where.value[DocumentIdKey])
        else documents;
      var r := PySlices.Take(docs, nResults);
      assert forall k :: 0 <= k < |r| ==> r[k] == docs[k];
      r
    }
  }

  /** `store_document_chunks`: nothing happens when either list is empty;
      otherwise the chunks, their embeddings and their metadata are appended. */
  method StoreDocumentChunks(collection: Collection, chunks: seq<string>, embeddings: seq<Vector>, docId: string)
    modifies collection
    ensures chunks == [] || embeddings == [] ==> unchanged(collection)
    ensures chunks != [] && embeddings != [] ==>
      && collection.documents == old(collection.documents) + chunks
      && collection.embeddings == old(collection.embeddings) + embeddings
      && collection.metadatas == old(collection.metadatas) + MetadataFor(docId, |chunks|)
    ensures old(collection.Aligned()) ==> collection.Aligned()
  {
    if chunks == [] || embeddings == [] {
      return;
    }
    var metadatas := MetadataFor(docId, |chunks|);
    collection.Add(embeddings, chunks, metadatas);
  }

  /** `build_document_filter` */
  function BuildDocumentFilter(docId: Option<string>): (f: Filter)
    ensures f.Keys == {DocumentIdKey} && f[DocumentIdKey] == docId
  {
    map[DocumentIdKey := docId]
  }

  /** `search_similar_chunks`: the query embedding is not used; the result is
      the query's single result list. */
  function SearchSimilarChunks(collection: Collection, queryEmbedding: Vector, topK: int, where: Option<Filter>): (r: seq<string>)
    reads collection
    ensures 0 <= topK ==> |r| <= topK
    ensures r == collection.Query(topK, where)
  {
    collection.Query(topK, where)
  }

  /** Storing a document's chunks on an aligned collection makes a search
      filtered to that document return its earlier chunks followed by the new
      ones; a search filtered to any other document is not affected. */
  lemma StoreThenMatch(documents: seq<string>, metadatas: seq<Metadata>, chunks: seq<string>, docId: string, wanted: Option<string>)
    requires |documents| == |metadatas|
    ensures MatchingDocuments(Zip(documents + chunks, metadatas + MetadataFor(docId, |chunks|)), wanted)
         == MatchingDocuments(Zip(documents, metadatas), wanted) + (if wanted == Some(docId) then chunks else [])
  {
    ZipAppend(documents, metadatas, chunks, MetadataFor(docId, |chunks|));
    MatchingAppend(Zip(documents, metadatas), Zip(chunks, MetadataFor(docId, |chunks|)), wanted);
    MatchingOwnChunks(chunks, docId, wanted);
  }

  /** A search filtered to a document returns only documents stored with
      that document's id, and at most `topK` of them. */
  lemma SearchReturnsOnlyMatching(collection: Collection, queryEmbedding: Vector, topK: int, docId: Option<string>, k: nat)
    requires k < |SearchSimilarChunks(collection, queryEmbedding, topK, Some(BuildDocumentFilter(docId)))|
    ensures exists i ::
      && 0 <= i < |collection.documents| && i < |collection.metadatas|
      && Matches(collection.metadatas[i], docId)
      && SearchSimilarChunks(collection, queryEmbedding, topK, Some(BuildDocumentFilter(docId)))[k] == collection.documents[i]
  {
    var rs := Zip(collection.documents, collection.metadatas);
    var matching := MatchingDocuments(rs, docId);
    var r := SearchSimilarChunks(collection, queryEmbedding, topK, Some(BuildDocumentFilter(docId)));
    assert r == PySlices.Take(matching, topK);
    assert r[k] == matching[k];
    MatchingSound(rs, docId, k);
    var i :| 0 <= i < |rs| && Matches(rs[i].1, docId) && matching[k] == rs[i].0;
    assert rs[i] == (collection.documents[i], collection.metadatas[i]);
  }

  /** The registry `_collections` behind `get_or_create_collection`. */
  class Registry {
    var collections: map<string, Collection>

    /** Distinct names never share a collection object. */
    ghost predicate Valid()
      reads this
    {
      forall a, b :: a in collections && b in collections && a != b ==> collections[a] != collections[b]
    }

    constructor ()
      ensures Valid() && collections == map[]
    {
      collections := map[];
    }

    /** `_collections.setdefault(name, _Collection())` */
    method GetOrCreateCollection(name: string) returns (c: Collection)
      requires Valid()
      modifies this
      ensures Valid()
      ensures name in collections && collections[name] == c
      ensures name in old(collections) ==> c == old(collections[name]) && collections == old(collections)
      ensures name in old(collections) ==> c in old(collections.Values)
      ensures forall o :: o in collections.Values ==> o in old(collections.Values) || fresh(o)
      ensures name !in old(collections) ==>
        && fresh(c) && collections == old(collections)[name := c]
        && c.documents == [] && c.embeddings == [] && c.metadatas == []
    {
      if name in collections {
        c := collections[name];
      } else {
        c := new Collection();
        collections := collections[name := c];
      }
    }
  }

  /** A second lookup of the same name returns the same collection object and
      leaves the registry as the first lookup left it. */
  method GetOrCreateTwice(registry: Registry, name: string) returns (first: Collection, second: Collection)
    requires registry.Valid()
    modifies registry
    ensures registry.Valid()
    ensures first == second
    ensures registry.collections.Keys == old(registry.collections.Keys) + {name}
    ensures forall n :: n in old(registry.collections) ==> registry.collections[n] == old(registry.collections[n])
  {
    first := registry.GetOrCreateCollection(name);
    var afterFirst := registry.collections;
    second := registry.GetOrCreateCollection(name);
    assert registry.collections == afterFirst;
  }

  /** Chunks stored under "doc1" and "doc2" in one collection; a search filtered
      to "doc1" returns only the doc1 chunk. */
  method FilterIsolationScenario(embedding: Vector) returns (results: seq<string>)
    ensures results == ["doc1 chunk"]
  {
    var collection := new Collection();
    StoreDocumentChunks(collection, ["doc1 chunk"], [embedding], "doc1");
    StoreDocumentChunks(collection, ["doc2 chunk"], [embedding], "doc2");
    assert collection.documents == ["doc1 chunk", "doc2 chunk"];
    assert collection.metadatas == [Metadata("doc1", 0), Metadata("doc2", 0)];
    var rs := Zip(collection.documents, collection.metadatas);
    assert rs == [("doc1 chunk", Metadata("doc1", 0))] + [("doc2 chunk", Metadata("doc2", 0))];
    MatchingAppend([("doc1 chunk", Metadata("doc1", 0))], [("doc2 chunk", Metadata("doc2", 0))], Some("doc1"));
    results := SearchSimilarChunks(collection, embedding, 5, Some(BuildDocumentFilter(Some("doc1"))));
  }
}
