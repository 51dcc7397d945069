/** Sliding-window text splitter (document_processor/chunker.py). */
module Chunker {
  import opened Wrappers
  import PySlices

  /** The defaults of `chunk_text`, also used by the ingestion service. */
  const DefaultChunkSize: int := 1000
  const DefaultChunkOverlap: int := 200

  /** The `ValueError` raised when the overlap is not smaller than the window. */
  datatype ChunkError = OverlapNotSmallerThanSize

  function Min(a: int, b: int): int
  {
    if a < b then a else b
  }

  /** `text[start:end]` for a start inside the text: a plain slice unless
      the window is empty or reversed, where Python's negative-index rule
      applies. */
  function Window(text: string, start: nat, end: int): string
    requires start < |text|
  {
    if start <= end <= |text| then text[start..end] else PySlices.Slice(text, start, end)
  }

  /** `Window` is Python's `text[start:end]`. */
  lemma WindowIsSlice(text: string, start: nat, end: int)
    requires start < |text|
    ensures Window(text, start, end) == PySlices.Slice(text, start, end)
  {
  }

  /** The chunks the loop emits once its window start has reached `start`. */
  function ChunksFrom(text: string, start: nat, size: int, overlap: int): seq<string>
    requires overlap < size
    decreases |text| - start
  {
    if start >= |text| then []
    else
      var end := Min(start + size, |text|);
      var chunk := Window(text, start, end);
      if end == |text| then [chunk]
      else [chunk] + ChunksFrom(text, end - overlap, size, overlap)
  }

  /** What `chunk_text(text, size, overlap)` returns or raises. */
  function Chunks(text: string, size: int, overlap: int): (r: Result<seq<string>, ChunkError>)
    ensures r.Failure? <==> overlap >= size
    ensures r.Success? ==> (r.value == [] <==> text == "")
  {
    if overlap >= size then Failure(OverlapNotSmallerThanSize)
    else Success(ChunksFrom(text, 0, size, overlap))
  }

  /** The loop of `chunk_text`: the configuration guard, then windows of
      `size` characters whose starts advance by `size - overlap`. */
  method ChunkText(text: string, chunkSize: int, chunkOverlap: int)
    returns (r: Result<seq<string>, ChunkError>)
    ensures r == Chunks(text, chunkSize, chunkOverlap)
  {
    if chunkOverlap >= chunkSize {
      return Failure(OverlapNotSmallerThanSize);
    }
    var chunks: seq<string> := [];
    var start: nat := 0;
    var textLength := |text|;
    while start < textLength
      invariant chunks + ChunksFrom(text, start, chunkSize, chunkOverlap)
             == ChunksFrom(text, 0, chunkSize, chunkOverlap)
      decreases textLength - start
    {
      var end := Min(start + chunkSize, textLength);
      chunks := chunks + [Window(text, start, end)];
      if end == textLength {
        assert ChunksFrom(text, start, chunkSize, chunkOverlap) == [Window(text, start, end)];
        assert chunks == ChunksFrom(text, 0, chunkSize, chunkOverlap);
        break;
      }
      start := end - chunkOverlap;
    }
    assert start >= textLength ==> chunks + ChunksFrom(text, start, chunkSize, chunkOverlap) == chunks;
    return Success(chunks);
  }

  /** Distance between the starts of two consecutive windows. */
  function Step(size: int, overlap: int): int
  {
    size - overlap
  }

  /** A window that stops short of the end of the text is followed by the
      windows from `size - overlap` characters further on. */
  lemma ChunksFromCons(text: string, start: nat, size: int, overlap: int)
    requires 0 < size && overlap < size
    requires start + size < |text|
    ensures start + Step(size, overlap) > start
    ensures ChunksFrom(text, start, size, overlap)
         == [text[start..start + size]] + ChunksFrom(text, start + Step(size, overlap), size, overlap)
    ensures 0 <= overlap ==> ChunksFrom(text, start + Step(size, overlap), size, overlap) != []
  {
  }

  /** A window that reaches the end of the text is the last one. */
  lemma ChunksFromLast(text: string, start: nat, size: int, overlap: int)
    requires 0 < size && overlap < size
    requires |text| <= start + size
    ensures ChunksFrom(text, start, size, overlap) == if start < |text| then [text[start..]] else []
  {
    if start < |text| {
      assert Window(text, start, |text|) == text[start..];
    }
  }

  /** The first window of a start inside the text. */
  lemma ChunksFromFirst(text: string, start: nat, size: int, overlap: int)
    requires 0 < size && overlap < size
    ensures ChunksFrom(text, start, size, overlap) != [] <==> start < |text|
    ensures start < |text| ==> ChunksFrom(text, start, size, overlap)[0] == text[start..Min(start + size, |text|)]
  {
  }

  /** Where window `k` starts when the first one starts at `start`. */
  function WindowStart(start: int, size: int, overlap: int, k: nat): int
    decreases k
  {
    if k == 0 then start else WindowStart(start + Step(size, overlap), size, overlap, k - 1)
  }

  /** The windows start `size - overlap` characters apart. */
  lemma {:induction false} WindowStartIsLinear(start: int, size: int, overlap: int, k: nat)
    ensures WindowStart(start, size, overlap, k) == start + k * Step(size, overlap)
    decreases k
  {
    if k > 0 {
      WindowStartIsLinear(start + Step(size, overlap), size, overlap, k - 1);
    }
  }

  /** Past its first `k` windows, the loop goes on as if it had started at
      the `k`-th window start. */
  lemma {:induction false} ChunksFromSkip(text: string, start: nat, size: int, overlap: int, k: nat)
    requires 0 < size && overlap < size
    requires k < |ChunksFrom(text, start, size, overlap)|
    ensures 0 <= WindowStart(start, size, overlap, k) < |text|
    ensures ChunksFrom(text, start, size, overlap)[k..] == ChunksFrom(text, WindowStart(start, size, overlap, k), size, overlap)
    decreases k
  {
    if k > 0 {
      if start + size < |text| {
        ChunksFromCons(text, start, size, overlap);
        var next := start + Step(size, overlap);
        ChunksFromSkip(text, next, size, overlap, k - 1);
        assert ChunksFrom(text, start, size, overlap)[k..] == ChunksFrom(text, next, size, overlap)[k - 1..];
      } else {
        ChunksFromLast(text, start, size, overlap);
      }
    } else {
      ChunksFromFirst(text, start, size, overlap);
    }
  }

  /** Chunk `k` is the slice of the text from the `k`-th window start, of
      length `size` or up to the end of the text. */
  lemma ChunkFromAt(text: string, start: nat, size: int, overlap: int, k: nat)
    requires 0 < size && overlap < size
    requires k < |ChunksFrom(text, start, size, overlap)|
    ensures var p := WindowStart(start, size, overlap, k);
      && 0 <= p < |text|
      && ChunksFrom(text, start, size, overlap)[k] == text[p..Min(p + size, |text|)]
  {
    ChunksFromSkip(text, start, size, overlap, k);
    var p := WindowStart(start, size, overlap, k);
    ChunksFromFirst(text, p, size, overlap);
    assert ChunksFrom(text, start, size, overlap)[k] == ChunksFrom(text, start, size, overlap)[k..][0];
  }

  /** Only the last window reaches the end of the text. */
  lemma {:induction false} LastWindow(text: string, start: nat, size: int, overlap: int, k: nat)
    requires 0 <= overlap < size
    requires k < |ChunksFrom(text, start, size, overlap)|
    ensures var p := WindowStart(start, size, overlap, k);
      (p + size >= |text| <==> k == |ChunksFrom(text, start, size, overlap)| - 1)
    decreases k
  {
    if start + size < |text| {
      ChunksFromCons(text, start, size, overlap);
      if k > 0 {
        LastWindow(text, start + Step(size, overlap), size, overlap, k - 1);
      }
    } else {
      ChunksFromLast(text, start, size, overlap);
    }
  }

  /** Only the last chunk can be shorter than the window and the last chunk
      ends at the end of the text. */
  lemma {:induction false} ChunkFromLengths(text: string, start: nat, size: int, overlap: int)
    requires 0 <= overlap < size
    ensures var cs := ChunksFrom(text, start, size, overlap);
      && (forall k :: 0 <= k < |cs| ==> 0 < |cs[k]| <= size)
      && (forall k :: 0 <= k < |cs| - 1 ==> |cs[k]| == size)
      && (cs != [] ==> start < |text| && cs[|cs| - 1] == text[|text| - |cs[|cs| - 1]|..])
    decreases |text| - start
  {
    if start < |text| {
      var end := Min(start + size, |text|);
      if end < |text| {
        var rest := ChunksFrom(text, end - overlap, size, overlap);
        ChunkFromLengths(text, end - overlap, size, overlap);
        assert ChunksFrom(text, start, size, overlap) == [Window(text, start, end)] + rest;
      }
    }
  }

  /** Properties of the chunks of a text, for any configuration the guard accepts. */
  lemma ChunkShape(text: string, size: int, overlap: int)
    requires 0 <= overlap < size
    ensures var cs := Chunks(text, size, overlap).value;
      && (forall k :: 0 <= k < |cs| ==>
            k * Step(size, overlap) < |text| &&
            cs[k] == text[k * Step(size, overlap)..Min(k * Step(size, overlap) + size, |text|)])
      && (forall k :: 0 <= k < |cs| ==> 0 < |cs[k]| <= size)
      && (forall k :: 0 <= k < |cs| - 1 ==> |cs[k]| == size)
      && (cs != [] ==> cs[0] == text[..|cs[0]|] && cs[|cs| - 1] == text[|text| - |cs[|cs| - 1]|..])
  {
    var cs := Chunks(text, size, overlap).value;
    forall k | 0 <= k < |cs|
      ensures k * Step(size, overlap) < |text|
      ensures cs[k] == text[k * Step(size, overlap)..Min(k * Step(size, overlap) + size, |text|)]
    {
      ChunkFromAt(text, 0, size, overlap, k);
      WindowStartIsLinear(0, size, overlap, k);
    }
    ChunkFromLengths(text, 0, size, overlap);
  }

  /** The last `overlap` characters of `a` are the first `overlap` characters of `b`. */
  predicate SharedOverlap(a: string, b: string, overlap: int)
  {
    0 <= overlap <= |a| && overlap <= |b| && a[|a| - overlap..] == b[..overlap]
  }

  /** Consecutive chunks share exactly `overlap` characters: the tail of one is
      the head of the next. */
  lemma {:induction false} ChunkFromOverlap(text: string, start: nat, size: int, overlap: int, i: nat)
    requires 0 <= overlap < size
    requires i + 1 < |ChunksFrom(text, start, size, overlap)|
    ensures var cs := ChunksFrom(text, start, size, overlap);
      SharedOverlap(cs[i], cs[i + 1], overlap)
    decreases i
  {
    var end := Min(start + size, |text|);
    if i > 0 {
      ChunkFromOverlap(text, end - overlap, size, overlap, i - 1);
    } else {
      var next := end - overlap;
      assert end < |text|;
      var rest := ChunksFrom(text, next, size, overlap);
      assert rest[0] == Window(text, next, Min(next + size, |text|));
    }
  }

  lemma ChunkOverlap(text: string, size: int, overlap: int)
    requires 0 <= overlap < size
    ensures var cs := Chunks(text, size, overlap).value;
      forall i :: 0 <= i < |cs| - 1 ==> SharedOverlap(cs[i], cs[i + 1], overlap)
  {
    var cs := Chunks(text, size, overlap).value;
    forall i | 0 <= i < |cs| - 1
      ensures SharedOverlap(cs[i], cs[i + 1], overlap)
    {
      ChunkFromOverlap(text, 0, size, overlap, i);
    }
  }

  /** Reassembles chunks by dropping the `overlap` characters each chunk
      shares with its successor. */
  function Stitch(chunks: seq<string>, overlap: nat): string
  {
    if chunks == [] then ""
    else if |chunks| == 1 then chunks[0]
    else
      var c := chunks[0];
      (if overlap <= |c| then c[..|c| - overlap] else "") + Stitch(chunks[1..], overlap)
  }

  lemma StitchCons(chunk: string, rest: seq<string>, overlap: nat)
    requires rest != [] && overlap <= |chunk|
    ensures Stitch([chunk] + rest, overlap) == chunk[..|chunk| - overlap] + Stitch(rest, overlap)
  {
    assert ([chunk] + rest)[1..] == rest;
  }

  lemma WindowThenRest(text: string, start: nat, next: nat, end: nat)
    requires start <= next <= end <= |text|
    ensures text[start..end][..next - start] + text[next..] == text[start..]
  {
    assert text[start..end][..next - start] == text[start..next];
  }

  lemma {:induction false} StitchChunksFrom(text: string, start: nat, size: int, overlap: int)
    requires 0 <= overlap < size
    requires start <= |text|
    ensures Stitch(ChunksFrom(text, start, size, overlap), overlap) == text[start..]
    decreases |text| - start
  {
    if start < |text| {
      if start + size < |text| {
        var next := start + size - overlap;
        var window := text[start..start + size];
        var rest := ChunksFrom(text, next, size, overlap);
        calc {
          Stitch(ChunksFrom(text, start, size, overlap), overlap);
          == { ChunksFromCons(text, start, size, overlap); }
          Stitch([window] + rest, overlap);
          == { StitchCons(window, rest, overlap); }
          window[..|window| - overlap] + Stitch(rest, overlap);
          == { StitchChunksFrom(text, next, size, overlap); assert |window| - overlap == next - start; }
          window[..next - start] + text[next..];
          == { WindowThenRest(text, start, next, start + size); }
          text[start..];
        }
      } else {
        ChunksFromLast(text, start, size, overlap);
      }
    }
  }

  /** The chunks cover the whole text: stitched back together they give it back. */
  lemma ChunksCoverText(text: string, size: int, overlap: int)
    requires 0 <= overlap < size
    ensures Stitch(Chunks(text, size, overlap).value, overlap) == text
  {
    StitchChunksFrom(text, 0, size, overlap);
  }

  /** The number of chunks: the last window is the first one that reaches
      the end of the text. */
  lemma ChunkCount(text: string, size: int, overlap: int)
    requires 0 <= overlap < size
    requires text != ""
    ensures var m := |Chunks(text, size, overlap).value|;
      && m >= 1
      && (m - 1) * Step(size, overlap) + size >= |text|
      && (m >= 2 ==> (m - 2) * Step(size, overlap) + size < |text|)
  {
    var cs := Chunks(text, size, overlap).value;
    LastWindow(text, 0, size, overlap, |cs| - 1);
    WindowStartIsLinear(0, size, overlap, |cs| - 1);
    if |cs| >= 2 {
      LastWindow(text, 0, size, overlap, |cs| - 2);
      WindowStartIsLinear(0, size, overlap, |cs| - 2);
    }
  }

  /** A 3000-character text in windows of 1000 with overlap 200 gives 4 chunks,
      each sharing 200 characters with the next. */
  lemma ThreeThousandCharacters(text: string)
    requires |text| == 3000
    ensures var cs := Chunks(text, 1000, 200).value;
      |cs| == 4 &&
      forall i :: 0 <= i < 3 ==> SharedOverlap(cs[i], cs[i + 1], 200)
  {
    ChunkCount(text, 1000, 200);
    ChunkOverlap(text, 1000, 200);
  }
}
