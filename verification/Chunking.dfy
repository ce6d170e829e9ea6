/** Cutting documents into overlapping chunks of bounded size. */
module Chunking {
  import opened Strings
  import opened Wrappers
  import opened Json

  /** An element of the document list; markdown is absent when it is not a string. */
  datatype Document = Document(sourceId: string, path: string, markdown: Option<string>, metadata: map<string, Json>)
    | NotAnObject

  datatype Chunk = Chunk(sourceId: string, chunkId: string, text: string, path: string, ordinal: nat,
                         metadata: map<string, Json>)

  datatype IntArgument = Absent | Given(i: int) | NotAnInteger

  datatype ChunkError = DocumentsNotAList | SizesNotIntegers | SizeNotPositive | BadOverlap

  datatype Chunked = Chunks(chunks: seq<Chunk>) | Refused(error: ChunkError)

  const DEFAULT_SIZE := 1200
  const DEFAULT_OVERLAP := 200

  function Min(a: int, b: int): int { if a <= b then a else b }

  /** The windows of a text from position start on. */
  function Windows(text: string, size: nat, stride: nat, start: nat): seq<string>
    requires size > 0 && stride > 0
    decreases |text| - start
  {
    if start >= |text| then []
    else
      var window := text[start..Min(start + size, |text|)];
      if start + size >= |text| then [window] else [window] + Windows(text, size, stride, start + stride)
  }

  function ChunkAt(doc: Document, text: string, ordinal: nat): Chunk
    requires doc.Document?
  {
    Chunk(doc.sourceId, doc.sourceId + ":" + Decimal(ordinal), text, doc.path, ordinal, doc.metadata)
  }

  function Numbered(doc: Document, windows: seq<string>, first: nat): (r: seq<Chunk>)
    requires doc.Document?
    ensures |r| == |windows| && forall i :: 0 <= i < |r| ==> r[i] == ChunkAt(doc, windows[i], first + i)
  {
    seq(|windows|, i requires 0 <= i < |windows| => ChunkAt(doc, windows[i], first + i))
  }

  /** The chunks of a document when as many as `first` chunks precede it. */
  function ChunksOf(doc: Document, size: nat, stride: nat, first: nat): seq<Chunk>
    requires size > 0 && stride > 0
  {
    if doc.Document? && doc.markdown.Some? then Numbered(doc, Windows(doc.markdown.value, size, stride, 0), first)
      else []
  }

  function AllChunks(docs: seq<Document>, size: nat, stride: nat): seq<Chunk>
    requires size > 0 && stride > 0
  {
    if docs == [] then []
    else
      var before := AllChunks(docs[..|docs| - 1], size, stride);
      before + ChunksOf(docs[|docs| - 1], size, stride, |before|)
  }

  function IntOr(a: IntArgument, default: int): int {
    if a.Given? then a.i else default
  }

  /** The chunks so far followed by those still to come from position start on. */
  ghost function Expected(chunks: seq<Chunk>, doc: Document, text: string, size: nat, stride: nat,
                          start: nat): seq<Chunk>
    requires size > 0 && stride > 0 && doc.Document?
  {
    chunks + Numbered(doc, Windows(text, size, stride, start), |chunks|)
  }

  lemma OneMoreChunk(chunks: seq<Chunk>, doc: Document, text: string, size: nat, stride: nat, start: nat)
    requires size > 0 && stride > 0 && doc.Document? && start < |text|
    ensures var longer := chunks + [ChunkAt(doc, text[start..Min(start + size, |text|)], |chunks|)];
      Expected(chunks, doc, text, size, stride, start) == if start + size >= |text| then longer
        else Expected(longer, doc, text, size, stride, start + stride)
  {
    hide ChunkAt;
  }

  lemma NoMoreChunks(chunks: seq<Chunk>, doc: Document, text: string, size: nat, stride: nat, start: nat)
    requires size > 0 && stride > 0 && doc.Document? && start >= |text|
    ensures Expected(chunks, doc, text, size, stride, start) == chunks
  {
  }

  /** The inner loop: one document's chunks appended to those before it. */
  method AppendChunks(before: seq<Chunk>, doc: Document, markdown: string, size: nat, stride: nat)
    returns (chunks: seq<Chunk>)
    requires size > 0 && stride > 0 && doc.Document?
    ensures chunks == before + Numbered(doc, Windows(markdown, size, stride, 0), |before|)
  {
    assert Expected(before, doc, markdown, size, stride, 0)
      == before + Numbered(doc, Windows(markdown, size, stride, 0), |before|);
    hide Expected, ChunkAt, Windows, Numbered;
    chunks := before;
    var start := 0;
    while start < if |markdown| > 1 then |markdown| else 1
      invariant start >= 0
      invariant Expected(chunks, doc, markdown, size, stride, start) == Expected(before, doc, markdown, size, stride, 0)
      decreases |markdown| + 1 - start
    {
      var text := if start < |markdown| then markdown[start..Min(start + size, |markdown|)] else "";
      if text == "" {
        NoMoreChunks(chunks, doc, markdown, size, stride, start);
        NoMoreChunks(chunks, doc, markdown, size, stride, start + stride);
        start := start + stride;
        continue;
      }
      OneMoreChunk(chunks, doc, markdown, size, stride, start);
      chunks := chunks + [ChunkAt(doc, text, |chunks|)];
      if start + size >= |markdown| {
        return;
      }
      start := start + stride;
    }
    NoMoreChunks(chunks, doc, markdown, size, stride, start);
  }

  lemma ChunksSoFar(docs: seq<Document>, size: nat, stride: nat, i: nat)
    requires size > 0 && stride > 0 && i <= |docs|
    ensures AllChunks(docs[..0], size, stride) == []
    ensures i < |docs| ==>
      var before := AllChunks(docs[..i], size, stride);
      AllChunks(docs[..i + 1], size, stride) == before + ChunksOf(docs[i], size, stride, |before|)
  {
    if i < |docs| { assert docs[..i + 1][..i] == docs[..i]; }
  }

  /** text.markdown_chunk. */
  method MarkdownChunk(documents: Option<seq<Document>>, chunkSize: IntArgument, overlapSize: IntArgument)
    returns (r: Chunked)
    ensures var size, overlap := IntOr(chunkSize, DEFAULT_SIZE), IntOr(overlapSize, DEFAULT_OVERLAP);
      if documents.None? then r == Refused(DocumentsNotAList)
      else if chunkSize.NotAnInteger? || overlapSize.NotAnInteger? then r == Refused(SizesNotIntegers)
      else if size <= 0 then r == Refused(SizeNotPositive)
      else if overlap < 0 || overlap >= size then r == Refused(BadOverlap)
      else r == Chunks(AllChunks(documents.value, size, size - overlap))
  {
    hide AllChunks, Windows, Numbered;
    if documents.None? {
      return Refused(DocumentsNotAList);
    }
    if chunkSize.NotAnInteger? || overlapSize.NotAnInteger? {
      return Refused(SizesNotIntegers);
    }
    var size, overlap := IntOr(chunkSize, DEFAULT_SIZE), IntOr(overlapSize, DEFAULT_OVERLAP);
    if size <= 0 {
      return Refused(SizeNotPositive);
    }
    if overlap < 0 || overlap >= size {
      return Refused(BadOverlap);
    }
    var docs := documents.value;
    var chunks: seq<Chunk> := [];
    var stride := if size - overlap > 1 then size - overlap else 1;
    ChunksSoFar(docs, size, stride, 0);
    for i := 0 to |docs|
      invariant chunks == AllChunks(docs[..i], size, stride)
    {
      ChunksSoFar(docs, size, stride, i);
      if docs[i].NotAnObject? || docs[i].markdown.None? {
        continue;
      }
      chunks := AppendChunks(chunks, docs[i], docs[i].markdown.value, size, stride);
    }
    assert docs[..|docs|] == docs;
    return Chunks(chunks);
  }

  // ------------------------------------------------------------------ nothing is lost

  /** All chunks after the first, each without the characters it shares with its predecessor. */
  function WithoutOverlap(windows: seq<string>, overlap: nat): string {
    if windows == [] then ""
    else (if overlap <= |windows[0]| then windows[0][overlap..] else "") + WithoutOverlap(windows[1..], overlap)
  }

  function Rebuild(windows: seq<string>, overlap: nat): string {
    if windows == [] then "" else windows[0] + WithoutOverlap(windows[1..], overlap)
  }

  lemma {:induction false} WindowsCover(text: string, size: nat, overlap: nat, start: nat)
    requires overlap < size && start + overlap <= |text|
    ensures WithoutOverlap(Windows(text, size, size - overlap, start), overlap) == text[start + overlap..]
    decreases |text| - start
  {
    var stride := size - overlap;
    if start < |text| && start + size < |text| {
      WindowsCover(text, size, overlap, start + stride);
      var rest := Windows(text, size, stride, start + stride);
      assert ([text[start..start + size]] + rest)[1..] == rest;
      assert text[start..start + size][overlap..] + text[start + size..] == text[start + overlap..];
    } else if start < |text| {
      assert text[start..|text|][overlap..] == text[start + overlap..];
      assert Windows(text, size, stride, start)[1..] == [];
    } else {
      assert text[start + overlap..] == "";
    }
  }

  /** The first chunk, followed by every later chunk without its overlap, is the document. */
  lemma RebuildIsText(text: string, size: nat, overlap: nat)
    requires overlap < size
    ensures Rebuild(Windows(text, size, size - overlap, 0), overlap) == text
  {
    if text != "" {
      var windows := Windows(text, size, size - overlap, 0);
      if size < |text| {
        WindowsCover(text, size, overlap, size - overlap);
        assert windows[1..] == Windows(text, size, size - overlap, size - overlap);
        assert text[0..size] + text[size..] == text;
      } else {
        assert windows[1..] == [];
        assert text[0..|text|] == text;
      }
    }
  }

  function CeilDiv(a: nat, b: nat): nat
    requires b > 0
  {
    (a + b - 1) / b
  }

  lemma CeilDivStep(a: nat, b: nat)
    requires 0 < b && 0 < a
    ensures CeilDiv(a, b) == 1 + if a > b then CeilDiv(a - b, b) else 0
  {
    if a > b {
      DivStep(a - 1, b);
    } else {
      DivStep(a - 1, b);
      assert (a - 1) / b == 0;
    }
  }

  lemma DivStep(a: nat, b: nat)
    requires b > 0
    ensures (a + b) / b == a / b + 1
  {
    assert (a + b) == (a / b + 1) * b + a % b;
    Quotient(a + b, b, a / b + 1, a % b);
  }

  lemma Monotone(p: nat, q: nat, b: nat)
    ensures p < q ==> (p + 1) * b <= q * b
  {
    if p < q { assert (q - p - 1) * b >= 0; }
  }

  lemma Quotient(a: nat, b: nat, q: nat, r: nat)
    requires b > 0 && a == q * b + r && r < b
    ensures a / b == q
  {
    var p := a / b;
    assert a == p * b + a % b;
    Monotone(p, q, b);
    Monotone(q, p, b);
  }

  /** How many chunks remain at a position inside the text. */
  lemma {:induction false} WindowCount(text: string, size: nat, stride: nat, start: nat)
    requires 0 < stride <= size && start < |text|
    ensures |Windows(text, size, stride, start)| == if start + size >= |text| then 1
      else 1 + CeilDiv(|text| - size - start, stride)
    decreases |text| - start
  {
    if start + size < |text| {
      CeilDivStep(|text| - size - start, stride);
      WindowCount(text, size, stride, start + stride);
    }
  }

  /** A text of length n gives no chunk when empty, one up to the chunk size, and one more for every stride
      beyond it, the last one possibly short. */
  lemma ChunkCount(text: string, size: nat, overlap: nat)
    requires overlap < size
    ensures |Windows(text, size, size - overlap, 0)| ==
      if text == "" then 0 else if |text| <= size then 1 else 1 + CeilDiv(|text| - size, size - overlap)
  {
    if text != "" { WindowCount(text, size, size - overlap, 0); }
  }

  function Offset(i: nat, stride: nat): nat {
    if i == 0 then 0 else Offset(i - 1, stride) + stride
  }

  lemma {:induction false} OffsetIsProduct(i: nat, stride: nat)
    ensures Offset(i, stride) == i * stride
  {
    if i == 0 {
    } else {
      OffsetIsProduct(i - 1, stride);
      assert i * stride == (i - 1) * stride + stride;
    }
  }

  lemma {:induction false} WindowAt(text: string, size: nat, overlap: nat, start: nat, i: nat)
    requires overlap < size && i < |Windows(text, size, size - overlap, start)|
    ensures var windows, at := Windows(text, size, size - overlap, start), start + Offset(i, size - overlap);
      && at < |text| && windows[i] == text[at..Min(at + size, |text|)]
      && (i < |windows| - 1 ==> at + size < |text|)
      && (i > 0 ==> at + overlap < |text|)
    decreases i
  {
    var stride := size - overlap;
    if i == 0 {
    } else {
      var rest := Windows(text, size, stride, start + stride);
      assert Windows(text, size, stride, start) == [text[start..start + size]] + rest;
      WindowAt(text, size, overlap, start + stride, i - 1);
    }
  }

  /** Chunk i begins i strides into the text; every chunk but the last has full size, and every chunk after
      the first goes beyond its overlap. */
  lemma WindowsAreFull(text: string, size: nat, overlap: nat, i: nat)
    requires overlap < size && i < |Windows(text, size, size - overlap, 0)|
    ensures var windows, at := Windows(text, size, size - overlap, 0), i * (size - overlap);
      && at < |text| && windows[i] == text[at..Min(at + size, |text|)]
      && (i < |windows| - 1 ==> |windows[i]| == size)
      && (i > 0 ==> |windows[i]| > overlap)
  {
    WindowAt(text, size, overlap, 0, i);
    OffsetIsProduct(i, size - overlap);
  }

  // ------------------------------------------------------------------ all documents together

  /** Ordinals count the chunks across documents without gaps. */
  lemma {:induction false} OrdinalsAreGapFree(docs: seq<Document>, size: nat, stride: nat, i: nat)
    requires size > 0 && stride > 0 && i < |AllChunks(docs, size, stride)|
    ensures var c := AllChunks(docs, size, stride)[i]; c.ordinal == i && c.chunkId == c.sourceId + ":" + Decimal(i)
  {
    if docs == [] {
    } else {
      var before := AllChunks(docs[..|docs| - 1], size, stride);
      if i < |before| { OrdinalsAreGapFree(docs[..|docs| - 1], size, stride, i); }
    }
  }

  lemma {:induction false} EarlierChunksStay(docs: seq<Document>, size: nat, stride: nat, j: nat)
    requires size > 0 && stride > 0 && j <= |docs|
    ensures AllChunks(docs[..j], size, stride) <= AllChunks(docs, size, stride)
    decreases |docs|
  {
    if j < |docs| {
      EarlierChunksStay(docs[..|docs| - 1], size, stride, j);
      assert docs[..|docs| - 1][..j] == docs[..j];
    } else {
      assert docs[..j] == docs;
    }
  }

  function Texts(chunks: seq<Chunk>): (r: seq<string>)
    ensures |r| == |chunks| && forall i :: 0 <= i < |r| ==> r[i] == chunks[i].text
  {
    seq(|chunks|, i requires 0 <= i < |chunks| => chunks[i].text)
  }

  /** One document's chunks carry its source, path and metadata, and their texts are its windows. */
  lemma NumberedChunks(doc: Document, windows: seq<string>, first: nat)
    requires doc.Document?
    ensures Texts(Numbered(doc, windows, first)) == windows
    ensures forall c :: c in Numbered(doc, windows, first) ==>
      c.sourceId == doc.sourceId && c.path == doc.path && c.metadata == doc.metadata
  {
    hide Decimal;
  }

  /** Every document with text occupies one contiguous run of chunks, carrying its source and path, from which
      it can be rebuilt. */
  lemma DocumentsAreRebuilt(docs: seq<Document>, size: nat, overlap: nat, j: nat)
    requires overlap < size && j < |docs| && docs[j].Document? && docs[j].markdown.Some?
    ensures var all, from, to := AllChunks(docs, size, size - overlap),
                                 |AllChunks(docs[..j], size, size - overlap)|,
                                   |AllChunks(docs[..j + 1], size, size - overlap)|;
      && from <= to <= |all|
      && Rebuild(Texts(all[from..to]), overlap) == docs[j].markdown.value
      && forall c :: c in all[from..to] ==>
        c.sourceId == docs[j].sourceId && c.path == docs[j].path && c.metadata == docs[j].metadata
  {
    hide Windows, Numbered, Rebuild, Texts, AllChunks;
    var stride := size - overlap;
    var all, before, here := AllChunks(docs, size, stride), AllChunks(docs[..j], size, stride),
      AllChunks(docs[..j + 1], size, stride);
    EarlierChunksStay(docs, size, stride, j + 1);
    ChunksSoFar(docs, size, stride, j);
    var windows := Windows(docs[j].markdown.value, size, stride, 0);
    assert here == before + Numbered(docs[j], windows, |before|);
    assert all[|before|..|here|] == Numbered(docs[j], windows, |before|);
    NumberedChunks(docs[j], windows, |before|);
    RebuildIsText(docs[j].markdown.value, size, overlap);
  }

  /** Anything else in the list is passed over. */
  lemma OthersAreSkipped(docs: seq<Document>, size: nat, stride: nat, j: nat)
    requires size > 0 && stride > 0 && j < |docs| && !(docs[j].Document? && docs[j].markdown.Some?)
    ensures AllChunks(docs[..j + 1], size, stride) == AllChunks(docs[..j], size, stride)
  {
    assert docs[..j + 1][..j] == docs[..j];
  }

  // ------------------------------------------------------------------ chunk ids

  lemma LastColon(a: string, x: string, i: nat)
    requires ':' !in x && i < |a + ":" + x| && (a + ":" + x)[i] == ':'
    ensures i <= |a|
  {
    var s := a + ":" + x;
    forall k | |a| < k < |s| ensures s[k] != ':' { assert s[k] == x[k - |a| - 1]; }
  }

  lemma ColonSplits(a: string, x: string, b: string, y: string)
    requires a + ":" + x == b + ":" + y && ':' !in x && ':' !in y
    ensures a == b && x == y
  {
    var s := a + ":" + x;
    assert s[|a|] == ':' && s[|b|] == ':';
    LastColon(a, x, |b|);
    LastColon(b, y, |a|);
    assert s[..|a|] == a && s[..|b|] == b && s[|a| + 1..] == x && s[|b| + 1..] == y;
  }

  /** No two chunks share an id, whatever the source ids contain. */
  lemma ChunkIdsAreDistinct(docs: seq<Document>, size: nat, stride: nat, i: nat, j: nat)
    requires size > 0 && stride > 0 && i < |AllChunks(docs, size, stride)| && j < |AllChunks(docs, size, stride)|
      && i != j
    ensures AllChunks(docs, size, stride)[i].chunkId != AllChunks(docs, size, stride)[j].chunkId
  {
    var c, d := AllChunks(docs, size, stride)[i], AllChunks(docs, size, stride)[j];
    OrdinalsAreGapFree(docs, size, stride, i);
    OrdinalsAreGapFree(docs, size, stride, j);
    if c.chunkId == d.chunkId {
      ColonSplits(c.sourceId, Decimal(i), d.sourceId, Decimal(j));
      DecimalIsInjective(i, j);
    }
  }
}
