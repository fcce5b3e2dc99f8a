/**
 * `VectorStore`: the FAISS index, the chunk list `documents` and the list `metadata`,
 * kept aligned by position. The embedder and the index are the abstractions of
 * module FlatIndex; the pickle/faiss files on disk are not modelled.
 */
module VectorStores {
  import opened Common
  import opened FlatIndex

  /** A chunk dictionary as `upload_document` builds it; `filename` and `chunk_id` are read with `.get`. */
  datatype Chunk = Chunk(
    text: string,
    filename: Option<string>,
    fileType: string,
    filePath: string,
    chunkId: Option<int>,
    totalChunks: int)

  /** `{"doc_id": ..., **doc}`: the chunk's own fields plus a document id. */
  datatype Metadata = Metadata(docId: int, chunk: Chunk)

  datatype SearchResult = SearchResult(document: Chunk, metadata: Metadata, score: int, rank: nat)

  /** What `load_index` meets on disk: no saved artifacts, or artifacts that fail to read. */
  datatype LoadOutcome = NoArtifacts | ReadError

  function Texts(docs: seq<Chunk>): (ts: seq<string>)
    ensures |ts| == |docs|
    ensures forall i :: 0 <= i < |docs| ==> ts[i] == docs[i].text
  {
    seq(|docs|, i requires 0 <= i < |docs| => docs[i].text)
  }

  /** The metadata records of one batch: every record carries the same `doc_id`. */
  function Records(docId: int, batch: seq<Chunk>): (ms: seq<Metadata>)
    ensures |ms| == |batch|
    ensures forall i :: 0 <= i < |batch| ==> ms[i].docId == docId && ms[i].chunk == batch[i]
  {
    seq(|batch|, i requires 0 <= i < |batch| => Metadata(docId, batch[i]))
  }

  /** `doc.get("filename") != filename`: the chunk survives the removal of `f`. */
  predicate Keeps(c: Chunk, f: string) {
    c.filename != Some(f)
  }

  predicate HasFile(docs: seq<Chunk>, f: string) {
    exists i :: 0 <= i < |docs| && !Keeps(docs[i], f)
  }

  /** `keep_indices`: the positions of the chunks that survive, in increasing order. */
  function KeptPositions(docs: seq<Chunk>, f: string): (ps: seq<nat>)
    ensures |ps| <= |docs|
    ensures InRange(ps, |docs|)
    ensures forall i, j :: 0 <= i < j < |ps| ==> ps[i] < ps[j]
    ensures forall i :: 0 <= i < |ps| ==> Keeps(docs[ps[i]], f)
  {
    if docs == [] then []
    else
      var ps := KeptPositions(docs[..|docs| - 1], f);
      if Keeps(docs[|docs| - 1], f) then ps + [|docs| - 1] else ps
  }

  /** Every chunk not belonging to `f` has its position kept. */
  lemma {:induction false} KeptComplete(docs: seq<Chunk>, f: string, p: nat)
    requires p < |docs| && Keeps(docs[p], f)
    ensures p in KeptPositions(docs, f)
  {
    var init := docs[..|docs| - 1];
    if p < |docs| - 1 {
      assert init[p] == docs[p];
      KeptComplete(init, f, p);
    }
  }

  /** Every position is kept exactly when no chunk belongs to `f`. */
  lemma {:induction false} KeptAll(docs: seq<Chunk>, f: string)
    ensures |KeptPositions(docs, f)| == |docs| <==> !HasFile(docs, f)
  {
    if docs != [] {
      var init := docs[..|docs| - 1];
      KeptAll(init, f);
      if HasFile(init, f) {
        var i :| 0 <= i < |init| && !Keeps(init[i], f);
        assert !Keeps(docs[i], f);
      }
    }
  }

  /** `[xs[i] for i in ps]`. */
  function Pick<T>(xs: seq<T>, ps: seq<nat>): (r: seq<T>)
    requires InRange(ps, |xs|)
    ensures |r| == |ps|
    ensures forall i :: 0 <= i < |ps| ==> r[i] == xs[ps[i]]
  {
    seq(|ps|, i requires 0 <= i < |ps| => xs[ps[i]])
  }

  /** The chunks that do not belong to `f`, in their order: the reference for a removal. */
  function FilterOut(docs: seq<Chunk>, f: string): (r: seq<Chunk>)
    ensures |r| <= |docs|
  {
    if docs == [] then []
    else
      var init := FilterOut(docs[..|docs| - 1], f);
      var last := docs[|docs| - 1];
      if Keeps(last, f) then init + [last] else init
  }

  /** A chunk survives the removal exactly when it was there and does not belong to `f`. */
  lemma {:induction false} FilterOutMembers(docs: seq<Chunk>, f: string)
    ensures forall c :: c in FilterOut(docs, f) <==> c in docs && Keeps(c, f)
  {
    if docs != [] {
      var init := docs[..|docs| - 1];
      FilterOutMembers(init, f);
      assert docs == init + [docs[|docs| - 1]];
    }
  }

  /** Picking the kept positions is filtering out the file: the removal keeps an order-preserving subsequence. */
  lemma {:induction false} PickKept(docs: seq<Chunk>, f: string)
    ensures Pick(docs, KeptPositions(docs, f)) == FilterOut(docs, f)
  {
    if docs != [] {
      var init := docs[..|docs| - 1];
      var ps := KeptPositions(init, f);
      PickKept(init, f);
      assert Pick(docs, ps) == Pick(init, ps);
    }
  }

  /** Filtering out a file that has no chunk changes nothing. */
  lemma {:induction false} FilterOutAbsent(docs: seq<Chunk>, f: string)
    requires !HasFile(docs, f)
    ensures FilterOut(docs, f) == docs
  {
    if docs != [] {
      var init := docs[..|docs| - 1];
      assert !HasFile(init, f) by {
        forall i | 0 <= i < |init| ensures Keeps(init[i], f) {
          assert init[i] == docs[i];
        }
      }
      FilterOutAbsent(init, f);
      assert Keeps(docs[|docs| - 1], f);
    }
  }

  /** After a removal no chunk of `f` is left. */
  lemma FilterOutRemovesAll(docs: seq<Chunk>, f: string)
    ensures !HasFile(FilterOut(docs, f), f)
  {
    var r := FilterOut(docs, f);
    FilterOutMembers(docs, f);
    forall i | 0 <= i < |r| ensures Keeps(r[i], f) {
      assert r[i] in r;
    }
  }

  lemma KeptStep(docs: seq<Chunk>, f: string, i: nat)
    requires i < |docs|
    ensures KeptPositions(docs[..i + 1], f) == KeptPositions(docs[..i], f) + if Keeps(docs[i], f) then [i] else []
  {
    assert docs[..i + 1][..i] == docs[..i];
  }

  /** The loop of lines 212-215: the positions of the chunks whose filename is not `f`. */
  method KeepIndices(docs: seq<Chunk>, f: string) returns (keep: seq<nat>)
    ensures keep == KeptPositions(docs, f)
  {
    keep := [];
    var i := 0;
    while i < |docs|
      invariant 0 <= i <= |docs|
      invariant keep == KeptPositions(docs[..i], f)
    {
      KeptStep(docs, f, i);
      if Keeps(docs[i], f) {
        keep := keep + [i];
      }
      i := i + 1;
    }
    assert docs[..i] == docs;
  }

  /** The chunk each metadata record was copied from. */
  function Chunks(metadata: seq<Metadata>): (cs: seq<Chunk>)
    ensures |cs| == |metadata|
    ensures forall i :: 0 <= i < |metadata| ==> cs[i] == metadata[i].chunk
  {
    seq(|metadata|, i requires 0 <= i < |metadata| => metadata[i].chunk)
  }

  /** The index `add_documents` builds from scratch for `documents`: none for no chunks. */
  ghost function BuiltIndex(e: Embedder, documents: seq<Chunk>): Option<Index> {
    if documents == [] then None else Some(Index(e.dim, EmbedAll(e, Texts(documents))))
  }

  /**
   * The store's invariant on its values: one metadata record per chunk, copied from
   * it, and an index holding exactly the chunks' embeddings in order, or no index
   * when there are no chunks.
   */
  ghost predicate Aligned(e: Embedder, index: Option<Index>, documents: seq<Chunk>, metadata: seq<Metadata>) {
    && FixedDim(e)
    && Chunks(metadata) == documents
    && index == BuiltIndex(e, documents)
  }

  lemma {:induction false} EmbedAppend(e: Embedder, docs: seq<Chunk>, batch: seq<Chunk>)
    ensures EmbedAll(e, Texts(docs + batch)) == EmbedAll(e, Texts(docs)) + EmbedAll(e, Texts(batch))
  {
    var l, r := EmbedAll(e, Texts(docs + batch)), EmbedAll(e, Texts(docs)) + EmbedAll(e, Texts(batch));
    forall i | 0 <= i < |l| ensures l[i] == r[i] {
      if i < |docs| {
        assert (docs + batch)[i] == docs[i];
      } else {
        assert (docs + batch)[i] == batch[i - |docs|];
      }
    }
  }

  lemma {:induction false} ChunksAppend(meta: seq<Metadata>, docId: int, batch: seq<Chunk>)
    ensures Chunks(meta + Records(docId, batch)) == Chunks(meta) + batch
  {
    var l, r := Chunks(meta + Records(docId, batch)), Chunks(meta) + batch;
    forall i | 0 <= i < |l| ensures l[i] == r[i] {
      if i < |meta| {
        assert (meta + Records(docId, batch))[i] == meta[i];
      } else {
        assert (meta + Records(docId, batch))[i] == Records(docId, batch)[i - |meta|];
      }
    }
  }

  /** Appending a batch to the index, the chunks and the records keeps them aligned. */
  lemma AlignedAppend(e: Embedder, index: Option<Index>, docs: seq<Chunk>, meta: seq<Metadata>, batch: seq<Chunk>)
    requires Aligned(e, index, docs, meta) && batch != []
    ensures var base := if index.None? then Index(e.dim, []) else index.value;
      && HasDim(EmbedAll(e, Texts(batch)), base.dim)
      && Aligned(e, Some(Add(base, EmbedAll(e, Texts(batch)))), docs + batch, meta + Records(|docs| + |batch| - 1, batch))
  {
    EmbedDim(e, Texts(batch));
    EmbedAppend(e, docs, batch);
    ChunksAppend(meta, |docs| + |batch| - 1, batch);
  }

  lemma {:induction false} ChunksPick(meta: seq<Metadata>, keep: seq<nat>)
    requires InRange(keep, |meta|)
    ensures Chunks(Pick(meta, keep)) == Pick(Chunks(meta), keep)
  {
    var l, r := Chunks(Pick(meta, keep)), Pick(Chunks(meta), keep);
    forall i | 0 <= i < |l| ensures l[i] == r[i] {
      assert Pick(meta, keep)[i] == meta[keep[i]];
    }
  }

  /** Keeping some positions of the chunks and records, with an index rebuilt from them, keeps them aligned. */
  lemma AlignedPick(e: Embedder, index: Option<Index>, docs: seq<Chunk>, meta: seq<Metadata>, keep: seq<nat>)
    requires Aligned(e, index, docs, meta) && InRange(keep, |docs|)
    ensures var kept := Pick(docs, keep);
      && HasDim(EmbedAll(e, Texts(kept)), e.dim)
      && Aligned(e, if kept == [] then None else Some(Add(Index(e.dim, []), EmbedAll(e, Texts(kept)))), kept, Pick(meta, keep))
  {
    EmbedDim(e, Texts(Pick(docs, keep)));
    ChunksPick(meta, keep);
    assert [] + EmbedAll(e, Texts(Pick(docs, keep))) == EmbedAll(e, Texts(Pick(docs, keep)));
  }

  class VectorStore {
    const embedder: Embedder
    var index: Option<Index>
    var documents: seq<Chunk>
    var metadata: seq<Metadata>

    /**
     * The three structures stay aligned: one metadata record per chunk, copied from
     * it, and an index holding exactly the chunks' embeddings in order, or no index
     * when there are no chunks.
     */
    ghost predicate Valid()
      reads this
    {
      Aligned(embedder, index, documents, metadata)
    }

    /** `__init__` with no saved index: an empty store. */
    constructor(e: Embedder)
      requires FixedDim(e)
      ensures Valid()
      ensures embedder == e && index == None && documents == [] && metadata == []
    {
      embedder := e;
      index := None;
      documents := [];
      metadata := [];
    }

    /**
     * `add_documents` (lines 66-101): an empty batch changes nothing; otherwise the
     * batch is embedded and appended to the index (created on first use with the
     * embeddings' dimension), to `documents`, and to `metadata` with the `doc_id`
     * computed after the append.
     */
    method AddDocuments(batch: seq<Chunk>)
      requires Valid()
      modifies this
      ensures Valid()
      ensures batch == [] ==> index == old(index)
      ensures documents == old(documents) + batch
      ensures metadata == old(metadata) + Records(|old(documents)| + |batch| - 1, batch)
      ensures batch != [] && old(index).Some? ==> index.value.vectors[..|old(index).value.vectors|] == old(index).value.vectors
    {
      if batch == [] {
        return;
      }
      var embeddings := EmbedAll(embedder, Texts(batch));
      var extended := documents + batch;
      var records := metadata + Records(|extended| - 1, batch);
      var ix := if index.None? then Index(embedder.dim, []) else index.value;
      assert HasDim(embeddings, ix.dim) && Aligned(embedder, Some(Add(ix, embeddings)), extended, records) by {
        AlignedAppend(embedder, index, documents, metadata, batch);
      }
      index := Some(Add(ix, embeddings));
      documents := extended;
      metadata := records;
    }

    /** Distance between the query's embedding and the embedding of chunk `p`. */
    function Score(query: string, p: nat): nat
      reads this
      requires p < |documents|
    {
      Distance(embedder.encode(documents[p].text), embedder.encode(query))
    }

    /** The positions `index.search` answers with, for `k` of them. */
    function Ranked(query: string, k: nat): (ps: seq<nat>)
      reads this
      requires Valid()
      ensures |ps| == Min(k, |documents|) && InRange(ps, |documents|)
    {
      if index.None? then [] else KNearest(index.value.vectors, embedder.encode(query), k)
    }

    /**
     * At most `k` distinct chunks, nearest to the query first, and no chunk left out
     * is nearer than one returned.
     */
    lemma RankedNearest(query: string, k: nat)
      requires Valid()
      ensures var ps := Ranked(query, k);
        && Distinct(ps)
        && (forall i, j :: 0 <= i < j < |ps| ==> Score(query, ps[i]) <= Score(query, ps[j]))
        && (forall i, p :: 0 <= i < |ps| && 0 <= p < |documents| && p !in ps ==> Score(query, ps[i]) <= Score(query, p))
    {
      if index.Some? {
        var vs, q := index.value.vectors, embedder.encode(query);
        KNearestNearest(vs, q, k);
        assert Ranked(query, k) == KNearest(vs, q, k);
        forall p | 0 <= p < |documents| ensures Dist(vs, q, p) == Score(query, p) {
          assert vs[p] == embedder.encode(documents[p].text);
        }
      }
    }

    /** What `search` returns: the ranked chunks with their metadata, score and 1-based rank. */
    function SearchResults(query: string, k: nat): (r: seq<SearchResult>)
      reads this
      requires Valid()
      ensures documents == [] ==> r == []
      ensures |r| == Min(k, |documents|)
    {
      var ps := Ranked(query, k);
      var docs, meta, q := documents, metadata, embedder.encode(query);
      seq(|ps|, i requires 0 <= i < |ps| =>
        SearchResult(docs[ps[i]], meta[ps[i]], Distance(embedder.encode(docs[ps[i]].text), q), i + 1))
    }

    /**
     * Result `i` is the chunk at the `i`-th ranked position with its own metadata
     * record, its distance to the query and rank `i + 1`; scores never decrease.
     */
    lemma SearchResultsRanked(query: string, k: nat)
      requires Valid()
      ensures var r := SearchResults(query, k);
        && (forall i :: 0 <= i < |r| ==>
          var p := Ranked(query, k)[i];
          && r[i].document == documents[p] && r[i].metadata == metadata[p]
          && r[i].metadata.chunk == r[i].document
          && r[i].score == Score(query, p) && r[i].rank == i + 1)
        && (forall i, j :: 0 <= i < j < |r| ==> r[i].score <= r[j].score)
    {
      RankedNearest(query, k);
    }

    /**
     * `search` (lines 103-143): no index or no chunks gives `[]`; otherwise the index's
     * answer is walked slot by slot and the slots holding a valid position become results.
     */
    method Search(query: string, k: nat) returns (results: seq<SearchResult>)
      requires Valid() && k > 0
      ensures results == SearchResults(query, k)
    {
      if index.None? {
        return [];
      }
      if |documents| == 0 {
        return [];
      }
      var docs, meta := documents, metadata;
      var hits := FlatIndex.Search(index.value, embedder.encode(query), k);
      ghost var spec := SearchResults(query, k);
      results := [];
      var i := 0;
      while i < |hits|
        invariant 0 <= i <= |hits|
        invariant |results| == Min(i, |spec|)
        invariant forall j :: 0 <= j < |results| ==> results[j] == spec[j]
      {
        SlotResult(query, k, i);
        var hit := hits[i];
        if 0 <= hit.idx < |docs| {
          results := results + [SearchResult(docs[hit.idx], meta[hit.idx], hit.distance, i + 1)];
        }
        i := i + 1;
      }
      assert |results| == |spec|;
    }

    /** Slot `i` of the index's answer holds a valid position exactly when result `i` exists, and then gives it. */
    lemma SlotResult(query: string, k: nat, i: nat)
      requires Valid() && index.Some? && i < k
      ensures var hits := FlatIndex.Search(index.value, embedder.encode(query), k);
        var spec := SearchResults(query, k);
        && (0 <= hits[i].idx < |documents| <==> i < |spec|)
        && (i < |spec| ==> spec[i] == SearchResult(documents[hits[i].idx], metadata[hits[i].idx], hits[i].distance, i + 1))
    {
      SearchSlots(index.value, embedder.encode(query), k);
      assert Ranked(query, k) == KNearest(index.value.vectors, embedder.encode(query), k);
    }

    /**
     * `remove_document` (lines 203-251): when no chunk belongs to `f` nothing changes
     * and the answer is false; otherwise the surviving chunks and their metadata are
     * kept in order, the index is rebuilt from them or dropped when none survive, and
     * the answer is true.
     */
    method RemoveDocument(f: string) returns (removed: bool)
      requires Valid()
      modifies this
      ensures Valid()
      ensures removed == HasFile(old(documents), f)
      ensures !removed ==> index == old(index) && documents == old(documents) && metadata == old(metadata)
      ensures removed ==>
        var keep := KeptPositions(old(documents), f);
        documents == Pick(old(documents), keep) && metadata == Pick(old(metadata), keep)
      ensures documents == FilterOut(old(documents), f)
    {
      var docs := documents;
      if docs == [] {
        KeptAll(docs, f);
        return false;
      }
      var keep := KeepIndices(docs, f);
      KeptAll(docs, f);
      PickKept(docs, f);
      if |keep| == |docs| {
        FilterOutAbsent(docs, f);
        return false;
      }
      AlignedPick(embedder, index, docs, metadata, keep);
      var newDocuments := Pick(docs, keep);
      var newMetadata := Pick(metadata, keep);
      if newDocuments != [] {
        var embeddings := EmbedAll(embedder, Texts(newDocuments));
        index := Some(Add(Index(embedder.dim, []), embeddings));
      } else {
        index := None;
      }
      documents := newDocuments;
      metadata := newMetadata;
      removed := true;
    }

    /** `clear` (lines 253-267): no index and no chunks, whatever the state before. */
    method Clear()
      requires FixedDim(embedder)
      modifies this
      ensures Valid()
      ensures index == None && documents == [] && metadata == []
    {
      index := None;
      documents := [];
      metadata := [];
    }

    /** `load_index` (lines 177-200) without the disk: a failed read resets the store, no artifacts leaves it as it was. */
    method Load(outcome: LoadOutcome)
      requires Valid()
      modifies this
      ensures Valid()
      ensures outcome == ReadError ==> index == None && documents == [] && metadata == []
      ensures outcome == NoArtifacts ==> index == old(index) && documents == old(documents) && metadata == old(metadata)
    {
      if outcome == ReadError {
        index := None;
        documents := [];
        metadata := [];
      }
    }
  }

  /** Removing a file twice: the second call finds nothing and changes nothing. */
  method RemoveTwice(store: VectorStore, f: string) returns (first: bool, second: bool)
    requires store.Valid()
    modifies store
    ensures store.Valid()
    ensures first == HasFile(old(store.documents), f) && !second
    ensures store.documents == FilterOut(old(store.documents), f)
  {
    first := store.RemoveDocument(f);
    FilterOutRemovesAll(old(store.documents), f);
    second := store.RemoveDocument(f);
  }

  /** Clearing twice leaves the same state as clearing once. */
  method ClearTwice(store: VectorStore)
    requires store.Valid()
    modifies store
    ensures store.Valid()
    ensures store.index == None && store.documents == [] && store.metadata == []
  {
    store.Clear();
    store.Clear();
  }
}
