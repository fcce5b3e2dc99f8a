/**
 * The vector store's files: `save_index` writes `index.faiss`, `documents.pkl` and
 * `metadata.pkl`; `load_index` reads them back when a store without an index is
 * searched (lines 107-112) or created (line 38). The files are values here, and a
 * read that fails is `VectorStore.Load`'s concern.
 */
module Persistence {
  import opened Common
  import opened FlatIndex
  import opened VectorStores

  /** The store's three in-memory structures. */
  datatype Snapshot = Snapshot(index: Option<Index>, documents: seq<Chunk>, metadata: seq<Metadata>)

  /** The three saved files, written together. */
  datatype Artifacts = Artifacts(index: Index, documents: seq<Chunk>, metadata: seq<Metadata>)

  /** A store with no index and no chunks, as `__init__` and `clear` leave it before any load. */
  const Empty := Snapshot(None, [], [])

  /** `save_index` as written (lines 145-175): with no index it writes nothing, and the old files stay. */
  function SaveAsWritten(s: Snapshot, disk: Option<Artifacts>): Option<Artifacts> {
    if s.index.Some? then Some(Artifacts(s.index.value, s.documents, s.metadata)) else disk
  }

  /** `save_index` as intended: with no index the files are deleted, as `clear` does (lines 260-265). */
  function Save(s: Snapshot): Option<Artifacts> {
    if s.index.Some? then Some(Artifacts(s.index.value, s.documents, s.metadata)) else None
  }

  /**
   * A store without an index loads the saved files when both exist (lines 107-112,
   * 185-192); with an index, or with no files, it is left as it is.
   */
  function Reload(s: Snapshot, disk: Option<Artifacts>): Snapshot {
    if s.index.Some? || disk.None? then s
    else Snapshot(Some(disk.value.index), disk.value.documents, disk.value.metadata)
  }

  /** Every chunk of a non-empty list belongs to `f` exactly when removing `f` leaves nothing. */
  lemma OnlyFileHasFile(docs: seq<Chunk>, f: string)
    requires docs != [] && FilterOut(docs, f) == []
    ensures HasFile(docs, f)
  {
    FilterOutMembers(docs, f);
    assert docs[0] in docs && docs[0] !in FilterOut(docs, f);
  }

  /**
   * The stale reload: `s0` is saved; `remove_document` then removes its only file,
   * which leaves no index (line 242) and so saves nothing. The next search, or the
   * next start, reloads `s0`, so the removed file's chunks are searched again and
   * the removal is lost.
   */
  lemma StaleReload(s0: Snapshot, f: string, disk: Option<Artifacts>)
    requires s0.index.Some? && s0.documents != [] && FilterOut(s0.documents, f) == []
    ensures var after := SaveAsWritten(Empty, SaveAsWritten(s0, disk));
      && Reload(Empty, after) == s0
      && HasFile(Reload(Empty, after).documents, f)
      && Reload(Empty, after).documents != FilterOut(s0.documents, f)
  {
    OnlyFileHasFile(s0.documents, f);
  }

  /**
   * With the intended save, loading restores exactly what was saved, the store with
   * no chunks included. On the search path (from the state itself) this is immediate:
   * a store with an index is never reloaded, and one without has nothing saved. On a
   * fresh start (from `Empty`) it needs the alignment: no index means no chunks and
   * no records.
   */
  lemma ReloadAfterSave(e: Embedder, s: Snapshot)
    requires Aligned(e, s.index, s.documents, s.metadata)
    ensures Reload(s, Save(s)) == s
    ensures Reload(Empty, Save(s)) == s
  {
    if s.index.None? {
      assert s.documents == [];
      assert |s.metadata| == |Chunks(s.metadata)| == 0;
    }
  }

  /** With the intended save, a removed file stays removed across a reload. */
  lemma RemovedStaysRemoved(e: Embedder, s0: Snapshot, s1: Snapshot, f: string)
    requires Aligned(e, s1.index, s1.documents, s1.metadata)
    requires s1.documents == FilterOut(s0.documents, f)
    ensures Reload(Empty, Save(s1)).documents == FilterOut(s0.documents, f)
    ensures !HasFile(Reload(Empty, Save(s1)).documents, f)
  {
    ReloadAfterSave(e, s1);
    FilterOutRemovesAll(s0.documents, f);
  }
}
