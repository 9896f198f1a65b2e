/** The append-only vector index of backend/app/vector_store/faiss_store.py.
    The FAISS nearest-neighbour computation is an oracle returning one raw result row. */
module VectorStore {
  import opened Common

  /** An `IndexFlatL2`: its dimension and the vectors added so far; vector i has id i. */
  datatype FlatIndex = FlatIndex(d: int, vectors: seq<Vector>) {
    /** `index.ntotal` */
    function NTotal(): nat {
      |vectors|
    }
  }

  /** The row `index.search` returns for one query: labels (-1 for an unfilled slot) and distances. */
  datatype RawRow = RawRow(indices: seq<int>, distances: seq<Float>)

  /** Why `index.add` raises: an empty batch has no (n, d) shape, and every vector must have
      the index's dimension. */
  datatype AddError = EmptyBatch | DimensionMismatch

  /** The files an index can be persisted to, by path. */
  class Disk {
    var files: map<string, FlatIndex>

    constructor (files: map<string, FlatIndex>)
      ensures this.files == files
    {
      this.files := files;
    }
  }

  /** The ids `range(lo, hi)`. */
  function Range(lo: int, hi: int): (r: seq<int>)
    ensures |r| == if lo <= hi then hi - lo else 0
    ensures forall i :: 0 <= i < |r| ==> r[i] == lo + i
  {
    if lo < hi then seq(hi - lo, i => lo + i) else []
  }

  /** The index `_load_index` yields: the one persisted at the path when there is one, whatever
      its dimension, otherwise a new empty index of dimension `dim`. */
  function OpenedIndex(files: map<string, FlatIndex>, path: string, dim: int): FlatIndex {
    if path in files then files[path] else FlatIndex(dim, [])
  }

  /** The number of vectors persisted at the path (0 when there is no file). */
  function NTotalAt(files: map<string, FlatIndex>, path: string): nat {
    if path in files then files[path].NTotal() else 0
  }

  /** Whether `index.add` accepts the batch: at least one vector, each of dimension d. */
  predicate Accepts(d: int, embeddings: seq<Vector>) {
    |embeddings| > 0 && forall v :: v in embeddings ==> |v| == d
  }

  class FaissStore {
    const disk: Disk
    const indexPath: string
    const dim: int
    var index: FlatIndex

    /** `__init__`/`_load_index`: the index persisted at the path when there is one, whatever
        its dimension; otherwise a new empty index of dimension `dim`. */
    constructor (disk: Disk, indexPath: string, dim: int)
      ensures this.disk == disk && this.indexPath == indexPath && this.dim == dim
      ensures indexPath in disk.files ==> index == disk.files[indexPath]
      ensures indexPath !in disk.files ==> index == FlatIndex(dim, []) && index.NTotal() == 0
      ensures index == OpenedIndex(disk.files, indexPath, dim)
    {
      this.disk := disk;
      this.indexPath := indexPath;
      this.dim := dim;
      if indexPath in disk.files {
        index := disk.files[indexPath];
      } else {
        index := FlatIndex(dim, []);
      }
    }

    /** `save`: persists the in-memory index at the path. */
    method Save()
      modifies disk
      ensures disk.files == old(disk.files)[indexPath := index]
    {
      disk.files := disk.files[indexPath := index];
    }

    /** `add`: appends the batch, saves, and returns the ids `[ntotal, ntotal + n)`; a batch the
        index refuses raises before anything changes. */
    method Add(embeddings: seq<Vector>) returns (r: Result<seq<int>, AddError>)
      modifies this, disk
      ensures Accepts(old(index).d, embeddings) ==>
        && r == Success(Range(old(index).NTotal(), old(index).NTotal() + |embeddings|))
        && index == FlatIndex(old(index).d, old(index).vectors + embeddings)
        && index.NTotal() == old(index).NTotal() + |embeddings|
        && disk.files == old(disk.files)[indexPath := index]
      ensures !Accepts(old(index).d, embeddings) ==>
        && r == Failure(if |embeddings| == 0 then EmptyBatch else DimensionMismatch)
        && index == old(index)
        && disk.files == old(disk.files)
    {
      if |embeddings| == 0 {
        return Failure(EmptyBatch);
      }
      if exists v :: v in embeddings && |v| != index.d {
        return Failure(DimensionMismatch);
      }
      var startId := index.NTotal();
      index := FlatIndex(index.d, index.vectors + embeddings);
      var ids := Range(startId, startId + |embeddings|);
      Save();
      return Success(ids);
    }

    /** `search` on the index held in memory. */
    function Search(embedding: Vector, k: int, knn: (FlatIndex, Vector, int) -> Option<RawRow>): (r: Option<(seq<int>, seq<Float>)>)
      reads this
      ensures index.NTotal() == 0 ==> r == Some(([], []))
      ensures index.NTotal() > 0 && |embedding| != index.d ==> r == None
      ensures r.Some? ==> |r.value.0| == |r.value.1| && -1 !in r.value.0
    {
      SearchIndex(index, embedding, k, knn)
    }
  }

  /** `search`: an empty index answers `([], [])` for every k; otherwise the query must have
      the index's dimension, and the oracle's row (None when FAISS raises) is post-processed. */
  function SearchIndex(index: FlatIndex, embedding: Vector, k: int, knn: (FlatIndex, Vector, int) -> Option<RawRow>)
    : (r: Option<(seq<int>, seq<Float>)>)
    ensures index.NTotal() == 0 ==> r == Some(([], []))
    ensures index.NTotal() > 0 && |embedding| != index.d ==> r == None
    ensures r.Some? ==> |r.value.0| == |r.value.1| && -1 !in r.value.0
  {
    if index.NTotal() == 0 then Some(([], []))
    else if |embedding| != index.d then None
    else match knn(index, embedding, k)
      case None => None
      case Some(row) =>
        HitsFilter(row);
        Some(Hits(row))
  }

  /** One (id, distance) pair of the raw row. */
  function KeepHit(p: (int, Float)): Option<(int, Float)> {
    if p.0 != -1 then Some(p) else None
  }

  /** `zip(idxs, dists)` */
  function Pairs(row: RawRow): seq<(int, Float)> {
    seq(Min(|row.indices|, |row.distances|), i requires 0 <= i < Min(|row.indices|, |row.distances|) =>
      (row.indices[i], row.distances[i]))
  }

  /** The post-processing of the raw row: drop the -1 labels, then unzip. */
  function Hits(row: RawRow): (seq<int>, seq<Float>) {
    var kept := FilterMap(Pairs(row), KeepHit);
    (seq(|kept|, j requires 0 <= j < |kept| => kept[j].0), seq(|kept|, j requires 0 <= j < |kept| => kept[j].1))
  }

  /** The hits are the raw row's pairs whose label is not -1, in their original order and
      still aligned: there are no more of them than the row has, the j-th id and the j-th
      distance come from the same raw position, positions increase, and every raw position
      with a label other than -1 is kept. */
  lemma HitsFilter(row: RawRow)
    ensures var n := Min(|row.indices|, |row.distances|);
      var ps := KeptPositions(Pairs(row), KeepHit);
      && |Hits(row).0| == |Hits(row).1| == |ps| <= n
      && -1 !in Hits(row).0
      && (forall j :: 0 <= j < |ps| ==>
            ps[j] < n && Hits(row).0[j] == row.indices[ps[j]] && Hits(row).1[j] == row.distances[ps[j]])
      && (forall j, j' :: 0 <= j < j' < |ps| ==> ps[j] < ps[j'])
      && (forall i :: 0 <= i < n ==> (row.indices[i] != -1 <==> i in ps))
  {
    var pairs := Pairs(row);
    FilterMapPositions(pairs, KeepHit);
    var kept := FilterMap(pairs, KeepHit);
    var ps := KeptPositions(pairs, KeepHit);
    forall j | 0 <= j < |ps|
      ensures Hits(row).0[j] == row.indices[ps[j]] && Hits(row).1[j] == row.distances[ps[j]]
    {
      assert KeepHit(pairs[ps[j]]) == Some(kept[j]);
    }
    forall i | 0 <= i < |pairs|
      ensures row.indices[i] != -1 <==> i in ps
    {
      assert KeepHit(pairs[i]).Some? <==> i in ps;
    }
  }

  /** Reopening the path after an `add` sees the saved index, so a second `add` continues the
      id sequence where the first one ended. */
  method ReopenContinuesIds(disk: Disk, path: string, dim: int, first: seq<Vector>, second: seq<Vector>)
    returns (r1: Result<seq<int>, AddError>, r2: Result<seq<int>, AddError>)
    modifies disk
    ensures r1.Success? && r2.Success? ==>
      |r1.value| == |first| > 0 && |r2.value| == |second| > 0 &&
      r2.value[0] == r1.value[|r1.value| - 1] + 1 &&
      (forall i, j :: 0 <= i < |r1.value| && 0 <= j < |r2.value| ==> r1.value[i] < r2.value[j])
  {
    var s1 := new FaissStore(disk, path, dim);
    r1 := s1.Add(first);
    var s2 := new FaissStore(disk, path, dim);
    assert r1.Success? ==> s2.index == s1.index;
    r2 := s2.Add(second);
  }
}
