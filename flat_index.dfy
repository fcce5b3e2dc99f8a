/**
 * The two collaborators of the vector store: the sentence embedder, as a
 * deterministic function from text to a vector of fixed dimension, and FAISS's
 * `IndexFlatL2`, an append-only list of vectors with exact nearest-neighbour search.
 * Vectors have integer coordinates and distance is the squared Euclidean distance,
 * which orders vectors as the Euclidean distance does.
 */
module FlatIndex {
  import opened Common

  type Vector = seq<int>

  /** The embedding model: `dim` is fixed when the model is loaded. */
  datatype Embedder = Embedder(dim: nat, encode: string -> Vector)

  ghost predicate FixedDim(e: Embedder) {
    forall t :: |e.encode(t)| == e.dim
  }

  /** `create_embeddings` on a non-empty batch: one vector per text, in order. */
  function EmbedAll(e: Embedder, texts: seq<string>): (vs: seq<Vector>)
    ensures |vs| == |texts|
    ensures forall i :: 0 <= i < |texts| ==> vs[i] == e.encode(texts[i])
  {
    seq(|texts|, i requires 0 <= i < |texts| => e.encode(texts[i]))
  }

  /** Squared Euclidean distance over the coordinates both vectors have. */
  function Distance(a: Vector, b: Vector): nat {
    if a == [] || b == [] then 0
    else
      var d: nat := if a[0] >= b[0] then a[0] - b[0] else b[0] - a[0];
      d * d + Distance(a[1..], b[1..])
  }

  /** `faiss.IndexFlatL2(dim)` after some calls to `add`; `ntotal` is `|vectors|`. */
  datatype Index = Index(dim: nat, vectors: seq<Vector>)

  predicate HasDim(vs: seq<Vector>, dim: nat) {
    forall i :: 0 <= i < |vs| ==> |vs[i]| == dim
  }

  lemma EmbedDim(e: Embedder, texts: seq<string>)
    requires FixedDim(e)
    ensures HasDim(EmbedAll(e, texts), e.dim)
  {
  }

  /** `index.add(vs)`: FAISS appends in order and requires every vector to have the index's dimension. */
  function Add(ix: Index, vs: seq<Vector>): (r: Index)
    requires HasDim(vs, ix.dim)
    ensures r.dim == ix.dim && |r.vectors| == |ix.vectors| + |vs|
    ensures r.vectors[..|ix.vectors|] == ix.vectors && r.vectors[|ix.vectors|..] == vs
  {
    Index(ix.dim, ix.vectors + vs)
  }

  /** Distance from the query to the vector stored at position `p`. */
  function Dist(vs: seq<Vector>, q: Vector, p: nat): nat
    requires p < |vs|
  {
    Distance(vs[p], q)
  }

  predicate InRange(ps: seq<nat>, n: nat) {
    forall i :: 0 <= i < |ps| ==> ps[i] < n
  }

  /** Position in `cand` of a candidate nearest to `q`; the first such on ties. */
  function ArgMin(vs: seq<Vector>, q: Vector, cand: seq<nat>): (m: nat)
    requires cand != [] && InRange(cand, |vs|)
    ensures m < |cand|
    ensures forall j :: 0 <= j < |cand| ==> Dist(vs, q, cand[m]) <= Dist(vs, q, cand[j])
  {
    if |cand| == 1 then 0
    else
      var m := ArgMin(vs, q, cand[1..]);
      if Dist(vs, q, cand[0]) <= Dist(vs, q, cand[1 + m]) then 0 else 1 + m
  }

  /** The candidates other than the one at position `m`, in their order. */
  function Rest(cand: seq<nat>, m: nat): (rest: seq<nat>)
    requires m < |cand|
    ensures |rest| == |cand| - 1
  {
    cand[..m] + cand[m + 1..]
  }

  lemma RestSub(cand: seq<nat>, m: nat)
    requires m < |cand|
    ensures forall c :: c in Rest(cand, m) ==> c in cand
  {
    var rest := Rest(cand, m);
    forall c | c in rest ensures c in cand {
      var i :| 0 <= i < |rest| && rest[i] == c;
      assert cand[if i < m then i else i + 1] == c;
    }
  }

  lemma RestSuper(cand: seq<nat>, m: nat)
    requires m < |cand|
    ensures forall c :: c in cand && c != cand[m] ==> c in Rest(cand, m)
  {
    var rest := Rest(cand, m);
    forall c | c in cand && c != cand[m] ensures c in rest {
      var i :| 0 <= i < |cand| && cand[i] == c;
      if i < m {
        assert rest[i] == c;
      } else {
        assert rest[i - 1] == c;
      }
    }
  }

  lemma RestDistinct(cand: seq<nat>, m: nat)
    requires m < |cand| && Distinct(cand)
    ensures Distinct(Rest(cand, m)) && cand[m] !in Rest(cand, m)
  {
    var rest := Rest(cand, m);
    forall i, j | 0 <= i < j < |rest| ensures rest[i] != rest[j] {
      assert rest[i] == cand[if i < m then i else i + 1];
      assert rest[j] == cand[if j < m then j else j + 1];
    }
    forall i | 0 <= i < |rest| ensures rest[i] != cand[m] {
      assert rest[i] == cand[if i < m then i else i + 1];
    }
  }

  lemma RestInRange(vs: seq<Vector>, cand: seq<nat>, m: nat)
    requires InRange(cand, |vs|) && m < |cand|
    ensures InRange(Rest(cand, m), |vs|)
  {
    var rest := Rest(cand, m);
    forall i | 0 <= i < |rest| ensures rest[i] < |vs| {
      assert rest[i] == cand[if i < m then i else i + 1];
    }
  }

  /**
   * The `k` candidates nearest to `q`, nearest first: repeatedly take a nearest
   * remaining candidate.
   */
  function Select(vs: seq<Vector>, q: Vector, cand: seq<nat>, k: nat): (r: seq<nat>)
    requires InRange(cand, |vs|)
    ensures |r| == Min(k, |cand|)
    ensures InRange(r, |vs|)
    ensures forall i :: 0 <= i < |r| ==> r[i] in cand
    decreases k
  {
    if k == 0 || cand == [] then []
    else
      var m := ArgMin(vs, q, cand);
      RestInRange(vs, cand, m);
      RestSub(cand, m);
      [cand[m]] + Select(vs, q, Rest(cand, m), k - 1)
  }

  /** The positions are sorted by distance to `q`, nearest first. */
  ghost predicate Sorted(vs: seq<Vector>, q: Vector, r: seq<nat>)
    requires InRange(r, |vs|)
  {
    forall i, j :: 0 <= i < j < |r| ==> Dist(vs, q, r[i]) <= Dist(vs, q, r[j])
  }

  /** No candidate left out of `r` is nearer to `q` than one in `r`. */
  ghost predicate Exact(vs: seq<Vector>, q: Vector, cand: seq<nat>, r: seq<nat>)
    requires InRange(cand, |vs|) && InRange(r, |vs|)
  {
    forall i, j :: 0 <= i < |r| && 0 <= j < |cand| && cand[j] !in r ==> Dist(vs, q, r[i]) <= Dist(vs, q, cand[j])
  }

  /** A nearest candidate followed by a sorted choice among the others is sorted. */
  lemma ConsSorted(vs: seq<Vector>, q: Vector, cand: seq<nat>, m: nat, tail: seq<nat>)
    requires InRange(cand, |vs|) && m < |cand|
    requires forall j :: 0 <= j < |cand| ==> Dist(vs, q, cand[m]) <= Dist(vs, q, cand[j])
    requires InRange(tail, |vs|) && forall i :: 0 <= i < |tail| ==> tail[i] in Rest(cand, m)
    requires Sorted(vs, q, tail)
    ensures InRange([cand[m]] + tail, |vs|) && Sorted(vs, q, [cand[m]] + tail)
  {
    var r := [cand[m]] + tail;
    RestSub(cand, m);
    forall i, j | 0 <= i < j < |r| ensures Dist(vs, q, r[i]) <= Dist(vs, q, r[j]) {
      assert r[j] == tail[j - 1] && tail[j - 1] in cand;
      if i == 0 {
        var p :| 0 <= p < |cand| && cand[p] == tail[j - 1];
      } else {
        assert r[i] == tail[i - 1];
      }
    }
  }

  /** The choice is sorted by distance, nearest first. */
  lemma {:induction false} SelectSorted(vs: seq<Vector>, q: Vector, cand: seq<nat>, k: nat)
    requires InRange(cand, |vs|)
    ensures Sorted(vs, q, Select(vs, q, cand, k))
    decreases k
  {
    if k > 0 && cand != [] {
      var m := ArgMin(vs, q, cand);
      RestInRange(vs, cand, m);
      SelectSorted(vs, q, Rest(cand, m), k - 1);
      ConsSorted(vs, q, cand, m, Select(vs, q, Rest(cand, m), k - 1));
    }
  }

  /** A nearest candidate followed by an exact choice among the others leaves out nothing nearer. */
  lemma ConsExact(vs: seq<Vector>, q: Vector, cand: seq<nat>, m: nat, tail: seq<nat>)
    requires InRange(cand, |vs|) && m < |cand|
    requires forall j :: 0 <= j < |cand| ==> Dist(vs, q, cand[m]) <= Dist(vs, q, cand[j])
    requires InRange(tail, |vs|) && Exact(vs, q, Rest(cand, m), tail)
    ensures InRange([cand[m]] + tail, |vs|) && Exact(vs, q, cand, [cand[m]] + tail)
  {
    var r := [cand[m]] + tail;
    var rest := Rest(cand, m);
    RestSuper(cand, m);
    forall i, j | 0 <= i < |r| && 0 <= j < |cand| && cand[j] !in r ensures Dist(vs, q, r[i]) <= Dist(vs, q, cand[j]) {
      var c := cand[j];
      assert c != r[0] && c in rest;
      var h :| 0 <= h < |rest| && rest[h] == c;
      if i > 0 {
        assert r[i] == tail[i - 1];
        assert c !in tail by {
          forall t | 0 <= t < |tail| ensures tail[t] != c {
            assert r[t + 1] == tail[t];
          }
        }
      }
    }
  }

  /** No candidate left out of the choice is nearer than one chosen. */
  lemma {:induction false} SelectExact(vs: seq<Vector>, q: Vector, cand: seq<nat>, k: nat)
    requires InRange(cand, |vs|)
    ensures Exact(vs, q, cand, Select(vs, q, cand, k))
    decreases k
  {
    if k > 0 && cand != [] {
      var m := ArgMin(vs, q, cand);
      RestInRange(vs, cand, m);
      SelectExact(vs, q, Rest(cand, m), k - 1);
      ConsExact(vs, q, cand, m, Select(vs, q, Rest(cand, m), k - 1));
    }
  }

  /** A candidate followed by distinct others is distinct. */
  lemma ConsDistinct(cand: seq<nat>, m: nat, tail: seq<nat>)
    requires m < |cand| && Distinct(cand)
    requires Distinct(tail) && forall i :: 0 <= i < |tail| ==> tail[i] in Rest(cand, m)
    ensures Distinct([cand[m]] + tail)
  {
    var r := [cand[m]] + tail;
    RestDistinct(cand, m);
    forall i, j | 0 <= i < j < |r| ensures r[i] != r[j] {
      assert r[j] == tail[j - 1];
      if i > 0 {
        assert r[i] == tail[i - 1];
      }
    }
  }

  /** Distinct candidates give a choice without repetitions. */
  lemma {:induction false} SelectDistinct(vs: seq<Vector>, q: Vector, cand: seq<nat>, k: nat)
    requires InRange(cand, |vs|) && Distinct(cand)
    ensures Distinct(Select(vs, q, cand, k))
    decreases k
  {
    if k > 0 && cand != [] {
      var m := ArgMin(vs, q, cand);
      RestInRange(vs, cand, m);
      RestDistinct(cand, m);
      SelectDistinct(vs, q, Rest(cand, m), k - 1);
      ConsDistinct(cand, m, Select(vs, q, Rest(cand, m), k - 1));
    }
  }

  /** Positions `0 .. n-1` in increasing order. */
  function Positions(n: nat): (r: seq<nat>)
    ensures |r| == n
    ensures forall i :: 0 <= i < n ==> r[i] == i
  {
    seq(n, i requires 0 <= i < n => i)
  }

  /** Exact k-nearest-neighbour query over every stored position. */
  function KNearest(vs: seq<Vector>, q: Vector, k: nat): (r: seq<nat>)
    ensures |r| == Min(k, |vs|)
    ensures InRange(r, |vs|)
  {
    AllPositions(|vs|);
    Select(vs, q, Positions(|vs|), k)
  }

  lemma AllPositions(n: nat)
    ensures InRange(Positions(n), n) && Distinct(Positions(n))
    ensures forall p :: 0 <= p < n ==> p in Positions(n)
  {
    forall p | 0 <= p < n ensures p in Positions(n) {
      assert Positions(n)[p] == p;
    }
  }

  /**
   * `min(k, ntotal)` distinct positions, nearest first, and no position left out is
   * nearer than one returned.
   */
  lemma KNearestNearest(vs: seq<Vector>, q: Vector, k: nat)
    ensures var r := KNearest(vs, q, k);
      && Distinct(r)
      && (forall i, j :: 0 <= i < j < |r| ==> Dist(vs, q, r[i]) <= Dist(vs, q, r[j]))
      && (forall i, p :: 0 <= i < |r| && 0 <= p < |vs| && p !in r ==> Dist(vs, q, r[i]) <= Dist(vs, q, p))
  {
    var all := Positions(|vs|);
    AllPositions(|vs|);
    SelectSorted(vs, q, all, k);
    SelectExact(vs, q, all, k);
    SelectDistinct(vs, q, all, k);
    var r := KNearest(vs, q, k);
    forall i, p | 0 <= i < |r| && 0 <= p < |vs| && p !in r ensures Dist(vs, q, r[i]) <= Dist(vs, q, p) {
      assert all[p] == p;
    }
  }

  /** One entry of FAISS's answer: a distance and a position, where -1 marks an empty slot. */
  datatype Hit = Hit(distance: int, idx: int)

  /** What FAISS reports in a slot it could not fill; the distance is never read. */
  const NoHit: Hit := Hit(-1, -1)

  /**
   * `index.search(q, k)`: always `k` slots, the nearest vectors first, then empty
   * slots when the index holds fewer than `k` vectors.
   */
  function Search(ix: Index, q: Vector, k: nat): (hits: seq<Hit>)
    ensures |hits| == k
  {
    var ps := KNearest(ix.vectors, q, k);
    seq(k, i requires 0 <= i < k =>
      if i < |ps| then Hit(Dist(ix.vectors, q, ps[i]), ps[i]) else NoHit)
  }

  /** Slot `i` holds the `i`-th nearest position and its distance, or -1 once the vectors run out. */
  lemma SearchSlots(ix: Index, q: Vector, k: nat)
    ensures var hits, ps := Search(ix, q, k), KNearest(ix.vectors, q, k);
      && (forall i :: 0 <= i < k ==>
        if i < |ps| then hits[i] == Hit(Dist(ix.vectors, q, ps[i]), ps[i]) else hits[i] == NoHit)
      && (forall i :: 0 <= i < k ==> (hits[i].idx == -1 <==> i >= |ix.vectors|))
  {
  }
}
