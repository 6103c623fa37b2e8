/**
 The Merkle tree of a dividend distribution, and the proofs handed to claimants.
 The hash of a pair is a parameter: nothing is assumed of it but what a theorem says.
 */
module Merkle {
  import opened Common

  /** A 32-byte digest, read as a number; the hex strings sort the same way. */
  type Digest = nat

  type PairHash = (Digest, Digest) -> Digest

  /** The sorted pair, so that the two sides of a pair need not be told apart. */
  function HashPair(h: PairHash, left: Digest, right: Digest): Digest {
    if left <= right then h(left, right) else h(right, left)
  }

  /** One layer up: pairs are hashed, and an odd last node is paired with itself. */
  function NextLayer(h: PairHash, layer: seq<Digest>): (next: seq<Digest>)
    ensures |next| == (|layer| + 1) / 2
  {
    if layer == [] then []
    else if |layer| == 1 then [HashPair(h, layer[0], layer[0])]
    else [HashPair(h, layer[0], layer[1])] + NextLayer(h, layer[2..])
  }

  /** A node is the hash of the two nodes below it, the smaller one first; an odd last node below is hashed with
      itself. */
  lemma {:induction false} NextLayerAt(h: PairHash, layer: seq<Digest>, i: nat)
    requires i < |NextLayer(h, layer)|
    ensures var left, right := layer[2 * i], layer[if 2 * i + 1 < |layer| then 2 * i + 1 else 2 * i];
            && (left <= right ==> NextLayer(h, layer)[i] == h(left, right))
            && (left >= right ==> NextLayer(h, layer)[i] == h(right, left))
  {
    if i > 0 {
      NextLayerAt(h, layer[2..], i - 1);
    }
  }

  /** The k-th layer above the leaves. */
  function Layer(h: PairHash, leaves: seq<Digest>, k: nat): (layer: seq<Digest>)
    ensures leaves != [] ==> layer != []
  {
    if k == 0 then leaves else NextLayer(h, Layer(h, leaves, k - 1))
  }

  /** The number of layers above the leaves. */
  function Height(n: nat): nat {
    if n <= 1 then 0 else 1 + Height((n + 1) / 2)
  }

  function PowerOfTwo(k: nat): nat {
    if k == 0 then 1 else 2 * PowerOfTwo(k - 1)
  }

  /** The height is the binary logarithm of the number of leaves, rounded up. */
  lemma {:induction false} HeightIsLogarithm(n: nat)
    requires n > 0
    ensures n <= PowerOfTwo(Height(n))
    ensures n > 1 ==> PowerOfTwo(Height(n) - 1) < n
  {
    if n > 1 {
      HeightIsLogarithm((n + 1) / 2);
    }
  }

  /** Layers shrink by halves until a single node is left. */
  lemma {:induction false} LayerHeight(h: PairHash, leaves: seq<Digest>, k: nat)
    requires k <= Height(|leaves|)
    ensures Height(|Layer(h, leaves, k)|) == Height(|leaves|) - k
  {
    if k > 0 {
      LayerHeight(h, leaves, k - 1);
    }
  }

  /** The layers go on exactly until the height is reached. */
  lemma LayersEnd(h: PairHash, leaves: seq<Digest>, k: nat)
    requires k <= Height(|leaves|)
    ensures |Layer(h, leaves, k)| > 1 <==> k < Height(|leaves|)
  {
    LayerHeight(h, leaves, k);
  }

  /** The root, unless there are no leaves. */
  function Root(h: PairHash, leaves: seq<Digest>): Option<Digest> {
    if leaves == [] then None else Some(Layer(h, leaves, Height(|leaves|))[0])
  }

  function Sibling(layer: seq<Digest>, idx: nat): Digest
    requires idx < |layer|
  {
    if idx % 2 == 1 then layer[idx - 1] else if idx + 1 < |layer| then layer[idx + 1] else layer[idx]
  }

  /** The sibling at every layer below the top, from a given layer's node upwards. */
  function ProofFrom(h: PairHash, layer: seq<Digest>, idx: nat): seq<Digest>
    requires idx < |layer|
    decreases |layer|
  {
    if |layer| == 1 then []
    else [Sibling(layer, idx)] + ProofFrom(h, NextLayer(h, layer), idx / 2)
  }

  /** What a verifier computes from a leaf and its proof. */
  function Fold(h: PairHash, node: Digest, proof: seq<Digest>): Digest {
    if proof == [] then node else HashPair(h, Fold(h, node, proof[..|proof| - 1]), proof[|proof| - 1])
  }

  lemma {:induction false} FoldFirst(h: PairHash, node: Digest, proof: seq<Digest>)
    requires proof != []
    ensures Fold(h, node, proof) == Fold(h, HashPair(h, node, proof[0]), proof[1..])
  {
    if |proof| > 1 {
      var n := |proof| - 1;
      FoldFirst(h, node, proof[..n]);
      assert proof[..n][1..] == proof[1..][..n - 1];
    }
  }

  /** A node's parent is the hash of the node and its sibling, whichever side it is on. */
  lemma {:induction false} ParentHash(h: PairHash, layer: seq<Digest>, idx: nat)
    requires idx < |layer|
    ensures NextLayer(h, layer)[idx / 2] == HashPair(h, layer[idx], Sibling(layer, idx))
  {
    if idx >= 2 {
      ParentHash(h, layer[2..], idx - 2);
      assert NextLayer(h, layer)[idx / 2] == NextLayer(h, layer[2..])[(idx - 2) / 2];
    }
  }

  lemma {:induction false} ProofFolds(h: PairHash, leaves: seq<Digest>, k: nat, idx: nat)
    requires k <= Height(|leaves|) && leaves != []
    requires idx < |Layer(h, leaves, k)|
    ensures var layer := Layer(h, leaves, k);
            && |ProofFrom(h, layer, idx)| == Height(|leaves|) - k
            && Root(h, leaves) == Some(Fold(h, layer[idx], ProofFrom(h, layer, idx)))
    decreases Height(|leaves|) - k
  {
    var layer := Layer(h, leaves, k);
    LayerHeight(h, leaves, k);
    if |layer| > 1 {
      var proof := ProofFrom(h, layer, idx);
      assert NextLayer(h, layer) == Layer(h, leaves, k + 1);
      ProofFolds(h, leaves, k + 1, idx / 2);
      ParentHash(h, layer, idx);
      FoldFirst(h, layer[idx], proof);
    }
  }

  /** Completeness: the proof of any leaf folds to the root, and is as long as the tree is high. */
  lemma ProofsAreAccepted(h: PairHash, leaves: seq<Digest>, idx: nat)
    requires idx < |leaves|
    ensures Root(h, leaves) == Some(Fold(h, leaves[idx], ProofFrom(h, leaves, idx)))
    ensures var length := |ProofFrom(h, leaves, idx)|;
            |leaves| <= PowerOfTwo(length) && (|leaves| > 1 ==> length > 0 && PowerOfTwo(length - 1) < |leaves|)
  {
    ProofFolds(h, leaves, 0, idx);
    HeightIsLogarithm(|leaves|);
  }

  // ----- Soundness

  /** Different sorted pairs have different hashes. */
  ghost predicate InjectiveOnSortedPairs(h: PairHash) {
    forall a, b, c, d :: a <= b && c <= d && h(a, b) == h(c, d) ==> a == c && b == d
  }

  /** No pair hashes to this digest. */
  ghost predicate NotAPair(h: PairHash, digest: Digest) {
    forall a, b :: h(a, b) != digest
  }

  /** A pair in the order in which it is hashed. */
  datatype Pair = Pair(first: Digest, second: Digest)

  function SortedPair(left: Digest, right: Digest): Pair {
    if left <= right then Pair(left, right) else Pair(right, left)
  }

  /** What building the tree hashes. */
  ghost predicate TreeHashes(h: PairHash, leaves: seq<Digest>, p: Pair) {
    exists k: nat, i: nat :: PairAt(h, leaves, k, i, p)
  }

  ghost predicate PairAt(h: PairHash, leaves: seq<Digest>, k: nat, i: nat, p: Pair) {
    var layer := Layer(h, leaves, k);
    |layer| > 1 && i < |layer| && p == SortedPair(layer[i], Sibling(layer, i))
  }

  /** What folding a proof hashes. */
  predicate FoldHashes(h: PairHash, node: Digest, proof: seq<Digest>, p: Pair) {
    exists n: nat :: n < |proof| && p == SortedPair(Fold(h, node, proof[..n]), proof[n])
  }

  /** A weakness of the hash, found among what the tree and the proof hash: two different pairs with one digest, a pair
      with the digest of a leaf, or a pair of the tree with the digest that is being proved. */
  datatype Forgery =
    | TwoPairs(folded: Pair, hashed: Pair)
    | PairForLeaf(folded: Pair, leaf: Digest)
    | PairForNode(hashed: Pair)

  ghost predicate Forges(h: PairHash, leaves: seq<Digest>, node: Digest, proof: seq<Digest>, f: Forgery) {
    match f
    case TwoPairs(p, q) =>
      && FoldHashes(h, node, proof, p) && TreeHashes(h, leaves, q)
      && p != q && h(p.first, p.second) == h(q.first, q.second)
    case PairForLeaf(p, leaf) => FoldHashes(h, node, proof, p) && leaf in leaves && h(p.first, p.second) == leaf
    case PairForNode(q) => TreeHashes(h, leaves, q) && h(q.first, q.second) == node
  }

  lemma SamePair(a: Digest, b: Digest, c: Digest, d: Digest)
    requires SortedPair(a, b) == SortedPair(c, d)
    ensures (a == c && b == d) || (a == d && b == c)
  {
  }

  lemma HashOfPair(h: PairHash, a: Digest, b: Digest, p: Pair)
    requires p == SortedPair(a, b)
    ensures HashPair(h, a, b) == h(p.first, p.second) && p.first <= p.second
  {
  }

  /** A node above the leaves is the hash of two nodes one layer down. */
  lemma ChildrenOf(h: PairHash, leaves: seq<Digest>, k: nat, node: Digest) returns (left: Digest, right: Digest)
    requires 0 < k <= Height(|leaves|) && node in Layer(h, leaves, k)
    ensures left in Layer(h, leaves, k - 1) && right in Layer(h, leaves, k - 1) && node == HashPair(h, left, right)
    ensures TreeHashes(h, leaves, SortedPair(left, right))
  {
    var layer, below := Layer(h, leaves, k), Layer(h, leaves, k - 1);
    var i :| 0 <= i < |layer| && layer[i] == node;
    NextLayerAt(h, below, i);
    LayersEnd(h, leaves, k - 1);
    left, right := below[2 * i], below[if 2 * i + 1 < |below| then 2 * i + 1 else 2 * i];
    assert PairAt(h, leaves, k - 1, 2 * i, SortedPair(left, right));
  }

  lemma FoldHashesMore(h: PairHash, node: Digest, proof: seq<Digest>, n: nat, p: Pair)
    requires n <= |proof| && FoldHashes(h, node, proof[..n], p)
    ensures FoldHashes(h, node, proof, p)
  {
    var i: nat :| i < n && p == SortedPair(Fold(h, node, proof[..n][..i]), proof[..n][i]);
    assert proof[..n][..i] == proof[..i];
  }

  lemma {:induction false} FoldedNodeIsALeafOrForged(
    h: PairHash, leaves: seq<Digest>, k: nat, node: Digest, proof: seq<Digest>) returns (f: Option<Forgery>)
    requires k <= Height(|leaves|) && Fold(h, node, proof) in Layer(h, leaves, k)
    ensures f.None? ==> node in leaves && |proof| == k
    ensures f.Some? ==> Forges(h, leaves, node, proof, f.value)
    decreases |proof|
  {
    var top := Fold(h, node, proof);
    f := None;
    if proof != [] {
      var n := |proof| - 1;
      var folded := Fold(h, node, proof[..n]);
      var p := SortedPair(folded, proof[n]);
      HashOfPair(h, folded, proof[n], p);
      if k == 0 {
        f := Some(PairForLeaf(p, top));
      } else {
        var left, right := ChildrenOf(h, leaves, k, top);
        var q := SortedPair(left, right);
        HashOfPair(h, left, right, q);
        if p != q {
          f := Some(TwoPairs(p, q));
        } else {
          SamePair(folded, proof[n], left, right);
          f := FoldedNodeIsALeafOrForged(h, leaves, k - 1, node, proof[..n]);
          if f.Some? && !f.value.PairForNode? {
            FoldHashesMore(h, node, proof, n, f.value.folded);
          }
        }
      }
    } else if k > 0 {
      var left, right := ChildrenOf(h, leaves, k, top);
      HashOfPair(h, left, right, SortedPair(left, right));
      f := Some(PairForNode(SortedPair(left, right)));
    }
  }

  /** Soundness, of any hash at all: whatever proof of whatever length folds a digest to the root, either the digest is
      in the leaf list and the proof is as long as the tree is high, or tree and proof exhibit a forgery. */
  lemma AcceptedOrForged(
    h: PairHash, leaves: seq<Digest>, node: Digest, proof: seq<Digest>) returns (f: Option<Forgery>)
    requires Root(h, leaves) == Some(Fold(h, node, proof))
    ensures f.None? ==> node in leaves && |proof| == Height(|leaves|)
    ensures f.Some? ==> Forges(h, leaves, node, proof, f.value)
  {
    f := FoldedNodeIsALeafOrForged(h, leaves, Height(|leaves|), node, proof);
  }

  /** When pair hashing is injective on sorted pairs and leaf digests are no pair hashes, there is no forgery, so only
      listed digests are accepted. */
  lemma AcceptedProofsAreOfLeaves(h: PairHash, leaves: seq<Digest>, node: Digest, proof: seq<Digest>)
    requires InjectiveOnSortedPairs(h) && NotAPair(h, node)
    requires forall leaf :: leaf in leaves ==> NotAPair(h, leaf)
    requires Root(h, leaves) == Some(Fold(h, node, proof))
    ensures node in leaves && |proof| == Height(|leaves|)
  {
    var f := AcceptedOrForged(h, leaves, node, proof);
  }

  // ----- The loops

  /** A tree: the leaves, and each layer hashed from the one below. */
  ghost predicate IsTree(h: PairHash, leaves: seq<Digest>, layers: seq<seq<Digest>>) {
    && layers != []
    && layers[0] == leaves
    && forall k :: 0 <= k < |layers| - 1 ==> layers[k + 1] == NextLayer(h, layers[k])
  }

  lemma {:induction false} TreeLayer(h: PairHash, leaves: seq<Digest>, layers: seq<seq<Digest>>, k: nat)
    requires IsTree(h, leaves, layers) && k < |layers|
    ensures layers[k] == Layer(h, leaves, k)
  {
    if k > 0 {
      TreeLayer(h, leaves, layers, k - 1);
      assert layers[k - 1 + 1] == NextLayer(h, layers[k - 1]);
    }
  }

  /** A tree topped by a single node is as high as it should be, and that node is the root. */
  lemma TreeTop(h: PairHash, leaves: seq<Digest>, layers: seq<seq<Digest>>, top: nat)
    requires IsTree(h, leaves, layers) && top == |layers| - 1 && |layers[top]| <= 1
    requires top <= Height(|leaves|)
    ensures top == Height(|leaves|)
    ensures leaves != [] ==> layers[top] != [] && Root(h, leaves) == Some(layers[top][0])
  {
    TreeLayer(h, leaves, layers, top);
    LayersEnd(h, leaves, top);
  }

  /** Both the service and the background worker build their tree with this loop. */
  method BuildMerkleTree(h: PairHash, leaves: seq<Digest>) returns (layers: seq<seq<Digest>>)
    ensures IsTree(h, leaves, layers) && |layers| == Height(|leaves|) + 1
    ensures leaves != [] ==> layers[|layers| - 1] != [] && Root(h, leaves) == Some(layers[|layers| - 1][0])
  {
    layers := [leaves];
    while |layers[|layers| - 1]| > 1
      invariant IsTree(h, leaves, layers) && |layers| <= Height(|leaves|) + 1
      decreases |layers[|layers| - 1]|
    {
      var prev := layers[|layers| - 1];
      TreeLayer(h, leaves, layers, |layers| - 1);
      LayersEnd(h, leaves, |layers| - 1);
      var next := HashLayer(h, prev);
      layers := layers + [next];
    }
    TreeTop(h, leaves, layers, |layers| - 1);
  }

  /** The inner loop: it steps through a layer two nodes at a time. */
  method HashLayer(h: PairHash, prev: seq<Digest>) returns (next: seq<Digest>)
    ensures next == NextLayer(h, prev)
  {
    next := [];
    var i := 0;
    while i < |prev|
      invariant 0 <= i <= |prev| + 1
      invariant next + NextLayer(h, if i <= |prev| then prev[i..] else []) == NextLayer(h, prev)
    {
      var right := if i + 1 < |prev| then prev[i + 1] else prev[i];
      NextLayerFrom(h, prev, i);
      next := next + [HashPair(h, prev[i], right)];
      i := i + 2;
    }
  }

  lemma NextLayerFrom(h: PairHash, layer: seq<Digest>, i: nat)
    requires i < |layer|
    ensures NextLayer(h, layer[i..])
         == [HashPair(h, layer[i], if i + 1 < |layer| then layer[i + 1] else layer[i])]
            + NextLayer(h, if i + 2 <= |layer| then layer[i + 2..] else [])
  {
    if i + 1 < |layer| {
      assert layer[i..][2..] == layer[i + 2..];
    }
  }

  /** The proof loop recomputes the layers; an index outside the list gets the empty proof. */
  method BuildMerkleProof(h: PairHash, leaves: seq<Digest>, index: int) returns (proof: seq<Digest>)
    ensures 0 <= index < |leaves| ==> proof == ProofFrom(h, leaves, index)
    ensures 0 <= index < |leaves| ==> Root(h, leaves) == Some(Fold(h, leaves[index], proof))
    ensures !(0 <= index < |leaves|) ==> proof == []
  {
    proof := [];
    if |leaves| == 0 || index < 0 || index >= |leaves| {
      return;
    }
    ProofsAreAccepted(h, leaves, index);
    var idx: nat, layer := index, leaves;
    ghost var k := 0;
    while |layer| > 1
      invariant idx < |layer| && layer == Layer(h, leaves, k)
      invariant proof + ProofFrom(h, layer, idx) == ProofFrom(h, leaves, index)
      decreases |layer|
    {
      proof := proof + [Sibling(layer, idx)];
      layer := HashLayer(h, layer);
      idx, k := idx / 2, k + 1;
    }
  }
}
