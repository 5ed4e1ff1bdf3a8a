/** What the prefixing scheme guarantees, stated about the bytes fed to the primitive (the
    preimages) and about the digests the three operations return. Statements that would
    need collision resistance of the primitive are reduced to a collision of the primitive. */
module TreeHashProperties {
  import opened LedgerErrors
  import opened TreeHash

  /** Domain separation: no leaf preimage is a node preimage, whatever the encodings. */
  lemma LeafNodeSeparated(x: Bytes, left: Bytes, right: Bytes)
    ensures LeafPreimage(x) != NodePreimage(left, right)
  {
    assert LeafPreimage(x)[0] != NodePreimage(left, right)[0];
  }

  /** The leaf preimage is the encoding with exactly one byte in front, so it is never the
      plain-hash preimage of the same encoding. */
  lemma LeafPreimageIsNotPlain(x: Bytes)
    ensures LeafPreimage(x) != x
    ensures LeafPreimage(x)[1..] == x
  {
  }

  /** A leaf preimage determines the leaf's encoding. */
  lemma LeafPreimageInjective(x: Bytes, y: Bytes)
    ensures LeafPreimage(x) == LeafPreimage(y) <==> x == y
  {
    if LeafPreimage(x) == LeafPreimage(y) {
      assert x == LeafPreimage(x)[1..];
    }
  }

  /** Child order: the left child's encoding comes first, right after the marker, and the
      right child's encoding fills the rest. */
  lemma NodePreimageOrder(left: Bytes, right: Bytes)
    ensures NodePreimage(left, right)[1..1 + |left|] == left
    ensures NodePreimage(left, right)[1 + |left|..] == right
  {
  }

  /** When the left encodings have the same length (as child digests of one algorithm
      always do), a node preimage determines both children. */
  lemma NodePreimageInjective(l1: Bytes, r1: Bytes, l2: Bytes, r2: Bytes)
    requires |l1| == |l2|
    ensures NodePreimage(l1, r1) == NodePreimage(l2, r2) <==> l1 == l2 && r1 == r2
  {
    if NodePreimage(l1, r1) == NodePreimage(l2, r2) {
      NodePreimageOrder(l1, r1);
      NodePreimageOrder(l2, r2);
    }
  }

  /** Swapping two distinct children of equal length changes the node preimage. */
  lemma NodePreimageSwap(a: Bytes, b: Bytes)
    requires |a| == |b| && a != b
    ensures NodePreimage(a, b) != NodePreimage(b, a)
  {
    NodePreimageInjective(a, b, b, a);
  }

  /** Without equal lengths the swap can leave the preimage unchanged: "x" and "xx". */
  lemma NodePreimageSwapUnequalLengths()
    ensures var a: Bytes := [0x78]; var b: Bytes := [0x78, 0x78];
      a != b && NodePreimage(a, b) == NodePreimage(b, a)
  {
  }

  /** Exactly when swapping changes the node preimage: when the two concatenations of the
      encodings differ. "x"/"xx" concatenate equally both ways, "a"/"bb" do not. */
  lemma NodePreimageSwapIff(a: Bytes, b: Bytes)
    ensures NodePreimage(a, b) == NodePreimage(b, a) <==> a + b == b + a
  {
    assert NodePreimage(a, b) == [NODE_PREFIX] + (a + b);
    assert NodePreimage(b, a) == [NODE_PREFIX] + (b + a);
    if NodePreimage(a, b) == NodePreimage(b, a) {
      assert a + b == NodePreimage(a, b)[1..];
    }
  }

  /** "a" and "bb" have unequal lengths, yet swapping them changes the node preimage. */
  lemma NodePreimageSwapUnequalLengthsDistinct()
    ensures var a: Bytes := [0x61]; var b: Bytes := [0x62, 0x62];
      NodePreimage(a, b) != NodePreimage(b, a)
  {
    var a: Bytes := [0x61];
    var b: Bytes := [0x62, 0x62];
    assert NodePreimage(a, b)[1] != NodePreimage(b, a)[1];
  }

  /** Plain hashing adds no marker: `hash` of a leaf preimage is that leaf's digest. This is
      why tree code must use `hash_leaf` and `hash_nodes`, never `hash`, for tree entries. */
  lemma PlainHashOfLeafPreimage<T>(alg: Algorithm, hashable: Hashable<T>, leaf: T)
    requires hashable(leaf).Ok?
    ensures LeafDigest(alg, hashable, leaf) == PlainDigest(alg, LeafPreimage(hashable(leaf).value))
  {
  }

  /** A leaf digest equal to a node digest is a collision of the primitive on two distinct
      inputs: forging a node as a leaf (or back) needs a collision of the primitive. */
  lemma LeafNodeCollisionIsPrimitiveCollision<T>(alg: Algorithm, hashable: Hashable<T>, leaf: T, left: T, right: T)
    requires LeafDigest(alg, hashable, leaf).Ok?
    requires LeafDigest(alg, hashable, leaf) == NodesDigest(alg, hashable, left, right)
    ensures var m1 := LeafPreimage(hashable(leaf).value);
      var m2 := NodePreimage(hashable(left).value, hashable(right).value);
      m1 != m2 && alg.digest(m1) == alg.digest(m2)
  {
    LeafNodeSeparated(hashable(leaf).value, hashable(left).value, hashable(right).value);
  }

  /** For children whose encodings have equal length but differ, swapping them yields the
      same node digest only through a collision of the primitive. */
  lemma SwapCollisionIsPrimitiveCollision<T>(alg: Algorithm, hashable: Hashable<T>, a: T, b: T)
    requires hashable(a).Ok? && hashable(b).Ok?
    requires |hashable(a).value| == |hashable(b).value| && hashable(a).value != hashable(b).value
    requires NodesDigest(alg, hashable, a, b) == NodesDigest(alg, hashable, b, a)
    ensures var m1 := NodePreimage(hashable(a).value, hashable(b).value);
      var m2 := NodePreimage(hashable(b).value, hashable(a).value);
      m1 != m2 && alg.digest(m1) == alg.digest(m2)
  {
    NodePreimageSwap(hashable(a).value, hashable(b).value);
  }

  /** With the default `Hashable` (bytes verbatim), leaf and node hashing never fail and
      feed the marker followed by the values' own bytes unchanged, for every algorithm. */
  lemma DefaultHashableNeverFails(alg: Algorithm, leaf: Bytes, left: Bytes, right: Bytes)
    ensures LeafDigest(alg, AsRefHashable, leaf) == Ok(alg.digest([LEAF_PREFIX] + leaf))
    ensures NodesDigest(alg, AsRefHashable, left, right) == Ok(alg.digest([NODE_PREFIX] + left + right))
  {
  }

  /** With the default `Hashable` and an algorithm of HASHBYTES-byte output, leaf and node
      digests have HASHBYTES bytes, the length of EMPTY_HASH_BYTES. */
  lemma DefaultHashableDigestLength(alg: Algorithm, leaf: Bytes, left: Bytes, right: Bytes)
    requires alg.Valid() && alg.outputSize == HASHBYTES
    ensures |LeafDigest(alg, AsRefHashable, leaf).value| == HASHBYTES == |EMPTY_HASH_BYTES|
    ensures |NodesDigest(alg, AsRefHashable, left, right).value| == HASHBYTES
  {
    DefaultHashableNeverFails(alg, leaf, left, right);
  }

  /** `hash` never fails and its digest has HASHBYTES bytes for every input length; on no
      bytes at all it is EMPTY_HASH_BYTES. */
  lemma PlainHashOfEmpty(alg: Algorithm, input: Bytes)
    requires IsDefaultHash(alg)
    ensures PlainDigest(alg, input).Ok? && |PlainDigest(alg, input).value| == HASHBYTES
    ensures PlainDigest(alg, []) == Ok(EMPTY_HASH_BYTES)
  {
  }

  /** The leaf and node preimages of "a" and "b": the two leaves, the node ("a", "b") and the
      node ("b", "a") are fed four pairwise distinct byte strings. */
  lemma ScenarioPreimagesDistinct()
    ensures var a: Bytes := [0x61]; var b: Bytes := [0x62];
      var ms := [LeafPreimage(a), LeafPreimage(b), NodePreimage(a, b), NodePreimage(b, a)];
      forall i, j :: 0 <= i < j < |ms| ==> ms[i] != ms[j]
  {
    var a: Bytes := [0x61];
    var b: Bytes := [0x62];
    LeafPreimageInjective(a, b);
    LeafNodeSeparated(a, a, b);
    LeafNodeSeparated(a, b, a);
    LeafNodeSeparated(b, a, b);
    LeafNodeSeparated(b, b, a);
    NodePreimageSwap(a, b);
  }

  /** Nothing carries over between calls: a leaf hashed again after other operations gets
      the same result, which depends only on the arguments. */
  method NoStateBetweenCalls<T>(alg: Algorithm, hashable: Hashable<T>, leaf: T, left: T, right: T, input: Bytes)
    returns (first: Result<Bytes>, second: Result<Bytes>)
    requires alg.Valid()
    ensures first == second == LeafDigest(alg, hashable, leaf)
  {
    first := HashLeaf(alg, hashable, leaf);
    var _ := HashNodes(alg, hashable, left, right);
    var _ := Hash(alg, input);
    second := HashLeaf(alg, hashable, leaf);
  }
}
