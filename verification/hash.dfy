/** Domain-separated tree hashing (the Merkle hash prefixing scheme of section 2.1 of
    RFC 6962): which bytes reach the hash primitive for a plain hash, a leaf hash and a
    node hash. The primitive itself (SHA-256 by default) is a parameter. */
module TreeHash {
  import opened LedgerErrors

  type Bytes = seq<bv8>

  /** Output length, in bytes, of the default algorithm (SHA-256). */
  const HASHBYTES: nat := 32

  /** The default algorithm's digest of the empty input. */
  const EMPTY_HASH_BYTES: Bytes := [
    227, 176, 196, 66, 152, 252, 28, 20, 154, 251, 244, 200, 153, 111, 185, 36, 39, 174, 65, 228,
    100, 155, 147, 76, 164, 149, 153, 27, 120, 82, 184, 85
  ]

  /** Marker fed before a leaf's encoding. */
  const LEAF_PREFIX: bv8 := 0x00
  /** Marker fed before the two children of an internal node. */
  const NODE_PREFIX: bv8 := 0x01

  /** A fixed-output hash primitive with the construct/update/finalize protocol: `digest`
      maps everything fed to a context to the bytes its finalization yields. */
  datatype Algorithm = Algorithm(outputSize: nat, digest: Bytes -> Bytes) {
    /** Every digest has the algorithm's fixed length, whatever the input length. */
    ghost predicate Valid() {
      forall m :: |digest(m)| == outputSize
    }
  }

  /** An algorithm that can stand for the default one, SHA-256: fixed 32-byte output, and
      (a FIPS 180-4 fact that is taken as a hypothesis, not derived) the empty input
      digests to EMPTY_HASH_BYTES. */
  ghost predicate IsDefaultHash(alg: Algorithm) {
    alg.Valid() && alg.outputSize == HASHBYTES && alg.digest([]) == EMPTY_HASH_BYTES
  }

  /** An in-progress digest computation. `fed` is everything input so far. */
  class Context {
    const alg: Algorithm
    var fed: Bytes

    /** `Self::new()`: a context that has been fed nothing. */
    constructor (alg: Algorithm)
      ensures this.alg == alg && fed == []
    {
      this.alg := alg;
      fed := [];
    }

    /** `input`: appends `data` to what has been fed. */
    method Input(data: Bytes)
      modifies this
      ensures fed == old(fed) + data
    {
      fed := fed + data;
    }

    /** `result`: finalizes into a digest of everything fed, of the algorithm's length. */
    method Result() returns (d: Bytes)
      requires alg.Valid()
      ensures d == alg.digest(fed)
      ensures |d| == alg.outputSize
    {
      d := alg.digest(fed);
    }
  }

  /** A `Hashable` implementation for values of type T: for each value, the bytes its
      `update_context` appends to a context, or the error it reports. */
  type Hashable<-T> = T -> Result<Bytes>

  /** The default implementation for byte-like (`AsRef<[u8]>`) values: their bytes, verbatim. */
  function AsRefHashable(value: Bytes): (r: Result<Bytes>)
    ensures r.Ok? && r.value == value
  {
    Ok(value)
  }


  /** `value.update_context(&mut ctx)` for any `Hashable` implementation: on success the
      encoding is appended after what was fed before; on failure the error is returned. */
  method UpdateContext<T>(hashable: Hashable<T>, value: T, ctx: Context) returns (r: Result<()>)
    modifies ctx
    ensures r.Ok? <==> hashable(value).Ok?
    ensures r.Ok? ==> r == Ok(()) && ctx.fed == old(ctx.fed) + hashable(value).value
    ensures r.Err? ==> r.error == hashable(value).error && ctx.fed == old(ctx.fed)
  {
    match hashable(value)
    case Ok(bytes) =>
      ctx.Input(bytes);
      r := Ok(());
    case Err(e) =>
      r := Err(e);
  }

  /** `update_context` of the default implementation, which is `UpdateContext` run with
      `AsRefHashable`: appends `value`'s bytes unchanged, keeps what was fed before as a
      prefix, and always succeeds. */
  method UpdateContextAsRef(value: Bytes, ctx: Context) returns (r: Result<()>)
    modifies ctx
    ensures r == Ok(())
    ensures ctx.fed == old(ctx.fed) + value
    ensures ctx.fed[..|old(ctx.fed)|] == old(ctx.fed)
  {
    r := UpdateContext(AsRefHashable, value, ctx);
    assert r.Ok? && AsRefHashable(value).value == value;
  }

  /** The bytes fed for a leaf whose encoding is `encoding`. */
  function LeafPreimage(encoding: Bytes): (m: Bytes)
    ensures |m| == 1 + |encoding| && m[0] == LEAF_PREFIX
  {
    [LEAF_PREFIX] + encoding
  }

  /** The bytes fed for an internal node whose children encode as `left` and `right`. */
  function NodePreimage(left: Bytes, right: Bytes): (m: Bytes)
    ensures |m| == 1 + |left| + |right| && m[0] == NODE_PREFIX
  {
    [NODE_PREFIX] + left + right
  }

  /** What `hash(input)` returns: the digest of `input` exactly as given. */
  function PlainDigest(alg: Algorithm, input: Bytes): (r: Result<Bytes>)
    ensures r.Ok?
    ensures alg.Valid() ==> |r.value| == alg.outputSize
  {
    Ok(alg.digest(input))
  }

  /** What `hash_leaf(leaf)` returns: the leaf's encoding error, or the digest of its leaf preimage. */
  function LeafDigest<T>(alg: Algorithm, hashable: Hashable<T>, leaf: T): (r: Result<Bytes>)
    ensures r.Ok? <==> hashable(leaf).Ok?
    ensures alg.Valid() && r.Ok? ==> |r.value| == alg.outputSize
  {
    match hashable(leaf)
    case Ok(encoding) => Ok(alg.digest(LeafPreimage(encoding)))
    case Err(e) => Err(e)
  }

  /** What `hash_nodes(left, right)` returns: the left child's encoding error, else the right
      child's, else the digest of the node preimage. */
  function NodesDigest<T>(alg: Algorithm, hashable: Hashable<T>, left: T, right: T): (r: Result<Bytes>)
    ensures r.Ok? <==> hashable(left).Ok? && hashable(right).Ok?
    ensures alg.Valid() && r.Ok? ==> |r.value| == alg.outputSize
  {
    match hashable(left)
    case Err(e) => Err(e)
    case Ok(l) =>
      match hashable(right)
      case Err(e) => Err(e)
      case Ok(r) => Ok(alg.digest(NodePreimage(l, r)))
  }

  /** `hash`: a fresh context, fed `input` with no prefix, finalized. */
  method Hash(alg: Algorithm, input: Bytes) returns (r: Result<Bytes>)
    requires alg.Valid()
    ensures r == PlainDigest(alg, input)
  {
    var ctx := new Context(alg);
    ctx.Input(input);
    assert ctx.fed == input;
    var d := ctx.Result();
    r := Ok(d);
  }

  /** `hash_leaf`: a fresh context, fed the leaf marker then the leaf's encoding, finalized. */
  method HashLeaf<T>(alg: Algorithm, hashable: Hashable<T>, leaf: T) returns (r: Result<Bytes>)
    requires alg.Valid()
    ensures r == LeafDigest(alg, hashable, leaf)
  {
    var ctx := new Context(alg);
    ctx.Input([LEAF_PREFIX]);
    var _ :- UpdateContext(hashable, leaf, ctx);
    assert ctx.fed == LeafPreimage(hashable(leaf).value);
    var d := ctx.Result();
    r := Ok(d);
  }

  /** `hash_nodes`: a fresh context, fed the node marker, the left child's encoding and then
      the right child's, finalized. */
  method HashNodes<T>(alg: Algorithm, hashable: Hashable<T>, left: T, right: T) returns (r: Result<Bytes>)
    requires alg.Valid()
    ensures r == NodesDigest(alg, hashable, left, right)
  {
    var ctx := new Context(alg);
    ctx.Input([NODE_PREFIX]);
    var _ :- UpdateContext(hashable, left, ctx);
    var _ :- UpdateContext(hashable, right, ctx);
    assert ctx.fed == NodePreimage(hashable(left).value, hashable(right).value);
    var d := ctx.Result();
    r := Ok(d);
  }
}
