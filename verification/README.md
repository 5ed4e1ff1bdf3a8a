# Domain-separated tree hashing, modelled in Dafny

This project models the tree-hashing layer of `src/utils/hash.rs`. That layer decides
exactly which bytes reach the hash primitive. It follows the Merkle hash prefixing scheme
of section 2.1 of RFC 6962, with SHA-256 (FIPS 180-4) as the default primitive.

- `hash(input)` feeds `input` as given.
- `hash_leaf(leaf)` feeds the marker byte `0x00`, then the leaf's `Hashable` encoding.
- `hash_nodes(left, right)` feeds the marker byte `0x01`, then the left child's encoding,
  then the right child's.

Each operation creates a fresh digest context, feeds it, and finalizes it.

Files:
- `errors.dfy` (module `LedgerErrors`): the `LedgerResult` type as a failure-compatible
  `Result`. `:-` plays the part of `?`.
- `hash.dfy` (module `TreeHash`): the constants `HASHBYTES` and `EMPTY_HASH_BYTES`, and the
  primitive as an `Algorithm` value. The digest context is a class whose `fed` field holds
  every byte input so far. The module also has `Hashable` with its `AsRef<[u8]>` default
  and the three operations as methods. Each method is proved against a specification
  function (`PlainDigest`, `LeafDigest`, `NodesDigest`) built on the preimage functions
  `LeafPreimage` and `NodePreimage`.
- `properties.dfy` (module `TreeHashProperties`): domain separation, child order,
  injectivity of the preimages, the reduction of digest-level forgeries to collisions of
  the primitive, the default-instance guarantees and the absence of shared state.

The primitive is a parameter `Algorithm(outputSize, digest)`. `Valid()` says every digest
has `outputSize` bytes. The source obtains this from the `Digest` bound on the type
parameter `H`; here it is a requirement on the value. The default algorithm is any valid
`Algorithm` with `outputSize == HASHBYTES` that digests the empty input to
`EMPTY_HASH_BYTES` (`IsDefaultHash`). That last fact is a hypothesis: it is a property of
SHA-256, which is not part of this model.

A `Hashable` implementation for a type `T` is a function `T -> Result<Bytes>`. It gives,
for each value, the bytes its `update_context` appends or the error it reports. Traits are
not used. A byte-like `AsRef<[u8]>` value is represented by its byte view (`seq<bv8>`).

Two consequences of the code that are easy to overstate:
- Order sensitivity is not guaranteed for every pair of distinct children. The code only
  concatenates the two encodings after the marker, so swapping the children changes the
  node preimage exactly when `left ++ right != right ++ left` (`NodePreimageSwapIff`). This
  holds for every pair of distinct children of equal length (`NodePreimageSwap`); child
  digests of one algorithm always have equal length. Among children of unequal length it
  fails only for pairs whose two concatenations agree: "x" and "xx" is one such pair
  (`NodePreimageSwapUnequalLengths`), while "a" and "bb" still give different preimages
  (`NodePreimageSwapUnequalLengthsDistinct`).
- The leaf preimage differs from the plain-hash preimage of the same encoding for every
  encoding, the empty one included (`LeafPreimageIsNotPlain`).

## Model

| member | source | states |
|---|---|---|
| `TreeHash.Context.constructor` | src/utils/hash.rs:24 | a new context has been fed nothing and uses the given algorithm |
| `TreeHash.Context.Input` | src/utils/hash.rs:25 | input appends the data after everything fed before |
| `TreeHash.Context.Result` | src/utils/hash.rs:26 | finalizing yields the digest of exactly the fed bytes, of the algorithm's fixed length |
| `TreeHash.AsRefHashable` | src/utils/hash.rs:78-82 | the default Hashable always succeeds and its encoding is the value's bytes unchanged |
| `TreeHash.UpdateContextAsRef` | src/utils/hash.rs:78-82 | the default update_context, run as update_context with the default encoding, returns Ok, appends the value's bytes verbatim, and keeps the old contents as a prefix |
| `TreeHash.UpdateContext` | src/utils/hash.rs:71-76 | update_context succeeds iff the encoding does; on success the encoding is appended, on failure its error is returned |
| `TreeHash.LeafPreimage` | src/utils/hash.rs:34-35 | the leaf preimage starts with the leaf marker 0x00 and is one byte longer than the encoding |
| `TreeHash.NodePreimage` | src/utils/hash.rs:44-46 | the node preimage starts with the node marker 0x01 and is one byte longer than both encodings together |
| `TreeHash.PlainDigest` | src/utils/hash.rs:23-27 | hash never fails and its digest has the algorithm's length whatever the input length |
| `TreeHash.LeafDigest` | src/utils/hash.rs:29-37 | hash_leaf succeeds iff the leaf's encoding does, with a digest of the algorithm's length |
| `TreeHash.NodesDigest` | src/utils/hash.rs:39-48 | hash_nodes succeeds iff both children's encodings do, with a digest of the algorithm's length |
| `TreeHash.Hash` | src/utils/hash.rs:23-27 | a fresh context fed exactly the input, with no prefix, finalizes to the plain digest of the input |
| `TreeHash.HashLeaf` | src/utils/hash.rs:29-37 | a fresh context fed 0x00 then the leaf's encoding finalizes to the leaf digest; an encoding error is propagated |
| `TreeHash.HashNodes` | src/utils/hash.rs:39-48 | a fresh context fed 0x01, the left encoding, then the right encoding finalizes to the node digest; the first encoding error is propagated |
| `TreeHashProperties.LeafNodeSeparated` | src/utils/hash.rs:34-44 | no leaf preimage equals any node preimage, whatever the encodings |
| `TreeHashProperties.LeafPreimageIsNotPlain` | src/utils/hash.rs:25-35 | the leaf preimage of an encoding differs from the plain-hash preimage of that encoding, and drops back to it after the marker |
| `TreeHashProperties.LeafPreimageInjective` | src/utils/hash.rs:34-35 | two leaf preimages are equal iff the encodings are equal |
| `TreeHashProperties.NodePreimageOrder` | src/utils/hash.rs:44-46 | after the marker the left encoding comes first and the right encoding fills the rest |
| `TreeHashProperties.NodePreimageInjective` | src/utils/hash.rs:44-46 | with equal-length left encodings, two node preimages are equal iff both children are equal |
| `TreeHashProperties.NodePreimageSwap` | src/utils/hash.rs:44-46 | swapping two distinct equal-length children changes the node preimage |
| `TreeHashProperties.NodePreimageSwapUnequalLengths` | src/utils/hash.rs:44-46 | for children of unequal length the swap can leave the node preimage unchanged ("x" and "xx") |
| `TreeHashProperties.NodePreimageSwapIff` | src/utils/hash.rs:44-46 | swapping the children leaves the node preimage unchanged iff the two concatenations of their encodings are equal |
| `TreeHashProperties.NodePreimageSwapUnequalLengthsDistinct` | src/utils/hash.rs:44-46 | children of unequal length can still be order-sensitive: "a" and "bb" give different node preimages when swapped |
| `TreeHashProperties.PlainHashOfLeafPreimage` | src/utils/hash.rs:23-36 | hash of a leaf preimage equals that leaf's digest: plain hashing carries no marker |
| `TreeHashProperties.LeafNodeCollisionIsPrimitiveCollision` | src/utils/hash.rs:29-47 | a leaf digest equal to a node digest is a primitive collision on two distinct inputs |
| `TreeHashProperties.SwapCollisionIsPrimitiveCollision` | src/utils/hash.rs:39-47 | equal node digests for swapped distinct equal-length children are a primitive collision on two distinct inputs |
| `TreeHashProperties.DefaultHashableNeverFails` | src/utils/hash.rs:78-82 | with the default Hashable and any algorithm, leaf and node hashing return Ok, digesting the marker followed by the values' own bytes |
| `TreeHashProperties.DefaultHashableDigestLength` | src/utils/hash.rs:6-10 | with the default Hashable and a HASHBYTES-byte algorithm, leaf and node digests have HASHBYTES bytes, the length of EMPTY_HASH_BYTES |
| `TreeHashProperties.PlainHashOfEmpty` | src/utils/hash.rs:6-10 | under the default algorithm, hash returns HASHBYTES bytes for every input and EMPTY_HASH_BYTES for the empty input |
| `TreeHashProperties.ScenarioPreimagesDistinct` | src/utils/hash.rs:29-48 | the preimages of leaf "a", leaf "b", node ("a","b") and node ("b","a") are pairwise distinct |
| `TreeHashProperties.NoStateBetweenCalls` | src/utils/hash.rs:22-48 | a leaf hashed again after other operations gets the same result, which depends only on the arguments |

## Left out

- SHA-256 internals: the primitive comes from an external crate and is a parameter here (`Algorithm`). Only the fixed output length is modelled.
- `EMPTY_HASH_BYTES` being the SHA-256 digest of the empty input is a hypothesis (`IsDefaultHash`), not derived. The model checks only its length.
- Digest-level inequalities (leaf digest vs. node digest, swapped children) depend on collision resistance. They are stated at the preimage level, and a digest-level equality is proved to be a collision of the primitive.
- The error kinds of `LedgerResult` are not shown in the source. The model has one error carrying a message.
- `TreeHash.UpdateContext`: a `Hashable` implementation is assumed only to append bytes determined by the value, or to fail. It does not replace or reset the context, and its bytes do not depend on the digest type. The source hands the implementation the whole mutable context, so one that reset it could erase the marker and make a leaf digest equal a node digest without a collision of the primitive. `LeafNodeCollisionIsPrimitiveCollision` and `SwapCollisionIsPrimitiveCollision` rely on this assumption. On failure the model leaves the context unchanged. A custom implementation may have fed some bytes before failing. This is not observable, because every caller discards the context after propagating the error.
- `TreeHash.Context.Result`: `result` consumes the context in the source. The model does not invalidate the context after finalizing.
- Generic dispatch over the algorithm type `H` and over `T: Hashable` uses values (an `Algorithm`, an encoding function), because traits are not used.
- The `PublicKey` implementation in the documentation comment is ignored illustrative code and is not modelled.
