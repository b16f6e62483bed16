/**
  The collaborators `rollup_proof_data.ts` imports but whose code is not part
  of this model: the inner-proof record (`InnerProofData` with `LENGTH`,
  `PADDING`, `isPadding`, `txId`, `toBuffer`, `fromBuffer`), its sparse codec
  (`encodeInnerProof`, `decodeInnerProof`, `getEncodedLength`), the proof-type
  table `getNumViewKeys` and the `ViewingKey` class (`SIZE`, `EMPTY`,
  `isEmpty`, its constructor and `toBuffer`). They are passed in as values;
  what the codec relies on them for is stated as the predicates below, which
  the round-trip lemmas take as hypotheses.
 */
module Collaborators {
  import opened Bytes

  type Pos = n: nat | n > 0 witness 1

  /** How many viewing keys a proof type carries. */
  type KeyCount = n: nat | n <= 2

  /**
    `P` is the inner-proof record and `K` the viewing key.
    `numViewKeys(p)` is `getNumViewKeys(p.proofId)`; `makeKey(buf)` is `new ViewingKey(buf)`.
   */
  datatype Collaborators<!P, !K> = Collaborators(
    innerProofLength: Pos,
    padding: P,
    isPadding: P -> bool,
    txId: P -> Bytes,
    toBuffer: P -> Bytes,
    fromBuffer: Bytes -> P,
    encodeInnerProof: P -> Bytes,
    decodeInnerProof: Bytes -> P,
    getEncodedLength: Byte -> Pos,
    numViewKeys: P -> KeyCount,
    viewingKeySize: Pos,
    emptyKey: K,
    isEmpty: K -> bool,
    makeKey: Bytes -> K,
    keyToBuffer: K -> Bytes)

  /** The dense inner-proof codec: `LENGTH` bytes per record, and `fromBuffer` inverts `toBuffer`. */
  ghost predicate DenseCodec<P(!new), K>(c: Collaborators<P, K>)
  {
    forall p :: |c.toBuffer(p)| == c.innerProofLength && c.fromBuffer(c.toBuffer(p)) == p
  }

  /**
    The sparse inner-proof codec: `PADDING` is padding; a real record encodes
    to at most `LENGTH` bytes whose first byte (the proof-type tag) announces
    the encoded length; and decoding reads a record back from its encoding
    followed by any further bytes.
   */
  ghost predicate SparseCodec<P(!new), K>(c: Collaborators<P, K>)
  {
    && c.isPadding(c.padding)
    && (forall p :: !c.isPadding(p) ==>
         1 <= |c.encodeInnerProof(p)| <= c.innerProofLength &&
         c.getEncodedLength(c.encodeInnerProof(p)[0]) == |c.encodeInnerProof(p)|)
    && (forall p, rest: Bytes :: !c.isPadding(p) ==> c.decodeInnerProof(c.encodeInnerProof(p) + rest) == p)
  }

  /**
    Viewing keys: every key serialises to `SIZE` bytes, `EMPTY` is empty, and
    a non-empty key is rebuilt by the constructor from its bytes.
   */
  ghost predicate KeyCodec<P, K(!new)>(c: Collaborators<P, K>)
  {
    && c.isEmpty(c.emptyKey)
    && (forall k :: |c.keyToBuffer(k)| == c.viewingKeySize)
    && (forall k :: !c.isEmpty(k) ==> c.makeKey(c.keyToBuffer(k)) == k)
  }
}
