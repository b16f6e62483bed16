/**
  The rollup-proof record of `rollup_proof_data.ts` and its two wire forms.

  The dense form (`toBuffer` / `fromBuffer`) is the 1632-byte header, exactly
  `rollupSize` fixed-size inner proofs, and the 800-byte tail. The sparse form
  (`encode` / `decode`) replaces the inner proofs by a 4-byte big-endian byte
  count followed by the variable-length encodings of the non-padding entries.
  Viewing keys travel in a separate buffer, two slots per transaction.

  Functions give the meaning of each operation; the methods follow the
  source's loops, which advance a `startIndex` or `offset` and push entries
  one at a time, and are proved to compute those functions.
 */
module RollupProofData {
  import opened Bytes
  import opened Collaborators
  import Sha256

  // ---------------------------------------------------------------------------
  // Constants and the header layout
  // ---------------------------------------------------------------------------

  const NumberOfAssets: nat := 16
  const NumBridgeCallsPerBlock: nat := 4
  const NumRollupHeaderInputs: nat := 11 + NumberOfAssets * 2 + NumBridgeCallsPerBlock * 2
  const LengthRollupHeaderInputs: nat := NumRollupHeaderInputs * 32
  const LengthRecursiveProofOutput: nat := 16 * 32

  /** The 11 scalar header slots (`RollupProofDataFields`), in slot order. */
  datatype Field =
    | RollupId | RollupSize | DataStartIndex
    | OldDataRoot | NewDataRoot | OldNullRoot | NewNullRoot
    | OldRootRoot | NewRootRoot | OldDefiRoot | NewDefiRoot
  {
    /** The slot number, the enum's value. */
    function Index(): nat
    {
      match this
        case RollupId => 0
        case RollupSize => 1
        case DataStartIndex => 2
        case OldDataRoot => 3
        case NewDataRoot => 4
        case OldNullRoot => 5
        case NewNullRoot => 6
        case OldRootRoot => 7
        case NewRootRoot => 8
        case OldDefiRoot => 9
        case NewDefiRoot => 10
    }

    predicate IsNumber()
    {
      RollupId? || RollupSize? || DataStartIndex?
    }

    /**
      `RollupProofDataOffsets`: a number sits in the last 4 bytes of its
      32-byte slot, a root fills its slot.
     */
    function Offset(): (o: nat)
      ensures 32 * Index() <= o && o + (if IsNumber() then 4 else 32) == 32 * (Index() + 1)
    {
      if IsNumber() then Index() * 32 + 28 else Index() * 32
    }
  }

  type UInt32 = n: nat | n < 0x1_0000_0000

  datatype Error =
    | OutOfRange
    | EmptyRollup
    | EmptyViewingKeyData
    | InvalidNumViewKeys
    | TotalTxFeesSize
    | BridgeIdsSize
    | DefiDepositSumsSize
    | DefiInteractionNotesSize

  /** The outcome of an operation that can throw. */
  datatype Result<+T> = Ok(value: T) | Err(error: Error)
  {
    predicate IsFailure() { Err? }

    function PropagateFailure<U>(): Result<U>
      requires Err?
    {
      Err(error)
    }

    function Extract(): T
      requires Ok?
    {
      value
    }
  }

  // ---------------------------------------------------------------------------
  // The record
  // ---------------------------------------------------------------------------

  /** What `parseHeaderInputs` returns: the numbers, the 8 roots and the 4 header arrays. */
  datatype Header = Header(
    rollupId: UInt32,
    rollupSize: UInt32,
    dataStartIndex: UInt32,
    oldDataRoot: Bytes,
    newDataRoot: Bytes,
    oldNullRoot: Bytes,
    newNullRoot: Bytes,
    oldDataRootsRoot: Bytes,
    newDataRootsRoot: Bytes,
    oldDefiRoot: Bytes,
    newDefiRoot: Bytes,
    bridgeIds: seq<Bytes>,
    defiDepositSums: seq<Bytes>,
    assetIds: seq<Bytes>,
    totalTxFees: seq<Bytes>)

  /** What `parseTailInputs` returns. */
  datatype Tail = Tail(
    recursiveProofOutput: Bytes,
    defiInteractionNotes: seq<Bytes>,
    prevDefiInteractionHash: Bytes)

  /** A `RollupProofData` object. */
  datatype RollupProofData<P, K> = RollupProofData(
    header: Header,
    innerProofData: seq<P>,
    tail: Tail,
    viewingKeys: seq<seq<K>>,
    rollupHash: Bytes)

  /** Every header buffer has the size its slot gives it. */
  predicate WellFormedHeader(h: Header)
  {
    && |h.oldDataRoot| == 32 && |h.newDataRoot| == 32
    && |h.oldNullRoot| == 32 && |h.newNullRoot| == 32
    && |h.oldDataRootsRoot| == 32 && |h.newDataRootsRoot| == 32
    && |h.oldDefiRoot| == 32 && |h.newDefiRoot| == 32
    && |h.bridgeIds| == NumBridgeCallsPerBlock && AllWidth(h.bridgeIds, 32)
    && |h.defiDepositSums| == NumBridgeCallsPerBlock && AllWidth(h.defiDepositSums, 32)
    && |h.assetIds| == NumberOfAssets && AllWidth(h.assetIds, 32)
    && |h.totalTxFees| == NumberOfAssets && AllWidth(h.totalTxFees, 32)
  }

  /** Every tail buffer has the size its place in the layout gives it. */
  predicate WellFormedTail(t: Tail)
  {
    && |t.recursiveProofOutput| == LengthRecursiveProofOutput
    && |t.defiInteractionNotes| == NumBridgeCallsPerBlock && AllWidth(t.defiInteractionNotes, 64)
    && |t.prevDefiInteractionHash| == 32
  }

  // ---------------------------------------------------------------------------
  // Fixed-width numbers in buffers
  // ---------------------------------------------------------------------------

  /**
    `numToUInt32BE(n, size)`: a zeroed buffer of `size` bytes with `n` written
    big-endian into its last four. (The serialisation helpers are not part of
    this model; this is their documented behaviour.)
   */
  function NumToUInt32BE(n: UInt32, size: nat): (r: Bytes)
    requires size >= 4
    ensures |r| == size
    ensures r[..size - 4] == Zeros(size - 4)
    ensures BigEndian(r[size - 4..]) == n
  {
    var r := Zeros(size - 4) + ToBigEndian(n, 4);
    assert r[size - 4..] == ToBigEndian(n, 4);
    BigEndianOfToBigEndian(n, 4);
    r
  }

  /** `buf.readUInt32BE(off)`, which throws when fewer than 4 bytes remain. */
  function ReadUInt32BE(buf: Bytes, off: nat): (r: Result<UInt32>)
    ensures r.Ok? <==> off + 4 <= |buf|
    ensures r.Ok? ==> ToBigEndian(r.value, 4) == buf[off..off + 4]
  {
    if off + 4 <= |buf| then
      ToBigEndianOfBigEndian(buf[off..off + 4]);
      Ok(BigEndian(buf[off..off + 4]))
    else Err(OutOfRange)
  }

  /** `buf.readUInt8(0)`, which throws on an empty buffer. */
  function FirstByte(buf: Bytes): (r: Result<Byte>)
    ensures r.Ok? <==> |buf| > 0
    ensures r.Ok? ==> r.value == buf[0]
  {
    if |buf| > 0 then Ok(buf[0]) else Err(OutOfRange)
  }

  /** `getRollupIdFromBuffer` */
  function GetRollupIdFromBuffer(proofData: Bytes): (r: Result<UInt32>)
    ensures r.Ok? <==> |proofData| >= 32
    ensures r.Ok? ==> ToBigEndian(r.value, 4) == proofData[28..32]
  {
    ReadUInt32BE(proofData, RollupId.Offset())
  }

  /** `getRollupSizeFromBuffer` */
  function GetRollupSizeFromBuffer(proofData: Bytes): (r: Result<UInt32>)
    ensures r.Ok? <==> |proofData| >= 64
    ensures r.Ok? ==> ToBigEndian(r.value, 4) == proofData[60..64]
  {
    ReadUInt32BE(proofData, RollupSize.Offset())
  }

  // ---------------------------------------------------------------------------
  // Serialisation (`toBuffer`, `encode`, `getViewingKeyData`)
  // ---------------------------------------------------------------------------

  /** The 51 header pieces, in the order `toBuffer` and `encode` concatenate them. */
  function HeaderSlots(h: Header): seq<Bytes>
  {
    [NumToUInt32BE(h.rollupId, 32), NumToUInt32BE(h.rollupSize, 32), NumToUInt32BE(h.dataStartIndex, 32),
     h.oldDataRoot, h.newDataRoot, h.oldNullRoot, h.newNullRoot,
     h.oldDataRootsRoot, h.newDataRootsRoot, h.oldDefiRoot, h.newDefiRoot]
    + h.bridgeIds + h.defiDepositSums + h.assetIds + h.totalTxFees
  }

  /** The tail pieces, in the order they are concatenated. */
  function TailSlots(t: Tail): seq<Bytes>
  {
    [t.recursiveProofOutput] + t.defiInteractionNotes + [t.prevDefiInteractionHash]
  }

  /** `toBuffer`: the header, every inner proof in its dense form, then the tail. */
  function ToBuffer<P, K>(c: Collaborators<P, K>, r: RollupProofData<P, K>): (buf: Bytes)
    ensures buf == Flatten(HeaderSlots(r.header)) + Flatten(DenseRecords(c, r.innerProofData)) + Flatten(TailSlots(r.tail))
  {
    var hs, ds, ts := HeaderSlots(r.header), DenseRecords(c, r.innerProofData), TailSlots(r.tail);
    FlattenAppend(hs + ds, ts);
    FlattenAppend(hs, ds);
    Flatten(hs + ds + ts)
  }

  /** The dense forms of the inner proofs, in order. */
  function DenseRecords<P, K>(c: Collaborators<P, K>, ps: seq<P>): (recs: seq<Bytes>)
    ensures |recs| == |ps|
  {
    seq(|ps|, i requires 0 <= i < |ps| => c.toBuffer(ps[i]))
  }

  /** The entries of `ps` that are not padding, in order (`filter(p => !p.isPadding())`). */
  function NonPadding<P, K>(c: Collaborators<P, K>, ps: seq<P>): (kept: seq<P>)
    ensures |kept| <= |ps|
    ensures forall i :: 0 <= i < |kept| ==> !c.isPadding(kept[i])
  {
    if ps == [] then []
    else if c.isPadding(ps[0]) then NonPadding(c, ps[1..])
    else [ps[0]] + NonPadding(c, ps[1..])
  }

  /** The sparse encodings of `ps`, in order. */
  function Encodings<P, K>(c: Collaborators<P, K>, ps: seq<P>): (encs: seq<Bytes>)
    ensures |encs| == |ps|
  {
    seq(|ps|, i requires 0 <= i < |ps| => c.encodeInnerProof(ps[i]))
  }

  /** The sparse encodings of the non-padding entries. */
  function EncodedInnerProofs<P, K>(c: Collaborators<P, K>, ps: seq<P>): seq<Bytes>
  {
    Encodings(c, NonPadding(c, ps))
  }

  /**
    `encode`: the header, the byte count of the encoded entries as a 4-byte
    big-endian number, the encoded entries, then the tail. Writing a count of
    2^32 or more throws.
   */
  function Encode<P, K>(c: Collaborators<P, K>, r: RollupProofData<P, K>): (res: Result<Bytes>)
    ensures res.Err? <==> |Flatten(EncodedInnerProofs(c, r.innerProofData))| >= 0x1_0000_0000
    ensures res.Err? ==> res.error == OutOfRange
  {
    var encoded := EncodedInnerProofs(c, r.innerProofData);
    var total := |Flatten(encoded)|;
    if total >= 0x1_0000_0000 then Err(OutOfRange)
    else Ok(Flatten(HeaderSlots(r.header) + [NumToUInt32BE(total, 4)] + encoded + TailSlots(r.tail)))
  }

  /** The bytes of `keys`, one `toBuffer()` after another. */
  function KeyBytes<P, K>(c: Collaborators<P, K>, keys: seq<K>): Bytes
  {
    Flatten(seq(|keys|, i requires 0 <= i < |keys| => c.keyToBuffer(keys[i])))
  }

  /** `getViewingKeyData`: every slot of every transaction, serialised in order. */
  function GetViewingKeyData<P, K>(c: Collaborators<P, K>, r: RollupProofData<P, K>): Bytes
  {
    KeyBytes(c, Flatten(r.viewingKeys))
  }

  // ---------------------------------------------------------------------------
  // The constructor
  // ---------------------------------------------------------------------------

  /** The number of viewing keys transaction `p` carries: none for padding. */
  function ExpectedKeys<P, K>(c: Collaborators<P, K>, p: P): KeyCount
  {
    if c.isPadding(p) then 0 else c.numViewKeys(p)
  }

  /** `keys.filter(vk => !vk.isEmpty()).length` */
  function CountNonEmpty<P, K>(c: Collaborators<P, K>, keys: seq<K>): (n: nat)
    ensures n <= |keys|
  {
    if keys == [] then 0 else (if c.isEmpty(keys[0]) then 0 else 1) + CountNonEmpty(c, keys[1..])
  }

  /** `viewingKeys[i] || []` */
  function KeysAt<K>(viewingKeys: seq<seq<K>>, i: nat): seq<K>
  {
    if i < |viewingKeys| then viewingKeys[i] else []
  }

  /** Transaction `i` has exactly as many non-empty keys as its proof type carries. */
  predicate KeyCountMatches<P, K>(c: Collaborators<P, K>, innerProofData: seq<P>, viewingKeys: seq<seq<K>>, i: nat)
    requires i < |innerProofData|
  {
    CountNonEmpty(c, KeysAt(viewingKeys, i)) == ExpectedKeys(c, innerProofData[i])
  }

  /** `validateNumViewKeys`, checking the transactions from `i` on, in order. */
  function ValidateNumViewKeysFrom<P, K>(c: Collaborators<P, K>, innerProofData: seq<P>, viewingKeys: seq<seq<K>>, i: nat): (ok: bool)
    requires i <= |innerProofData|
    ensures ok <==> forall j :: i <= j < |innerProofData| ==> KeyCountMatches(c, innerProofData, viewingKeys, j)
    decreases |innerProofData| - i
  {
    if i == |innerProofData| then true
    else KeyCountMatches(c, innerProofData, viewingKeys, i) && ValidateNumViewKeysFrom(c, innerProofData, viewingKeys, i + 1)
  }

  /** `validateNumViewKeys`: true when it does not throw. */
  function ValidateNumViewKeys<P, K>(c: Collaborators<P, K>, innerProofData: seq<P>, viewingKeys: seq<seq<K>>): (ok: bool)
    ensures ok <==> forall j :: 0 <= j < |innerProofData| ==> KeyCountMatches(c, innerProofData, viewingKeys, j)
  {
    ValidateNumViewKeysFrom(c, innerProofData, viewingKeys, 0)
  }

  /** The transaction ids of `ps`, in order. */
  function TxIds<P, K>(c: Collaborators<P, K>, ps: seq<P>): (ids: seq<Bytes>)
    ensures |ids| == |ps|
  {
    seq(|ps|, i requires 0 <= i < |ps| => c.txId(ps[i]))
  }

  /** `rollupHash`: SHA-256 of the concatenated transaction ids. */
  function RollupHash<P, K>(c: Collaborators<P, K>, ps: seq<P>): (h: Bytes)
    ensures |h| == 32
  {
    Sha256.DigestWords(Flatten(TxIds(c, ps)));
    Sha256.Hash(Flatten(TxIds(c, ps)))
  }

  /** The `RollupProofData` constructor: its checks, in order, then the hash. */
  function NewRollupProofData<P, K>(
    c: Collaborators<P, K>, header: Header, innerProofData: seq<P>, tail: Tail, viewingKeys: seq<seq<K>>)
    : (r: Result<RollupProofData<P, K>>)
    ensures r.Ok? <==>
      && |header.totalTxFees| == NumberOfAssets
      && |header.bridgeIds| == NumBridgeCallsPerBlock
      && |header.defiDepositSums| == NumBridgeCallsPerBlock
      && |tail.defiInteractionNotes| == NumBridgeCallsPerBlock
      && (|viewingKeys| > 0 ==> forall j :: 0 <= j < |innerProofData| ==> KeyCountMatches(c, innerProofData, viewingKeys, j))
    ensures r.Ok? ==> r.value == RollupProofData(header, innerProofData, tail, viewingKeys, RollupHash(c, innerProofData))
    // The error is the first check that fails.
    ensures |header.totalTxFees| != NumberOfAssets ==> r == Err(TotalTxFeesSize)
    ensures |header.totalTxFees| == NumberOfAssets && |header.bridgeIds| != NumBridgeCallsPerBlock
      ==> r == Err(BridgeIdsSize)
    ensures |header.totalTxFees| == NumberOfAssets && |header.bridgeIds| == NumBridgeCallsPerBlock
      && |header.defiDepositSums| != NumBridgeCallsPerBlock
      ==> r == Err(DefiDepositSumsSize)
    ensures |header.totalTxFees| == NumberOfAssets && |header.bridgeIds| == NumBridgeCallsPerBlock
      && |header.defiDepositSums| == NumBridgeCallsPerBlock && |tail.defiInteractionNotes| != NumBridgeCallsPerBlock
      ==> r == Err(DefiInteractionNotesSize)
    ensures r == Err(InvalidNumViewKeys) <==>
      && |header.totalTxFees| == NumberOfAssets && |header.bridgeIds| == NumBridgeCallsPerBlock
      && |header.defiDepositSums| == NumBridgeCallsPerBlock && |tail.defiInteractionNotes| == NumBridgeCallsPerBlock
      && |viewingKeys| > 0 && exists j :: 0 <= j < |innerProofData| && !KeyCountMatches(c, innerProofData, viewingKeys, j)
  {
    if |header.totalTxFees| != NumberOfAssets then Err(TotalTxFeesSize)
    else if |header.bridgeIds| != NumBridgeCallsPerBlock then Err(BridgeIdsSize)
    else if |header.defiDepositSums| != NumBridgeCallsPerBlock then Err(DefiDepositSumsSize)
    else if |tail.defiInteractionNotes| != NumBridgeCallsPerBlock then Err(DefiInteractionNotesSize)
    else if |viewingKeys| > 0 && !ValidateNumViewKeys(c, innerProofData, viewingKeys) then Err(InvalidNumViewKeys)
    else Ok(RollupProofData(header, innerProofData, tail, viewingKeys, RollupHash(c, innerProofData)))
  }

  // ---------------------------------------------------------------------------
  // Parsing: the specifications
  // ---------------------------------------------------------------------------

  /** `n` consecutive 32-byte slices of `buf` from `start`: slice `i` starts `32 * i` bytes in. */
  function Slots(buf: Bytes, start: nat, n: nat): (r: seq<Bytes>)
    ensures |r| == n
    ensures forall i :: 0 <= i < n ==> r[i] == Window(buf, start + 32 * i, 32)
  {
    WindowsAt(buf, start, 32, n);
    Windows(buf, start, 32, n)
  }

  /** The root stored in the slot of `f`. */
  function RootAt(buf: Bytes, f: Field): Bytes
  {
    Window(buf, f.Offset(), 32)
  }

  /** `parseHeaderInputs` */
  function HeaderFromBuffer(proofData: Bytes): (r: Result<Header>)
    ensures r.Ok? <==> |proofData| >= 96
    ensures r.Err? ==> r.error == OutOfRange
    ensures r.Ok? ==>
      && |r.value.bridgeIds| == NumBridgeCallsPerBlock && |r.value.defiDepositSums| == NumBridgeCallsPerBlock
      && |r.value.assetIds| == NumberOfAssets && |r.value.totalTxFees| == NumberOfAssets
  {
    var rollupId :- GetRollupIdFromBuffer(proofData);
    var rollupSize :- ReadUInt32BE(proofData, RollupSize.Offset());
    var dataStartIndex :- ReadUInt32BE(proofData, DataStartIndex.Offset());
    Ok(Header(
      rollupId, rollupSize, dataStartIndex,
      RootAt(proofData, OldDataRoot), RootAt(proofData, NewDataRoot),
      RootAt(proofData, OldNullRoot), RootAt(proofData, NewNullRoot),
      RootAt(proofData, OldRootRoot), RootAt(proofData, NewRootRoot),
      RootAt(proofData, OldDefiRoot), RootAt(proofData, NewDefiRoot),
      Slots(proofData, 11 * 32, NumBridgeCallsPerBlock),
      Slots(proofData, 15 * 32, NumBridgeCallsPerBlock),
      Slots(proofData, 19 * 32, NumberOfAssets),
      Slots(proofData, 35 * 32, NumberOfAssets)))
  }

  /** `parseTailInputs` */
  function TailFromBuffer(proofData: Bytes, startIndex: nat): (t: Tail)
    ensures |t.defiInteractionNotes| == NumBridgeCallsPerBlock
    ensures startIndex + 800 <= |proofData| ==>
      && |t.recursiveProofOutput| == LengthRecursiveProofOutput
      && (forall i :: 0 <= i < NumBridgeCallsPerBlock ==> |t.defiInteractionNotes[i]| == 64)
      && |t.prevDefiInteractionHash| == 32
  {
    var notesStart := startIndex + LengthRecursiveProofOutput;
    Tail(
      Window(proofData, startIndex, LengthRecursiveProofOutput),
      seq(NumBridgeCallsPerBlock, i requires 0 <= i < NumBridgeCallsPerBlock => Window(proofData, notesStart + 64 * i, 64)),
      Window(proofData, notesStart + 64 * NumBridgeCallsPerBlock, 32))
  }

  /** The key slots of one transaction that expects `keys.len` keys: those keys, then `EMPTY`. */
  function KeySlots<P, K>(c: Collaborators<P, K>, keys: seq<K>): (slots: seq<K>)
    requires |keys| <= 2
    ensures |slots| == 2 && slots[..|keys|] == keys
    ensures forall j :: |keys| <= j < 2 ==> slots[j] == c.emptyKey
  {
    keys + seq(2 - |keys|, _ => c.emptyKey)
  }

  /**
    Reads `n` more keys from `offset` on, after the keys `acc` already read;
    returns all the keys with the offset after the last, or the error when the
    data runs out first.
   */
  function TakeKeys<P, K>(c: Collaborators<P, K>, data: Bytes, offset: nat, n: nat, acc: seq<K>)
    : (r: Result<(seq<K>, nat)>)
    ensures r.Ok? ==> |r.value.0| == |acc| + n
    ensures r.Ok? ==> r.value.1 == offset + n * c.viewingKeySize
    decreases n
  {
    if n == 0 then Ok((acc, offset))
    else
      var buf := Window(data, offset, c.viewingKeySize);
      if |buf| == 0 then Err(EmptyViewingKeyData)
      else TakeKeys(c, data, offset + c.viewingKeySize, n - 1, acc + [c.makeKey(buf)])
  }

  /**
    `parseViewingKeys` over the transactions `innerProofData`, with their keys
    read from `offset` on, after the slots `acc` of the transactions before them.
   */
  function ViewingKeysFrom<P, K>(c: Collaborators<P, K>, innerProofData: seq<P>, data: Bytes, offset: nat, acc: seq<seq<K>>)
    : (r: Result<seq<seq<K>>>)
    ensures r.Ok? ==> |r.value| == |acc| + |innerProofData|
  {
    if innerProofData == [] then Ok(acc)
    else
      var taken := TakeKeys(c, data, offset, ExpectedKeys(c, innerProofData[0]), []);
      if taken.Err? then Err(taken.error)
      else ViewingKeysFrom(c, innerProofData[1..], data, taken.value.1, acc + [KeySlots(c, taken.value.0)])
  }

  /** `viewingKeyData ? parseViewingKeys(innerProofData, viewingKeyData) : []` */
  function ViewingKeysOf<P, K>(c: Collaborators<P, K>, innerProofData: seq<P>, viewingKeyData: Option<Bytes>)
    : (r: Result<seq<seq<K>>>)
    ensures viewingKeyData.None? ==> r == Ok([])
    ensures viewingKeyData.Some? && r.Ok? ==> |r.value| == |innerProofData|
  {
    match viewingKeyData
      case None => Ok([])
      case Some(data) => ViewingKeysFrom(c, innerProofData, data, 0, [])
  }

  /** The `rollupSize` dense inner proofs after the header. */
  function DenseInnerProofs<P, K>(c: Collaborators<P, K>, proofData: Bytes, rollupSize: nat): (ps: seq<P>)
    ensures |ps| == rollupSize
  {
    var len := c.innerProofLength;
    seq(rollupSize, i requires 0 <= i < rollupSize =>
      c.fromBuffer(Window(proofData, LengthRollupHeaderInputs + i * len, len)))
  }

  /** Where the tail starts after `rollupSize` dense inner proofs. */
  function DenseEnd<P, K>(c: Collaborators<P, K>, rollupSize: nat): nat
  {
    LengthRollupHeaderInputs + rollupSize * c.innerProofLength
  }

  /** `fromBuffer` */
  function FromBufferSpec<P, K>(c: Collaborators<P, K>, proofData: Bytes, viewingKeyData: Option<Bytes>)
    : (r: Result<RollupProofData<P, K>>)
    ensures |proofData| < 96 ==> r == Err(OutOfRange)
    ensures r.Ok? ==> r.value.header.rollupSize > 0 && |r.value.innerProofData| == r.value.header.rollupSize
  {
    var header :- HeaderFromBuffer(proofData);
    if header.rollupSize == 0 then Err(EmptyRollup)
    else
      var innerProofData := DenseInnerProofs(c, proofData, header.rollupSize);
      var tail := TailFromBuffer(proofData, DenseEnd(c, header.rollupSize));
      var viewingKeys :- ViewingKeysOf(c, innerProofData, viewingKeyData);
      NewRollupProofData(c, header, innerProofData, tail, viewingKeys)
  }

  /**
    The loop of `decode`: while the remaining byte count is positive, decode
    an entry from the window of `LENGTH` bytes at `startIndex` and step over
    the length its tag announces. Returns the entries `acc` decoded before,
    followed by the new ones, and the index after them.
   */
  function DecodeEntries<P, K>(c: Collaborators<P, K>, encoded: Bytes, startIndex: nat, remaining: int, acc: seq<P>)
    : (r: Result<(seq<P>, nat)>)
    ensures r.Ok? ==> r.value.1 >= startIndex && |r.value.0| >= |acc|
    decreases remaining
  {
    if remaining <= 0 then Ok((acc, startIndex))
    else
      var innerData := Window(encoded, startIndex, c.innerProofLength);
      if |innerData| == 0 then Err(OutOfRange)
      else
        var encodedLength := c.getEncodedLength(innerData[0]);
        DecodeEntries(c, encoded, startIndex + encodedLength, remaining - encodedLength,
                      acc + [c.decodeInnerProof(innerData)])
  }

  /** `ps` followed by `PADDING` up to `rollupSize` entries. */
  function PadTo<P, K>(c: Collaborators<P, K>, ps: seq<P>, rollupSize: nat): (r: seq<P>)
    ensures |r| == if |ps| < rollupSize then rollupSize else |ps|
    ensures r[..|ps|] == ps
    ensures forall i :: |ps| <= i < |r| ==> r[i] == c.padding
  {
    if |ps| < rollupSize then ps + seq(rollupSize - |ps|, _ => c.padding) else ps
  }

  /** `decode` */
  function DecodeSpec<P, K>(c: Collaborators<P, K>, encoded: Bytes, viewingKeyData: Option<Bytes>)
    : (r: Result<RollupProofData<P, K>>)
    ensures |encoded| < 96 ==> r == Err(OutOfRange)
    ensures r.Ok? ==> r.value.header.rollupSize > 0 && |r.value.innerProofData| >= r.value.header.rollupSize
  {
    var header :- HeaderFromBuffer(encoded);
    if header.rollupSize == 0 then Err(EmptyRollup)
    else
      var innerProofDataLength :- ReadUInt32BE(encoded, LengthRollupHeaderInputs);
      var entries :- DecodeEntries(c, encoded, LengthRollupHeaderInputs + 4, innerProofDataLength, []);
      var innerProofData := PadTo(c, entries.0, header.rollupSize);
      var tail := TailFromBuffer(encoded, entries.1);
      var viewingKeys :- ViewingKeysOf(c, innerProofData, viewingKeyData);
      NewRollupProofData(c, header, innerProofData, tail, viewingKeys)
  }

  // ---------------------------------------------------------------------------
  // Parsing: the procedures
  // ---------------------------------------------------------------------------

  /** The loops of `parseHeaderInputs`: `n` slices of 32 bytes pushed from `startIndex` on. */
  method PushSlots(proofData: Bytes, startIndex: nat, n: nat) returns (slots: seq<Bytes>, next: nat)
    ensures slots == Slots(proofData, startIndex, n)
    ensures next == startIndex + 32 * n
  {
    slots := [];
    next := startIndex;
    for i := 0 to n
      invariant next == startIndex + 32 * i
      invariant slots == Slots(proofData, startIndex, i)
    {
      slots := slots + [Window(proofData, next, 32)];
      next := next + 32;
    }
  }

  /** `parseHeaderInputs` */
  method ParseHeaderInputs(proofData: Bytes) returns (r: Result<Header>)
    ensures r == HeaderFromBuffer(proofData)
  {
    var rollupId := GetRollupIdFromBuffer(proofData);
    if rollupId.Err? {
      return Err(rollupId.error);
    }
    var rollupSize := ReadUInt32BE(proofData, RollupSize.Offset());
    if rollupSize.Err? {
      return Err(rollupSize.error);
    }
    var dataStartIndex := ReadUInt32BE(proofData, DataStartIndex.Offset());
    if dataStartIndex.Err? {
      return Err(dataStartIndex.error);
    }
    var startIndex := 11 * 32;
    var bridgeIds, defiDepositSums, assetIds, totalTxFees;
    bridgeIds, startIndex := PushSlots(proofData, startIndex, NumBridgeCallsPerBlock);
    defiDepositSums, startIndex := PushSlots(proofData, startIndex, NumBridgeCallsPerBlock);
    assetIds, startIndex := PushSlots(proofData, startIndex, NumberOfAssets);
    totalTxFees, startIndex := PushSlots(proofData, startIndex, NumberOfAssets);
    r := Ok(Header(
      rollupId.value, rollupSize.value, dataStartIndex.value,
      Window(proofData, OldDataRoot.Offset(), 32), Window(proofData, NewDataRoot.Offset(), 32),
      Window(proofData, OldNullRoot.Offset(), 32), Window(proofData, NewNullRoot.Offset(), 32),
      Window(proofData, OldRootRoot.Offset(), 32), Window(proofData, NewRootRoot.Offset(), 32),
      Window(proofData, OldDefiRoot.Offset(), 32), Window(proofData, NewDefiRoot.Offset(), 32),
      bridgeIds, defiDepositSums, assetIds, totalTxFees));
  }

  /** `parseTailInputs` */
  method ParseTailInputs(proofData: Bytes, startIndex: nat) returns (t: Tail)
    ensures t == TailFromBuffer(proofData, startIndex)
  {
    var index := startIndex;
    var recursiveProofOutput := Window(proofData, index, LengthRecursiveProofOutput);
    index := index + LengthRecursiveProofOutput;
    var defiInteractionNotes: seq<Bytes> := [];
    ghost var notesStart := index;
    for i := 0 to NumBridgeCallsPerBlock
      invariant index == notesStart + 64 * i
      invariant defiInteractionNotes == TailFromBuffer(proofData, startIndex).defiInteractionNotes[..i]
    {
      defiInteractionNotes := defiInteractionNotes + [Window(proofData, index, 64)];
      index := index + 64;
    }
    var prevDefiInteractionHash := Window(proofData, index, 32);
    t := Tail(recursiveProofOutput, defiInteractionNotes, prevDefiInteractionHash);
  }

  /** Filling the next slot with a key gives the slots of one more key. */
  lemma KeySlotsPush<P, K>(c: Collaborators<P, K>, keys: seq<K>, k: K)
    requires |keys| < 2
    ensures KeySlots(c, keys)[|keys| := k] == KeySlots(c, keys + [k])
  {
    var s, t := KeySlots(c, keys)[|keys| := k], KeySlots(c, keys + [k]);
    forall j | 0 <= j < 2
      ensures s[j] == t[j]
    {
      if j < |keys| {
        assert t[..|keys| + 1][j] == (keys + [k])[j];
      } else if j == |keys| {
        assert t[..|keys| + 1][j] == (keys + [k])[j];
      }
    }
  }

  /**
    The body of `parseViewingKeys` for one transaction expecting `numViewKeys`
    keys: two `EMPTY` slots, the first `numViewKeys` of them overwritten by keys
    read from `offset` on. Returns the slots and the offset after the keys.
   */
  method ReadTransactionKeys<P, K>(c: Collaborators<P, K>, viewingKeyData: Bytes, offset: nat, numViewKeys: KeyCount)
    returns (r: Result<(seq<K>, nat)>)
    ensures var taken := TakeKeys(c, viewingKeyData, offset, numViewKeys, []);
      r == if taken.Err? then Err(taken.error) else Ok((KeySlots(c, taken.value.0), taken.value.1))
  {
    var viewingKeys := seq(2, _ => c.emptyKey);
    var next: nat := offset;
    ghost var keys: seq<K> := [];
    ghost var taken := TakeKeys(c, viewingKeyData, offset, numViewKeys, []);
    for j := 0 to numViewKeys
      invariant |keys| == j && viewingKeys == KeySlots(c, keys)
      invariant taken == TakeKeys(c, viewingKeyData, next, numViewKeys - j, keys)
    {
      var buf := Window(viewingKeyData, next, c.viewingKeySize);
      if |buf| == 0 {
        return Err(EmptyViewingKeyData);
      }
      KeySlotsPush(c, keys, c.makeKey(buf));
      viewingKeys := viewingKeys[j := c.makeKey(buf)];
      keys := keys + [c.makeKey(buf)];
      next := next + c.viewingKeySize;
    }
    r := Ok((viewingKeys, next));
  }

  /** `parseViewingKeys`: two slots per transaction, keys read in order from `viewingKeyData`. */
  method ParseViewingKeys<P, K>(c: Collaborators<P, K>, innerProofData: seq<P>, viewingKeyData: Bytes)
    returns (r: Result<seq<seq<K>>>)
    ensures r == ViewingKeysFrom(c, innerProofData, viewingKeyData, 0, [])
  {
    var offset: nat := 0;
    var result: seq<seq<K>> := [];
    assert innerProofData[0..] == innerProofData;
    ghost var whole := ViewingKeysFrom(c, innerProofData, viewingKeyData, 0, []);
    for i := 0 to |innerProofData|
      invariant whole == ViewingKeysFrom(c, innerProofData[i..], viewingKeyData, offset, result)
    {
      assert innerProofData[i..][0] == innerProofData[i] && innerProofData[i..][1..] == innerProofData[i + 1..];
      var numViewKeys := ExpectedKeys(c, innerProofData[i]);
      var read := ReadTransactionKeys(c, viewingKeyData, offset, numViewKeys);
      if read.Err? {
        return Err(read.error);
      }
      result := result + [read.value.0];
      offset := read.value.1;
    }
    assert innerProofData[|innerProofData|..] == [];
    r := Ok(result);
  }

  /** `viewingKeyData ? parseViewingKeys(innerProofData, viewingKeyData) : []` */
  method ParseViewingKeysOf<P, K>(c: Collaborators<P, K>, innerProofData: seq<P>, viewingKeyData: Option<Bytes>)
    returns (r: Result<seq<seq<K>>>)
    ensures r == ViewingKeysOf(c, innerProofData, viewingKeyData)
  {
    if viewingKeyData.Some? {
      r := ParseViewingKeys(c, innerProofData, viewingKeyData.value);
    } else {
      r := Ok([]);
    }
  }

  /** The loop of `fromBuffer`: `rollupSize` records of `LENGTH` bytes after the header. */
  method ReadDenseInnerProofs<P, K>(c: Collaborators<P, K>, proofData: Bytes, rollupSize: nat)
    returns (innerProofData: seq<P>, startIndex: nat)
    ensures innerProofData == DenseInnerProofs(c, proofData, rollupSize)
    ensures startIndex == DenseEnd(c, rollupSize)
  {
    startIndex := LengthRollupHeaderInputs;
    innerProofData := [];
    for i := 0 to rollupSize
      invariant startIndex == DenseEnd(c, i)
      invariant |innerProofData| == i
      invariant forall k :: 0 <= k < i ==> innerProofData[k] == DenseInnerProofs(c, proofData, rollupSize)[k]
    {
      var innerData := Window(proofData, startIndex, c.innerProofLength);
      innerProofData := innerProofData + [c.fromBuffer(innerData)];
      startIndex := startIndex + c.innerProofLength;
    }
  }

  /** `fromBuffer` */
  method FromBuffer<P, K>(c: Collaborators<P, K>, proofData: Bytes, viewingKeyData: Option<Bytes>)
    returns (r: Result<RollupProofData<P, K>>)
    ensures r == FromBufferSpec(c, proofData, viewingKeyData)
  {
    var header := ParseHeaderInputs(proofData);
    if header.Err? {
      return Err(header.error);
    }
    var rollupSize := header.value.rollupSize;
    if rollupSize == 0 {
      return Err(EmptyRollup);
    }
    var innerProofData, startIndex := ReadDenseInnerProofs(c, proofData, rollupSize);
    var tail := ParseTailInputs(proofData, startIndex);
    var viewingKeys := ParseViewingKeysOf(c, innerProofData, viewingKeyData);
    if viewingKeys.Err? {
      return Err(viewingKeys.error);
    }
    r := NewRollupProofData(c, header.value, innerProofData, tail, viewingKeys.value);
  }

  /** The first loop of `decode`: entries until the announced byte count is used up. */
  method ReadEncodedInnerProofs<P, K>(c: Collaborators<P, K>, encoded: Bytes, innerProofDataLength: UInt32)
    returns (r: Result<(seq<P>, nat)>)
    ensures r == DecodeEntries(c, encoded, LengthRollupHeaderInputs + 4, innerProofDataLength, [])
  {
    var startIndex: nat := LengthRollupHeaderInputs + 4;
    var remaining: int := innerProofDataLength;
    var innerProofData: seq<P> := [];
    ghost var whole := DecodeEntries(c, encoded, startIndex, remaining, innerProofData);
    while remaining > 0
      invariant whole == DecodeEntries(c, encoded, startIndex, remaining, innerProofData)
      decreases remaining
    {
      var innerData := Window(encoded, startIndex, c.innerProofLength);
      innerProofData := innerProofData + [c.decodeInnerProof(innerData)];
      var tag := FirstByte(innerData);
      if tag.Err? {
        return Err(tag.error);
      }
      var encodedLength := c.getEncodedLength(tag.value);
      startIndex := startIndex + encodedLength;
      remaining := remaining - encodedLength;
    }
    r := Ok((innerProofData, startIndex));
  }

  /** The second loop of `decode`: `PADDING` appended until there are `rollupSize` entries. */
  method PadInnerProofs<P, K>(c: Collaborators<P, K>, entries: seq<P>, rollupSize: nat) returns (innerProofData: seq<P>)
    ensures innerProofData == PadTo(c, entries, rollupSize)
  {
    innerProofData := entries;
    while |innerProofData| < rollupSize
      invariant |entries| <= |innerProofData|
      invariant |entries| < |innerProofData| ==> |innerProofData| <= rollupSize
      invariant innerProofData == PadTo(c, entries, |innerProofData|)
      decreases rollupSize - |innerProofData|
    {
      innerProofData := innerProofData + [c.padding];
    }
  }

  /** `decode` */
  method Decode<P, K>(c: Collaborators<P, K>, encoded: Bytes, viewingKeyData: Option<Bytes>)
    returns (r: Result<RollupProofData<P, K>>)
    ensures r == DecodeSpec(c, encoded, viewingKeyData)
  {
    var header := ParseHeaderInputs(encoded);
    if header.Err? {
      return Err(header.error);
    }
    var rollupSize := header.value.rollupSize;
    if rollupSize == 0 {
      return Err(EmptyRollup);
    }
    var innerProofDataLength := ReadUInt32BE(encoded, LengthRollupHeaderInputs);
    if innerProofDataLength.Err? {
      return Err(innerProofDataLength.error);
    }
    var entries := ReadEncodedInnerProofs(c, encoded, innerProofDataLength.value);
    if entries.Err? {
      return Err(entries.error);
    }
    var innerProofData := PadInnerProofs(c, entries.value.0, rollupSize);
    var tail := ParseTailInputs(encoded, entries.value.1);
    var viewingKeys := ParseViewingKeysOf(c, innerProofData, viewingKeyData);
    if viewingKeys.Err? {
      return Err(viewingKeys.error);
    }
    r := NewRollupProofData(c, header.value, innerProofData, tail, viewingKeys.value);
  }
}
