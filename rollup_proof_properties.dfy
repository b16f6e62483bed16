/**
  What the rollup-proof codec promises, stated about the functions of
  `RollupProofData`: the header and tail layouts, the round trips of the
  dense and the sparse form, and how viewing keys are read back.
 */
module RollupProofProperties {
  import opened Bytes
  import opened Collaborators
  import opened RollupProofData

  // ---------------------------------------------------------------------------
  // The header
  // ---------------------------------------------------------------------------

  /** A well-formed header is 51 slots of 32 bytes, 1632 bytes in all. */
  lemma HeaderSlotsShape(h: Header)
    requires WellFormedHeader(h)
    ensures |HeaderSlots(h)| == NumRollupHeaderInputs && AllWidth(HeaderSlots(h), 32)
    ensures |Flatten(HeaderSlots(h))| == LengthRollupHeaderInputs
  {
    var hs := HeaderSlots(h);
    assert |hs| == 51;
    forall k | 0 <= k < 51
      ensures |hs[k]| == 32
    {
      if k < 11 {
      } else if k < 15 {
        assert hs[k] == h.bridgeIds[k - 11];
      } else if k < 19 {
        assert hs[k] == h.defiDepositSums[k - 15];
      } else if k < 35 {
        assert hs[k] == h.assetIds[k - 19];
      } else {
        assert hs[k] == h.totalTxFees[k - 35];
      }
    }
    FlattenUniformLength(hs, 32);
  }

  /** Which field of the header each of the 51 slots holds. */
  lemma HeaderSlotsIndex(h: Header)
    requires WellFormedHeader(h)
    ensures var hs := HeaderSlots(h);
      && |hs| == NumRollupHeaderInputs
      && hs[0] == NumToUInt32BE(h.rollupId, 32) && hs[1] == NumToUInt32BE(h.rollupSize, 32)
      && hs[2] == NumToUInt32BE(h.dataStartIndex, 32)
      && hs[3] == h.oldDataRoot && hs[4] == h.newDataRoot && hs[5] == h.oldNullRoot && hs[6] == h.newNullRoot
      && hs[7] == h.oldDataRootsRoot && hs[8] == h.newDataRootsRoot && hs[9] == h.oldDefiRoot && hs[10] == h.newDefiRoot
      && (forall i :: 0 <= i < NumBridgeCallsPerBlock ==> hs[11 + i] == h.bridgeIds[i])
      && (forall i :: 0 <= i < NumBridgeCallsPerBlock ==> hs[15 + i] == h.defiDepositSums[i])
      && (forall i :: 0 <= i < NumberOfAssets ==> hs[19 + i] == h.assetIds[i])
      && (forall i :: 0 <= i < NumberOfAssets ==> hs[35 + i] == h.totalTxFees[i])
  {
  }

  /** Slot `k` of a serialised header, whatever follows it. */
  lemma HeaderSlotAt(h: Header, rest: Bytes, k: nat)
    requires WellFormedHeader(h) && k < NumRollupHeaderInputs
    ensures Window(Flatten(HeaderSlots(h)) + rest, 32 * k, 32) == HeaderSlots(h)[k]
  {
    HeaderSlotsShape(h);
    FlattenUniformSlice(HeaderSlots(h), 32, k);
    SliceOfPrefix(Flatten(HeaderSlots(h)), rest, 32 * k, 32 * k + 32);
  }

  /** A number written into slot `k` is read back from the last 4 bytes of that slot. */
  lemma ReadNumberSlot(buf: Bytes, k: nat, n: UInt32)
    requires Window(buf, 32 * k, 32) == NumToUInt32BE(n, 32)
    ensures ReadUInt32BE(buf, 32 * k + 28) == Ok(n)
  {
    var slot := NumToUInt32BE(n, 32);
    assert buf[32 * k + 28..32 * k + 32] == slot[28..];
  }

  /** The root of field `f` is read from the slot of that field. */
  lemma RootSlot(h: Header, rest: Bytes, f: Field)
    requires WellFormedHeader(h) && !f.IsNumber()
    ensures RootAt(Flatten(HeaderSlots(h)) + rest, f) == HeaderSlots(h)[f.Index()]
  {
    HeaderSlotAt(h, rest, f.Index());
  }

  /** `Slots` reads back `n` consecutive header slots starting at slot `first`. */
  lemma ReadSlotArray(h: Header, rest: Bytes, first: nat, n: nat, xs: seq<Bytes>)
    requires WellFormedHeader(h) && first + n <= NumRollupHeaderInputs && |xs| == n
    requires forall i :: 0 <= i < n ==> HeaderSlots(h)[first + i] == xs[i]
    ensures Slots(Flatten(HeaderSlots(h)) + rest, 32 * first, n) == xs
  {
    var buf := Flatten(HeaderSlots(h)) + rest;
    var s := Slots(buf, 32 * first, n);
    forall i | 0 <= i < n
      ensures s[i] == xs[i]
    {
      HeaderSlotAt(h, rest, first + i);
      assert 32 * first + 32 * i == 32 * (first + i);
    }
  }

  /** The eight roots are read back from slots 3 to 10. */
  lemma HeaderRoots(h: Header, rest: Bytes)
    requires WellFormedHeader(h)
    ensures var buf := Flatten(HeaderSlots(h)) + rest;
      && RootAt(buf, OldDataRoot) == h.oldDataRoot && RootAt(buf, NewDataRoot) == h.newDataRoot
      && RootAt(buf, OldNullRoot) == h.oldNullRoot && RootAt(buf, NewNullRoot) == h.newNullRoot
      && RootAt(buf, OldRootRoot) == h.oldDataRootsRoot && RootAt(buf, NewRootRoot) == h.newDataRootsRoot
      && RootAt(buf, OldDefiRoot) == h.oldDefiRoot && RootAt(buf, NewDefiRoot) == h.newDefiRoot
  {
    HeaderSlotsIndex(h);
    RootSlot(h, rest, OldDataRoot);
    RootSlot(h, rest, NewDataRoot);
    RootSlot(h, rest, OldNullRoot);
    RootSlot(h, rest, NewNullRoot);
    RootSlot(h, rest, OldRootRoot);
    RootSlot(h, rest, NewRootRoot);
    RootSlot(h, rest, OldDefiRoot);
    RootSlot(h, rest, NewDefiRoot);
  }

  /** The three numbers are read back from bytes 28, 60 and 92, and the four arrays from their slots. */
  lemma HeaderNumbersAndArrays(h: Header, rest: Bytes)
    requires WellFormedHeader(h)
    ensures var buf := Flatten(HeaderSlots(h)) + rest;
      && GetRollupIdFromBuffer(buf) == Ok(h.rollupId)
      && GetRollupSizeFromBuffer(buf) == Ok(h.rollupSize)
      && ReadUInt32BE(buf, DataStartIndex.Offset()) == Ok(h.dataStartIndex)
      && Slots(buf, 11 * 32, NumBridgeCallsPerBlock) == h.bridgeIds
      && Slots(buf, 15 * 32, NumBridgeCallsPerBlock) == h.defiDepositSums
      && Slots(buf, 19 * 32, NumberOfAssets) == h.assetIds
      && Slots(buf, 35 * 32, NumberOfAssets) == h.totalTxFees
  {
    var buf := Flatten(HeaderSlots(h)) + rest;
    HeaderSlotsIndex(h);
    HeaderSlotAt(h, rest, 0);
    HeaderSlotAt(h, rest, 1);
    HeaderSlotAt(h, rest, 2);
    ReadNumberSlot(buf, 0, h.rollupId);
    ReadNumberSlot(buf, 1, h.rollupSize);
    ReadNumberSlot(buf, 2, h.dataStartIndex);
    ReadSlotArray(h, rest, 11, NumBridgeCallsPerBlock, h.bridgeIds);
    ReadSlotArray(h, rest, 15, NumBridgeCallsPerBlock, h.defiDepositSums);
    ReadSlotArray(h, rest, 19, NumberOfAssets, h.assetIds);
    ReadSlotArray(h, rest, 35, NumberOfAssets, h.totalTxFees);
  }

  /**
    `parseHeaderInputs` inverts the header part of `toBuffer` and `encode`: the
    numbers come back from bytes 28, 60 and 92, the roots from slots 3 to 10,
    and the four arrays from bytes 352, 480, 608 and 1120, whatever follows
    the 1632 header bytes.
   */
  lemma HeaderRoundTrip(h: Header, rest: Bytes)
    requires WellFormedHeader(h)
    ensures HeaderFromBuffer(Flatten(HeaderSlots(h)) + rest) == Ok(h)
  {
    HeaderRoots(h, rest);
    HeaderNumbersAndArrays(h, rest);
  }

  /** Slots from `start` followed by the slots after them are the slots of both runs. */
  lemma SlotsAppend(buf: Bytes, start: nat, m: nat, n: nat)
    ensures Slots(buf, start, m) + Slots(buf, start + 32 * m, n) == Slots(buf, start, m + n)
  {
    var a, b := Slots(buf, start, m) + Slots(buf, start + 32 * m, n), Slots(buf, start, m + n);
    forall i | 0 <= i < m + n
      ensures a[i] == b[i]
    {
      if i >= m {
        assert start + 32 * m + 32 * (i - m) == start + 32 * i;
      }
    }
  }

  /** Slots that fit in the buffer are 32 bytes each. */
  lemma SlotsInside(buf: Bytes, start: nat, n: nat)
    requires start + 32 * n <= |buf|
    ensures AllWidth(Slots(buf, start, n), 32)
  {
    forall i | 0 <= i < n
      ensures |Slots(buf, start, n)[i]| == 32
    {
      assert start + 32 * i + 32 <= |buf|;
    }
  }

  /** Where `parseHeaderInputs` takes each root and array from. */
  lemma HeaderFields(buf: Bytes)
    requires |buf| >= 96
    ensures HeaderFromBuffer(buf) == Ok(Header(
      ReadUInt32BE(buf, 28).value, ReadUInt32BE(buf, 60).value, ReadUInt32BE(buf, 92).value,
      RootAt(buf, OldDataRoot), RootAt(buf, NewDataRoot),
      RootAt(buf, OldNullRoot), RootAt(buf, NewNullRoot),
      RootAt(buf, OldRootRoot), RootAt(buf, NewRootRoot),
      RootAt(buf, OldDefiRoot), RootAt(buf, NewDefiRoot),
      Slots(buf, 352, 4), Slots(buf, 480, 4), Slots(buf, 608, 16), Slots(buf, 1120, 16)))
  {
    assert RollupId.Offset() == 28 && RollupSize.Offset() == 60 && DataStartIndex.Offset() == 92;
  }

  /** The eight roots of a buffer holding them are 32 bytes each. */
  lemma RootsInside(buf: Bytes)
    requires |buf| >= 352
    ensures && |RootAt(buf, OldDataRoot)| == 32 && |RootAt(buf, NewDataRoot)| == 32
            && |RootAt(buf, OldNullRoot)| == 32 && |RootAt(buf, NewNullRoot)| == 32
            && |RootAt(buf, OldRootRoot)| == 32 && |RootAt(buf, NewRootRoot)| == 32
            && |RootAt(buf, OldDefiRoot)| == 32 && |RootAt(buf, NewDefiRoot)| == 32
  {
  }

  /** On a buffer holding the whole header, every parsed field is 32 bytes. */
  lemma HeaderWellFormed(buf: Bytes)
    requires |buf| >= LengthRollupHeaderInputs
    ensures HeaderFromBuffer(buf).Ok? && WellFormedHeader(HeaderFromBuffer(buf).value)
  {
    HeaderFields(buf);
    RootsInside(buf);
    SlotsInside(buf, 352, 4);
    SlotsInside(buf, 480, 4);
    SlotsInside(buf, 608, 16);
    SlotsInside(buf, 1120, 16);
  }

  /** The slots of the four header arrays lie back to back from byte 352 to byte 1632. */
  lemma ArraySlotsContiguous(buf: Bytes)
    requires |buf| >= LengthRollupHeaderInputs
    ensures Flatten(Slots(buf, 352, 4) + Slots(buf, 480, 4) + Slots(buf, 608, 16) + Slots(buf, 1120, 16))
         == buf[352..LengthRollupHeaderInputs]
  {
    SlotsAppend(buf, 352, 4, 4);
    SlotsAppend(buf, 352, 8, 16);
    SlotsAppend(buf, 352, 24, 16);
    FlattenWindows(buf, 352, 32, 40);
  }

  /** On a buffer holding the whole header, the four arrays lie back to back from byte 352 to byte 1632. */
  lemma HeaderArrays(buf: Bytes)
    requires |buf| >= LengthRollupHeaderInputs
    ensures HeaderFromBuffer(buf).Ok?
    ensures var h := HeaderFromBuffer(buf).value;
      Flatten(h.bridgeIds + h.defiDepositSums + h.assetIds + h.totalTxFees) == buf[352..LengthRollupHeaderInputs]
  {
    HeaderFields(buf);
    ArraySlotsContiguous(buf);
  }

  // ---------------------------------------------------------------------------
  // The tail
  // ---------------------------------------------------------------------------

  /** A well-formed tail is 512 + 4 * 64 + 32 = 800 bytes: the proof output, the notes, the hash. */
  lemma TailSlotsShape(t: Tail)
    requires WellFormedTail(t)
    ensures Flatten(TailSlots(t)) == t.recursiveProofOutput + Flatten(t.defiInteractionNotes) + t.prevDefiInteractionHash
    ensures |Flatten(t.defiInteractionNotes)| == 64 * NumBridgeCallsPerBlock
    ensures |Flatten(TailSlots(t))| == 800
  {
    var notes := t.defiInteractionNotes;
    FlattenAppend([t.recursiveProofOutput] + notes, [t.prevDefiInteractionHash]);
    FlattenAppend([t.recursiveProofOutput], notes);
    assert Flatten([t.prevDefiInteractionHash]) == t.prevDefiInteractionHash + [];
    assert Flatten([t.recursiveProofOutput]) == t.recursiveProofOutput + [];
    FlattenUniformLength(notes, 64);
  }

  /**
    `parseTailInputs` inverts the tail part of `toBuffer` and `encode`: read
    at the index where the tail was written, it gives back the proof output,
    the four notes and the hash, whatever precedes or follows the 800 bytes.
   */
  lemma TailRoundTrip(pre: Bytes, t: Tail, rest: Bytes)
    requires WellFormedTail(t)
    ensures TailFromBuffer(pre + Flatten(TailSlots(t)) + rest, |pre|) == t
  {
    var tb := Flatten(TailSlots(t));
    var notes := Flatten(t.defiInteractionNotes);
    var buf := pre + tb + rest;
    TailSlotsShape(t);
    var parsed := TailFromBuffer(buf, |pre|);
    WindowOfMiddle(pre, tb, rest, 0, LengthRecursiveProofOutput);
    assert tb[0..512] == t.recursiveProofOutput;
    forall i | 0 <= i < NumBridgeCallsPerBlock
      ensures parsed.defiInteractionNotes[i] == t.defiInteractionNotes[i]
    {
      WindowOfMiddle(pre, tb, rest, 512 + 64 * i, 64);
      FlattenUniformSlice(t.defiInteractionNotes, 64, i);
      assert tb[512 + 64 * i..512 + 64 * i + 64] == notes[64 * i..64 * i + 64];
    }
    WindowOfMiddle(pre, tb, rest, 768, 32);
    assert tb[768..800] == t.prevDefiInteractionHash;
  }

  /**
    `parseTailInputs` reads 512 + 4 * 64 + 32 = 800 bytes from `startIndex`:
    when they are there, the pieces have their sizes and lie back to back.
   */
  lemma TailPieces(buf: Bytes, startIndex: nat)
    requires startIndex + 800 <= |buf|
    ensures var t := TailFromBuffer(buf, startIndex);
      WellFormedTail(t) && Flatten(TailSlots(t)) == buf[startIndex..startIndex + 800]
  {
    var t := TailFromBuffer(buf, startIndex);
    var s := startIndex + LengthRecursiveProofOutput;
    var notes := t.defiInteractionNotes;
    forall i | 0 <= i < 4
      ensures notes[i] == Windows(buf, s, 64, 4)[i] && |notes[i]| == 64
    {
      WindowsIndex(buf, s, 64, 4, i);
    }
    assert notes == Windows(buf, s, 64, 4);
    FlattenWindows(buf, s, 64, 4);
    assert WellFormedTail(t);
    assert Flatten(TailSlots(t)) == t.recursiveProofOutput + Flatten(notes) + t.prevDefiInteractionHash by {
      FlattenAppend([t.recursiveProofOutput] + notes, [t.prevDefiInteractionHash]);
      FlattenAppend([t.recursiveProofOutput], notes);
    }
    assert t.recursiveProofOutput == buf[startIndex..s];
    assert t.prevDefiInteractionHash == buf[s + 256..startIndex + 800];
    assert buf[startIndex..startIndex + 800] == buf[startIndex..s] + buf[s..s + 256] + buf[s + 256..startIndex + 800];
  }

  // ---------------------------------------------------------------------------
  // The dense form
  // ---------------------------------------------------------------------------

  /**
    `toBuffer` is the 1632 header bytes, `InnerProofData.LENGTH` bytes per
    inner proof, and the 800 tail bytes, in that order.
   */
  lemma ToBufferLayout<P(!new), K>(c: Collaborators<P, K>, r: RollupProofData<P, K>)
    requires DenseCodec(c) && WellFormedHeader(r.header) && WellFormedTail(r.tail)
    ensures |Flatten(DenseRecords(c, r.innerProofData))| == |r.innerProofData| * c.innerProofLength
    ensures |ToBuffer(c, r)| == LengthRollupHeaderInputs + |r.innerProofData| * c.innerProofLength + 800
  {
    FlattenUniformLength(DenseRecords(c, r.innerProofData), c.innerProofLength);
    HeaderSlotsShape(r.header);
    TailSlotsShape(r.tail);
  }

  /** `getRollupIdFromBuffer` and `getRollupSizeFromBuffer` read back what `toBuffer` wrote. */
  lemma IdAndSizeOfToBuffer<P(!new), K>(c: Collaborators<P, K>, r: RollupProofData<P, K>)
    requires DenseCodec(c) && WellFormedHeader(r.header) && WellFormedTail(r.tail)
    ensures GetRollupIdFromBuffer(ToBuffer(c, r)) == Ok(r.header.rollupId)
    ensures GetRollupSizeFromBuffer(ToBuffer(c, r)) == Ok(r.header.rollupSize)
  {
    ToBufferLayout(c, r);
    var hb, db, tb := Flatten(HeaderSlots(r.header)), Flatten(DenseRecords(c, r.innerProofData)), Flatten(TailSlots(r.tail));
    assert hb + db + tb == hb + (db + tb);
    HeaderNumbersAndArrays(r.header, db + tb);
  }

  /** Inner proof `i` sits at `1632 + i * LENGTH` in `toBuffer`. */
  lemma DenseRecordAt<P(!new), K>(c: Collaborators<P, K>, r: RollupProofData<P, K>, i: nat)
    requires DenseCodec(c) && WellFormedHeader(r.header) && WellFormedTail(r.tail)
    requires i < |r.innerProofData|
    ensures Window(ToBuffer(c, r), LengthRollupHeaderInputs + i * c.innerProofLength, c.innerProofLength)
      == c.toBuffer(r.innerProofData[i])
  {
    ToBufferLayout(c, r);
    HeaderSlotsShape(r.header);
    var len := c.innerProofLength;
    var ds := DenseRecords(c, r.innerProofData);
    FlattenUniformSlice(ds, len, i);
    var off := WindowStart(0, len, i);
    assert off == len * i == i * len;
    WindowOfMiddle(Flatten(HeaderSlots(r.header)), Flatten(ds), Flatten(TailSlots(r.tail)), off, len);
  }

  /** The dense inner proofs are read back, one `LENGTH`-byte record at a time. */
  lemma DenseInnerProofsOfToBuffer<P(!new), K>(c: Collaborators<P, K>, r: RollupProofData<P, K>)
    requires DenseCodec(c) && WellFormedHeader(r.header) && WellFormedTail(r.tail)
    ensures DenseInnerProofs(c, ToBuffer(c, r), |r.innerProofData|) == r.innerProofData
  {
    var ps := r.innerProofData;
    var parsed := DenseInnerProofs(c, ToBuffer(c, r), |ps|);
    forall i | 0 <= i < |ps|
      ensures parsed[i] == ps[i]
    {
      DenseRecordAt(c, r, i);
    }
  }

  /** The header, the inner proofs and the tail of `toBuffer` are each read back from their places. */
  lemma ToBufferPieces<P(!new), K>(c: Collaborators<P, K>, r: RollupProofData<P, K>)
    requires DenseCodec(c) && WellFormedHeader(r.header) && WellFormedTail(r.tail)
    ensures HeaderFromBuffer(ToBuffer(c, r)) == Ok(r.header)
    ensures DenseInnerProofs(c, ToBuffer(c, r), |r.innerProofData|) == r.innerProofData
    ensures TailFromBuffer(ToBuffer(c, r), DenseEnd(c, |r.innerProofData|)) == r.tail
  {
    ToBufferLayout(c, r);
    var hb, db, tb := Flatten(HeaderSlots(r.header)), Flatten(DenseRecords(c, r.innerProofData)), Flatten(TailSlots(r.tail));
    assert hb + db + tb == hb + (db + tb);
    HeaderRoundTrip(r.header, db + tb);
    DenseInnerProofsOfToBuffer(c, r);
    HeaderSlotsShape(r.header);
    assert hb + db + tb == (hb + db) + tb + [];
    TailRoundTrip(hb + db, r.tail, []);
  }

  /** `fromBuffer` without viewing keys, from what its three parsing steps return. */
  lemma FromBufferOfPieces<P, K>(c: Collaborators<P, K>, buf: Bytes, h: Header, ps: seq<P>, t: Tail)
    requires HeaderFromBuffer(buf) == Ok(h) && h.rollupSize == |ps| > 0
    requires DenseInnerProofs(c, buf, |ps|) == ps && TailFromBuffer(buf, DenseEnd(c, |ps|)) == t
    ensures FromBufferSpec(c, buf, None) == NewRollupProofData(c, h, ps, t, [])
  {
    assert ViewingKeysOf<P, K>(c, ps, None) == Ok([]);
  }

  /**
    `fromBuffer` inverts `toBuffer` when the record holds exactly `rollupSize`
    inner proofs: header, inner proofs, tail and hash come back; the viewing
    keys, which `toBuffer` does not write, come back empty.
   */
  lemma FromBufferOfToBuffer<P(!new), K>(c: Collaborators<P, K>, r: RollupProofData<P, K>)
    requires DenseCodec(c) && WellFormedHeader(r.header) && WellFormedTail(r.tail)
    requires r.header.rollupSize == |r.innerProofData| > 0
    requires r.rollupHash == RollupHash(c, r.innerProofData)
    ensures FromBufferSpec(c, ToBuffer(c, r), None) == Ok(r.(viewingKeys := []))
  {
    ToBufferPieces(c, r);
    FromBufferOfPieces(c, ToBuffer(c, r), r.header, r.innerProofData, r.tail);
  }

  // ---------------------------------------------------------------------------
  // The sparse form
  // ---------------------------------------------------------------------------

  /** The length the tag of `p`'s encoding announces. */
  function AnnouncedLength<P, K>(c: Collaborators<P, K>, p: P): nat
  {
    var e := c.encodeInnerProof(p);
    if |e| == 0 then 0 else c.getEncodedLength(e[0])
  }

  /** The announced lengths of the entries of `ps`, summed. */
  function SumAnnounced<P, K>(c: Collaborators<P, K>, ps: seq<P>): nat
  {
    if ps == [] then 0 else AnnouncedLength(c, ps[0]) + SumAnnounced(c, ps[1..])
  }

  lemma EncodingsCons<P, K>(c: Collaborators<P, K>, ps: seq<P>)
    requires ps != []
    ensures Flatten(Encodings(c, ps)) == c.encodeInnerProof(ps[0]) + Flatten(Encodings(c, ps[1..]))
  {
    assert Encodings(c, ps)[1..] == Encodings(c, ps[1..]);
  }

  /** The encodings of non-padding entries take up exactly the lengths their tags announce. */
  lemma {:induction false} EncodingsLength<P(!new), K>(c: Collaborators<P, K>, ps: seq<P>)
    requires SparseCodec(c)
    requires forall i :: 0 <= i < |ps| ==> !c.isPadding(ps[i])
    ensures |Flatten(Encodings(c, ps))| == SumAnnounced(c, ps)
  {
    if ps != [] {
      EncodingsCons(c, ps);
      EncodingsLength(c, ps[1..]);
    }
  }

  /** The sparse layout: the header, the 4-byte count of `encs`, `encs`, then the tail. */
  function SparseLayout(h: Header, encs: Bytes, t: Tail): Bytes
    requires |encs| < 0x1_0000_0000
  {
    Flatten(HeaderSlots(h)) + NumToUInt32BE(|encs|, 4) + encs + Flatten(TailSlots(t))
  }

  /** `encode` writes the sparse layout of the encodings of the non-padding entries. */
  lemma EncodeLayout<P, K>(c: Collaborators<P, K>, r: RollupProofData<P, K>)
    requires Encode(c, r).Ok?
    ensures var encs := Flatten(EncodedInnerProofs(c, r.innerProofData));
      |encs| < 0x1_0000_0000 && Encode(c, r).value == SparseLayout(r.header, encs, r.tail)
  {
    var hs, encs, ts := HeaderSlots(r.header), EncodedInnerProofs(c, r.innerProofData), TailSlots(r.tail);
    var prefix := NumToUInt32BE(|Flatten(encs)|, 4);
    assert Encode(c, r).value == Flatten(hs + [prefix] + encs + ts);
    FlattenAround(hs, prefix, encs, ts);
  }

  /** The count is read back right after the header. */
  lemma SparseCount(h: Header, encs: Bytes, t: Tail)
    requires WellFormedHeader(h) && |encs| < 0x1_0000_0000
    ensures ReadUInt32BE(SparseLayout(h, encs, t), LengthRollupHeaderInputs) == Ok(|encs|)
  {
    var hb, prefix, tb := Flatten(HeaderSlots(h)), NumToUInt32BE(|encs|, 4), Flatten(TailSlots(t));
    HeaderSlotsShape(h);
    var buf := hb + prefix + (encs + tb);
    assert buf == SparseLayout(h, encs, t);
    assert buf[|hb|..|hb| + 4] == prefix;
    assert prefix == prefix[4 - 4..];
  }

  /**
    The count `encode` writes after the header is the sum of the lengths the
    tags of the non-padding entries announce: the number of bytes `decode`
    will step over.
   */
  lemma EncodePrefix<P(!new), K>(c: Collaborators<P, K>, r: RollupProofData<P, K>)
    requires SparseCodec(c) && WellFormedHeader(r.header) && Encode(c, r).Ok?
    ensures ReadUInt32BE(Encode(c, r).value, LengthRollupHeaderInputs)
      == Ok(SumAnnounced(c, NonPadding(c, r.innerProofData)))
  {
    EncodeLayout(c, r);
    SparseCount(r.header, Flatten(EncodedInnerProofs(c, r.innerProofData)), r.tail);
    EncodingsLength(c, NonPadding(c, r.innerProofData));
  }

  lemma AppendFirst<T>(acc: seq<T>, ps: seq<T>)
    requires ps != []
    ensures acc + [ps[0]] + ps[1..] == acc + ps
  {
    assert [ps[0]] + ps[1..] == ps;
  }

  /** A window that starts with `e` decodes to what `e` followed by the rest of the window decodes to. */
  lemma WindowStartsWith(buf: Bytes, start: nat, width: nat, e: Bytes)
    requires |e| <= width && start + |e| <= |buf| && buf[start..start + |e|] == e
    ensures var w := Window(buf, start, width); |w| >= |e| && w == e + w[|e|..]
  {
    var w := Window(buf, start, width);
    assert w[..|e|] == e;
  }

  /**
    The `decode` loop reads back the encodings of non-padding entries, laid
    out one after another from `|pre|` on, when the byte count it is given is
    exactly their total length; whatever follows is not touched.
   */
  lemma {:induction false} DecodeEntriesOfEncodings<P(!new), K>(
    c: Collaborators<P, K>, pre: Bytes, ps: seq<P>, post: Bytes, acc: seq<P>)
    requires SparseCodec(c)
    requires forall i :: 0 <= i < |ps| ==> !c.isPadding(ps[i])
    ensures var encs := Flatten(Encodings(c, ps));
      DecodeEntries(c, pre + encs + post, |pre|, |encs|, acc) == Ok((acc + ps, |pre| + |encs|))
    decreases |ps|
  {
    var encs := Flatten(Encodings(c, ps));
    if ps == [] {
      assert acc + ps == acc;
    } else {
      var e := c.encodeInnerProof(ps[0]);
      var more := Flatten(Encodings(c, ps[1..]));
      EncodingsCons(c, ps);
      var buf := pre + encs + post;
      assert buf == (pre + e) + more + post;
      assert buf[|pre|..|pre| + |e|] == e;
      WindowStartsWith(buf, |pre|, c.innerProofLength, e);
      var w := Window(buf, |pre|, c.innerProofLength);
      assert c.decodeInnerProof(w) == ps[0] by {
        assert c.decodeInnerProof(e + w[|e|..]) == ps[0];
      }
      assert w[0] == e[0];
      assert forall i :: 0 <= i < |ps[1..]| ==> !c.isPadding(ps[1..][i]);
      DecodeEntriesOfEncodings(c, pre + e, ps[1..], post, acc + [ps[0]]);
      AppendFirst(acc, ps);
    }
  }

  /** The header is read back from the sparse layout. */
  lemma SparseHeader(h: Header, encs: Bytes, t: Tail)
    requires WellFormedHeader(h) && |encs| < 0x1_0000_0000
    ensures HeaderFromBuffer(SparseLayout(h, encs, t)) == Ok(h)
  {
    var hb, prefix, tb := Flatten(HeaderSlots(h)), NumToUInt32BE(|encs|, 4), Flatten(TailSlots(t));
    assert hb + prefix + encs + tb == hb + (prefix + encs + tb);
    HeaderRoundTrip(h, prefix + encs + tb);
  }

  /** The `decode` loop reads the entries back from the sparse layout of their encodings. */
  lemma SparseEntries<P(!new), K>(c: Collaborators<P, K>, h: Header, kept: seq<P>, t: Tail)
    requires SparseCodec(c) && WellFormedHeader(h)
    requires forall i :: 0 <= i < |kept| ==> !c.isPadding(kept[i])
    requires |Flatten(Encodings(c, kept))| < 0x1_0000_0000
    ensures var encs := Flatten(Encodings(c, kept));
      DecodeEntries(c, SparseLayout(h, encs, t), LengthRollupHeaderInputs + 4, |encs|, [])
        == Ok((kept, LengthRollupHeaderInputs + 4 + |encs|))
  {
    var encs := Flatten(Encodings(c, kept));
    var hb, prefix, tb := Flatten(HeaderSlots(h)), NumToUInt32BE(|encs|, 4), Flatten(TailSlots(t));
    HeaderSlotsShape(h);
    DecodeEntriesOfEncodings(c, hb + prefix, kept, tb, []);
    assert [] + kept == kept;
  }

  /** The tail is read back from the sparse layout, after the entries. */
  lemma SparseTail(h: Header, encs: Bytes, t: Tail)
    requires WellFormedHeader(h) && WellFormedTail(t) && |encs| < 0x1_0000_0000
    ensures TailFromBuffer(SparseLayout(h, encs, t), LengthRollupHeaderInputs + 4 + |encs|) == t
  {
    var hb, prefix, tb := Flatten(HeaderSlots(h)), NumToUInt32BE(|encs|, 4), Flatten(TailSlots(t));
    HeaderSlotsShape(h);
    assert hb + prefix + encs + tb == (hb + prefix + encs) + tb + [];
    TailRoundTrip(hb + prefix + encs, t, []);
  }

  /** `decode` without viewing keys, from what its parsing steps return. */
  lemma DecodeOfPieces<P, K>(
    c: Collaborators<P, K>, buf: Bytes, h: Header, n: UInt32, kept: seq<P>, end: nat, t: Tail)
    requires HeaderFromBuffer(buf) == Ok(h) && h.rollupSize > 0
    requires ReadUInt32BE(buf, LengthRollupHeaderInputs) == Ok(n)
    requires DecodeEntries(c, buf, LengthRollupHeaderInputs + 4, n, []) == Ok((kept, end))
    requires TailFromBuffer(buf, end) == t
    ensures DecodeSpec(c, buf, None) == NewRollupProofData(c, h, PadTo(c, kept, h.rollupSize), t, [])
  {
    assert ViewingKeysOf<P, K>(c, PadTo(c, kept, h.rollupSize), None) == Ok([]);
  }

  /**
    `decode` inverts `encode` up to padding: it returns the non-padding
    entries in order followed by `PADDING` up to `rollupSize`, with the
    header and the tail unchanged.
   */
  lemma DecodeOfEncode<P(!new), K>(c: Collaborators<P, K>, r: RollupProofData<P, K>)
    requires SparseCodec(c) && WellFormedHeader(r.header) && WellFormedTail(r.tail)
    requires r.header.rollupSize > 0 && Encode(c, r).Ok?
    ensures DecodeSpec(c, Encode(c, r).value, None)
      == NewRollupProofData(c, r.header, PadTo(c, NonPadding(c, r.innerProofData), r.header.rollupSize), r.tail, [])
  {
    var kept := NonPadding(c, r.innerProofData);
    var total := |Flatten(Encodings(c, kept))|;
    var encs := Flatten(Encodings(c, kept));
    EncodeLayout(c, r);
    SparseHeader(r.header, encs, r.tail);
    SparseCount(r.header, encs, r.tail);
    SparseEntries(c, r.header, kept, r.tail);
    SparseTail(r.header, encs, r.tail);
    DecodeOfPieces(c, Encode(c, r).value, r.header, total, kept, LengthRollupHeaderInputs + 4 + total, r.tail);
  }

  /** Every padding entry is `PADDING`, and none comes before a real entry. */
  ghost predicate PaddingTrailing<P, K>(c: Collaborators<P, K>, ps: seq<P>)
  {
    forall i, j :: 0 <= i <= j < |ps| && c.isPadding(ps[i]) ==> ps[j] == c.padding
  }

  lemma PadToCons<P, K>(c: Collaborators<P, K>, p: P, ps: seq<P>, n: nat)
    ensures PadTo(c, [p] + ps, n + 1) == [p] + PadTo(c, ps, n)
  {
    if |ps| < n {
      assert [p] + ps + seq(n - |ps|, _ => c.padding) == [p] + (ps + seq(n - |ps|, _ => c.padding));
    }
  }

  /** Dropping the padding of a list whose padding is trailing and padding it back gives the list. */
  lemma {:induction false} PadToNonPadding<P(!new), K>(c: Collaborators<P, K>, ps: seq<P>)
    requires SparseCodec(c) && PaddingTrailing(c, ps)
    ensures PadTo(c, NonPadding(c, ps), |ps|) == ps
  {
    if ps != [] {
      assert PaddingTrailing(c, ps[1..]) by {
        forall i, j | 0 <= i <= j < |ps[1..]| && c.isPadding(ps[1..][i])
          ensures ps[1..][j] == c.padding
        {
          assert ps[1..][i] == ps[i + 1] && ps[1..][j] == ps[j + 1];
        }
      }
      PadToNonPadding(c, ps[1..]);
      if c.isPadding(ps[0]) {
        AllPadding(c, ps);
      } else {
        PadToCons(c, ps[0], NonPadding(c, ps[1..]), |ps| - 1);
      }
    }
  }

  /** A list whose first entry is padding, with trailing padding, is all `PADDING` and has no real entries. */
  lemma AllPadding<P(!new), K>(c: Collaborators<P, K>, ps: seq<P>)
    requires SparseCodec(c) && PaddingTrailing(c, ps) && ps != [] && c.isPadding(ps[0])
    ensures NonPadding(c, ps) == [] && ps == seq(|ps|, _ => c.padding)
  {
    assert forall j :: 0 <= j < |ps| ==> ps[j] == c.padding;
    NonPaddingOfPadding(c, ps);
  }

  lemma {:induction false} NonPaddingOfPadding<P(!new), K>(c: Collaborators<P, K>, ps: seq<P>)
    requires SparseCodec(c) && forall j :: 0 <= j < |ps| ==> ps[j] == c.padding
    ensures NonPadding(c, ps) == []
  {
    if ps != [] {
      NonPaddingOfPadding(c, ps[1..]);
    }
  }

  /**
    So `decode(encode(r))` gives `r` back, without its viewing keys, when
    `r` holds `rollupSize` entries whose padding is all trailing.
   */
  lemma DecodeOfEncodeTrailing<P(!new), K>(c: Collaborators<P, K>, r: RollupProofData<P, K>)
    requires SparseCodec(c) && WellFormedHeader(r.header) && WellFormedTail(r.tail)
    requires r.header.rollupSize == |r.innerProofData| > 0 && Encode(c, r).Ok?
    requires PaddingTrailing(c, r.innerProofData) && r.rollupHash == RollupHash(c, r.innerProofData)
    ensures DecodeSpec(c, Encode(c, r).value, None) == Ok(r.(viewingKeys := []))
  {
    DecodeOfEncode(c, r);
    PadToNonPadding(c, r.innerProofData);
  }

  // ---------------------------------------------------------------------------
  // Viewing keys
  // ---------------------------------------------------------------------------

  /** The number of keys `parseViewingKeys` reads for the transactions `ps`. */
  function TotalKeys<P, K>(c: Collaborators<P, K>, ps: seq<P>): nat
  {
    if ps == [] then 0 else ExpectedKeys(c, ps[0]) + TotalKeys(c, ps[1..])
  }

  /**
    Reading `n` keys from `offset` fails, with the empty-data error, exactly
    when the last of them would start past the end of the data.
   */
  lemma {:induction false} TakeKeysOk<P, K>(c: Collaborators<P, K>, data: Bytes, offset: nat, n: nat, acc: seq<K>)
    ensures var r := TakeKeys(c, data, offset, n, acc);
      && (r.Ok? <==> n == 0 || offset + (n - 1) * c.viewingKeySize < |data|)
      && (r.Err? ==> r.error == EmptyViewingKeyData)
    decreases n
  {
    if n > 0 {
      var size := c.viewingKeySize;
      var buf := Window(data, offset, size);
      TakeFit(offset, n, size, |data|);
      if |buf| > 0 {
        var acc' := acc + [c.makeKey(buf)];
        TakeKeysOk(c, data, offset + size, n - 1, acc');
        assert TakeKeys(c, data, offset, n, acc) == TakeKeys(c, data, offset + size, n - 1, acc');
      } else {
        assert TakeKeys(c, data, offset, n, acc) == Err(EmptyViewingKeyData);
      }
    }
  }

  /** The first of `n` keys fits, and so do the others after it, exactly when the last one does. */
  lemma TakeFit(offset: nat, n: nat, size: nat, len: nat)
    requires size > 0 && n > 0
    ensures (offset < len && (n - 1 == 0 || offset + size + (n - 2) * size < len)) <==> offset + (n - 1) * size < len
  {
    if n >= 2 {
      MulSucc(n - 2, size);
    }
  }

  /** Reading keys keeps the keys read before. */
  lemma {:induction false} TakeKeysPrefix<P, K>(c: Collaborators<P, K>, data: Bytes, offset: nat, n: nat, acc: seq<K>)
    ensures var r := TakeKeys(c, data, offset, n, acc);
      r.Ok? ==> r.value.0[..|acc|] == acc
    decreases n
  {
    var r := TakeKeys(c, data, offset, n, acc);
    if n > 0 && r.Ok? {
      var size := c.viewingKeySize;
      var acc' := acc + [c.makeKey(Window(data, offset, size))];
      TakeKeysPrefix(c, data, offset + size, n - 1, acc');
      assert r.value.0[..|acc|] == r.value.0[..|acc'|][..|acc|];
    }
  }

  /** The keys of one transaction and those after it fit in the data exactly when all of them do. */
  lemma KeysFit(offset: nat, e: nat, rest: nat, size: nat, len: nat)
    requires size > 0
    ensures ((e == 0 || offset + (e - 1) * size < len) && (rest == 0 || offset + e * size + (rest - 1) * size < len))
        <==> (e + rest == 0 || offset + (e + rest - 1) * size < len)
  {
    if rest > 0 {
      Distribute(size, e, rest - 1);
      if e > 0 {
        MulMonotone(size, e + rest - 1, e - 1);
      }
    } else if e > 0 {
      assert e + rest - 1 == e - 1;
    }
  }

  /** One step of `parseViewingKeys`: the first transaction's keys, then the others from the offset after them. */
  lemma ViewingKeysFirst<P, K>(c: Collaborators<P, K>, ps: seq<P>, data: Bytes, offset: nat, acc: seq<seq<K>>, keys: seq<K>, next: nat)
    requires ps != [] && TakeKeys(c, data, offset, ExpectedKeys(c, ps[0]), []) == Ok((keys, next))
    ensures |keys| <= 2
    ensures ViewingKeysFrom(c, ps, data, offset, acc) == ViewingKeysFrom(c, ps[1..], data, next, acc + [KeySlots(c, keys)])
  {
  }

  /**
    `parseViewingKeys` fails, with the empty-data error, exactly when the data
    ends before the last key the transactions need.
   */
  lemma {:induction false} ViewingKeysOk<P, K>(c: Collaborators<P, K>, ps: seq<P>, data: Bytes, offset: nat, acc: seq<seq<K>>)
    ensures var r := ViewingKeysFrom(c, ps, data, offset, acc);
      && (r.Ok? <==> TotalKeys(c, ps) == 0 || offset + (TotalKeys(c, ps) - 1) * c.viewingKeySize < |data|)
      && (r.Err? ==> r.error == EmptyViewingKeyData)
    decreases ps
  {
    if ps != [] {
      var size := c.viewingKeySize;
      var e, rest := ExpectedKeys(c, ps[0]), TotalKeys(c, ps[1..]);
      TakeKeysOk(c, data, offset, e, []);
      KeysFit(offset, e, rest, size, |data|);
      var taken := TakeKeys(c, data, offset, e, []);
      if taken.Ok? {
        var (keys, next) := taken.value;
        ViewingKeysFirst(c, ps, data, offset, acc, keys, next);
        ViewingKeysOk(c, ps[1..], data, next, acc + [KeySlots(c, keys)]);
      } else {
        assert ViewingKeysFrom(c, ps, data, offset, acc) == Err(taken.error);
      }
    }
  }

  /** The two key slots of transaction `p`: past the keys its proof type carries, `EMPTY`. */
  ghost predicate KeySlotsShaped<P, K>(c: Collaborators<P, K>, p: P, slots: seq<K>)
  {
    |slots| == 2 && forall j :: ExpectedKeys(c, p) <= j < 2 ==> slots[j] == c.emptyKey
  }

  lemma {:induction false} ViewingKeysShape<P, K>(c: Collaborators<P, K>, ps: seq<P>, data: Bytes, offset: nat, acc: seq<seq<K>>)
    ensures var r := ViewingKeysFrom(c, ps, data, offset, acc);
      r.Ok? ==> r.value[..|acc|] == acc && forall i :: 0 <= i < |ps| ==> KeySlotsShaped(c, ps[i], r.value[|acc| + i])
    decreases ps
  {
    if ps != [] {
      var taken := TakeKeys(c, data, offset, ExpectedKeys(c, ps[0]), []);
      var r := ViewingKeysFrom(c, ps, data, offset, acc);
      if taken.Ok? && r.Ok? {
        var acc' := acc + [KeySlots(c, taken.value.0)];
        ViewingKeysShape(c, ps[1..], data, taken.value.1, acc');
        assert r == ViewingKeysFrom(c, ps[1..], data, taken.value.1, acc');
        assert r.value[..|acc|] == r.value[..|acc'|][..|acc|];
        forall i | 0 <= i < |ps|
          ensures KeySlotsShaped(c, ps[i], r.value[|acc| + i])
        {
          if i == 0 {
            assert r.value[|acc|] == r.value[..|acc'|][|acc|];
          } else {
            assert ps[i] == ps[1..][i - 1] && |acc| + i == |acc'| + (i - 1);
          }
        }
      }
    }
  }

  /**
    `parseViewingKeys` fails, with the empty-data error, exactly when the data
    ends before the last key it needs; otherwise it gives every transaction
    two key slots, `EMPTY` past the keys its proof type carries (both, for
    padding).
   */
  lemma ParsedViewingKeys<P, K>(c: Collaborators<P, K>, ps: seq<P>, data: Bytes)
    ensures var r := ViewingKeysOf(c, ps, Some(data));
      && (r.Ok? <==> TotalKeys(c, ps) == 0 || (TotalKeys(c, ps) - 1) * c.viewingKeySize < |data|)
      && (r.Err? ==> r.error == EmptyViewingKeyData)
      && (r.Ok? ==> |r.value| == |ps| && forall i :: 0 <= i < |ps| ==> KeySlotsShaped(c, ps[i], r.value[i]))
  {
    ViewingKeysOk(c, ps, data, 0, []);
    ViewingKeysShape(c, ps, data, 0, []);
  }

  /**
    The constructor's count check on parsed slots: a transaction passes
    exactly when every key read for it is set, since the slots past them are
    `EMPTY`.
   */
  lemma SlotCount<P, K(!new)>(c: Collaborators<P, K>, p: P, slots: seq<K>)
    requires KeyCodec(c) && KeySlotsShaped(c, p, slots)
    ensures CountNonEmpty(c, slots) == ExpectedKeys(c, p) <==> AllSet(c, slots[..ExpectedKeys(c, p)])
  {
    var e := ExpectedKeys(c, p);
    assert slots[1..][1..] == [];
    assert CountNonEmpty(c, slots) == (if c.isEmpty(slots[0]) then 0 else 1) + (if c.isEmpty(slots[1]) then 0 else 1);
    if e == 1 {
      assert slots[..e] == [slots[0]];
    } else if e == 2 {
      assert slots[..e] == slots;
    }
  }

  /**
    Viewing keys parsed from data pass `validateNumViewKeys` exactly when
    every key read for a transaction is set.
   */
  lemma ParsedKeysChecked<P, K(!new)>(c: Collaborators<P, K>, ps: seq<P>, data: Bytes)
    requires KeyCodec(c)
    ensures var r := ViewingKeysOf(c, ps, Some(data));
      r.Ok? ==> (
        && |r.value| == |ps|
        && (ValidateNumViewKeys(c, ps, r.value) <==>
            forall i :: 0 <= i < |ps| ==> ExpectedKeys(c, ps[i]) <= |r.value[i]| && AllSet(c, r.value[i][..ExpectedKeys(c, ps[i])])))
  {
    var r := ViewingKeysOf(c, ps, Some(data));
    ParsedViewingKeys(c, ps, data);
    if r.Ok? {
      forall i | 0 <= i < |ps|
        ensures KeyCountMatches(c, ps, r.value, i) <==>
          ExpectedKeys(c, ps[i]) <= |r.value[i]| && AllSet(c, r.value[i][..ExpectedKeys(c, ps[i])])
      {
        SlotCount(c, ps[i], r.value[i]);
      }
    }
  }

  lemma KeyBytesCons<P, K>(c: Collaborators<P, K>, k: K, ks: seq<K>)
    ensures KeyBytes(c, [k] + ks) == c.keyToBuffer(k) + KeyBytes(c, ks)
  {
    var all := [k] + ks;
    var bufs := seq(|all|, i requires 0 <= i < |all| => c.keyToBuffer(all[i]));
    assert bufs[1..] == seq(|ks|, i requires 0 <= i < |ks| => c.keyToBuffer(ks[i]));
  }

  lemma {:induction false} KeyBytesAppend<P, K>(c: Collaborators<P, K>, a: seq<K>, b: seq<K>)
    ensures KeyBytes(c, a + b) == KeyBytes(c, a) + KeyBytes(c, b)
    decreases a
  {
    if a == [] {
      assert a + b == b;
    } else {
      assert a + b == [a[0]] + (a[1..] + b);
      KeyBytesCons(c, a[0], a[1..] + b);
      KeyBytesAppend(c, a[1..], b);
      assert a == [a[0]] + a[1..];
      KeyBytesCons(c, a[0], a[1..]);
    }
  }

  /** Every key takes `SIZE` bytes. */
  lemma KeyBytesLength<P, K(!new)>(c: Collaborators<P, K>, keys: seq<K>)
    requires KeyCodec(c)
    ensures |KeyBytes(c, keys)| == |keys| * c.viewingKeySize
  {
    var bufs := seq(|keys|, i requires 0 <= i < |keys| => c.keyToBuffer(keys[i]));
    assert AllWidth(bufs, c.viewingKeySize);
    FlattenUniformLength(bufs, c.viewingKeySize);
  }

  /**
    `getViewingKeyData` writes `SIZE` bytes for every slot: `2 * SIZE` per
    transaction when each has its two slots.
   */
  lemma ViewingKeyDataLength<P, K(!new)>(c: Collaborators<P, K>, r: RollupProofData<P, K>)
    requires KeyCodec(c)
    ensures |GetViewingKeyData(c, r)| == |Flatten(r.viewingKeys)| * c.viewingKeySize
    ensures AllWidth(r.viewingKeys, 2) ==> |GetViewingKeyData(c, r)| == 2 * |r.viewingKeys| * c.viewingKeySize
  {
    KeyBytesLength(c, Flatten(r.viewingKeys));
    if AllWidth(r.viewingKeys, 2) {
      FlattenUniformLength(r.viewingKeys, 2);
    }
  }

  /** None of `keys` is empty. */
  ghost predicate AllSet<P, K>(c: Collaborators<P, K>, keys: seq<K>)
  {
    forall i :: 0 <= i < |keys| ==> !c.isEmpty(keys[i])
  }

  /** One step of `TakeKeys` when a non-empty slice remains at `offset`. */
  lemma TakeKeysFirst<P, K>(c: Collaborators<P, K>, data: Bytes, offset: nat, n: nat, acc: seq<K>)
    requires n > 0 && |Window(data, offset, c.viewingKeySize)| > 0
    ensures TakeKeys(c, data, offset, n, acc)
         == TakeKeys(c, data, offset + c.viewingKeySize, n - 1, acc + [c.makeKey(Window(data, offset, c.viewingKeySize))])
  {
  }

  /** Set keys written one after another are read back, in order. */
  lemma {:induction false} TakeKeysOfKeyBytes<P, K(!new)>(c: Collaborators<P, K>, pre: Bytes, keys: seq<K>, post: Bytes, acc: seq<K>)
    requires KeyCodec(c) && AllSet(c, keys)
    ensures TakeKeys(c, pre + KeyBytes(c, keys) + post, |pre|, |keys|, acc)
         == Ok((acc + keys, |pre| + |keys| * c.viewingKeySize))
    decreases keys
  {
    if keys == [] {
      assert acc + keys == acc;
    } else {
      var size := c.viewingKeySize;
      var k, later := keys[0], keys[1..];
      var kb := c.keyToBuffer(k);
      assert |kb| == size && c.makeKey(kb) == k;
      assert keys == [k] + later;
      KeyBytesCons(c, k, later);
      var data := pre + KeyBytes(c, keys) + post;
      var pre' := pre + kb;
      assert data == pre' + KeyBytes(c, later) + post by {
        Regroup(pre, kb, KeyBytes(c, later), post);
      }
      assert Window(data, |pre|, size) == kb by {
        Regroup(pre, kb, KeyBytes(c, later), post);
        WindowOfMiddle(pre, kb, KeyBytes(c, later) + post, 0, size);
        assert kb[0..size] == kb;
      }
      TakeKeysFirst(c, data, |pre|, |keys|, acc);
      TakeKeysOfKeyBytes(c, pre', later, post, acc + [k]);
      assert |pre| + |keys| * size == |pre'| + |later| * size by {
        MulSucc(|later|, size);
      }
      assert acc + keys == acc + [k] + later by {
        AppendOne(acc, k, later);
      }
    }
  }

  /** `vks[i]` holds as many set keys as the proof type of transaction `ps[i]` carries. */
  ghost predicate KeysFor<P, K>(c: Collaborators<P, K>, ps: seq<P>, vks: seq<seq<K>>)
    ensures KeysFor(c, ps, vks) ==> forall i :: 0 <= i < |vks| ==> |vks[i]| <= 2
  {
    |vks| == |ps| && forall i :: 0 <= i < |ps| ==> |vks[i]| == ExpectedKeys(c, ps[i]) && AllSet(c, vks[i])
  }

  /** The slots of each transaction whose keys are `vks[i]`. */
  function SlotsOfKeys<P, K>(c: Collaborators<P, K>, vks: seq<seq<K>>): (slots: seq<seq<K>>)
    requires forall i :: 0 <= i < |vks| ==> |vks[i]| <= 2
    ensures |slots| == |vks|
  {
    if vks == [] then [] else [KeySlots(c, vks[0])] + SlotsOfKeys(c, vks[1..])
  }

  /** The first transaction's keys come first in the stream. */
  lemma FirstKeys<P, K>(c: Collaborators<P, K>, pre: Bytes, vks: seq<seq<K>>, post: Bytes)
    requires vks != []
    ensures pre + KeyBytes(c, Flatten(vks)) + post
         == pre + KeyBytes(c, vks[0]) + (KeyBytes(c, Flatten(vks[1..])) + post)
  {
    assert Flatten(vks) == vks[0] + Flatten(vks[1..]);
    KeyBytesAppend(c, vks[0], Flatten(vks[1..]));
    Regroup(pre, KeyBytes(c, vks[0]), KeyBytes(c, Flatten(vks[1..])), post);
  }

  /** The first transaction's slots come first in the stream, split after its first `e`. */
  lemma FirstKeysSplit<P, K>(c: Collaborators<P, K>, pre: Bytes, vks: seq<seq<K>>, e: nat, post: Bytes)
    requires vks != [] && e <= |vks[0]|
    ensures pre + KeyBytes(c, Flatten(vks)) + post
         == pre + KeyBytes(c, vks[0][..e]) + (KeyBytes(c, vks[0][e..]) + (KeyBytes(c, Flatten(vks[1..])) + post))
  {
    FirstKeys(c, pre, vks, post);
    assert vks[0] == vks[0][..e] + vks[0][e..];
    KeyBytesAppend(c, vks[0][..e], vks[0][e..]);
    Regroup(pre, KeyBytes(c, vks[0][..e]), KeyBytes(c, vks[0][e..]), KeyBytes(c, Flatten(vks[1..])) + post);
  }

  /** The first transaction reads its keys from the front of the stream and passes the offset after them on. */
  lemma ViewingKeysStep<P, K(!new)>(
    c: Collaborators<P, K>, ps: seq<P>, pre: Bytes, first: seq<K>, rest: Bytes, acc: seq<seq<K>>)
    requires KeyCodec(c) && ps != [] && |first| == ExpectedKeys(c, ps[0]) && AllSet(c, first)
    ensures var data := pre + KeyBytes(c, first) + rest;
      ViewingKeysFrom(c, ps, data, |pre|, acc)
      == ViewingKeysFrom(c, ps[1..], data, |pre + KeyBytes(c, first)|, acc + [KeySlots(c, first)])
  {
    var data := pre + KeyBytes(c, first) + rest;
    TakeKeysOfKeyBytes(c, pre, first, rest, []);
    KeyBytesLength(c, first);
    assert [] + first == first;
    ViewingKeysFirst(c, ps, data, |pre|, acc, first, |pre + KeyBytes(c, first)|);
  }

  /** The key lists of the transactions after the first fit their proof types too. */
  lemma KeysForRest<P, K>(c: Collaborators<P, K>, ps: seq<P>, vks: seq<seq<K>>)
    requires KeysFor(c, ps, vks) && ps != []
    ensures KeysFor(c, ps[1..], vks[1..])
    ensures SlotsOfKeys(c, vks) == [KeySlots(c, vks[0])] + SlotsOfKeys(c, vks[1..])
  {
    forall i | 0 <= i < |ps| - 1
      ensures |vks[1..][i]| == ExpectedKeys(c, ps[1..][i]) && AllSet(c, vks[1..][i])
    {
      assert vks[1..][i] == vks[i + 1] && ps[1..][i] == ps[i + 1];
    }
  }

  /**
    Each transaction's set keys, as many as its proof type carries, written
    one after another are read back by `parseViewingKeys`, each transaction's
    filled up with `EMPTY` to two slots.
   */
  lemma {:induction false} ViewingKeysOfKeyBytes<P, K(!new)>(
    c: Collaborators<P, K>, ps: seq<P>, pre: Bytes, vks: seq<seq<K>>, post: Bytes, acc: seq<seq<K>>)
    requires KeyCodec(c) && KeysFor(c, ps, vks)
    ensures ViewingKeysFrom(c, ps, pre + KeyBytes(c, Flatten(vks)) + post, |pre|, acc) == Ok(acc + SlotsOfKeys(c, vks))
    decreases ps
  {
    if ps == [] {
      assert acc + SlotsOfKeys(c, vks) == acc;
    } else {
      var first, later := vks[0], Flatten(vks[1..]);
      var data := pre + KeyBytes(c, Flatten(vks)) + post;
      var rest := KeyBytes(c, later) + post;
      var pre', acc' := pre + KeyBytes(c, first), acc + [KeySlots(c, first)];
      FirstKeys(c, pre, vks, post);
      assert data == pre + KeyBytes(c, first) + rest;
      ViewingKeysStep(c, ps, pre, first, rest, acc);
      assert ViewingKeysFrom(c, ps, data, |pre|, acc) == ViewingKeysFrom(c, ps[1..], data, |pre'|, acc');
      KeysForRest(c, ps, vks);
      ViewingKeysOfKeyBytes(c, ps[1..], pre', vks[1..], post, acc');
      assert pre' + KeyBytes(c, later) + post == data;
      AppendOne(acc, KeySlots(c, first), SlotsOfKeys(c, vks[1..]));
    }
  }

  /**
    `vks[i]` is what transaction `ps[i]` stores: two slots, the keys its proof
    type carries all set, `EMPTY` past them.
   */
  ghost predicate StoredKeys<P, K>(c: Collaborators<P, K>, ps: seq<P>, vks: seq<seq<K>>)
  {
    |vks| == |ps| &&
    forall i :: 0 <= i < |ps| ==> KeySlotsShaped(c, ps[i], vks[i]) && AllSet(c, vks[i][..ExpectedKeys(c, ps[i])])
  }

  /** No transaction that carries keys comes after one that carries fewer than two. */
  ghost predicate KeysInOrder<P, K>(c: Collaborators<P, K>, ps: seq<P>)
  {
    forall i, j :: 0 <= i < j < |ps| && ExpectedKeys(c, ps[j]) > 0 ==> ExpectedKeys(c, ps[i]) == 2
  }

  /** The slots of the transactions after the first are stored ones too. */
  lemma StoredKeysRest<P, K>(c: Collaborators<P, K>, ps: seq<P>, vks: seq<seq<K>>)
    requires StoredKeys(c, ps, vks) && ps != []
    ensures StoredKeys(c, ps[1..], vks[1..])
    ensures vks == [vks[0]] + vks[1..]
    ensures KeySlots(c, vks[0][..ExpectedKeys(c, ps[0])]) == vks[0]
  {
    forall i | 0 <= i < |ps| - 1
      ensures KeySlotsShaped(c, ps[1..][i], vks[1..][i])
      ensures AllSet(c, vks[1..][i][..ExpectedKeys(c, ps[1..][i])])
    {
      assert vks[1..][i] == vks[i + 1] && ps[1..][i] == ps[i + 1];
    }
    var e := ExpectedKeys(c, ps[0]);
    var slots := KeySlots(c, vks[0][..e]);
    assert forall j :: 0 <= j < 2 ==> slots[j] == vks[0][j] by {
      forall j | 0 <= j < 2
        ensures slots[j] == vks[0][j]
      {
        if j < e {
          assert slots[j] == slots[..e][j];
        }
      }
    }
  }

  /** Transactions that carry no keys read nothing and get their two `EMPTY` slots. */
  lemma {:induction false} ViewingKeysNone<P, K>(
    c: Collaborators<P, K>, ps: seq<P>, data: Bytes, offset: nat, vks: seq<seq<K>>, acc: seq<seq<K>>)
    requires StoredKeys(c, ps, vks) && forall i :: 0 <= i < |ps| ==> ExpectedKeys(c, ps[i]) == 0
    ensures ViewingKeysFrom(c, ps, data, offset, acc) == Ok(acc + vks)
    decreases ps
  {
    if ps == [] {
      assert acc + vks == acc;
    } else {
      ViewingKeysFirst(c, ps, data, offset, acc, [], offset);
      StoredKeysRest(c, ps, vks);
      assert vks[0][..0] == [];
      assert forall i :: 0 <= i < |ps| - 1 ==> ps[1..][i] == ps[i + 1];
      ViewingKeysNone(c, ps[1..], data, offset, vks[1..], acc + [vks[0]]);
      AppendOne(acc, vks[0], vks[1..]);
    }
  }

  /**
    `parseViewingKeys` reads back the slots `getViewingKeyData` wrote when no
    transaction carrying keys comes after one carrying fewer than two: up to
    there the slots it skips are none, after it nothing more is read.
   */
  lemma {:induction false} ViewingKeysStored<P, K(!new)>(
    c: Collaborators<P, K>, ps: seq<P>, pre: Bytes, vks: seq<seq<K>>, post: Bytes, acc: seq<seq<K>>)
    requires KeyCodec(c) && StoredKeys(c, ps, vks) && KeysInOrder(c, ps)
    ensures ViewingKeysFrom(c, ps, pre + KeyBytes(c, Flatten(vks)) + post, |pre|, acc) == Ok(acc + vks)
    decreases ps
  {
    if ps == [] {
      assert acc + vks == acc;
    } else {
      var e := ExpectedKeys(c, ps[0]);
      var data := pre + KeyBytes(c, Flatten(vks)) + post;
      var later := KeyBytes(c, Flatten(vks[1..])) + post;
      var acc' := acc + [vks[0]];
      StoredKeysRest(c, ps, vks);
      if e == 2 {
        var pre' := pre + KeyBytes(c, vks[0]);
        assert vks[0][..e] == vks[0];
        FirstKeys(c, pre, vks, post);
        ViewingKeysStep(c, ps, pre, vks[0], later, acc);
        assert pre' + KeyBytes(c, Flatten(vks[1..])) + post == data;
        assert KeysInOrder(c, ps[1..]) by {
          assert forall i :: 0 <= i < |ps| - 1 ==> ps[1..][i] == ps[i + 1];
        }
        ViewingKeysStored(c, ps[1..], pre', vks[1..], post, acc');
      } else {
        var first := vks[0][..e];
        var rest := KeyBytes(c, vks[0][e..]) + later;
        assert data == pre + KeyBytes(c, first) + rest by {
          FirstKeysSplit(c, pre, vks, e, post);
        }
        ViewingKeysStep(c, ps, pre, first, rest, acc);
        forall i | 0 <= i < |ps| - 1
          ensures ExpectedKeys(c, ps[1..][i]) == 0
        {
          assert ps[1..][i] == ps[i + 1];
        }
        ViewingKeysNone(c, ps[1..], data, |pre + KeyBytes(c, first)|, vks[1..], acc');
      }
      AppendOne(acc, vks[0], vks[1..]);
    }
  }

  /**
    `parseViewingKeys(getViewingKeyData())` gives the stored key slots back
    when no transaction carrying keys comes after one carrying fewer than two.
   */
  lemma ViewingKeysRoundTrip<P, K(!new)>(c: Collaborators<P, K>, r: RollupProofData<P, K>)
    requires KeyCodec(c) && StoredKeys(c, r.innerProofData, r.viewingKeys) && KeysInOrder(c, r.innerProofData)
    ensures ViewingKeysOf(c, r.innerProofData, Some(GetViewingKeyData(c, r))) == Ok(r.viewingKeys)
  {
    ViewingKeysStored(c, r.innerProofData, [], r.viewingKeys, [], []);
    assert [] + GetViewingKeyData(c, r) + [] == GetViewingKeyData(c, r);
    assert [] + r.viewingKeys == r.viewingKeys;
  }

  // ---------------------------------------------------------------------------
  // Rejections
  // ---------------------------------------------------------------------------

  /** Both parsers reject a header announcing an empty rollup, before reading anything else. */
  lemma EmptyRollupRejected<P, K>(c: Collaborators<P, K>, buf: Bytes, viewingKeyData: Option<Bytes>)
    requires |buf| >= 96 && GetRollupSizeFromBuffer(buf) == Ok(0)
    ensures FromBufferSpec(c, buf, viewingKeyData) == Err(EmptyRollup)
    ensures DecodeSpec(c, buf, viewingKeyData) == Err(EmptyRollup)
  {
    HeaderFields(buf);
  }
}
