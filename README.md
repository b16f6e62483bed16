# Rollup proof data and SHA-256

This project models two pieces of the Aztec Connect rollup stack:

- **The rollup-proof codec** (`rollup_proof_data.ts`). A rollup proof's public
  inputs go over the wire in two forms. The dense form (`toBuffer` /
  `fromBuffer`) holds:
  - a 1632-byte header: 11 scalar 32-byte slots, then 4 bridge ids, 4 DeFi
    deposit sums, 16 asset ids and 16 total transaction fees;
  - `rollupSize` fixed-length inner proofs;
  - an 800-byte tail: the 512-byte recursive proof output, 4 DeFi
    interaction notes of 64 bytes, and the previous DeFi interaction hash.

  The sparse form (`encode` / `decode`) replaces the inner proofs with a
  4-byte big-endian byte count followed by the variable-length encodings of
  the non-padding transactions. `decode` pads the result back to
  `rollupSize` with `PADDING`. Viewing keys travel in a separate buffer,
  two slots per transaction. The constructor checks the array sizes and the
  viewing-key counts, then hashes the transaction ids with SHA-256.
- **SHA-256** (`sha256.cpp`), as FIPS 180-4 defines it:
  - message padding (section 5.1.1);
  - the initial hash value (section 5.3.3);
  - the round constants (section 4.2.2);
  - the schedule and compression function (section 6.2.2).

  Words are `uint32_t` with explicit wrap-around.

Files:

| file | contents |
|---|---|
| `bytes.dfy` | byte strings, big-endian numbers and sequence lemmas |
| `words.dfy` | 32-bit words |
| `sha256.dfy` | SHA-256: the specification functions and the C++ procedures proved equal to them |
| `collaborators.dfy` | the imported inner-proof and viewing-key types as parameters, with the codec facts the round trips rely on |
| `rollup_proof_data.dfy` | the record, its serialisers, its parsers as functions, and the parsing loops as methods proved equal to those functions |
| `rollup_proof_properties.dfy` | layouts, round trips and error behaviour |

Each parser exists twice:

- a **function** (`HeaderFromBuffer`, `ViewingKeysFrom`, `DecodeEntries`,
  `FromBufferSpec`, `DecodeSpec`, ...) that states what it computes;
- a **method** with the source's loops (`ParseHeaderInputs`,
  `ParseViewingKeys`, `ReadEncodedInnerProofs`, `FromBuffer`, `Decode`,
  ...) whose `ensures` ties it to that function.

The properties are then proved about the functions.

## Model

| member | source | states |
|---|---|---|
| Sha256.NumZeroBytes | src/barretenberg/misc_crypto/sha256/sha256.cpp:120 | fewer than 64 zero bytes, bringing the length after `0x80` to 56 modulo 64 |
| Sha256.BitLength | src/barretenberg/misc_crypto/sha256/sha256.cpp:117 | the `uint64_t` bit length fits in 8 bytes, and equals 8·size whenever that does not overflow |
| Sha256.LengthBytes | src/barretenberg/misc_crypto/sha256/sha256.cpp:126-130 | the length loop appends exactly 8 bytes |
| Sha256.LengthBytesBigEndian | src/barretenberg/misc_crypto/sha256/sha256.cpp:126-130 | the 8 bytes the length loop appends are the big-endian encoding of `l` and read back as `l` |
| Sha256.PadShape | src/barretenberg/misc_crypto/sha256/sha256.cpp:116-130 | the padded message is a whole number of 64-byte blocks, 9 to 72 bytes longer than the input; it starts with the input, then `0x80`, zeros, and 8 bytes reading as the bit length |
| Sha256.Pad | src/barretenberg/misc_crypto/sha256/sha256.cpp:116-130 | the padded message is a whole number of 64-byte blocks, between 9 and 72 bytes longer than the input |
| Sha256.PadContents | src/barretenberg/misc_crypto/sha256/sha256.cpp:116-125 | the padded message is the input, `0x80`, then only zero bytes up to the length field |
| Sha256.PadLengthField | src/barretenberg/misc_crypto/sha256/sha256.cpp:126-130 | the last 8 bytes of the padded message read big-endian as the bit length |
| Sha256.ExtendSchedule | src/barretenberg/misc_crypto/sha256/sha256.cpp:57-61 | extends a schedule to 64 words, keeping its prefix; every new word satisfies the σ0/σ1 recurrence of section 6.2.2 |
| Sha256.Schedule | src/barretenberg/misc_crypto/sha256/sha256.cpp:50-61 | the 64-word schedule starts with the 16 block words, and every later word obeys the recurrence |
| Sha256.Round | src/barretenberg/misc_crypto/sha256/sha256.cpp:79-93 | one round shifts the working variables: b, c, d take the old a, b, c, and f, g, h the old e, f, g |
| Sha256.RoundsHistory | src/barretenberg/misc_crypto/sha256/sha256.cpp:78-94 | after round n (n ≥ 3), b, c, d are the a of rounds n−1, n−2, n−3 and f, g, h their e: only a and e are computed anew |
| Sha256.Compress | src/barretenberg/misc_crypto/sha256/sha256.cpp:66-108 | the compression of one block yields 8 words |
| Sha256.BlockWords | src/barretenberg/misc_crypto/sha256/sha256.cpp:137-145 | a block is read as 16 words |
| Sha256.BlockWordsBytes | src/barretenberg/misc_crypto/sha256/sha256.cpp:138-145 | word j of block i is exactly the 4 big-endian bytes at 64i+4j |
| Sha256.HashBlocks | src/barretenberg/misc_crypto/sha256/sha256.cpp:132-147 | the rolling hash is always 8 words; it starts at H(0) and each block replaces it by the compression of the previous hash with that block |
| Sha256.BlockWordsAppend | src/barretenberg/misc_crypto/sha256/sha256.cpp:137-145 | the words of block i are read from that block's bytes only: bytes appended after it do not change them |
| Sha256.HashBlocksAppend | src/barretenberg/misc_crypto/sha256/sha256.cpp:132-147 | the rolling hash after n blocks depends on the first 64n bytes only: data appended after them leaves it unchanged |
| Sha256.DigestSlice | src/barretenberg/misc_crypto/sha256/sha256.cpp:150-159 | bytes 4k..4k+4 of the output are word k of the hash, big-endian |
| Sha256.Digest | src/barretenberg/misc_crypto/sha256/sha256.cpp:150-159 | the output is 32 bytes |
| Sha256.Hash | src/barretenberg/misc_crypto/sha256/sha256.cpp:112-161 | the hash of any input is 32 bytes |
| Sha256.DigestWords | src/barretenberg/misc_crypto/sha256/sha256.cpp:112-161 | the digest is 32 bytes, and each 4-byte group reads back as the matching word of the final rolling hash over the padded message |
| Sha256.PrepareConstants | src/barretenberg/misc_crypto/sha256/sha256.cpp:30-40 | the array afterwards holds the initial hash value H(0) |
| Sha256.MessageSchedule | src/barretenberg/misc_crypto/sha256/sha256.cpp:45-61 | the copy loop and the extension loop fill `w` with the 64-word message schedule of the block |
| Sha256.Sha256Block | src/barretenberg/misc_crypto/sha256/sha256.cpp:42-109 | the schedule, the 64 rounds and the final additions compute the compression function of section 6.2.2 |
| Sha256.LoadBlock | src/barretenberg/misc_crypto/sha256/sha256.cpp:137-145 | `memcpy` plus byte swap yields the big-endian words of block i |
| Sha256.StoreDigest | src/barretenberg/misc_crypto/sha256/sha256.cpp:150-159 | `memcpy` plus byte swap yields the big-endian digest of the rolling hash |
| Sha256.Sha256 | src/barretenberg/misc_crypto/sha256/sha256.cpp:112-161 | the padding loops and the block loop compute the SHA-256 hash of the input |
| RollupProofData.NumToUInt32BE | barretenberg.js/src/rollup_proof/rollup_proof_data.ts:200-202 | a `size`-byte slot with zeros first and the number big-endian in its last four bytes |
| RollupProofData.Field.Offset | barretenberg.js/src/rollup_proof/rollup_proof_data.ts:23-35 | each field lies in its own 32-byte slot and ends where that slot ends: a number in its last 4 bytes, a root filling it |
| RollupProofData.ReadUInt32BE | barretenberg.js/src/rollup_proof/rollup_proof_data.ts:253-259 | succeeds exactly when 4 bytes remain at the offset; the result's big-endian bytes are those 4 bytes |
| RollupProofData.FirstByte | barretenberg.js/src/rollup_proof/rollup_proof_data.ts:354 | `readUInt8(0)` fails exactly on an empty slice, else returns its first byte |
| RollupProofData.GetRollupIdFromBuffer | barretenberg.js/src/rollup_proof/rollup_proof_data.ts:253-255 | succeeds exactly when the buffer holds at least 32 bytes, and the id is bytes 28..32 read big-endian |
| RollupProofData.GetRollupSizeFromBuffer | barretenberg.js/src/rollup_proof/rollup_proof_data.ts:257-259 | succeeds exactly when the buffer holds at least 64 bytes, and the size is bytes 60..64 read big-endian |
| RollupProofData.ToBuffer | barretenberg.js/src/rollup_proof/rollup_proof_data.ts:198-220 | `toBuffer` is the bytes of the header slots, then each inner proof's dense bytes in order, then the tail's bytes |
| RollupProofData.DenseRecords | barretenberg.js/src/rollup_proof/rollup_proof_data.ts:215 | one dense record per inner proof |
| RollupProofData.NonPadding | barretenberg.js/src/rollup_proof/rollup_proof_data.ts:227 | the filter keeps no padding entry and never grows the list |
| RollupProofData.Encodings | barretenberg.js/src/rollup_proof/rollup_proof_data.ts:228 | one encoding per kept transaction |
| RollupProofData.Encode | barretenberg.js/src/rollup_proof/rollup_proof_data.ts:226-251 | `encode` throws, with the range error of `numToUInt32BE`, exactly when the encoded entries take 2^32 bytes or more |
| RollupProofData.CountNonEmpty | barretenberg.js/src/rollup_proof/rollup_proof_data.ts:138 | at most as many non-empty keys as keys |
| RollupProofData.ValidateNumViewKeysFrom | barretenberg.js/src/rollup_proof/rollup_proof_data.ts:136-143 | passes from index i on exactly when every later transaction has as many non-empty keys as its proof type carries |
| RollupProofData.ValidateNumViewKeys | barretenberg.js/src/rollup_proof/rollup_proof_data.ts:136-143 | does not throw exactly when every transaction's count of non-empty keys (`viewingKeys[i] \|\| []`) equals its expected count, with 0 for padding |
| RollupProofData.TxIds | barretenberg.js/src/rollup_proof/rollup_proof_data.ts:194 | one transaction id per inner proof |
| RollupProofData.RollupHash | barretenberg.js/src/rollup_proof/rollup_proof_data.ts:194-195 | the rollup hash is a 32-byte SHA-256 digest of the concatenated transaction ids |
| RollupProofData.NewRollupProofData | barretenberg.js/src/rollup_proof/rollup_proof_data.ts:154-196 | the constructor succeeds exactly when the fee, bridge-id, deposit-sum and interaction-note arrays have their sizes and, when keys are given, every count matches; the error is that of the first check that fails, in the order fees, bridge ids, deposit sums, interaction notes, key counts; on success the fields are stored and the hash computed |
| RollupProofData.Slots | barretenberg.js/src/rollup_proof/rollup_proof_data.ts:56-79 | n slices, slice i being the 32 bytes at start + 32i |
| RollupProofData.HeaderFromBuffer | barretenberg.js/src/rollup_proof/rollup_proof_data.ts:37-98 | the header parser succeeds exactly when the buffer reaches the data-start-index number (96 bytes), fails otherwise with the range error, and returns arrays of 4, 4, 16 and 16 entries |
| RollupProofData.TailFromBuffer | barretenberg.js/src/rollup_proof/rollup_proof_data.ts:100-117 | the tail parser returns 4 interaction notes; with 800 bytes present from the start index its pieces are 512, 64 and 32 bytes long |
| RollupProofData.KeySlots | barretenberg.js/src/rollup_proof/rollup_proof_data.ts:123-131 | two slots: the keys read, then `EMPTY` |
| RollupProofData.KeySlotsPush | barretenberg.js/src/rollup_proof/rollup_proof_data.ts:129 | writing slot j of the EMPTY-filled pair gives the pair for one more key |
| RollupProofData.TakeKeys | barretenberg.js/src/rollup_proof/rollup_proof_data.ts:124-131 | on success, n more keys are read and the offset has advanced by n·SIZE |
| RollupProofData.ViewingKeysFrom | barretenberg.js/src/rollup_proof/rollup_proof_data.ts:119-134 | on success, one slot pair per transaction |
| RollupProofData.ViewingKeysOf | barretenberg.js/src/rollup_proof/rollup_proof_data.ts:298 | no key data gives no keys; parsed keys come one slot pair per transaction |
| RollupProofData.DenseInnerProofs | barretenberg.js/src/rollup_proof/rollup_proof_data.ts:284-291 | `fromBuffer` reads exactly `rollupSize` inner proofs |
| RollupProofData.FromBufferSpec | barretenberg.js/src/rollup_proof/rollup_proof_data.ts:261-322 | `fromBuffer` throws the range error on fewer than 96 bytes; a result has a non-zero `rollupSize` and exactly that many inner proofs |
| RollupProofData.DecodeEntries | barretenberg.js/src/rollup_proof/rollup_proof_data.ts:351-357 | on success the index only moves forward and entries are only added |
| RollupProofData.PadTo | barretenberg.js/src/rollup_proof/rollup_proof_data.ts:358-360 | the entries kept in order, then `PADDING` up to `rollupSize` |
| RollupProofData.DecodeSpec | barretenberg.js/src/rollup_proof/rollup_proof_data.ts:324-391 | `decode` throws the range error on fewer than 96 bytes; a result has a non-zero `rollupSize` and at least that many inner proofs |
| RollupProofData.PushSlots | barretenberg.js/src/rollup_proof/rollup_proof_data.ts:56-79 | each header-array loop pushes the n 32-byte slices from startIndex and leaves startIndex 32n further |
| RollupProofData.ParseHeaderInputs | barretenberg.js/src/rollup_proof/rollup_proof_data.ts:37-98 | the header parser computes `HeaderFromBuffer` |
| RollupProofData.ParseTailInputs | barretenberg.js/src/rollup_proof/rollup_proof_data.ts:100-117 | the tail parser computes `TailFromBuffer` |
| RollupProofData.ReadTransactionKeys | barretenberg.js/src/rollup_proof/rollup_proof_data.ts:122-132 | one transaction's inner loop computes `TakeKeys` and its slot pair |
| RollupProofData.ParseViewingKeys | barretenberg.js/src/rollup_proof/rollup_proof_data.ts:119-134 | the map with its running offset computes `ViewingKeysFrom` |
| RollupProofData.ParseViewingKeysOf | barretenberg.js/src/rollup_proof/rollup_proof_data.ts:298 | no key data gives no keys; otherwise `parseViewingKeys` |
| RollupProofData.ReadDenseInnerProofs | barretenberg.js/src/rollup_proof/rollup_proof_data.ts:284-291 | the dense loop reads `rollupSize` records of `LENGTH` bytes and ends at the tail |
| RollupProofData.FromBuffer | barretenberg.js/src/rollup_proof/rollup_proof_data.ts:261-322 | `fromBuffer` computes `FromBufferSpec`, errors included |
| RollupProofData.ReadEncodedInnerProofs | barretenberg.js/src/rollup_proof/rollup_proof_data.ts:347-357 | the sparse loop computes `DecodeEntries` |
| RollupProofData.PadInnerProofs | barretenberg.js/src/rollup_proof/rollup_proof_data.ts:358-360 | the padding loop computes `PadTo` |
| RollupProofData.Decode | barretenberg.js/src/rollup_proof/rollup_proof_data.ts:324-391 | `decode` computes `DecodeSpec`, errors included |
| RollupProofProperties.HeaderSlotsShape | barretenberg.js/src/rollup_proof/rollup_proof_data.ts:146-150 | a well-formed header is 51 slots of 32 bytes, 1632 bytes |
| RollupProofProperties.HeaderRoundTrip | barretenberg.js/src/rollup_proof/rollup_proof_data.ts:37-98 | `parseHeaderInputs` gives back every header field from the bytes `toBuffer`/`encode` wrote for it, whatever follows |
| RollupProofProperties.HeaderWellFormed | barretenberg.js/src/rollup_proof/rollup_proof_data.ts:37-98 | on a buffer of at least 1632 bytes every parsed root and array entry has 32 bytes |
| RollupProofProperties.HeaderArrays | barretenberg.js/src/rollup_proof/rollup_proof_data.ts:56-79 | the four parsed arrays together are exactly bytes 352..1632, with no gap or overlap |
| RollupProofProperties.TailRoundTrip | barretenberg.js/src/rollup_proof/rollup_proof_data.ts:100-117 | read at the index where it was written, the tail comes back field for field |
| RollupProofProperties.TailPieces | barretenberg.js/src/rollup_proof/rollup_proof_data.ts:100-117 | with 800 bytes present the parsed tail is well formed and its pieces are exactly those 800 bytes |
| RollupProofProperties.ToBufferLayout | barretenberg.js/src/rollup_proof/rollup_proof_data.ts:198-220 | `toBuffer` is header, then `LENGTH` bytes per inner proof, then tail: 1632 + n·LENGTH + 800 bytes |
| RollupProofProperties.IdAndSizeOfToBuffer | barretenberg.js/src/rollup_proof/rollup_proof_data.ts:253-259 | `getRollupIdFromBuffer` and `getRollupSizeFromBuffer` read back the id and size `toBuffer` wrote |
| RollupProofProperties.DenseRecordAt | barretenberg.js/src/rollup_proof/rollup_proof_data.ts:215 | inner proof i sits at 1632 + i·LENGTH in `toBuffer` |
| RollupProofProperties.DenseInnerProofsOfToBuffer | barretenberg.js/src/rollup_proof/rollup_proof_data.ts:284-291 | the dense loop reads back every inner proof `toBuffer` wrote |
| RollupProofProperties.FromBufferOfToBuffer | barretenberg.js/src/rollup_proof/rollup_proof_data.ts:261-322 | `fromBuffer(toBuffer(r))` gives r back (keys empty) when r holds `rollupSize` inner proofs |
| RollupProofProperties.EncodingsLength | barretenberg.js/src/rollup_proof/rollup_proof_data.ts:228 | the encodings of real transactions take exactly the lengths their tags announce |
| RollupProofProperties.EncodeLayout | barretenberg.js/src/rollup_proof/rollup_proof_data.ts:226-251 | a successful `encode` is header, 4-byte count, encodings, tail, and its count fits in 32 bits |
| RollupProofProperties.EncodePrefix | barretenberg.js/src/rollup_proof/rollup_proof_data.ts:245 | the count `encode` writes reads back as the sum of the announced lengths, the bytes `decode` steps over |
| RollupProofProperties.DecodeOfEncode | barretenberg.js/src/rollup_proof/rollup_proof_data.ts:324-391 | `decode(encode(r))` is r with the real transactions kept in order and `PADDING` up to `rollupSize` |
| RollupProofProperties.PadToNonPadding | barretenberg.js/src/rollup_proof/rollup_proof_data.ts:358-360 | dropping trailing padding and padding back restores the list |
| RollupProofProperties.DecodeOfEncodeTrailing | barretenberg.js/src/rollup_proof/rollup_proof_data.ts:324-391 | `decode(encode(r))` gives r back (keys empty) when all padding is trailing and there are `rollupSize` entries |
| RollupProofProperties.EmptyRollupRejected | barretenberg.js/src/rollup_proof/rollup_proof_data.ts:280-282 | both parsers throw "Empty rollup" on a zero rollup size, before reading anything else |
| RollupProofProperties.TakeKeysOk | barretenberg.js/src/rollup_proof/rollup_proof_data.ts:124-131 | reading n keys fails exactly when the start of the last key is at or past the end of the data, and then with "Empty viewing key data" |
| RollupProofProperties.ViewingKeysOk | barretenberg.js/src/rollup_proof/rollup_proof_data.ts:119-134 | `parseViewingKeys` fails exactly when the start of the last expected key is at or past the end of the data, and only with "Empty viewing key data" |
| RollupProofProperties.ViewingKeysShape | barretenberg.js/src/rollup_proof/rollup_proof_data.ts:121-133 | every parsed pair has two slots, `EMPTY` past the expected count |
| RollupProofProperties.ParsedViewingKeys | barretenberg.js/src/rollup_proof/rollup_proof_data.ts:119-134 | from offset 0: success exactly when the data reaches the last expected key; one two-slot pair per transaction, filled with `EMPTY` past its expected count |
| RollupProofProperties.SlotCount | barretenberg.js/src/rollup_proof/rollup_proof_data.ts:138-140 | a parsed pair passes the count check exactly when all of its expected keys are non-empty |
| RollupProofProperties.ParsedKeysChecked | barretenberg.js/src/rollup_proof/rollup_proof_data.ts:190-192 | the constructor's check on parsed keys passes exactly when every key read is non-empty |
| RollupProofProperties.KeyBytesLength | barretenberg.js/src/rollup_proof/rollup_proof_data.ts:223 | serialised keys take `SIZE` bytes each |
| RollupProofProperties.ViewingKeyDataLength | barretenberg.js/src/rollup_proof/rollup_proof_data.ts:222-224 | `getViewingKeyData` writes `SIZE` bytes per slot, `2·SIZE` per transaction |
| RollupProofProperties.TakeKeysOfKeyBytes | barretenberg.js/src/rollup_proof/rollup_proof_data.ts:124-131 | non-empty keys written back to back are read back in order, and the offset ends after them |
| RollupProofProperties.ViewingKeysOfKeyBytes | barretenberg.js/src/rollup_proof/rollup_proof_data.ts:119-134 | each transaction's expected non-empty keys, written back to back, parse back as its pair filled with `EMPTY` |
| RollupProofProperties.ViewingKeysNone | barretenberg.js/src/rollup_proof/rollup_proof_data.ts:121-133 | transactions that carry no keys read nothing and each get their two `EMPTY` slots |
| RollupProofProperties.ViewingKeysStored | barretenberg.js/src/rollup_proof/rollup_proof_data.ts:119-134 | stored slot pairs written in full are read back when no transaction carrying keys follows one carrying fewer than two |
| RollupProofProperties.ViewingKeysRoundTrip | barretenberg.js/src/rollup_proof/rollup_proof_data.ts:119-134 | `parseViewingKeys(getViewingKeyData())` gives the slot pairs back when every transaction stores its expected keys set and `EMPTY` after them, and no transaction carrying keys follows one carrying fewer than two |

## Left out

- Platform endianness. `isLittleEndian` and the `memcpy`/`__builtin_bswap32` pairs are modelled by their combined effect on a little-endian host: words are read and written big-endian, as section 6.2.2 of FIPS 180-4 demands. A big-endian host gives the same bytes.
- `ror` is declared in `sha256.hpp`, which is not part of this model. It is modelled as the standard 32-bit right rotation.
- The hash in `rollupHash` is Node's `createHash('sha256')`. It is modelled by the SHA-256 of this project.
- `InnerProofData`, `encodeInnerProof`, `decodeInnerProof`, `getEncodedLength`, `getNumViewKeys` and `ViewingKey` are not part of this model. They are parameters, and what the codec relies on from them is stated as the predicates `DenseCodec`, `SparseCodec` and `KeyCodec`.
- Exceptions the collaborators may throw themselves are not modelled. These are `InnerProofData.fromBuffer`, `decodeInnerProof` and the `ViewingKey` constructor on a short slice.
- `ViewingKey` objects that are `null`/`undefined` inside `viewingKeys` are not modelled. The `vk &&` guard of the count filter therefore has no counterpart.
- Numbers in the record are `UInt32`. `numToUInt32BE` of a larger or negative JavaScript number is outside the model.
- `NewRollupProofData` does not check the size of `assetIds`. It follows the constructor, which checks only `totalTxFees`, `bridgeIds`, `defiDepositSums` and `defiInteractionNotes`.
- `decode` is modelled as written in two respects:
  - it stops without error when the announced byte count does not fall on an entry boundary;
  - it does not check the number of decoded entries against `rollupSize`.

  `DecodeOfEncode` covers the inputs `encode` produces.
- `FromBufferOfToBuffer` and `DecodeOfEncodeTrailing` are stated without viewing keys: `toBuffer` and `encode` do not write keys. Key data is covered separately, by `ViewingKeysRoundTrip` and `ViewingKeysOfKeyBytes`.
- `ViewingKeysRoundTrip` requires that no transaction carrying keys follows one carrying fewer than two. `getViewingKeyData` writes both slots of every transaction, `EMPTY` ones included, but `parseViewingKeys` reads only the expected number. After a transaction with fewer than two keys, the next read therefore starts on an `EMPTY` slot, and a later transaction that carries keys would read the wrong bytes. `ViewingKeysOfKeyBytes` states the general form for key data that holds exactly the expected keys.
- `Buffer.slice` past the end truncates; the model keeps that through `Window`. A short buffer therefore yields short roots, array entries, tail pieces or keys, not an error. Only `readUInt32BE` and `readUInt8` fail.
