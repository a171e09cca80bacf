# B+Tree node layer, modelled in Dafny

This project models the node layer of a Go B+Tree (`tree.go`). A node is one
4096-byte page laid out as

    | type 2B | nkeys 2B | pointers nkeys*8B | offsets nkeys*2B | key-values ... |

and each key-value record is `| klen 2B | vlen 2B | key | val |`, all integers
little-endian. Offset 0 is implicit, and offset i is where record i starts
within the key-value area.

The model has three layers.

- **Go semantics** (`GoSemantics`, `LittleEndian`, `BytesCompare`):
  - `byte`, `uint16` and `uint64` as subset types;
  - uint16 wrap-around as `Wrap16`;
  - a Go call that either returns or panics as `Result<T> = Ok | Panic`;
  - `binary.LittleEndian`'s reads and stores;
  - Go's slicing, assuming capacity equals length;
  - `bytes.Compare`, with its order properties.
- **Layout and accessors** (`NodeFormat`, `NodeAccess`, `NodeSetters`):
  - The node's layout as exact-integer functions on `seq<byte>`: `Kind`,
    `Count`, `Ptr`, `Off`, `Record`, `WellFormed`.
  - The abstract contents `Entries`: one `Entry(ptr, key, val)` per slot.
  - Go's accessors `btype`, `nkeys`, `getPtr`, `offsetPos`, `getOffset`,
    `kvPos`, `getKey`, `getVal` and `nbytes` as functions that return
    `Result`. They follow Go's uint16 arithmetic, its explicit
    "Index out of bounds" checks and its runtime bounds checks.
  - Lemmas tie each accessor to the layout.
  - `setHeader`, `setPtr` and `setOffset` are methods on `array<byte>`. Each
    is proved to leave exactly the buffer that a block write of the stored
    bytes describes.
- **Builders and search** (`NodeLookup`, `NodeAppend`, `NodeBuild`,
  `NodeInsert`):
  - `nodeLookupLE` is a method with the source's loop. It is proved to stop
    where the scan says, and on sorted keys that is the floor index.
  - `nodeAppendKV`, `nodeAppendRange` (with its two loops and the final copy)
    and `leafInsert` are methods on `array<byte>`. Each is proved to leave the
    buffer that a specification function of the old buffers describes.
  - Lemmas say what that buffer holds, slot by slot and as `Entries`.
  - `NodeBuild` states the builders' left-to-right fill discipline as the
    invariant `FilledUpTo`.
  - Through that invariant, `leafInsert` is proved to produce a well-formed
    leaf whose entries are the old entries with `(key, val)` inserted at
    `idx`.

The builders' preconditions (`KvFits`, `RangeFits`, `InsertFits`) exclude
panics, uint16 wrap-around and truncated `copy` calls. Under them, every
position the Go code computes is the exact one. `InsertFits` asks more: the
old node must be well formed (`WellFormed`: offsets in order and every
record's length fields matching its span), which also excludes some
malformed old nodes that Go's `leafInsert` copies without panicking.

## Model

| member | source | states |
|---|---|---|
| GoSemantics.Wrap16IsMod | tree.go:99-104 | uint16 position arithmetic is reduction modulo 2^16 |
| LittleEndian.LeValueOfLeBytes | tree.go:71-73 | decoding the w-byte little-endian encoding of v gives back v |
| LittleEndian.LeBytesOfLeValue | tree.go:71-73 | encoding the value of any byte string at its width gives back the string |
| LittleEndian.Le16RoundTrip | tree.go:75-78 | PutUint16's two bytes are the 2-byte little-endian encoding, and Uint16 inverts it in both directions |
| LittleEndian.ReadU16 | tree.go:67-69 | Uint16(s[pos:]) succeeds exactly when two bytes are available at pos |
| LittleEndian.ReadU64 | tree.go:81-87 | Uint64(s[pos:]) succeeds exactly when eight bytes are available at pos |
| LittleEndian.Slice | tree.go:127-134 | s[start:][:len] succeeds exactly when it stays inside s, and then holds those len bytes |
| LittleEndian.ReadU16AfterWrite | tree.go:114-116 | a uint16 stored with PutUint16 reads back as the same value |
| LittleEndian.ReadU64AfterWrite | tree.go:89-95 | a uint64 stored with PutUint64 reads back as the same value |
| LittleEndian.WriteBytes | tree.go:183-186 | after a store, bytes inside the window are the stored ones and every other byte is unchanged |
| LittleEndian.WriteConcat | tree.go:183-186 | two adjacent stores are one store of their concatenation (`PutRecord` combines a record's four stores with it) |
| LittleEndian.CopyAt | tree.go:185-186 | copy(dst[pos:], src) without truncation stores src at pos and nothing else |
| LittleEndian.PutUint16 | tree.go:183-184 | PutUint16(b[pos:], v) stores the two little-endian bytes of v at pos and nothing else |
| LittleEndian.PutUint64 | tree.go:89-95 | PutUint64(b[pos:], v) stores the eight little-endian bytes of v at pos and nothing else |
| BytesCompare.Compare | tree.go:158 | bytes.Compare returns -1, 0 or 1 |
| BytesCompare.CompareZeroIffEqual | tree.go:158-164 | Compare is 0 exactly when the two byte strings are equal |
| BytesCompare.CompareAntisymmetric | tree.go:158-164 | swapping the arguments negates Compare |
| BytesCompare.CompareTransitive | tree.go:158-164 | Compare's order is transitive, and strict when either step is strict |
| BytesCompare.AdjacentIncreasing | tree.go:153-167 | keys whose neighbours increase strictly are strictly increasing throughout |
| NodeFormat.MaxPairFitsInPage | tree.go:38-48 | init's check holds: a header, one slot and one maximum-sized key-value pair fit in a 4096-byte page, so init never panics |
| NodeFormat.EncodeRecord | tree.go:183-186 | a record of key and val is 4 + len(key) + len(val) bytes long |
| NodeFormat.EncodeRecordDecodes | tree.go:127-144 | decoding an encoded record gives back its key and value |
| NodeFormat.DecodedRecordEncodes | tree.go:179-189 | every well-formed record is the encoding of its own key and value |
| NodeFormat.InsertAt | tree.go:172-177 | the sequence with x inserted at i is one longer, with x at i and the old elements before and after it in order |
| NodeFormat.Entries | tree.go:9-26 | a well-formed node's contents are one entry per key, entry i being slot i's pointer, key and value |
| NodeFormat.Keys | tree.go:127-134 | a well-formed node has one key per slot, key i being the key of record i |
| NodeAccess.BType | tree.go:67-69 | btype succeeds exactly when the buffer has 2 bytes, and returns the value whose little-endian encoding is bytes 0 .. 1 (the header's type) |
| NodeAccess.NKeys | tree.go:71-73 | nkeys succeeds exactly when the buffer has the 4 header bytes, and returns the value whose little-endian encoding is bytes 2 .. 3 (the header's count) |
| NodeAccess.GetPtr | tree.go:81-87 | getPtr panics with "Index out of bounds" exactly when nkeys reads and idx >= nkeys |
| NodeAccess.OffsetPos | tree.go:99-104 | offsetPos panics with "Index out of bounds" exactly when idx < 1 (tested before nkeys is read, as Go's short-circuit or does) or nkeys reads and idx > nkeys, and succeeds only for idx in [1, nkeys] |
| NodeAccess.GetOffset | tree.go:107-112 | getOffset(0) is 0 without reading the node, and getOffset panics with "Index out of bounds" exactly when idx > nkeys |
| NodeAccess.KvPos | tree.go:120-125 | kvPos panics with "Index out of bounds" exactly when idx > nkeys |
| NodeAccess.GetKey | tree.go:127-134 | getKey panics with "Index out of bounds" exactly when idx >= nkeys |
| NodeAccess.GetVal | tree.go:136-144 | getVal panics with "Index out of bounds" exactly when idx >= nkeys |
| NodeAccess.Nbytes | tree.go:147-149 | nbytes never panics with "Index out of bounds"; it succeeds exactly when the header is there and, past zero keys, offset slot nkeys lies inside the buffer at its uint16 position; with zero keys it is the 4 header bytes |
| NodeAccess.HeaderReads | tree.go:67-73 | btype reads once two bytes exist and nkeys once four exist; both decode the header |
| NodeAccess.GetPtrReadsSlot | tree.go:81-87 | without wrap-around, getPtr returns the pointer stored in slot i |
| NodeAccess.GetOffsetReadsSlot | tree.go:99-125 | without wrap-around, getOffset returns offset i, and kvPos is the key-value area's base plus that offset |
| NodeAccess.RecordBytesAt | tree.go:127-144 | at record i's position the buffer holds its key length, value length, key and value |
| NodeAccess.GetKeyReadsRecord | tree.go:127-134 | getKey returns the key of the record at slot i |
| NodeAccess.GetValReadsRecord | tree.go:136-144 | getVal returns the value of the record at slot i |
| NodeAccess.OffsetReads | tree.go:107-125 | in a node filled up to slot m, getOffset and kvPos of any index up to m succeed with the layout's values |
| NodeAccess.NbytesReads | tree.go:147-149 | on a well-formed node nbytes is the end of the occupied bytes |
| NodeAccess.EntryReads | tree.go:81-144 | in a node filled up to slot m, getPtr, getKey and getVal of slot i < m return entry i |
| NodeAccess.KeyReads | tree.go:127-134 | on a well-formed node getKey(i) is the node's key i |
| NodeAccess.WellFormedReads | tree.go:67-149 | on a well-formed node every read accessor succeeds and returns the node's type, count, entry i and size |
| NodeSetters.SetHeader | tree.go:75-78 | setHeader succeeds exactly on a buffer of at least four bytes and stores the type, then the count, little-endian |
| NodeSetters.HeaderRoundTrip | tree.go:67-78 | after setHeader, btype and nkeys read back what was stored, and no byte past the header changes |
| NodeSetters.ShortHeader | tree.go:67-78 | on a buffer of two or three bytes setHeader stores the type, and nkeys then panics |
| NodeSetters.SetPtr | tree.go:89-95 | setPtr panics exactly when idx >= nkeys or the slot lies outside the buffer; otherwise it stores val at the wrapped slot position, and a panic changes nothing |
| NodeSetters.SetOffset | tree.go:114-116 | setOffset panics with "Index out of bounds" exactly when offsetPos does (always for idx 0), and otherwise panics only when the slot lies outside the buffer; on success it stores offset at offsetPos, and a panic changes nothing |
| NodeSetters.SlotPositions | tree.go:89-104 | when the slot arrays fit below 2^16, setPtr's and offsetPos's wrapped positions are the layout's |
| NodeSetters.WriteKeepsHeader | tree.go:9-26 | a store past the header keeps the node's type and key count |
| NodeSetters.WriteKeepsPtr | tree.go:81-95 | a store clear of pointer slot j keeps pointer j |
| NodeSetters.WriteKeepsOff | tree.go:107-116 | a store clear of offset slot j keeps offset j |
| NodeSetters.WriteSetsPtr | tree.go:197-199 | a block stored from pointer slot a sets pointer j to the block's bytes 8(j-a) .. 8(j-a)+8 |
| NodeSetters.WriteSetsOff | tree.go:203-206 | a block stored from offset slot a sets offset j to the block's bytes 2(j-a) .. 2(j-a)+2 |
| NodeSetters.PtrRoundTrip | tree.go:81-95 | a pointer stored by setPtr is read back by getPtr |
| NodeSetters.OffRoundTrip | tree.go:107-116 | an offset stored by setOffset is read back by getOffset |
| NodeLookup.Floor | tree.go:153-167 | the floor index is 0 or an index past 0 whose key is at most the probe, and no later key is at most the probe |
| NodeLookup.NodeLookupLE | tree.go:153-167 | the loop's answer is where the scan stops, 0 when nkeys <= 1; it panics only when nkeys or some getKey panics, and it returns whenever all of those read |
| NodeLookup.ScanStopsOnKeys | tree.go:157-166 | where the scan stops over the node is where it stops over the node's decoded keys |
| NodeLookup.FloorUnique | tree.go:153-167 | Floor's two properties determine it |
| NodeLookup.StopsAtIsFloor | tree.go:157-166 | over strictly increasing keys the scan stops at the floor index |
| NodeLookup.ScanIsFloor | tree.go:153-167 | on a well-formed node with strictly increasing keys, nodeLookupLE's answer is the largest index past 0 whose key is at most the probe, or 0 |
| NodeLookup.FloorOfPresentKey | tree.go:153-167 | a key present at a slot past 0 is found at that slot |
| NodeLookup.InsertAfterFloorSorted | tree.go:172-177 | a new key placed right after its floor keeps strictly increasing keys strictly increasing, when key 0 sorts before the new key (the sentinel key the tree's callers keep in slot 0) |
| NodeAppend.PutRecord | tree.go:183-186 | the four stores of nodeAppendKV write the encoded record at pos and nothing else |
| NodeAppend.NodeAppendKV | tree.go:179-189 | nodeAppendKV leaves exactly the buffer AppendedKV describes: pointer idx, record idx at offset idx, and offset idx+1 stored |
| NodeAppend.AppendKVHeader | tree.go:179-189 | nodeAppendKV keeps the node's type and key count |
| NodeAppend.AppendKVPtr | tree.go:180 | after nodeAppendKV pointer idx is ptr and every other pointer is unchanged |
| NodeAppend.AppendKVOff | tree.go:188 | after nodeAppendKV offset idx+1 is offset idx plus the record's size, and every other offset is unchanged |
| NodeAppend.AppendKVRecord | tree.go:182-186 | after nodeAppendKV the record at offset idx is the encoded pair |
| NodeAppend.AppendKVLayout | tree.go:179-189 | nodeAppendKV's whole effect slot by slot: the new pointer, record and offset, with every other pointer, offset and record byte unchanged |
| NodeAppend.AppendKVReadsEntry | tree.go:179-189 | after nodeAppendKV, getPtr, getKey and getVal of idx read back ptr, key and val |
| NodeAppend.AppendKVReadsOffset | tree.go:182-188 | after nodeAppendKV, kvPos(idx) is unchanged and getOffset(idx+1) is getOffset(idx) + 4 + len(key) + len(val) |
| NodeAppend.AppendKVFrame | tree.go:179-189 | nodeAppendKV changes no byte outside pointer slot idx, offset slot idx+1 and the new record |
| NodeAppend.RebasedAt | tree.go:201-206 | each rebased offset is new's offset dst plus old's offset src+i minus old's offset src, in uint16 arithmetic |
| NodeAppend.CopyPtr | tree.go:198 | one round of the pointer loop stores old's pointer src+i in new's slot dst+i |
| NodeAppend.CopyPtrs | tree.go:197-199 | the pointer loop leaves old's pointers src .. src+n-1 stored from slot dst; old is only read |
| NodeAppend.CopyOffset | tree.go:204-205 | one round of the offset loop stores old's offset src+i, rebased, in new's slot dst+i |
| NodeAppend.CopyOffsets | tree.go:201-206 | the offset loop leaves old's offsets src+1 .. src+n, rebased, in new's slots dst+1 .. dst+n; old is only read |
| NodeAppend.NodeAppendRange | tree.go:191-211 | nodeAppendRange changes nothing when n is 0, otherwise leaves exactly the buffer AppendedRange describes, and never writes old |
| NodeAppend.AppendRangeHeader | tree.go:191-211 | nodeAppendRange keeps the node's type and key count |
| NodeAppend.AppendRangePtr | tree.go:197-199 | after nodeAppendRange pointer j is old's src+(j-dst) inside the run and unchanged outside it |
| NodeAppend.AppendRangeOff | tree.go:201-206 | after nodeAppendRange offset j is rebased from old's offset src+(j-dst) inside (dst, dst+n] and unchanged elsewhere |
| NodeAppend.AppendRangePtrs | tree.go:197-199 | nodeAppendRange's pointers: the copied run holds old's pointers, every other pointer is unchanged |
| NodeAppend.AppendRangeOffs | tree.go:201-206 | nodeAppendRange's offsets: the copied run holds old's offsets rebased, every other offset is unchanged |
| NodeAppend.AppendRangeKvBlock | tree.go:208-210 | the bytes at new's offset dst are old's records src .. src+n-1 |
| NodeAppend.AppendRangeKvs | tree.go:208-210 | the copied block sits at new's offset dst and every other byte of new's key-value area is unchanged |
| NodeBuild.HeaderStartsFill | tree.go:75-78 | setHeader on a buffer with room for the slot arrays starts an empty fill of a node of that type and count |
| NodeBuild.AppendKVFills | tree.go:179-189 | nodeAppendKV at the first unfilled slot idx fills it: the entries of slots 0 .. idx are the earlier ones followed by (ptr, key, val) |
| NodeBuild.AppendRangeRecords | tree.go:191-211 | nodeAppendRange puts old's records src .. src+n-1 in new's slots dst .. dst+n-1, byte for byte |
| NodeBuild.AppendRangeSlots | tree.go:191-211 | nodeAppendRange puts old's slots, pointer and record, in new's slots dst .. dst+n-1 |
| NodeBuild.AppendRangePtrsKept | tree.go:197-199 | nodeAppendRange keeps every pointer outside the copied run |
| NodeBuild.AppendRangeKvsKept | tree.go:208-210 | nodeAppendRange keeps every record byte outside the copied block |
| NodeBuild.CopiedEntries | tree.go:191-211 | copied slots hold the entries of the slots they were copied from |
| NodeBuild.SameEntry | tree.go:127-144 | two slots with the same pointer and the same record bytes hold the same entry: same pointer, key and value |
| NodeBuild.EntriesRun | tree.go:191-211 | the entries of the copied slots dst .. dst+n-1 are old's entries src .. src+n-1 |
| NodeBuild.RangeKeepsPrefix | tree.go:191-211 | the copy keeps the entries of the slots before dst |
| NodeBuild.CopiedFills | tree.go:191-211 | a copy made at the first unfilled slot dst fills slots dst .. dst+n-1 with old's entries and moves the fill's end by the copied records' size |
| NodeBuild.AppendRangeFills | tree.go:191-211 | nodeAppendRange at the first unfilled slot dst appends old's entries src .. src+n-1 to the entries so far, pointers, keys and values unchanged |
| NodeInsert.LeafHeadedFill | tree.go:173 | leafInsert's setHeader starts an empty fill of a leaf with one more key than old |
| NodeInsert.LeafBeforeFill | tree.go:174 | after the first copy, slots 0 .. idx-1 hold old's first idx entries |
| NodeInsert.LeafWithFill | tree.go:175 | after the new pair, slots 0 .. idx hold old's first idx entries followed by (0, key, val) |
| NodeInsert.TailFills | tree.go:176 | the last copy fills the remaining slots with old's entries idx .. nkeys-1 and leaves a well-formed node |
| NodeInsert.LeafInsertFront | tree.go:172-175 | leafInsert's first three steps leave the buffer LeafWith describes |
| NodeInsert.LeafInsert | tree.go:172-177 | leafInsert leaves exactly the buffer LeafInserted describes and never writes old |
| NodeInsert.LeafInsertContents | tree.go:172-177 | leafInsert's result is a well-formed leaf with nkeys+1 keys, whose entries are old's with (key, val) and a zero pointer inserted at idx, and whose occupied bytes grow by 14 + len(key) + len(val) |
| NodeInsert.InsertedContents | tree.go:172-177 | the head and tail fills together give old's entries with the new pair inserted at idx |
| NodeInsert.LeafInsertReads | tree.go:172-177 | on leafInsert's result btype is leaf, nkeys is old's + 1, getPtr, getKey and getVal of idx give 0, key and val, and nbytes grows by 14 + len(key) + len(val) |
| NodeInsert.KeysOfInsertAt | tree.go:172-177 | the keys of entries with an entry inserted are the keys with its key inserted |
| NodeInsert.LeafInsertKeys | tree.go:172-177 | leafInsert's keys are old's with key inserted at idx |
| NodeInsert.LeafInsertSorted | tree.go:153-177 | inserting a new key at nodeLookupLE's answer + 1 keeps a leaf's keys strictly increasing, when old's key 0 sorts before the new key (the sentinel key in slot 0) |

## Left out

- `main`, the `BTREE` struct and its page callbacks (`get`, `new`, `del`)
  are not modelled. They hold no node logic.
- The text of panic messages is not modelled. A panic is `Panic(fault)`,
  where the fault says whether it is an explicit index check or a runtime
  bounds check.
- Go's `fmt`, `bytes` and `encoding/binary` packages are modelled by their
  meaning (`Compare`, `LeValue`/`LeBytes`, `Slice`), not by their code.
- `getKey` and `getVal` return subslices that share memory with the node.
  The model returns their bytes as values, so it does not capture that a
  write through a returned slice changes the node.
- Slices are taken to have capacity equal to length. In Go,
  `node[pos:][:n]` may reach into spare capacity; here it panics past the
  length.
- NodeSetters.SetHeader: returns `Panic` on a buffer of fewer than four
  bytes instead of stopping the program. A stored type survives a panic
  after the first store, as in Go.
- NodeAppend.NodeAppendKV: requires `KvFits`. Under it no call panics, no
  uint16 position wraps and no `copy` truncates. Behaviour when the record
  does not fit is not modelled.
- NodeAppend.NodeAppendRange: requires `RangeFits`, for the same reasons.
  It also requires `new` and `old` to be different arrays. With aliasing,
  the result would depend on the order of the stores.
- NodeInsert.LeafInsert: requires `InsertFits`: a well-formed old node,
  `idx <= nkeys`, and a new buffer with room for old's bytes plus one slot
  and one record below 2^16. A full node, where `old.nkeys() + 1` wraps,
  is therefore excluded. The `Result` of `setHeader` is discarded: under
  `InsertFits` it is always `Ok`.
- NodeInsert.LeafInsert: reads `old.nkeys()` once, where Go reads it twice.
  `old` is never written, so both reads give the same value.
- NodeInsert.LeafInsertFront: the first three steps of `leafInsert` are a
  separate method only to keep each proof small. It is not a function of
  the source.
- NodeInsert.LeafInsertReads: stated for any buffer with the contents
  `LeafInsertContents` proves, with old's entries and end passed in.
- NodeLookup.NodeLookupLE: the lookup's answer is tied to the floor index
  only for nodes with strictly increasing keys (`ScanIsFloor`). On other
  nodes it is stated as where the scan stops (`ScanStopsAt`).
- Key and value size limits (`BTREE_MAX_KEY_SIZE`, `BTREE_MAX_VAL_SIZE`) are
  used only by `init`'s check. The node functions here do not enforce them,
  just as the Go ones do not.
