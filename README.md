# A hash-linked ledger with proof of work, in Dafny

This project models the core of a minimal single-node blockchain written in Go:

- the proof-of-work puzzle (`blockchain/proof.go`): the hash preimage
  `PrevHash ‖ Data ‖ BE64(nonce) ‖ BE64(12)`, the target `1 << 244`, the
  linear nonce search `Run` capped at `MaxInt64`, and the fixed-width
  big-endian encoder `ToHex`;
- block construction and checking (`blockchain/block.go`): `CreateBlock`,
  `Genesis`, `Validate`, `Handle`, and the gob serializer as an interface;
- the persisted chain (`blockchain/blockchain.go`): a Badger database holding
  `hash → serialized block` and the reserved key `"lh" → latest hash`, with
  `InitBlockChain`, `AddBlock`, `Iterator` and `Next`;
- the in-memory chain of `main.go`: a slice of blocks hashed as
  `SHA-256(Data ‖ PrevHash)` with `DeriveHash`, `CreateBlock`, `AddBlock`,
  `Genesis` and `InitBlockChain`.

SHA-256 and gob are parameters. Every operation that hashes takes a function
`sha: Bytes -> Digest` (a 32-byte digest). Every operation that stores or
loads blocks takes a `Codec` (an encoder and a partial decoder). So each
result holds for every hash function. The gob round trip
`Deserialize(Serialize(b)) == b` is stated as the predicate
`Blocks.RoundTrips(codec)`, and it is a hypothesis wherever it is used. It is
never proved of gob.

Files and modules:

- `bytes.dfy` (`Bytes`): byte strings, digests, `int64`, big-endian values,
  `ToHex` and its inverse `FromHex`.
- `block.dfy` (`Blocks`): the persisted `Block`, `Handle`, the `Codec`.
- `proof.dfy` (`Proof`): `NewProof`, `InitData`, `Run`, `Validate`.
- `mining.dfy` (`Mining`): `CreateBlock`, `Genesis`.
- `chain.dfy` (`Chain`): the database, `Blockchain`, `BlockchainIterator`,
  and the store invariant.
- `toy.dfy` (`ToyChain`): the in-memory chain of `main.go`.

A panic (`Handle`/`log.Panic`) is the outcome `Panic(error)` of a `Result`.
Nothing runs after a panic, so the model only says that the step failed and
what it had changed by then.

The model follows the code as written:

- `AddBlock` links the new block to the hash stored under `"lh"`. It does not
  read the cached `LastHash`. Only `Iterator` reads it, to start the cursor,
  and `Next` never reads that cursor.
- `Next` reads the key `"lh"`, not the cursor (see Findings). It does not check
  whether the cursor has passed the genesis block.
- Storage and decoding errors panic through `Handle`. No operation returns an
  error to its caller.
- `main.go` holds a second, in-memory chain without proof of work, which
  `main()` drives. It is modelled in `toy.dfy`.

## Model

| member | source | states |
|---|---|---|
| `Bytes.BigEndian` | blockchain/proof.go:59 | `big.Int.SetBytes`: the bytes as an unsigned base-256 number, most significant first. Its meaning is stated by the lemmas in the next rows. |
| `Bytes.BigEndianBound` | blockchain/proof.go:59 | The big-endian value of n bytes is below 256^n. |
| `Bytes.BigEndianAppend` | blockchain/proof.go:59 | The value of `a ‖ b` is `value(a) * 256^|b| + value(b)`. |
| `Bytes.Encode` | blockchain/proof.go:75 | The k low-order base-256 digits of v, most significant first, as `binary.Write` with `binary.BigEndian` lays them out. The result has exactly k bytes. It is the inverse of `BigEndian` (`BigEndianEncode`, `EncodeBigEndian`). |
| `Bytes.Unsigned` | blockchain/proof.go:75 | An `int64` is written as its residue modulo 2^64 (two's complement). |
| `Bytes.BigEndianEncode` | blockchain/proof.go:72-80 | Encoding v < 256^k into k bytes and reading them back gives v. |
| `Bytes.EncodeBigEndian` | blockchain/proof.go:72-80 | Re-encoding the value of k bytes into k bytes gives the same bytes. |
| `Bytes.ToHex` | blockchain/proof.go:72-80 | `ToHex(n)` has length 8, and decoding it as a big-endian `int64` gives n. |
| `Bytes.ToHexFromHex` | blockchain/proof.go:72-80 | Every 8-byte string is `ToHex` of the `int64` it decodes to. |
| `Bytes.ToHexInjective` | blockchain/proof.go:72-80 | Distinct integers have distinct encodings. |
| `Blocks.Handle` | blockchain/block.go:65-69 | A nil error passes; any other error becomes a panic carrying that error. |
| `Blocks.DeserializeBlock` | blockchain/block.go:55-62 | A block when the decoder accepts the bytes; otherwise the panic `DecodeFailed`. |
| `Blocks.DeserializeSerialized` | blockchain/block.go:45-62 | With a round-tripping codec, deserializing a serialized block gives it back. |
| `Proof.NewProof` | blockchain/proof.go:28-33 | The proof holds the block, and its target is 2^244. |
| `Proof.TargetSplit` | blockchain/proof.go:21 | `1 << (256 - 12)` equals 16 * 256^30. |
| `Proof.InitData` | blockchain/proof.go:35-46 | The preimage is 16 bytes longer than the link plus the payload. |
| `Proof.InitDataLayout` | blockchain/proof.go:35-46 | The preimage is link ‖ payload, then the nonce as an `int64`, then 12 as an `int64`. |
| `Proof.InitDataInjective` | blockchain/proof.go:40-41 | For a fixed block, equal preimages mean equal nonces. |
| `Proof.Qualifies` | blockchain/proof.go:59-61 | The digest of attempt `nonce` is below the proof's target (`intHash.Cmp(pow.Target) == -1`). With the standard target this means 12 leading zero bits (`BelowTargetIffZeroPrefix`, `Validate`). |
| `Proof.BelowTargetIffZeroPrefix` | blockchain/proof.go:59-61 | A 32-byte digest is below the target iff byte 0 is 0 and byte 1 is below 16, i.e. its first 12 bits are zero. |
| `Proof.Run` | blockchain/proof.go:48-69 | The nonce is at most `MaxInt64`. Every smaller nonce fails. Below `MaxInt64`, the hash is the digest of that nonce's preimage and is below the target. At `MaxInt64`, the hash is the digest of attempt `MaxInt64 - 1`. |
| `Proof.Validate` | blockchain/block.go:30-37 | With the standard target, valid iff the digest of the stored nonce's preimage has 12 leading zero bits. |
| `Proof.ValidateIgnoresHash` | blockchain/block.go:32-33 | Blocks that differ only in `hash` validate alike. |
| `Mining.SamePreimages` | blockchain/proof.go:38-39 | The preimages, and so whether a nonce qualifies, depend only on the link and the payload. |
| `Mining.CreateBlock` | blockchain/block.go:21-28 | The block keeps the caller's data and link and carries `Run`'s outcome (`Mined`). |
| `Mining.Genesis` | blockchain/block.go:40-42 | The block mined for data "Genesis" with an empty link. |
| `Mining.MinedValidates` | blockchain/block.go:21-37 | A block whose search succeeded passes `Validate`, and its stored hash has 12 leading zero bits, so its first byte is 0. |
| `Mining.MinedUnique` | blockchain/block.go:21-28 | Mining is deterministic: one block is possible per data, link and hash function. |
| `Chain.DigestIsNotLastHashKey` | blockchain/blockchain.go:44 | A 32-byte hash never equals the 2-byte key "lh". |
| `Chain.PutBlock` | blockchain/blockchain.go:41-44 | The two `txn.Set` calls, here and again in `AddBlock`: the keys become the old keys plus the block hash and "lh". "lh" holds the block hash. The block hash holds the serialized block. Every other key keeps its value. |
| `Chain.PutGenesisEstablishesChain` | blockchain/blockchain.go:35-48 | Writing genesis and "lh" into a store without "lh" establishes the store invariant. |
| `Chain.PutBlockPreservesChain` | blockchain/blockchain.go:83-91 | Writing a block linked to "lh" and moving "lh" to it keeps the store invariant. |
| `Chain.ReadLatest` | blockchain/blockchain.go:104-114 | What `Next` reads: a panic without "lh"; otherwise the decoding of the value under "lh". |
| `Chain.ReadAt` | blockchain/blockchain.go:101-118 | The intended read: an empty cursor panics with `ErrEmptyKey` and an absent one with `ErrKeyNotFound`. Otherwise it decodes the value under the cursor. |
| `Chain.ReadAtFollowsLinks` | blockchain/blockchain.go:101-118 | In a valid store, reading at a block key gives the block with that hash, and its link is empty or another block key. |
| `Chain.NextDecodesTipHash` | blockchain/blockchain.go:105-112 | On every valid store whose tip hash starts with byte 0, with a codec that rejects input starting with a zero length, `Next`'s read panics. Reading at the tip gives the tip block. |
| `Chain.Blockchain.InitBlockChain` | blockchain/blockchain.go:23-64 | Without "lh": a mined genesis block is stored under its hash, "lh" points to it, and `lastHash` is its hash. With "lh": the store is unchanged and `lastHash` is `store["lh"]`. The store invariant holds afterwards. |
| `Chain.Blockchain.AddBlock` | blockchain/blockchain.go:67-93 | Without "lh": panics and changes nothing. Otherwise: mines a block linked to `old(store["lh"])`, stores it under its hash, and sets "lh" and `lastHash` to that hash. No other key changes, and the invariant is kept. |
| `Chain.Blockchain.Iterator` | blockchain/blockchain.go:95-99 | A fresh cursor at `lastHash` over the same database. The store is not touched. |
| `Chain.BlockchainIterator.Next` | blockchain/blockchain.go:101-118 | The result is `ReadLatest(store)`, whatever the cursor. On success the cursor becomes the block's `prevHash`. The store is read only. |
| `Chain.BlockchainIterator.NextAtCursor` | blockchain/blockchain.go:101-118 | The corrected `Next`: the result is `ReadAt(store, cursor)`, and then the cursor moves to the block's `prevHash`. |
| `ToyChain.Block.DeriveHash` | main.go:21-25 | `hash` becomes SHA-256(data ‖ prevHash), with the data first. The other fields are unchanged. |
| `ToyChain.CreateBlock` | main.go:30-34 | A fresh block with the given data and link, and the hash of data ‖ link. |
| `ToyChain.Genesis` | main.go:44-46 | A fresh block with data "Genesis", an empty link and hash SHA-256("Genesis"). |
| `ToyChain.LinkedAppend` | main.go:37-41 | Appending a hashed block linked to the last block keeps the chain linked. |
| `ToyChain.TipHashDeterminesChain` | main.go:21-41 | Two linked chains of equal length with equal tip hashes are equal, unless SHA-256 has a collision. In that case the lemma returns the colliding pair. |
| `ToyChain.Blockchain.InitBlockChain` | main.go:48-50 | A chain of exactly the genesis block. It is linked. |
| `ToyChain.Blockchain.AddBlock` | main.go:37-41 | The chain grows by one and earlier blocks are unchanged. The new block links to the old last hash and is hashed. Linkage is preserved. |

## Findings

| source | as written | input that shows it | evidently intended | confidence | as-written member | corrected member |
|---|---|---|---|---|---|---|
| blockchain/blockchain.go:105-112 | `Next` reads the key "lh", so it decodes the 32-byte tip HASH as if it were a serialized block, and it ignores `CurrentHash` | `InitBlockChain()` on an empty store, then `Iterator().Next()`: the value under "lh" is the genesis hash, whose first byte is 0 | read the block stored under `CurrentHash` | high; not executed | `Chain.NextDecodesTipHash` | `Chain.BlockchainIterator.NextAtCursor` |

The model keeps `Next` as written (`Chain.BlockchainIterator.Next`). Every
successfully mined hash starts with byte 0 (`Mining.MinedValidates`). gob reads
the first byte of its input as a message length, and a length of 0 ends the
decode with an error. So the first call panics. `Chain.NextDecodesTipHash`
states this under the hypothesis `RejectsZeroLength(codec)` and the
requirement that the tip hash starts with 0. If some codec did
accept the digest, every call would return the same block, because the store
does not change and the cursor is never read. The corrected
`NextAtCursor` reads under the cursor. By `Chain.ReadAtFollowsLinks` it never
fails on a valid store before it reaches the genesis link.

## Left out

- SHA-256 (FIPS 180-4) internals: the hash is a parameter. Collision resistance cannot be proved, so `ToyChain.TipHashDeterminesChain` returns a collision instead of ruling one out.
- gob encoding (blockchain/block.go:45-62): `Serialize`/`DeserializeBlock` are the `Codec` parameter. The round trip is the hypothesis `RoundTrips`. Encoding errors are not modelled, because gob cannot fail to encode a `Block`.
- Badger (blockchain/blockchain.go:25-30): opening the database, the path `/tmp/blocks`, locking, durability, concurrent transactions and `txn.Set` errors (such as a transaction that is too large) are left out. The database is one in-memory map, and each `Update`/`View` closure is one atomic step. A panic inside a closure commits nothing.
- Console output: the progress printing in `Run`, the messages in `InitBlockChain`, and `main()` with its print loop in main.go.
- `math/big` is an unbounded `nat`. `big.Int.SetBytes` is `BigEndian`.
- Go `int` is taken to be 64 bits wide (`int64`). Behaviour on 32-bit platforms is not modelled.
- Strings: `[]byte(data)` is the caller's payload as bytes. The model takes those bytes directly and does no UTF-8 encoding.
- Practical termination of mining: only the `MaxInt64` cap is modelled. Whether a qualifying nonce exists depends on the hash function.
- `Mining.CreateBlock` returns a block value. The Go code writes `Hash` and `Nonce` into a freshly allocated block that nothing else references yet, so no aliasing is lost.
- `ToyChain.TipHashDeterminesChain` is stated for chains of equal length only. `Data ‖ PrevHash` has no separator, so a genesis block with data `d ‖ h` hashes like a later block with data `d` linked to `h`.
- `ToyChain.Blockchain.AddBlock` requires a non-empty chain. Go would panic with an index out of range on an empty slice. The only constructor builds a one-block chain, and the field is unexported, so the panic cannot happen.
- Traversal to the genesis block is not proved: the backward walk ends only if the stored links are acyclic, and that would need collision freedom.
