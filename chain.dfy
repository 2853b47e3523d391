/**
 * The persisted chain of blockchain/blockchain.go. The Badger database is a
 * map from byte keys to byte values; each `db.Update`/`db.View` closure is
 * one atomic step inside a method. Block keys are block hashes; the reserved
 * key "lh" holds the hash of the latest block.
 */
module Chain {
  import opened Bytes
  import opened Blocks
  import opened Proof
  import opened Mining

  /** The reserved key "lh" ("last hash"). */
  const LAST_HASH_KEY: Bytes := [0x6c, 0x68]

  /** A Badger database handle, shared by a `Blockchain` and its iterators. */
  class Database {
    var kv: map<Bytes, Bytes>

    constructor (contents: map<Bytes, Bytes>)
      ensures kv == contents
    {
      kv := contents;
    }
  }

  /** A 32-byte hash can never be the 2-byte reserved key. */
  lemma DigestIsNotLastHashKey(h: Bytes)
    requires |h| == 32
    ensures h != LAST_HASH_KEY
  {
  }

  ghost predicate IsBlockKey(kv: map<Bytes, Bytes>, k: Bytes) {
    k in kv && k != LAST_HASH_KEY
  }

  /** A block's link: empty (the genesis block) or the key of a stored block. */
  ghost predicate IsLink(kv: map<Bytes, Bytes>, prevHash: Bytes) {
    prevHash == [] || IsBlockKey(kv, prevHash)
  }

  /**
   * Every key but "lh" is a 32-byte hash holding a serialized block whose own
   * `hash` is that key and whose `prevHash` is a link.
   */
  ghost predicate KeyedBlocks(kv: map<Bytes, Bytes>, codec: Codec) {
    forall k | IsBlockKey(kv, k) ::
      && |k| == 32
      && codec.deserialize(kv[k]).Some?
      && codec.deserialize(kv[k]).value.hash == k
      && IsLink(kv, codec.deserialize(kv[k]).value.prevHash)
  }

  /** The store invariant: "lh" names a stored block, and all blocks are keyed by their hashes. */
  ghost predicate ChainStore(kv: map<Bytes, Bytes>, codec: Codec) {
    && LAST_HASH_KEY in kv
    && IsBlockKey(kv, kv[LAST_HASH_KEY])
    && KeyedBlocks(kv, codec)
  }

  /**
   * The two writes of an update transaction that stores a block: the
   * serialized block under its hash, then "lh" moved to that hash.
   */
  function PutBlock(kv: map<Bytes, Bytes>, codec: Codec, b: Block): (r: map<Bytes, Bytes>)
    ensures r.Keys == kv.Keys + {b.hash, LAST_HASH_KEY}
    ensures r[LAST_HASH_KEY] == b.hash
    ensures b.hash != LAST_HASH_KEY ==> r[b.hash] == codec.serialize(b)
    ensures forall k | k in kv && k != b.hash && k != LAST_HASH_KEY :: r[k] == kv[k]
  {
    kv[b.hash := codec.serialize(b)][LAST_HASH_KEY := b.hash]
  }

  /** Storing a 32-byte-hashed block linked to the current "lh" keeps the invariant. */
  lemma PutBlockPreservesChain(kv: map<Bytes, Bytes>, codec: Codec, b: Block)
    requires RoundTrips(codec)
    requires ChainStore(kv, codec)
    requires |b.hash| == 32 && b.prevHash == kv[LAST_HASH_KEY]
    ensures ChainStore(PutBlock(kv, codec, b), codec)
    ensures PutBlock(kv, codec, b)[LAST_HASH_KEY] == b.hash
  {
  }

  /** Writing the genesis block into a store without "lh" establishes the invariant. */
  lemma PutGenesisEstablishesChain(kv: map<Bytes, Bytes>, codec: Codec, g: Block)
    requires RoundTrips(codec)
    requires LAST_HASH_KEY !in kv && KeyedBlocks(kv, codec)
    requires |g.hash| == 32 && g.prevHash == []
    ensures ChainStore(PutBlock(kv, codec, g), codec)
  {
  }

  /**
   * What `Next` reads, as written: the value under "lh" (the latest HASH),
   * decoded as if it were a serialized block. The cursor plays no part.
   */
  function ReadLatest(kv: map<Bytes, Bytes>, codec: Codec): (r: Result<Block>)
    ensures LAST_HASH_KEY !in kv ==> r == Panic(KeyNotFound)
    ensures r.Ok? ==> codec.deserialize(kv[LAST_HASH_KEY]) == Some(r.value)
  {
    if LAST_HASH_KEY !in kv then Panic(KeyNotFound)
    else DeserializeBlock(codec, kv[LAST_HASH_KEY])
  }

  /**
   * What `Next` is meant to read: the block stored under the cursor. Badger
   * refuses a zero-length key (the cursor after the genesis block) with
   * `ErrEmptyKey` before it looks the key up.
   */
  function ReadAt(kv: map<Bytes, Bytes>, codec: Codec, cursor: Bytes): (r: Result<Block>)
    ensures cursor == [] ==> r == Panic(EmptyKey)
    ensures cursor != [] && cursor !in kv ==> r == Panic(KeyNotFound)
    ensures r.Ok? ==> cursor in kv && codec.deserialize(kv[cursor]) == Some(r.value)
  {
    if cursor == [] then Panic(EmptyKey)
    else if cursor !in kv then Panic(KeyNotFound)
    else DeserializeBlock(codec, kv[cursor])
  }

  /**
   * In a store that keeps the invariant, reading at a block key yields the
   * block with that hash, and its link is again empty or a block key: the
   * intended backward walk never fails before the genesis block.
   */
  lemma ReadAtFollowsLinks(kv: map<Bytes, Bytes>, codec: Codec, cursor: Bytes)
    requires ChainStore(kv, codec) && IsBlockKey(kv, cursor)
    ensures ReadAt(kv, codec, cursor).Ok?
    ensures ReadAt(kv, codec, cursor).value.hash == cursor
    ensures IsLink(kv, ReadAt(kv, codec, cursor).value.prevHash)
  {
  }

  /**
   * gob reads the first byte of its input as the length of the next message;
   * a length of 0 ends the stream before any value, so decoding fails.
   */
  ghost predicate RejectsZeroLength(codec: Codec) {
    forall d: Bytes | |d| > 0 && d[0] == 0 :: codec.deserialize(d) == None
  }

  /**
   * The `Next` of blockchain.go:101-118 on any chain whose tip was mined
   * successfully: it decodes the 32-byte tip hash, whose first byte is 0
   * (`Mining.MinedValidates`), so the first call panics, whereas reading at
   * the fresh iterator's cursor (the tip hash) yields the tip block.
   */
  lemma NextDecodesTipHash(kv: map<Bytes, Bytes>, codec: Codec)
    requires ChainStore(kv, codec) && RejectsZeroLength(codec)
    requires |kv[LAST_HASH_KEY]| > 0 && kv[LAST_HASH_KEY][0] == 0
    ensures ReadLatest(kv, codec) == Panic(DecodeFailed)
    ensures ReadAt(kv, codec, kv[LAST_HASH_KEY]).Ok?
    ensures ReadAt(kv, codec, kv[LAST_HASH_KEY]).value.hash == kv[LAST_HASH_KEY]
  {
  }

  /** blockchain.go's `Blockchain`: the cached latest hash and the database. */
  class Blockchain {
    var lastHash: Bytes
    const database: Database
    /** SHA-256 and gob, fixed for the life of the handle. */
    const sha: Hasher
    const codec: Codec

    /**
     * `InitBlockChain`, after `badger.Open`: in one update transaction, either
     * bootstrap the genesis block (no "lh" yet) or restore `LastHash` from "lh".
     */
    constructor InitBlockChain(db: Database, sha: Hasher, codec: Codec)
      modifies db
      ensures database == db && this.sha == sha && this.codec == codec
      ensures LAST_HASH_KEY in db.kv && lastHash == db.kv[LAST_HASH_KEY]
      ensures LAST_HASH_KEY in old(db.kv) ==> db.kv == old(db.kv)
      ensures LAST_HASH_KEY !in old(db.kv) ==>
        exists g :: Mined(g, GENESIS_DATA, [], sha) && db.kv == PutBlock(old(db.kv), codec, g)
      ensures RoundTrips(codec) ==>
        (old(ChainStore(db.kv, codec)) || old(LAST_HASH_KEY !in db.kv && KeyedBlocks(db.kv, codec))) ==>
        ChainStore(db.kv, codec)
    {
      database, this.sha, this.codec := db, sha, codec;
      if LAST_HASH_KEY !in db.kv {
        var genesis := Genesis(sha);
        if RoundTrips(codec) && KeyedBlocks(db.kv, codec) {
          PutGenesisEstablishesChain(db.kv, codec, genesis);
        }
        db.kv := db.kv[genesis.hash := codec.serialize(genesis)];
        db.kv := db.kv[LAST_HASH_KEY := genesis.hash];
        lastHash := genesis.hash;
      } else {
        lastHash := db.kv[LAST_HASH_KEY];
      }
    }

    /**
     * `AddBlock`: a view transaction reads "lh" (panicking if it is missing),
     * a block linked to THAT hash is mined, and an update transaction writes
     * the block under its hash and moves "lh" to it. The cached `lastHash` is
     * not consulted.
     */
    method AddBlock(data: Bytes) returns (r: Result<()>)
      modifies this, database
      ensures LAST_HASH_KEY !in old(database.kv) ==>
        r == Panic(KeyNotFound) && database.kv == old(database.kv) && lastHash == old(lastHash)
      ensures LAST_HASH_KEY in old(database.kv) ==>
        && r == Ok(())
        && LAST_HASH_KEY in database.kv && lastHash == database.kv[LAST_HASH_KEY]
        && exists b ::
             && Mined(b, data, old(database.kv)[LAST_HASH_KEY], sha)
             && database.kv == PutBlock(old(database.kv), codec, b)
             && lastHash == b.hash
      ensures RoundTrips(codec) && old(ChainStore(database.kv, codec)) ==> ChainStore(database.kv, codec)
    {
      var found := Handle(if LAST_HASH_KEY in database.kv then None else Some(KeyNotFound));
      if found.Panic? {
        return Panic(found.error);
      }
      var tip := database.kv[LAST_HASH_KEY];
      var newBlock := CreateBlock(data, tip, sha);
      if RoundTrips(codec) && ChainStore(database.kv, codec) {
        PutBlockPreservesChain(database.kv, codec, newBlock);
      }
      database.kv := database.kv[newBlock.hash := codec.serialize(newBlock)];
      database.kv := database.kv[LAST_HASH_KEY := newBlock.hash];
      lastHash := newBlock.hash;
      r := Ok(());
    }

    /** `Iterator`: a cursor at the cached latest hash over the same database. */
    method Iterator() returns (iter: BlockchainIterator)
      ensures fresh(iter)
      ensures iter.currentHash == lastHash && iter.database == database && iter.codec == codec
    {
      iter := new BlockchainIterator(lastHash, database, codec);
    }
  }

  /** blockchain.go's `BlockchainIterator`. */
  class BlockchainIterator {
    var currentHash: Bytes
    const database: Database
    const codec: Codec

    constructor (currentHash: Bytes, database: Database, codec: Codec)
      ensures this.currentHash == currentHash && this.database == database && this.codec == codec
    {
      this.currentHash, this.database, this.codec := currentHash, database, codec;
    }

    /**
     * `Next` as written: a view transaction reads key "lh", not `currentHash`,
     * decodes that value as a block and moves the cursor to its `prevHash`.
     * There is no check for an exhausted cursor.
     */
    method Next() returns (r: Result<Block>)
      modifies this
      ensures r == ReadLatest(database.kv, codec)
      ensures r.Ok? ==> currentHash == r.value.prevHash
      ensures r.Panic? ==> currentHash == old(currentHash)
    {
      var found := Handle(if LAST_HASH_KEY in database.kv then None else Some(KeyNotFound));
      if found.Panic? {
        return Panic(found.error);
      }
      var blockData := database.kv[LAST_HASH_KEY];
      r := DeserializeBlock(codec, blockData);
      if r.Ok? {
        currentHash := r.value.prevHash;
      }
    }

    /** `Next` as intended: read the block stored under the cursor, then step to its link. */
    method NextAtCursor() returns (r: Result<Block>)
      modifies this
      ensures r == ReadAt(database.kv, codec, old(currentHash))
      ensures r.Ok? ==> currentHash == r.value.prevHash
      ensures r.Panic? ==> currentHash == old(currentHash)
    {
      var found := Handle(if currentHash == [] then Some(EmptyKey)
                          else if currentHash in database.kv then None
                          else Some(KeyNotFound));
      if found.Panic? {
        return Panic(found.error);
      }
      r := DeserializeBlock(codec, database.kv[currentHash]);
      if r.Ok? {
        currentHash := r.value.prevHash;
      }
    }
  }
}
