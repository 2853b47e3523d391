/**
 * Block construction of blockchain/block.go: `CreateBlock` runs the
 * proof-of-work search on a fresh block and stores its result; `Genesis`
 * is the first block of every chain.
 */
module Mining {
  import opened Bytes
  import opened Blocks
  import opened Proof

  /**
   * What `CreateBlock(data, prevHash)` guarantees of the block it returns:
   * the caller's payload and link, and the outcome of `Run` in `nonce` and
   * `hash` (the least qualifying nonce and its digest, or `MaxInt64` and the
   * digest of the last attempt when the search ran out).
   */
  ghost predicate Mined(b: Block, data: Bytes, prevHash: Bytes, sha: Hasher) {
    && b.data == data
    && b.prevHash == prevHash
    && |b.hash| == 32
    && 0 <= b.nonce <= MAX_INT64
    && (forall n: int64 | 0 <= n < b.nonce :: !Qualifies(NewProof(b), sha, n))
    && (b.nonce < MAX_INT64 ==> b.hash == sha(InitData(NewProof(b), b.nonce)) && Qualifies(NewProof(b), sha, b.nonce))
    && (b.nonce == MAX_INT64 ==> b.hash == sha(InitData(NewProof(b), MAX_INT64 - 1)))
  }

  /** The preimage of an attempt depends only on the block's link and payload. */
  lemma SamePreimages(b1: Block, b2: Block, sha: Hasher)
    requires b1.prevHash == b2.prevHash && b1.data == b2.data
    ensures forall n: int64 :: InitData(NewProof(b1), n) == InitData(NewProof(b2), n)
    ensures forall n: int64 :: Qualifies(NewProof(b1), sha, n) == Qualifies(NewProof(b2), sha, n)
  {
  }

  /**
   * `CreateBlock`: a block with the caller's data and link, then `Run`, then
   * `Hash` and `Nonce` set from its result. The Go code updates the fields of
   * the freshly allocated block; nothing else can see it yet, so the model
   * updates a block value.
   */
  method CreateBlock(data: Bytes, prevHash: Bytes, sha: Hasher) returns (block: Block)
    ensures Mined(block, data, prevHash, sha)
  {
    block := Block([], data, prevHash, 0);
    var pow := NewProof(block);
    var nonce, hash := Run(pow, sha);
    block := block.(hash := hash);
    block := block.(nonce := nonce);
    SamePreimages(block, pow.block, sha);
  }

  /** `Genesis`: `CreateBlock("Genesis", [])`. */
  method Genesis(sha: Hasher) returns (block: Block)
    ensures Mined(block, GENESIS_DATA, [], sha)
    ensures block.data == GENESIS_DATA && block.prevHash == []
  {
    block := CreateBlock(GENESIS_DATA, [], sha);
  }

  /**
   * Every block that `CreateBlock` mined successfully passes `Validate`, and
   * its stored hash starts with 12 zero bits; in particular its first byte is 0.
   */
  lemma MinedValidates(b: Block, data: Bytes, prevHash: Bytes, sha: Hasher)
    requires Mined(b, data, prevHash, sha) && b.nonce < MAX_INT64
    ensures Validate(NewProof(b), sha)
    ensures HasZeroPrefix(b.hash)
    ensures b.hash[0] == 0
  {
    BelowTargetIffZeroPrefix(b.hash);
  }

  /**
   * Mining is deterministic: for given data, link and hash function there is
   * exactly one block `CreateBlock` can return.
   */
  lemma MinedUnique(b1: Block, b2: Block, data: Bytes, prevHash: Bytes, sha: Hasher)
    requires Mined(b1, data, prevHash, sha) && Mined(b2, data, prevHash, sha)
    ensures b1 == b2
  {
    SamePreimages(b1, b2, sha);
    if b1.nonce < b2.nonce {
      assert false;
    } else if b2.nonce < b1.nonce {
      assert false;
    }
  }
}
