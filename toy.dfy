/**
 * The in-memory chain of main.go: blocks without proof of work, hashed as
 * SHA-256(Data ‖ PrevHash), kept in a slice that only grows at the end.
 */
module ToyChain {
  import opened Bytes

  /** The field values of a block at one moment. */
  datatype Header = Header(hash: Bytes, data: Bytes, prevHash: Bytes)

  /** main.go's `Block`, whose `Hash` `DeriveHash` assigns in place. */
  class Block {
    var hash: Bytes
    var data: Bytes
    var prevHash: Bytes

    constructor (hash: Bytes, data: Bytes, prevHash: Bytes)
      ensures this.hash == hash && this.data == data && this.prevHash == prevHash
    {
      this.hash, this.data, this.prevHash := hash, data, prevHash;
    }

    function Fields(): Header
      reads this
    {
      Header(hash, data, prevHash)
    }

    /** `DeriveHash`: `Hash` becomes SHA-256 of `Data` followed by `PrevHash`. */
    method DeriveHash(sha: Hasher)
      modifies this
      ensures hash == sha(data + prevHash)
      ensures data == old(data) && prevHash == old(prevHash)
    {
      var info := data + prevHash;
      hash := sha(info);
    }
  }

  /** A block whose hash is the digest of its data followed by its link. */
  ghost predicate Hashed(h: Header, sha: Hasher) {
    h.hash == sha(h.data + h.prevHash)
  }

  /**
   * The chain invariant: the first block has an empty link, every later
   * block links to the hash of the one before it, and every block is hashed.
   */
  ghost predicate Linked(hs: seq<Header>, sha: Hasher) {
    && |hs| > 0
    && hs[0].prevHash == []
    && (forall i | 0 < i < |hs| :: hs[i].prevHash == hs[i - 1].hash)
    && (forall i | 0 <= i < |hs| :: Hashed(hs[i], sha))
  }

  /** The field values of a sequence of blocks. */
  ghost function Headers(bs: seq<Block>): (hs: seq<Header>)
    reads bs
    ensures |hs| == |bs|
  {
    seq(|bs|, i requires 0 <= i < |bs| reads bs => bs[i].Fields())
  }

  /** `CreateBlock`: a fresh block with the given data and link, then `DeriveHash`. */
  method CreateBlock(data: Bytes, prevHash: Bytes, sha: Hasher) returns (block: Block)
    ensures fresh(block)
    ensures block.Fields() == Header(sha(data + prevHash), data, prevHash)
  {
    block := new Block([], data, prevHash);
    block.DeriveHash(sha);
  }

  /** `Genesis`: `CreateBlock("Genesis", [])`. */
  method Genesis(sha: Hasher) returns (block: Block)
    ensures fresh(block)
    ensures block.Fields() == Header(sha(GENESIS_DATA), GENESIS_DATA, [])
  {
    block := CreateBlock(GENESIS_DATA, [], sha);
    assert GENESIS_DATA + [] == GENESIS_DATA;
  }

  /** Appending a hashed block linked to the last one keeps a chain linked. */
  lemma LinkedAppend(hs: seq<Header>, h: Header, sha: Hasher)
    requires Linked(hs, sha)
    requires h.prevHash == hs[|hs| - 1].hash && Hashed(h, sha)
    ensures Linked(hs + [h], sha)
  {
  }

  /** Equal concatenations with equal-length suffixes have equal parts. */
  lemma SplitConcat(a1: Bytes, p1: Bytes, a2: Bytes, p2: Bytes)
    requires a1 + p1 == a2 + p2 && |p1| == |p2|
    ensures a1 == a2 && p1 == p2
  {
    assert a1 == (a1 + p1)[..|a1|];
    assert a2 == (a2 + p2)[..|a2|];
    assert p1 == (a1 + p1)[|a1|..];
    assert p2 == (a2 + p2)[|a2|..];
  }

  /**
   * Tamper evidence: two linked chains of the same length that end in the
   * same hash are the same chain, unless SHA-256 has a collision, which the
   * lemma then returns. (Without the equal length this fails: the preimage
   * Data ‖ PrevHash has no separator, so a genesis block whose data is
   * `d ‖ h` hashes like a second block with data `d` linked to `h`.)
   */
  lemma {:induction false} TipHashDeterminesChain(hs1: seq<Header>, hs2: seq<Header>, sha: Hasher)
    returns (x: Bytes, y: Bytes)
    requires Linked(hs1, sha) && Linked(hs2, sha) && |hs1| == |hs2|
    requires hs1[|hs1| - 1].hash == hs2[|hs2| - 1].hash
    ensures hs1 == hs2 || (x != y && sha(x) == sha(y))
  {
    var n := |hs1|;
    var a, b := hs1[n - 1], hs2[n - 1];
    x, y := a.data + a.prevHash, b.data + b.prevHash;
    assert Hashed(a, sha) && Hashed(b, sha);
    if x != y {
      return;
    }
    if n == 1 {
      assert x == a.data && y == b.data;
      assert hs1 == [a] && hs2 == [b];
    } else {
      assert a.prevHash == hs1[n - 2].hash && b.prevHash == hs2[n - 2].hash;
      assert Hashed(hs1[n - 2], sha) && Hashed(hs2[n - 2], sha);
      SplitConcat(a.data, a.prevHash, b.data, b.prevHash);
      var init1, init2 := hs1[..n - 1], hs2[..n - 1];
      assert init1[n - 2] == hs1[n - 2] && init2[n - 2] == hs2[n - 2];
      x, y := TipHashDeterminesChain(init1, init2, sha);
      if init1 == init2 {
        assert hs1 == init1 + [a] && hs2 == init2 + [b];
      }
    }
  }

  /** main.go's `Blockchain`: a growing slice of blocks. */
  class Blockchain {
    var blocks: seq<Block>
    /** SHA-256, fixed for the life of the chain. */
    const sha: Hasher

    ghost function Chain(): seq<Header>
      reads this, blocks
    {
      Headers(blocks)
    }

    ghost predicate Valid()
      reads this, blocks
    {
      Linked(Chain(), sha)
    }

    /** `InitBlockChain`: a chain holding only the genesis block. */
    constructor InitBlockChain(sha: Hasher)
      ensures this.sha == sha
      ensures Chain() == [Header(sha(GENESIS_DATA), GENESIS_DATA, [])]
      ensures Valid()
    {
      this.sha := sha;
      var genesis := Genesis(sha);
      blocks := [genesis];
      assert GENESIS_DATA + [] == GENESIS_DATA;
    }

    /**
     * `AddBlock`: the last block's hash becomes the link of a new block,
     * which is appended. Indexing the last block of an empty slice panics in
     * Go, hence the precondition.
     */
    method AddBlock(data: Bytes)
      requires |blocks| > 0
      modifies this
      ensures |blocks| == old(|blocks|) + 1 && blocks[..old(|blocks|)] == old(blocks)
      ensures Chain() == old(Chain()) + [Header(sha(data + old(Chain())[old(|blocks|) - 1].hash), data, old(Chain())[old(|blocks|) - 1].hash)]
      ensures old(Valid()) ==> Valid()
    {
      var prevBlock := blocks[|blocks| - 1];
      var newBlock := CreateBlock(data, prevBlock.hash, sha);
      ghost var before := Chain();
      blocks := blocks + [newBlock];
      assert Chain() == before + [newBlock.Fields()];
      if Linked(before, sha) {
        LinkedAppend(before, newBlock.Fields(), sha);
      }
    }
  }
}
