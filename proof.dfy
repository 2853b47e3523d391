/**
 * The proof-of-work puzzle of blockchain/proof.go (and `Validate` of
 * blockchain/block.go): the hash preimage, the target, the nonce search and
 * its check.
 */
module Proof {
  import opened Bytes
  import opened Blocks

  /** Number of leading zero bits a block hash must have. */
  const DIFFICULTY: int64 := 12

  /** `1 << (256 - Difficulty)`: a digest qualifies when its value is below this. */
  const TARGET: nat := Pow(2, 256 - DIFFICULTY)

  datatype ProofOfWork = ProofOfWork(block: Block, target: nat)

  function NewProof(b: Block): (pow: ProofOfWork)
    ensures pow.block == b
    ensures pow.target == Pow(2, 244)
  {
    ProofOfWork(b, TARGET)
  }

  /**
   * The hash preimage for one attempt: PrevHash ‖ Data ‖ BE64(nonce) ‖ BE64(Difficulty).
   * It reads neither the block's `hash` nor its `nonce`.
   */
  function InitData(pow: ProofOfWork, nonce: int64): (r: Bytes)
    ensures |r| == |pow.block.prevHash| + |pow.block.data| + 16
  {
    pow.block.prevHash + pow.block.data + ToHex(nonce) + ToHex(DIFFICULTY)
  }

  /** The layout of the preimage: the link and the payload, then the nonce and the difficulty as `int64`s. */
  lemma InitDataLayout(pow: ProofOfWork, nonce: int64)
    ensures var r := InitData(pow, nonce);
      && r[..|r| - 16] == pow.block.prevHash + pow.block.data
      && FromHex(r[|r| - 16..|r| - 8]) == nonce
      && FromHex(r[|r| - 8..]) == DIFFICULTY
  {
  }

  /** For a fixed block, distinct nonces give distinct preimages. */
  lemma InitDataInjective(pow: ProofOfWork, m: int64, n: int64)
    requires InitData(pow, m) == InitData(pow, n)
    ensures m == n
  {
    InitDataLayout(pow, m);
    InitDataLayout(pow, n);
  }

  /** The target, bit by bit: a 256-bit value whose first 12 bits are zero. */
  predicate HasZeroPrefix(d: Digest) {
    d[0] == 0 && d[1] < 16
  }

  /** The check `intHash.Cmp(pow.Target) == -1` for the digest of attempt `nonce`. */
  predicate Qualifies(pow: ProofOfWork, sha: Hasher, nonce: int64) {
    BigEndian(sha(InitData(pow, nonce))) < pow.target
  }

  lemma TargetSplit()
    ensures TARGET == 16 * Pow(256, 30)
  {
    PowAdd(2, 4, 240);
    PowOfPow(30);
  }

  lemma {:induction false} PowOfPow(k: nat)
    ensures Pow(2, 8 * k) == Pow(256, k)
  {
    if k > 0 {
      PowAdd(2, 8, 8 * (k - 1));
      PowOfPow(k - 1);
    }
  }

  /** Comparing hi * p + lo (with lo < p) against 16 * p only looks at hi. */
  lemma ScaledBelow(hi: nat, lo: nat, p: nat)
    requires lo < p
    ensures hi * p + lo < 16 * p <==> hi < 16
  {
  }

  /** The value of a digest split after its first two bytes. */
  lemma DigestValue(d: Digest)
    ensures BigEndian(d) == (d[0] as int * 256 + d[1] as int) * Pow(256, 30) + BigEndian(d[2..])
    ensures BigEndian(d[2..]) < Pow(256, 30)
  {
    var head, tail := d[..2], d[2..];
    assert d == head + tail;
    BigEndianAppend(head, tail);
    BigEndianBound(tail);
    assert head[..1] == [d[0]] && [d[0]][..0] == [];
    assert BigEndian([d[0]]) == d[0];
    assert BigEndian(head) == d[0] as int * 256 + d[1] as int;
  }

  /** A 32-byte digest read big-endian is below 2^244 exactly when its first 12 bits are zero. */
  lemma BelowTargetIffZeroPrefix(d: Digest)
    ensures BigEndian(d) < TARGET <==> HasZeroPrefix(d)
  {
    DigestValue(d);
    TargetSplit();
    ScaledBelow(d[0] as int * 256 + d[1] as int, BigEndian(d[2..]), Pow(256, 30));
  }

  /**
   * `Run`: tries nonces 0, 1, 2, ... below `MaxInt64` and stops at the first
   * whose digest is below the target. On exhaustion it returns `MaxInt64`
   * together with the digest of the last attempt, `MaxInt64 - 1`.
   */
  method Run(pow: ProofOfWork, sha: Hasher) returns (nonce: int64, hash: Digest)
    ensures 0 <= nonce <= MAX_INT64
    ensures forall n: int64 | 0 <= n < nonce :: !Qualifies(pow, sha, n)
    ensures nonce < MAX_INT64 ==> hash == sha(InitData(pow, nonce)) && Qualifies(pow, sha, nonce)
    ensures nonce == MAX_INT64 ==> hash == sha(InitData(pow, MAX_INT64 - 1))
  {
    hash := ZERO_DIGEST;
    nonce := 0;
    while nonce < MAX_INT64
      invariant 0 <= nonce <= MAX_INT64
      invariant forall n: int64 | 0 <= n < nonce :: !Qualifies(pow, sha, n)
      invariant 0 < nonce ==> hash == sha(InitData(pow, nonce - 1))
      decreases MAX_INT64 - nonce
    {
      var data := InitData(pow, nonce);
      hash := sha(data);
      if BigEndian(hash) < pow.target {
        assert Qualifies(pow, sha, nonce);
        break;
      }
      nonce := nonce + 1;
    }
  }

  /**
   * `Validate`: recomputes the digest from the block's stored nonce and
   * compares it with the target. The block's `hash` field is not consulted.
   */
  function Validate(pow: ProofOfWork, sha: Hasher): (valid: bool)
    ensures pow.target == TARGET ==> (valid <==> HasZeroPrefix(sha(InitData(pow, pow.block.nonce))))
  {
    BelowTargetIffZeroPrefix(sha(InitData(pow, pow.block.nonce)));
    Qualifies(pow, sha, pow.block.nonce)
  }

  /** Two blocks that differ only in `hash` validate alike. */
  lemma ValidateIgnoresHash(pow: ProofOfWork, sha: Hasher, h: Bytes)
    ensures Validate(pow.(block := pow.block.(hash := h)), sha) == Validate(pow, sha)
  {
  }
}
