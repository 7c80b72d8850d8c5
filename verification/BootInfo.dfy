/** The public values of a span proof (`boot.rs`), their Solidity counterpart, and the L2 output
    preimage that the host hashes (`fetcher.rs`). */
module BootInfo {
  import opened Wrappers
  import opened Words

  const BOOT_INFO_SIZE: nat := 5 * 32

  datatype RawBootInfo = RawBootInfo(
    l1Head: B256,
    l2OutputRoot: B256,
    l2Claim: B256,
    l2ClaimBlock: uint64,
    chainId: uint64)

  /** `PublicValuesStruct` of the contract: the two integers are full words there. */
  datatype PublicValues = PublicValues(
    l1Head: B256,
    l2PreRoot: B256,
    claimRoot: B256,
    claimBlockNum: uint256,
    chainId: uint256)

  datatype DecodeError = Overrun | ReserMismatch | TypeCheckFail

  function AbiEncode(b: RawBootInfo): (r: Bytes)
    ensures |r| == BOOT_INFO_SIZE
  {
    b.l1Head + b.l2OutputRoot + b.l2Claim + Word(b.l2ClaimBlock) + Word(b.chainId)
  }

  /** Solidity's `abi.encode(publicValues)`: a static struct is its words in order. */
  function SolidityEncode(p: PublicValues): (r: Bytes)
    ensures |r| == BOOT_INFO_SIZE
  {
    p.l1Head + p.l2PreRoot + p.claimRoot + Word(p.claimBlockNum) + Word(p.chainId)
  }

  /** Validating decode: missing bytes, trailing bytes and dirty `uint64` padding are errors. */
  function AbiDecode(bytes: Bytes): Result<RawBootInfo, DecodeError> {
    var size := |bytes|;
    :- Need(size >= BOOT_INFO_SIZE, Overrun);
    :- Need(size == BOOT_INFO_SIZE, ReserMismatch);
    var block := WordValue(bytes[96..128]);
    var chain := WordValue(bytes[128..160]);
    :- Need(block < U64 && chain < U64, TypeCheckFail);
    Success(RawBootInfo(bytes[0..32], bytes[32..64], bytes[64..96], block, chain))
  }

  lemma FiveWords(a: B256, b: B256, c: B256, d: B256, e: B256)
    ensures var s := a + b + c + d + e;
            s[0..32] == a && s[32..64] == b && s[64..96] == c && s[96..128] == d && s[128..160] == e
  {
  }

  lemma DecodeAfterEncode(b: RawBootInfo)
    ensures AbiDecode(AbiEncode(b)) == Success(b)
  {
    FiveWords(b.l1Head, b.l2OutputRoot, b.l2Claim, Word(b.l2ClaimBlock), Word(b.chainId));
    WordRoundTrip(b.l2ClaimBlock);
    WordRoundTrip(b.chainId);
  }

  /** The five words of an encoded boot info by position, as the contract's struct has them. */
  lemma EncodingLayout(b: RawBootInfo)
    ensures var s := AbiEncode(b);
            && s[0..32] == b.l1Head && s[32..64] == b.l2OutputRoot && s[64..96] == b.l2Claim
            && WordValue(s[96..128]) == b.l2ClaimBlock && WordValue(s[128..160]) == b.chainId
  {
    FiveWords(b.l1Head, b.l2OutputRoot, b.l2Claim, Word(b.l2ClaimBlock), Word(b.chainId));
    WordRoundTrip(b.l2ClaimBlock);
    WordRoundTrip(b.chainId);
  }

  lemma StatementLayout(p: PublicValues)
    ensures var s := SolidityEncode(p);
            && s[0..32] == p.l1Head && s[32..64] == p.l2PreRoot && s[64..96] == p.claimRoot
            && WordValue(s[96..128]) == p.claimBlockNum && WordValue(s[128..160]) == p.chainId
  {
    FiveWords(p.l1Head, p.l2PreRoot, p.claimRoot, Word(p.claimBlockNum), Word(p.chainId));
    WordRoundTrip(p.claimBlockNum);
    WordRoundTrip(p.chainId);
  }

  /** Which inputs are refused, and why: by length, or by a number that is no `uint64`. */
  lemma DecodeRefusal(bytes: Bytes)
    ensures AbiDecode(bytes).Success? <==>
            |bytes| == 160 && WordValue(bytes[96..128]) < U64 && WordValue(bytes[128..160]) < U64
    ensures AbiDecode(bytes).Failure? ==>
            AbiDecode(bytes).error ==
              if |bytes| < 160 then Overrun else if |bytes| > 160 then ReserMismatch else TypeCheckFail
  {
  }

  /** A byte string decodes exactly when it is some boot info's encoding, and then to that one. */
  lemma EncodeAfterDecode(bytes: Bytes)
    ensures AbiDecode(bytes).Success? ==> AbiEncode(AbiDecode(bytes).value) == bytes
    ensures AbiDecode(bytes).Success? <==> exists b :: AbiEncode(b) == bytes
  {
    if AbiDecode(bytes).Success? {
      EncodeDecode(bytes[96..128]);
      EncodeDecode(bytes[128..160]);
      assert AbiEncode(AbiDecode(bytes).value) == bytes;
    }
    if b :| AbiEncode(b) == bytes {
      DecodeAfterEncode(b);
    }
  }

  ghost predicate SameStatement(b: RawBootInfo, p: PublicValues) {
    && b.l1Head == p.l1Head
    && b.l2OutputRoot == p.l2PreRoot
    && b.l2Claim == p.claimRoot
    && b.l2ClaimBlock == p.claimBlockNum
    && b.chainId == p.chainId
  }

  /** The prover's bytes are the contract's bytes exactly when all five fields agree, so a block
      number or chain id of 2^64 or more matches no proof. */
  lemma EncodingsAgree(b: RawBootInfo, p: PublicValues)
    ensures AbiEncode(b) == SolidityEncode(p) <==> SameStatement(b, p)
  {
    if AbiEncode(b) == SolidityEncode(p) {
      FiveWords(b.l1Head, b.l2OutputRoot, b.l2Claim, Word(b.l2ClaimBlock), Word(b.chainId));
      FiveWords(p.l1Head, p.l2PreRoot, p.claimRoot, Word(p.claimBlockNum), Word(p.chainId));
      WordInjective(b.l2ClaimBlock, p.claimBlockNum);
      WordInjective(b.chainId, p.chainId);
    }
  }

  /** The `L2Output` struct of the host: a zero `uint64`, then three words. */
  function OutputPreimage(stateRoot: B256, storageRoot: B256, blockHash: B256): (r: Bytes)
    ensures |r| == 128
  {
    Word(0) + stateRoot + storageRoot + blockHash
  }

  /** The preimage is a version of 32 zero bytes, then the three words; what the client reads at bytes
      96..128 is the block hash that the host wrote. */
  lemma OutputPreimageFields(stateRoot: B256, storageRoot: B256, blockHash: B256)
    ensures var s := OutputPreimage(stateRoot, storageRoot, blockHash);
            && (forall i :: 0 <= i < 32 ==> s[i] == 0)
            && s[32..64] == stateRoot && s[64..96] == storageRoot && s[96..128] == blockHash
  {
    ZeroHashBytes();
    var s := OutputPreimage(stateRoot, storageRoot, blockHash);
    forall i | 0 <= i < 32 ensures s[i] == 0 {
      assert s[i] == Word(0)[i];
    }
  }
}
