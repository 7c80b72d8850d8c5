/** The contract as an object over its storage slots. `deleteL2Outputs` writes the array's length
    slot alone, so element slots outlive a deletion; every method is proved to act on the live
    prefix as the functions of `OutputLog` act on a sequence. */
module OutputOracle {
  import opened Wrappers
  import opened Words
  import opened BootInfo
  import opened OutputLog
  import opened OutputLogRuns

  function Prefix(slots: map<nat, OutputProposal>, length: nat): (outs: seq<OutputProposal>)
    requires forall i :: 0 <= i < length ==> i in slots
    ensures |outs| == length && forall i :: 0 <= i < length ==> outs[i] == slots[i]
  {
    seq(length, i requires 0 <= i < length => slots[i])
  }

  function Status(r: Result<State, Revert>): Result<(), Revert> {
    match r
    case Success(_) => Success(())
    case Failure(e) => Failure(e)
  }

  class ZKL2OutputOracle {
    var initialized: nat
    var startingBlockNumber: uint256
    var startingTimestamp: uint256
    var outputsLength: nat
    var outputSlots: map<nat, OutputProposal>
    var submissionInterval: uint256
    var l2BlockTime: uint256
    var challenger: Address
    var proposer: Address
    var finalizationPeriodSeconds: uint256
    var chainId: uint256
    var vkey: B256
    var verifierGateway: Address
    var owner: Address
    var historicBlockHashes: map<uint256, B256>

    ghost var now: nat
    ghost var proofs: seq<AcceptedProof>

    ghost predicate Valid()
      reads this
    {
      forall i :: 0 <= i < outputsLength ==> i in outputSlots
    }

    ghost function Storage(): State
      requires Valid()
      reads this
    {
      State(initialized, startingBlockNumber, startingTimestamp, Prefix(outputSlots, outputsLength),
            submissionInterval, l2BlockTime, challenger, proposer, finalizationPeriodSeconds, chainId,
            vkey, verifierGateway, owner, historicBlockHashes)
    }

    ghost function Ledger(): Ledger
      requires Valid()
      reads this
    {
      OutputLog.Ledger(Storage(), now, proofs)
    }

    /** The proxy's storage as the new implementation finds it: empty, or left by an older one. */
    constructor (found: State, ghost time: nat)
      ensures Valid() && Ledger() == OutputLog.Ledger(found, time, [])
    {
      initialized := found.initialized;
      startingBlockNumber := found.startingBlockNumber;
      startingTimestamp := found.startingTimestamp;
      outputsLength := |found.l2Outputs|;
      outputSlots := map i | 0 <= i < |found.l2Outputs| :: found.l2Outputs[i];
      submissionInterval := found.submissionInterval;
      l2BlockTime := found.l2BlockTime;
      challenger := found.challenger;
      proposer := found.proposer;
      finalizationPeriodSeconds := found.finalizationPeriodSeconds;
      chainId := found.chainId;
      vkey := found.vkey;
      verifierGateway := found.verifierGateway;
      owner := found.owner;
      historicBlockHashes := found.historicBlockHashes;
      now := time;
      proofs := [];
      new;
      assert Prefix(outputSlots, outputsLength) == found.l2Outputs;
    }

    function LatestBlockNumber(): (n: uint256)
      requires Valid()
      reads this
      ensures n == OutputLog.LatestBlockNumber(Storage())
    {
      if outputsLength == 0 then startingBlockNumber else outputSlots[outputsLength - 1].l2BlockNumber
    }

    function NextBlockNumber(): (r: Result<uint256, Revert>)
      requires Valid()
      reads this
      ensures r == OutputLog.NextBlockNumber(Storage())
    {
      CheckedAdd(LatestBlockNumber(), submissionInterval)
    }

    function ComputeL2Timestamp(l2BlockNumber: uint256): (r: Result<uint256, Revert>)
      requires Valid()
      reads this
      ensures r == OutputLog.ComputeL2Timestamp(Storage(), l2BlockNumber)
    {
      var blocks :- CheckedSub(l2BlockNumber, startingBlockNumber);
      var elapsed :- CheckedMul(blocks, l2BlockTime);
      CheckedAdd(startingTimestamp, elapsed)
    }

    method Push(o: OutputProposal)
      requires Valid()
      modifies this`outputsLength, this`outputSlots
      ensures Valid()
      ensures Storage() == old(Storage()).(l2Outputs := old(Storage()).l2Outputs + [o])
    {
      outputSlots := outputSlots[outputsLength := o];
      outputsLength := outputsLength + 1;
      assert Storage().l2Outputs[..outputsLength - 1] == old(Storage()).l2Outputs;
    }

    /** The first assignments of `initialize`. */
    method Configure(p: InitParams)
      requires Valid()
      modifies this`initialized, this`submissionInterval, this`l2BlockTime, this`proposer, this`challenger,
               this`finalizationPeriodSeconds
      ensures Valid() && Storage() == WithConfig(old(Storage()), p)
    {
      initialized := VERSION;
      submissionInterval := p.submissionInterval;
      l2BlockTime := p.l2BlockTime;
      proposer := p.proposer;
      challenger := p.challenger;
      finalizationPeriodSeconds := p.finalizationPeriodSeconds;
    }

    method StartLog(p: InitParams)
      requires Valid() && outputsLength == 0
      modifies this`outputsLength, this`outputSlots, this`startingBlockNumber, this`startingTimestamp
      ensures Valid() && Storage() == WithStart(old(Storage()), p)
    {
      Push(OutputProposal(p.startingOutputRoot, Cast128(p.startingTimestamp), Cast128(p.startingBlockNumber)));
      startingBlockNumber := p.startingBlockNumber;
      startingTimestamp := p.startingTimestamp;
    }

    /** The last assignments of `initialize`, which set what the ZK version added. */
    method ConfigureZK(p: InitParams)
      requires Valid()
      modifies this`chainId, this`owner, this`vkey, this`verifierGateway
      ensures Valid() && Storage() == WithZKConfig(old(Storage()), p)
    {
      chainId := p.chainId;
      owner := p.owner;
      vkey := p.vkey;
      verifierGateway := p.verifierGateway;
    }

    method Initialize(env: Env, p: InitParams) returns (r: Result<(), Revert>)
      requires Valid()
      modifies this
      ensures Valid() && r == Status(Apply(old(Storage()), env, Action.Initialize(p)))
      ensures Ledger() == Step(old(Ledger()), Event(env, Action.Initialize(p)))
    {
      now := env.timestamp;
      :- Need(initialized < VERSION, AlreadyInitialized);
      :- Need(p.submissionInterval > 0, BadSubmissionInterval);
      :- Need(p.l2BlockTime > 0, BadBlockTime);
      :- Need(p.startingTimestamp <= env.timestamp, StartsInFuture);
      Configure(p);
      if outputsLength == 0 {
        StartLog(p);
      }
      ConfigureZK(p);
      return Success(());
    }

    method DeleteL2Outputs(env: Env, index: uint256) returns (r: Result<(), Revert>)
      requires Valid()
      modifies this`outputsLength, this`now
      ensures Valid() && r == Status(Apply(old(Storage()), env, Action.DeleteL2Outputs(index)))
      ensures Ledger() == Step(old(Ledger()), Event(env, Action.DeleteL2Outputs(index)))
    {
      now := env.timestamp;
      :- Need(env.sender == challenger, NotChallenger);
      :- Need(index < outputsLength, IndexTooLarge);
      var age :- CheckedSub(env.timestamp, outputSlots[index].timestamp);
      :- Need(age < finalizationPeriodSeconds, AlreadyFinalized);
      outputsLength := index;
      assert Prefix(outputSlots, outputsLength) == old(Prefix(outputSlots, outputsLength))[..index];
      return Success(());
    }

    /** The `require`s of `proposeL2Output`, the array read at line 305 and the verifier's call. */
    method CheckProposal(env: Env, p: Proposal) returns (r: Result<PublicValues, Revert>)
      requires Valid()
      ensures r == CheckedProposal(Storage(), env, p)
    {
      var mayPropose := env.sender == proposer || proposer == ZERO_ADDRESS;
      :- Need(mayPropose, NotProposer);
      var next :- NextBlockNumber();
      :- Need(p.l2BlockNumber >= next, BlockNumberTooLow);
      var l2Timestamp :- ComputeL2Timestamp(p.l2BlockNumber);
      :- Need(l2Timestamp < env.timestamp, OutputInFuture);
      :- Need(p.outputRoot != ZERO_HASH, ZeroOutputRoot);
      :- Need(vkey != ZERO_HASH, VKeyNotSet);
      var checkpoint :=
        if p.l1BlockNumber in historicBlockHashes then historicBlockHashes[p.l1BlockNumber] else ZERO_HASH;
      :- Need(checkpoint == p.l1BlockHash, NotCheckpointed);
      :- Need(outputsLength >= 1, Underflow);
      var values := PublicValues(
        p.l1BlockHash, outputSlots[outputsLength - 1].outputRoot, p.outputRoot, p.l2BlockNumber, chainId);
      :- Need(env.verify(verifierGateway, vkey, SolidityEncode(values), p.proof), ProofRejected);
      return Success(values);
    }

    method ProposeL2Output(env: Env, p: Proposal) returns (r: Result<(), Revert>)
      requires Valid()
      modifies this`outputsLength, this`outputSlots, this`now, this`proofs
      ensures Valid() && r == Status(Apply(old(Storage()), env, Action.ProposeL2Output(p)))
      ensures Ledger() == Step(old(Ledger()), Event(env, Action.ProposeL2Output(p)))
    {
      now := env.timestamp;
      var values :- CheckProposal(env, p);
      proofs := proofs + [AcceptedProof(verifierGateway, vkey, values)];
      Push(OutputProposal(p.outputRoot, Cast128(env.timestamp), Cast128(p.l2BlockNumber)));
      return Success(());
    }

    method CheckpointBlockHash(env: Env, n: uint256, hash: B256) returns (r: Result<(), Revert>)
      requires Valid()
      modifies this`historicBlockHashes, this`now
      ensures Valid() && r == Status(Apply(old(Storage()), env, Action.CheckpointBlockHash(n, hash)))
      ensures Ledger() == Step(old(Ledger()), Event(env, Action.CheckpointBlockHash(n, hash)))
    {
      now := env.timestamp;
      :- Need(BlockHash(env, n) == hash, BlockHashMismatch);
      historicBlockHashes := historicBlockHashes[n := hash];
      return Success(());
    }

    lemma BoundaryIsLookup(n: uint256, k: nat)
      requires Valid() && k < outputsLength && n <= LatestBlockNumber()
      requires n <= outputSlots[k].l2BlockNumber && (k > 0 ==> outputSlots[k - 1].l2BlockNumber < n)
      ensures Sorted(Storage().l2Outputs) ==> Lookup(Storage(), n) == Success(k)
    {
      if Sorted(Storage().l2Outputs) {
        BoundaryIsFirst(Storage().l2Outputs, n, k);
      }
    }

    /** The binary search reads no order: on any log it reverts exactly when no output reaches `n`
        by the latest one, and otherwise ends at a boundary, which in an ordered log is the first
        output at or after `n`. */
    method GetL2OutputIndexAfter(n: uint256) returns (r: Result<nat, Revert>)
      requires Valid()
      ensures r.Failure? <==> n > LatestBlockNumber() || outputsLength == 0
      ensures r.Failure? ==> r.error == if n > LatestBlockNumber() then NotYetProposed else NoOutputs
      ensures r.Success? ==>
        && r.value < outputsLength
        && n <= outputSlots[r.value].l2BlockNumber
        && (r.value > 0 ==> outputSlots[r.value - 1].l2BlockNumber < n)
      ensures Sorted(Storage().l2Outputs) ==> r == Lookup(Storage(), n)
    {
      var latest := LatestBlockNumber();
      :- Need(n <= latest, NotYetProposed);
      :- Need(outputsLength > 0, NoOutputs);
      var lo, hi := 0, outputsLength;
      while lo < hi
        invariant 0 <= lo <= hi <= outputsLength
        invariant lo > 0 ==> outputSlots[lo - 1].l2BlockNumber < n
        invariant hi < outputsLength ==> n <= outputSlots[hi].l2BlockNumber
      {
        var mid := (lo + hi) / 2;
        if outputSlots[mid].l2BlockNumber < n {
          lo := mid + 1;
        } else {
          hi := mid;
        }
      }
      BoundaryIsLookup(n, lo);
      return Success(lo);
    }
  }
}
