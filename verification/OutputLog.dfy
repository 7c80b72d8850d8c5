/** The storage of `ZKL2OutputOracle` and what each transaction does to it, as functions on values.
    Solidity 0.8 arithmetic is checked, so every overflow, underflow and bad index is a revert;
    the `uint128` casts are not checked and truncate. */
module OutputLog {
  import opened Wrappers
  import opened Words
  import opened BootInfo

  type Address = x: int | 0 <= x < 0x1_00000000_00000000_00000000_00000000_00000000

  const ZERO_ADDRESS: Address := 0
  const BLOCKHASH_WINDOW: nat := 256

  /** The version that `reinitializer(2)` records. */
  const VERSION: nat := 2

  datatype OutputProposal = OutputProposal(outputRoot: B256, timestamp: uint128, l2BlockNumber: uint128)

  datatype State = State(
    initialized: nat,
    startingBlockNumber: uint256,
    startingTimestamp: uint256,
    l2Outputs: seq<OutputProposal>,
    submissionInterval: uint256,
    l2BlockTime: uint256,
    challenger: Address,
    proposer: Address,
    finalizationPeriodSeconds: uint256,
    chainId: uint256,
    vkey: B256,
    verifierGateway: Address,
    owner: Address,
    historicBlockHashes: map<uint256, B256>)

  /** What a transaction sees: its sender, the block time, the hashes of all L1 blocks before its
      own, and the answer of the external verifier (gateway, vkey, public values, proof). */
  datatype Env = Env(
    sender: Address,
    timestamp: uint256,
    ancestors: seq<B256>,
    verify: (Address, B256, Bytes, Bytes) -> bool)

  datatype InitParams = InitParams(
    submissionInterval: uint256,
    l2BlockTime: uint256,
    startingBlockNumber: uint256,
    startingTimestamp: uint256,
    proposer: Address,
    challenger: Address,
    finalizationPeriodSeconds: uint256,
    chainId: uint256,
    vkey: B256,
    verifierGateway: Address,
    startingOutputRoot: B256,
    owner: Address)

  datatype Proposal = Proposal(
    outputRoot: B256,
    l2BlockNumber: uint256,
    l1BlockHash: B256,
    l1BlockNumber: uint256,
    proof: Bytes)

  datatype Action =
    | Initialize(params: InitParams)
    | DeleteL2Outputs(index: uint256)
    | ProposeL2Output(proposal: Proposal)
    | CheckpointBlockHash(blockNumber: uint256, blockHash: B256)
    | TransferOwnership(newOwner: Address)
    | UpdateVKey(newVKey: B256)
    | UpdateVerifierGateway(newGateway: Address)

  datatype Revert =
    | AlreadyInitialized | BadSubmissionInterval | BadBlockTime | StartsInFuture
    | NotChallenger | NotProposer | NotOwner
    | IndexTooLarge | AlreadyFinalized
    | BlockNumberTooLow | OutputInFuture | ZeroOutputRoot | VKeyNotSet | NotCheckpointed | ProofRejected
    | BlockHashMismatch
    | NotYetProposed | NoOutputs
    | Underflow | Overflow

  function Cast128(n: nat): uint128 {
    n % U128
  }

  function CheckedAdd(a: uint256, b: uint256): Result<uint256, Revert> {
    if a + b < U256 then Success(a + b) else Failure(Overflow)
  }

  function CheckedSub(a: uint256, b: uint256): Result<uint256, Revert> {
    if b <= a then Success(a - b) else Failure(Underflow)
  }

  function CheckedMul(a: uint256, b: uint256): Result<uint256, Revert> {
    if a * b < U256 then Success(a * b) else Failure(Overflow)
  }

  function LatestBlockNumber(s: State): uint256 {
    if s.l2Outputs == [] then s.startingBlockNumber else s.l2Outputs[|s.l2Outputs| - 1].l2BlockNumber
  }

  function NextBlockNumber(s: State): Result<uint256, Revert> {
    CheckedAdd(LatestBlockNumber(s), s.submissionInterval)
  }

  function ComputeL2Timestamp(s: State, l2BlockNumber: uint256): Result<uint256, Revert> {
    var blocks :- CheckedSub(l2BlockNumber, s.startingBlockNumber);
    var elapsed :- CheckedMul(blocks, s.l2BlockTime);
    CheckedAdd(s.startingTimestamp, elapsed)
  }

  /** `blockhash(n)`: zero unless block `n` is one of the last 256. */
  function BlockHash(env: Env, n: uint256): B256 {
    if n < |env.ancestors| <= n + BLOCKHASH_WINDOW then env.ancestors[n] else ZERO_HASH
  }

  function HistoricBlockHash(s: State, n: uint256): B256 {
    if n in s.historicBlockHashes then s.historicBlockHashes[n] else ZERO_HASH
  }

  function WithConfig(s: State, p: InitParams): State {
    s.(initialized := VERSION,
       submissionInterval := p.submissionInterval,
       l2BlockTime := p.l2BlockTime,
       proposer := p.proposer,
       challenger := p.challenger,
       finalizationPeriodSeconds := p.finalizationPeriodSeconds)
  }

  function WithStart(s: State, p: InitParams): State {
    var seed := OutputProposal(p.startingOutputRoot, Cast128(p.startingTimestamp), Cast128(p.startingBlockNumber));
    s.(l2Outputs := [seed],
       startingBlockNumber := p.startingBlockNumber,
       startingTimestamp := p.startingTimestamp)
  }

  function WithZKConfig(s: State, p: InitParams): State {
    s.(chainId := p.chainId,
       owner := p.owner,
       vkey := p.vkey,
       verifierGateway := p.verifierGateway)
  }

  function ApplyInitialize(s: State, env: Env, p: InitParams): Result<State, Revert> {
    var configured := WithConfig(s, p);
    :- Need(s.initialized < VERSION, AlreadyInitialized);
    :- Need(p.submissionInterval > 0, BadSubmissionInterval);
    :- Need(p.l2BlockTime > 0, BadBlockTime);
    :- Need(p.startingTimestamp <= env.timestamp, StartsInFuture);
    Success(WithZKConfig(if s.l2Outputs == [] then WithStart(configured, p) else configured, p))
  }

  function ApplyDelete(s: State, env: Env, index: uint256): Result<State, Revert> {
    var outs := s.l2Outputs;
    :- Need(env.sender == s.challenger, NotChallenger);
    :- Need(index < |outs|, IndexTooLarge);
    var age :- CheckedSub(env.timestamp, outs[index].timestamp);
    :- Need(age < s.finalizationPeriodSeconds, AlreadyFinalized);
    Success(s.(l2Outputs := outs[..index]))
  }

  /** The statement that a proposal's proof must prove; it continues from the latest output. */
  function ClaimedValues(s: State, p: Proposal): PublicValues
    requires s.l2Outputs != []
  {
    PublicValues(p.l1BlockHash, s.l2Outputs[|s.l2Outputs| - 1].outputRoot, p.outputRoot, p.l2BlockNumber, s.chainId)
  }

  /** All that `proposeL2Output` requires, in order; what the proof proved, if nothing reverts. */
  function CheckedProposal(s: State, env: Env, p: Proposal): (r: Result<PublicValues, Revert>)
    ensures r.Success? ==> s.l2Outputs != [] && r.value == ClaimedValues(s, p)
  {
    var mayPropose := env.sender == s.proposer || s.proposer == ZERO_ADDRESS;
    :- Need(mayPropose, NotProposer);
    var next :- NextBlockNumber(s);
    :- Need(p.l2BlockNumber >= next, BlockNumberTooLow);
    var l2Timestamp :- ComputeL2Timestamp(s, p.l2BlockNumber);
    :- Need(l2Timestamp < env.timestamp, OutputInFuture);
    :- Need(p.outputRoot != ZERO_HASH, ZeroOutputRoot);
    :- Need(s.vkey != ZERO_HASH, VKeyNotSet);
    :- Need(HistoricBlockHash(s, p.l1BlockNumber) == p.l1BlockHash, NotCheckpointed);
    :- Need(s.l2Outputs != [], Underflow);
    var values := ClaimedValues(s, p);
    :- Need(env.verify(s.verifierGateway, s.vkey, SolidityEncode(values), p.proof), ProofRejected);
    Success(values)
  }

  function Recorded(env: Env, p: Proposal): OutputProposal {
    OutputProposal(p.outputRoot, Cast128(env.timestamp), Cast128(p.l2BlockNumber))
  }

  function ApplyPropose(s: State, env: Env, p: Proposal): Result<State, Revert> {
    var values :- CheckedProposal(s, env, p);
    Success(s.(l2Outputs := s.l2Outputs + [Recorded(env, p)]))
  }

  function ApplyCheckpoint(s: State, env: Env, n: uint256, hash: B256): Result<State, Revert> {
    if BlockHash(env, n) == hash then Success(s.(historicBlockHashes := s.historicBlockHashes[n := hash]))
    else Failure(BlockHashMismatch)
  }

  function Apply(s: State, env: Env, a: Action): Result<State, Revert> {
    match a
    case Initialize(p) => ApplyInitialize(s, env, p)
    case DeleteL2Outputs(index) => ApplyDelete(s, env, index)
    case ProposeL2Output(p) => ApplyPropose(s, env, p)
    case CheckpointBlockHash(n, hash) => ApplyCheckpoint(s, env, n, hash)
    case TransferOwnership(newOwner) =>
      if env.sender == s.owner then Success(s.(owner := newOwner)) else Failure(NotOwner)
    case UpdateVKey(newVKey) =>
      if env.sender == s.owner then Success(s.(vkey := newVKey)) else Failure(NotOwner)
    case UpdateVerifierGateway(newGateway) =>
      if env.sender == s.owner then Success(s.(verifierGateway := newGateway)) else Failure(NotOwner)
  }

  /** A proof that the verifier accepted: which gateway and key checked it, and what it states. */
  datatype AcceptedProof = AcceptedProof(gateway: Address, vkey: B256, values: PublicValues)

  /** The contract with what a run of it has seen: the time, and every proof accepted so far. */
  datatype Ledger = Ledger(s: State, now: nat, proofs: seq<AcceptedProof>)

  datatype Event = Event(env: Env, action: Action)

  /** One transaction. A revert changes nothing but the time. */
  function Step(l: Ledger, e: Event): Ledger {
    match Apply(l.s, e.env, e.action)
    case Failure(_) => l.(now := e.env.timestamp)
    case Success(s) =>
      var proofs :=
        if e.action.ProposeL2Output? && l.s.l2Outputs != [] then
          l.proofs + [AcceptedProof(l.s.verifierGateway, l.s.vkey, ClaimedValues(l.s, e.action.proposal))]
        else l.proofs;
      Ledger(s, e.env.timestamp, proofs)
  }

  function Run(l: Ledger, events: seq<Event>): Ledger
    decreases |events|
  {
    if events == [] then l else Run(Step(l, events[0]), events[1..])
  }

  /** Block time never goes back, and every transaction's ancestors are a prefix of one L1 chain. */
  predicate Timely(now: nat, events: seq<Event>)
    decreases |events|
  {
    events == [] || (now <= events[0].env.timestamp && Timely(events[0].env.timestamp, events[1..]))
  }

  predicate OnL1(l1: seq<B256>, events: seq<Event>) {
    forall i :: 0 <= i < |events| ==> events[i].env.ancestors <= l1
  }
}
