/** What each transaction of the contract answers and leaves behind, as its callers see it: in unbounded
    arithmetic, with the constants and the verified bytes spelled out. */
module OutputLogSteps {
  import opened Wrappers
  import opened Words
  import opened BootInfo
  import opened OutputLog

  // ---------------------------------------------------------------- proposals

  /** The five words that a proposal's proof must prove, as bytes. */
  function StatementBytes(s: State, p: Proposal): Bytes
    requires s.l2Outputs != []
  {
    p.l1BlockHash + s.l2Outputs[|s.l2Outputs| - 1].outputRoot + p.outputRoot + Word(p.l2BlockNumber) + Word(s.chainId)
  }

  predicate Checkpointed(s: State, n: uint256, hash: B256) {
    if n in s.historicBlockHashes then s.historicBlockHashes[n] == hash else hash == Word(0)
  }

  /** The L2 time of a block by the configured start, without the width. */
  function L2Time(s: State, n: nat): int {
    s.startingTimestamp + (n - s.startingBlockNumber) * s.l2BlockTime
  }

  /** The checked arithmetic gives that time, or reverts where it has no width for it. */
  lemma L2TimeExactly(s: State, n: uint256)
    ensures ComputeL2Timestamp(s, n) ==
            if n < s.startingBlockNumber then Failure(Underflow)
            else if L2Time(s, n) < U256 then Success(L2Time(s, n)) else Failure(Overflow)
  {
    if s.startingBlockNumber <= n {
      assert (n - s.startingBlockNumber) * s.l2BlockTime >= 0;
    }
  }

  /** A proposal is accepted exactly when its sender may propose, it is at least an interval above the
      latest output, its block is past, root and key are set, its L1 hash is checkpointed, and the current
      gateway verifies its proof of the five words under the current key. No check refuses more than
      that by its limited width. */
  lemma ProposalAcceptedExactly(s: State, env: Env, p: Proposal)
    ensures ApplyPropose(s, env, p).Success? <==>
            && (env.sender == s.proposer || s.proposer == 0)
            && s.l2Outputs != []
            && s.l2Outputs[|s.l2Outputs| - 1].l2BlockNumber + s.submissionInterval <= p.l2BlockNumber
            && s.startingBlockNumber <= p.l2BlockNumber
            && L2Time(s, p.l2BlockNumber) < env.timestamp
            && p.outputRoot != Word(0)
            && s.vkey != Word(0)
            && Checkpointed(s, p.l1BlockNumber, p.l1BlockHash)
            && env.verify(s.verifierGateway, s.vkey, StatementBytes(s, p), p.proof)
  {
    if s.startingBlockNumber <= p.l2BlockNumber {
      assert (p.l2BlockNumber - s.startingBlockNumber) * s.l2BlockTime >= 0;
    }
  }

  /** The first check that a proposal fails, in the contract's order. */
  function Refusal(s: State, env: Env, p: Proposal): Revert {
    var latest := if s.l2Outputs == [] then s.startingBlockNumber else s.l2Outputs[|s.l2Outputs| - 1].l2BlockNumber;
    if env.sender != s.proposer && s.proposer != 0 then NotProposer
    else if latest + s.submissionInterval >= U256 then Overflow
    else if p.l2BlockNumber < latest + s.submissionInterval then BlockNumberTooLow
    else if p.l2BlockNumber < s.startingBlockNumber then Underflow
    else if L2Time(s, p.l2BlockNumber) >= U256 then Overflow
    else if L2Time(s, p.l2BlockNumber) >= env.timestamp then OutputInFuture
    else if p.outputRoot == Word(0) then ZeroOutputRoot
    else if s.vkey == Word(0) then VKeyNotSet
    else if !Checkpointed(s, p.l1BlockNumber, p.l1BlockHash) then NotCheckpointed
    else if s.l2Outputs == [] then Underflow
    else ProofRejected
  }

  lemma ProposalRefusal(s: State, env: Env, p: Proposal)
    requires ApplyPropose(s, env, p).Failure?
    ensures ApplyPropose(s, env, p).error == Refusal(s, env, p)
  {
    L2TimeExactly(s, p.l2BlockNumber);
    if CheckedProposal(s, env, p).Failure? {
      CheckedRefusal(s, env, p);
    }
  }

  lemma CheckedRefusal(s: State, env: Env, p: Proposal)
    requires CheckedProposal(s, env, p).Failure?
    ensures CheckedProposal(s, env, p).error == Refusal(s, env, p)
  {
    L2TimeExactly(s, p.l2BlockNumber);
  }

  /** An accepted proposal adds one output and touches nothing else. */
  lemma ProposalEffect(s: State, env: Env, p: Proposal)
    requires ApplyPropose(s, env, p).Success?
    ensures var t := ApplyPropose(s, env, p).value;
            && t.(l2Outputs := s.l2Outputs) == s
            && |t.l2Outputs| == |s.l2Outputs| + 1 && s.l2Outputs <= t.l2Outputs
            && t.l2Outputs[|s.l2Outputs|].outputRoot == p.outputRoot
            && Truncated(env.timestamp, t.l2Outputs[|s.l2Outputs|].timestamp)
            && Truncated(p.l2BlockNumber, t.l2Outputs[|s.l2Outputs|].l2BlockNumber)
  {
    CastTruncates(env.timestamp);
    CastTruncates(p.l2BlockNumber);
  }

  /** `m` is the low half of the word `n`. */
  ghost predicate Truncated(n: nat, m: nat) {
    m < U128 && exists high: nat :: n == high * U128 + m
  }

  lemma CastTruncates(n: nat)
    ensures Truncated(n, Cast128(n))
  {
    var high: nat := n / U128;
    assert n == high * U128 + Cast128(n);
  }

  // ---------------------------------------------------------------- deletions

  /** A deletion is the challenger's alone, of an existing output younger than the finalization period; it
      keeps exactly the outputs below the index, and nothing else changes. */
  lemma DeletionExactly(s: State, env: Env, index: uint256)
    ensures ApplyDelete(s, env, index).Success? <==>
            && env.sender == s.challenger
            && index < |s.l2Outputs|
            && s.l2Outputs[index].timestamp <= env.timestamp
            && env.timestamp < s.l2Outputs[index].timestamp + s.finalizationPeriodSeconds
    ensures ApplyDelete(s, env, index).Success? ==>
            var t := ApplyDelete(s, env, index).value;
            && t.(l2Outputs := s.l2Outputs) == s && t.l2Outputs == s.l2Outputs[..index]
            && LatestBlockNumber(t)
               == (if index == 0 then s.startingBlockNumber else s.l2Outputs[index - 1].l2BlockNumber)
    ensures ApplyDelete(s, env, index).Failure? ==>
            ApplyDelete(s, env, index).error ==
              if env.sender != s.challenger then NotChallenger
              else if index >= |s.l2Outputs| then IndexTooLarge
              else if env.timestamp < s.l2Outputs[index].timestamp then Underflow
              else AlreadyFinalized
  {
  }

  // ---------------------------------------------------------------- checkpoints

  /** Block `n` is one of the 256 before the current one. */
  predicate Recent(env: Env, n: nat) {
    n < |env.ancestors| && |env.ancestors| - n <= 256
  }

  /** A checkpoint of a recent block is accepted with its hash alone, and of any other with zero alone; it
      is what later proposals find for that block, and nothing else changes. */
  lemma CheckpointExactly(s: State, env: Env, n: uint256, hash: B256)
    ensures ApplyCheckpoint(s, env, n, hash) ==
            if hash == (if Recent(env, n) then env.ancestors[n] else Word(0))
            then Success(s.(historicBlockHashes := s.historicBlockHashes[n := hash]))
            else Failure(BlockHashMismatch)
    ensures ApplyCheckpoint(s, env, n, hash).Success? ==>
            var t := ApplyCheckpoint(s, env, n, hash).value;
            forall m: uint256, h: B256 :: Checkpointed(t, m, h) <==> if m == n then h == hash else Checkpointed(s, m, h)
  {
  }

  // ---------------------------------------------------------------- initialization

  /** Who may initialize when, and the first check that fails. */
  lemma InitializeAcceptedExactly(s: State, env: Env, p: InitParams)
    ensures ApplyInitialize(s, env, p).Success? <==>
            s.initialized < 2 && p.submissionInterval > 0 && p.l2BlockTime > 0 && p.startingTimestamp <= env.timestamp
    ensures ApplyInitialize(s, env, p).Failure? ==>
            ApplyInitialize(s, env, p).error ==
              if s.initialized >= 2 then AlreadyInitialized
              else if p.submissionInterval == 0 then BadSubmissionInterval
              else if p.l2BlockTime == 0 then BadBlockTime
              else StartsInFuture
  {
  }

  /** After an upgrade the outputs and the starting point are as found; after a fresh deployment they are
      the parameters'. Checkpoints are kept. */
  lemma InitializedLog(s: State, env: Env, p: InitParams)
    requires ApplyInitialize(s, env, p).Success?
    ensures var t := ApplyInitialize(s, env, p).value;
            && t.historicBlockHashes == s.historicBlockHashes
            && (if s.l2Outputs != [] then
                  && t.l2Outputs == s.l2Outputs
                  && t.startingBlockNumber == s.startingBlockNumber && t.startingTimestamp == s.startingTimestamp
                else
                  && |t.l2Outputs| == 1 && t.l2Outputs[0].outputRoot == p.startingOutputRoot
                  && Truncated(p.startingTimestamp, t.l2Outputs[0].timestamp)
                  && Truncated(p.startingBlockNumber, t.l2Outputs[0].l2BlockNumber)
                  && t.startingBlockNumber == p.startingBlockNumber && t.startingTimestamp == p.startingTimestamp)
  {
    CastTruncates(p.startingTimestamp);
    CastTruncates(p.startingBlockNumber);
  }

  /** An initialized contract is not initialized again. */
  lemma InitializedOnce(s: State, env: Env, p: InitParams, later: Env, q: InitParams)
    requires ApplyInitialize(s, env, p).Success?
    ensures ApplyInitialize(ApplyInitialize(s, env, p).value, later, q) == Failure(AlreadyInitialized)
  {
  }

  /** The given challenger alone can delete, for the given period: of what is there, exactly the outputs
      younger than that. */
  lemma InitializedDeletions(s: State, env: Env, p: InitParams, later: Env, index: uint256)
    requires ApplyInitialize(s, env, p).Success?
    ensures var t := ApplyInitialize(s, env, p).value;
            ApplyDelete(t, later, index).Success? <==>
              && later.sender == p.challenger
              && index < |t.l2Outputs|
              && t.l2Outputs[index].timestamp <= later.timestamp
              && later.timestamp < t.l2Outputs[index].timestamp + p.finalizationPeriodSeconds
  {
    DeletionExactly(ApplyInitialize(s, env, p).value, later, index);
  }

  /** The given proposer alone can propose, or anyone if it is zero; the next output is due by the given
      interval and block time; its proof is verified by the given gateway under the given key, of a
      statement that continues from the latest root on the given chain. */
  lemma InitializedProposals(s: State, env: Env, p: InitParams, later: Env, q: Proposal)
    requires ApplyInitialize(s, env, p).Success?
    ensures var t := ApplyInitialize(s, env, p).value;
            var last := t.l2Outputs[|t.l2Outputs| - 1];
            && (later.sender != p.proposer && p.proposer != 0 ==> ApplyPropose(t, later, q) == Failure(NotProposer))
            && (ApplyPropose(t, later, q).Success? <==>
                  && (later.sender == p.proposer || p.proposer == 0)
                  && last.l2BlockNumber + p.submissionInterval <= q.l2BlockNumber
                  && t.startingBlockNumber <= q.l2BlockNumber
                  && t.startingTimestamp + (q.l2BlockNumber - t.startingBlockNumber) * p.l2BlockTime < later.timestamp
                  && q.outputRoot != Word(0) && p.vkey != Word(0)
                  && Checkpointed(s, q.l1BlockNumber, q.l1BlockHash)
                  && later.verify(
                       p.verifierGateway, p.vkey,
                       q.l1BlockHash + last.outputRoot + q.outputRoot + Word(q.l2BlockNumber) + Word(p.chainId),
                       q.proof))
  {
    var t := ApplyInitialize(s, env, p).value;
    InitializedLog(s, env, p);
    ProposalAcceptedExactly(t, later, q);
    if ApplyPropose(t, later, q).Failure? {
      ProposalRefusal(t, later, q);
    }
  }

  /** What the two public computations answer on a fresh deployment. */
  lemma InitializedNumbers(s: State, env: Env, p: InitParams, n: uint256)
    requires s.l2Outputs == [] && ApplyInitialize(s, env, p).Success? && p.startingBlockNumber < U128
    ensures var t := ApplyInitialize(s, env, p).value;
            && LatestBlockNumber(t) == p.startingBlockNumber
            && NextBlockNumber(t) == (
                 var next := p.startingBlockNumber + p.submissionInterval;
                 if next < U256 then Success(next) else Failure(Overflow))
            && ComputeL2Timestamp(t, n) == (
                 if n < p.startingBlockNumber then Failure(Underflow)
                 else
                   var time := p.startingTimestamp + (n - p.startingBlockNumber) * p.l2BlockTime;
                   if time < U256 then Success(time) else Failure(Overflow))
  {
    L2TimeExactly(ApplyInitialize(s, env, p).value, n);
  }

  // ---------------------------------------------------------------- the owner

  /** The owner's transactions are the owner's alone, the given one's after `initialize`. */
  lemma OwnerAlone(s: State, env: Env, p: InitParams, later: Env, a: Action)
    requires ApplyInitialize(s, env, p).Success?
    requires a.TransferOwnership? || a.UpdateVKey? || a.UpdateVerifierGateway?
    ensures Apply(ApplyInitialize(s, env, p).value, later, a).Success? <==> later.sender == p.owner
    ensures later.sender != p.owner ==> Apply(ApplyInitialize(s, env, p).value, later, a) == Failure(NotOwner)
  {
  }

  /** Each sets what it names: who owns next, and what verifies the next proposal. */
  lemma OwnerEffects(s: State, env: Env, a: Action, next: Env, p: Proposal)
    requires Apply(s, env, a).Success? && s.l2Outputs != []
    ensures var t := Apply(s, env, a).value;
            match a
            case TransferOwnership(o) =>
              && t.(owner := s.owner) == s
              && (Apply(t, next, UpdateVKey(Word(0))).Success? <==> next.sender == o)
            case UpdateVKey(key) =>
              && t.(vkey := s.vkey) == s
              && (ApplyPropose(t, next, p).Success? ==>
                    next.verify(s.verifierGateway, key, StatementBytes(s, p), p.proof))
            case UpdateVerifierGateway(gateway) =>
              && t.(verifierGateway := s.verifierGateway) == s
              && (ApplyPropose(t, next, p).Success? ==>
                    next.verify(gateway, s.vkey, StatementBytes(s, p), p.proof))
            case _ => true
  {
    var t := Apply(s, env, a).value;
    ProposalAcceptedExactly(t, next, p);
  }

  // ---------------------------------------------------------------- a step of the ledger

  /** A transaction that reverts leaves everything but the time, and one that does not leaves its state and
      a proof record exactly if it was a proposal. */
  lemma StepExactly(l: Ledger, e: Event)
    ensures Step(l, e).now == e.env.timestamp
    ensures Apply(l.s, e.env, e.action).Failure? ==> Step(l, e).s == l.s && Step(l, e).proofs == l.proofs
    ensures Apply(l.s, e.env, e.action).Success? ==>
      && Step(l, e).s == Apply(l.s, e.env, e.action).value
      && l.proofs <= Step(l, e).proofs
      && |Step(l, e).proofs| == |l.proofs| + if e.action.ProposeL2Output? then 1 else 0
  {
  }

  /** The record `r` is of a proposal among these events, whose proof the gateway in its record verified of
      the recorded statement, under the recorded key. */
  ghost predicate VerifiedAmong(events: seq<Event>, r: AcceptedProof) {
    exists i :: 0 <= i < |events| && VerifiedBy(events[i], r)
  }

  predicate VerifiedBy(e: Event, r: AcceptedProof) {
    && e.action.ProposeL2Output?
    && e.env.verify(r.gateway, r.vkey, SolidityEncode(r.values), e.action.proposal.proof)
  }

  lemma StepVerifies(l: Ledger, e: Event)
    requires |Step(l, e).proofs| > |l.proofs|
    ensures VerifiedBy(e, Step(l, e).proofs[|l.proofs|])
    ensures Step(l, e).proofs[|l.proofs|].gateway == l.s.verifierGateway
    ensures Step(l, e).proofs[|l.proofs|].vkey == l.s.vkey
    ensures l.s.l2Outputs != [] && SolidityEncode(Step(l, e).proofs[|l.proofs|].values)
                                    == StatementBytes(l.s, e.action.proposal)
  {
    ProposalAcceptedExactly(l.s, e.env, e.action.proposal);
  }

  /** In every run each recorded proof was there before or was verified in one of the run's proposals. */
  lemma {:induction false} RunVerifies(l: Ledger, events: seq<Event>, k: nat)
    requires k < |Run(l, events).proofs|
    ensures l.proofs <= Run(l, events).proofs
    ensures k < |l.proofs| || VerifiedAmong(events, Run(l, events).proofs[k])
    decreases |events|
  {
    if events != [] {
      var next := Step(l, events[0]);
      StepExactly(l, events[0]);
      RunVerifies(next, events[1..], k);
      if k >= |next.proofs| {
        var i :| 0 <= i < |events[1..]| && VerifiedBy(events[1..][i], Run(l, events).proofs[k]);
        assert VerifiedBy(events[i + 1], Run(l, events).proofs[k]);
      } else if k >= |l.proofs| {
        StepVerifies(l, events[0]);
        assert VerifiedBy(events[0], Run(l, events).proofs[k]);
      }
    }
  }
}
