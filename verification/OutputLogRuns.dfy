/** What every run of the output log keeps: order, finality, stable lookups, the growth bound,
    lossless casts, checkpoint soundness, and one accepted proof behind every link. */
module OutputLogRuns {
  import opened Wrappers
  import opened Words
  import opened BootInfo
  import opened OutputLog

  ghost predicate Sorted(outs: seq<OutputProposal>) {
    forall i, j :: 0 <= i < j < |outs| ==>
      outs[i].l2BlockNumber < outs[j].l2BlockNumber && outs[i].timestamp <= outs[j].timestamp
  }

  /** The invariant of the log's contents: what an upgrade must find, and every step keeps. */
  ghost predicate WellOrdered(s: State, now: nat) {
    && Sorted(s.l2Outputs)
    && forall i :: 0 <= i < |s.l2Outputs| ==>
      s.startingBlockNumber <= s.l2Outputs[i].l2BlockNumber && s.l2Outputs[i].timestamp <= now
  }

  ghost predicate Inv(l: Ledger) {
    && l.s.initialized >= VERSION
    && l.s.submissionInterval > 0
    && l.s.l2BlockTime > 0
    && WellOrdered(l.s, l.now)
  }

  /** The clock bound under which the `uint128` casts lose nothing. */
  predicate Fits(s: State, now: nat) {
    s.startingBlockNumber + now < U128
  }

  ghost predicate SameConfig(s: State, t: State) {
    && s.startingBlockNumber == t.startingBlockNumber
    && s.startingTimestamp == t.startingTimestamp
    && s.submissionInterval == t.submissionInterval
    && s.l2BlockTime == t.l2BlockTime
    && s.challenger == t.challenger
    && s.proposer == t.proposer
    && s.finalizationPeriodSeconds == t.finalizationPeriodSeconds
    && s.chainId == t.chainId
    && s.initialized == t.initialized
  }

  // ---------------------------------------------------------------- starting states

  /** The casts of `initialize` keep its two starting values exactly when both are below 2^128. */
  lemma InitializeCasts(s: State, env: Env, p: InitParams)
    requires s.l2Outputs == [] && ApplyInitialize(s, env, p).Success?
    ensures var out := ApplyInitialize(s, env, p).value.l2Outputs[0];
            (out.timestamp == p.startingTimestamp && out.l2BlockNumber == p.startingBlockNumber)
            <==> (p.startingTimestamp < U128 && p.startingBlockNumber < U128)
  {
  }

  lemma FreshDeployment(s: State, env: Env, p: InitParams)
    requires s.l2Outputs == [] && ApplyInitialize(s, env, p).Success?
    requires p.startingBlockNumber + env.timestamp < U128
    ensures var l := Ledger(ApplyInitialize(s, env, p).value, env.timestamp, []);
            Inv(l) && Spaced(l.s) && Backed(l, 0) && Fits(l.s, l.now)
            && l.s.l2Outputs == [OutputProposal(p.startingOutputRoot, p.startingTimestamp, p.startingBlockNumber)]
  {
  }

  /** An upgrade keeps the outputs it finds, and needs them well ordered. */
  lemma UpgradeDeployment(s: State, env: Env, p: InitParams, now: nat)
    requires s.l2Outputs != [] && WellOrdered(s, now) && now <= env.timestamp
    requires ApplyInitialize(s, env, p).Success?
    ensures var l := Ledger(ApplyInitialize(s, env, p).value, env.timestamp, []);
            Inv(l) && Backed(l, |s.l2Outputs| - 1) && l.s.l2Outputs == s.l2Outputs
  {
  }

  // ---------------------------------------------------------------- order

  lemma ProductAtLeast(a: nat, b: nat)
    requires b > 0
    ensures a <= a * b
  {
  }

  lemma L2TimestampValue(s: State, n: uint256)
    requires s.l2BlockTime > 0 && ComputeL2Timestamp(s, n).Success?
    ensures s.startingBlockNumber <= n && ComputeL2Timestamp(s, n).value == BlockTime(s, n)
    ensures n - s.startingBlockNumber <= ComputeL2Timestamp(s, n).value
  {
    if s.startingBlockNumber <= n {
      ProductAtLeast(n - s.startingBlockNumber, s.l2BlockTime);
    }
  }

  /** `l2BlockTime > 0` and the future-block guard bound an accepted block number by the clock. */
  lemma AcceptedBlockNumberBound(s: State, env: Env, p: Proposal)
    requires s.l2BlockTime > 0 && ApplyPropose(s, env, p).Success?
    ensures s.startingBlockNumber <= p.l2BlockNumber < s.startingBlockNumber + env.timestamp
    ensures BlockTime(s, p.l2BlockNumber) < env.timestamp
    ensures LatestBlockNumber(s) + s.submissionInterval <= p.l2BlockNumber
  {
    L2TimestampValue(s, p.l2BlockNumber);
  }

  lemma CastExact(n: nat)
    requires n < U128
    ensures Cast128(n) == n
  {
  }

  lemma ProposalAppends(s: State, env: Env, p: Proposal)
    requires ApplyPropose(s, env, p).Success?
    ensures ApplyPropose(s, env, p).value == s.(l2Outputs := s.l2Outputs + [Recorded(env, p)])
    ensures s.l2Outputs != []
  {
  }

  /** Every accepted proposal stores exactly the number and time it was checked and proved with. */
  lemma LosslessCasts(l: Ledger, env: Env, p: Proposal)
    requires Inv(l) && Fits(l.s, env.timestamp) && ApplyPropose(l.s, env, p).Success?
    ensures p.l2BlockNumber < U128 && env.timestamp < U128
    ensures ApplyPropose(l.s, env, p).value
            == l.s.(l2Outputs := l.s.l2Outputs + [OutputProposal(p.outputRoot, env.timestamp, p.l2BlockNumber)])
  {
    AcceptedBlockNumberBound(l.s, env, p);
    ProposalAppends(l.s, env, p);
    CastExact(p.l2BlockNumber);
    CastExact(env.timestamp);
  }

  lemma StepKeepsConfig(l: Ledger, e: Event)
    requires l.s.initialized >= VERSION
    ensures SameConfig(l.s, Step(l, e).s)
  {
  }

  lemma StepKeepsInv(l: Ledger, e: Event)
    requires Inv(l) && l.now <= e.env.timestamp && Fits(l.s, e.env.timestamp)
    ensures Inv(Step(l, e))
  {
    if e.action.ProposeL2Output? && Apply(l.s, e.env, e.action).Success? {
      LosslessCasts(l, e.env, e.action.proposal);
      AcceptedBlockNumberBound(l.s, e.env, e.action.proposal);
    }
  }

  lemma {:induction false} RunClock(l: Ledger, events: seq<Event>)
    requires Timely(l.now, events)
    ensures l.now <= Run(l, events).now
    decreases |events|
  {
    if events != [] {
      RunClock(Step(l, events[0]), events[1..]);
    }
  }

  /** The invariant and the configuration survive every run. */
  lemma {:induction false} RunKeepsInv(l: Ledger, events: seq<Event>)
    requires Inv(l) && Timely(l.now, events) && Fits(l.s, Run(l, events).now)
    ensures Inv(Run(l, events)) && SameConfig(l.s, Run(l, events).s)
    decreases |events|
  {
    if events != [] {
      FirstStep(l, events);
      RunKeepsInv(Step(l, events[0]), events[1..]);
    }
  }

  lemma FirstStep(l: Ledger, events: seq<Event>)
    requires Inv(l) && Timely(l.now, events) && Fits(l.s, Run(l, events).now) && events != []
    ensures Inv(Step(l, events[0])) && SameConfig(l.s, Step(l, events[0]).s)
    ensures Fits(l.s, events[0].env.timestamp)
    ensures Step(l, events[0]).now == events[0].env.timestamp
  {
    RunClock(Step(l, events[0]), events[1..]);
    StepKeepsInv(l, events[0]);
    StepKeepsConfig(l, events[0]);
  }

  // ---------------------------------------------------------------- finality

  predicate Finalized(l: Ledger, i: nat)
    requires i < |l.s.l2Outputs|
  {
    l.s.l2Outputs[i].timestamp + l.s.finalizationPeriodSeconds <= l.now
  }

  /** The delete check reads one entry only, but order makes it speak for all that are removed:
      some deletion removes output `i` exactly when `i` is younger than the finalization period. */
  lemma DeletableExactly(l: Ledger, env: Env, i: nat)
    requires Inv(l) && l.now <= env.timestamp && i < |l.s.l2Outputs| < U256
    requires env.sender == l.s.challenger
    ensures (exists k: uint256 :: ApplyDelete(l.s, env, k).Success? && |ApplyDelete(l.s, env, k).value.l2Outputs| <= i)
            <==> env.timestamp < l.s.l2Outputs[i].timestamp + l.s.finalizationPeriodSeconds
  {
    var index: uint256 := i;
    assert env.timestamp < l.s.l2Outputs[i].timestamp + l.s.finalizationPeriodSeconds ==>
      ApplyDelete(l.s, env, index).Success?;
  }

  lemma StepKeepsFinal(l: Ledger, e: Event, i: nat)
    requires Inv(l) && l.now <= e.env.timestamp && i < |l.s.l2Outputs| && Finalized(l, i)
    ensures i < |Step(l, e).s.l2Outputs| && Step(l, e).s.l2Outputs[..i + 1] == l.s.l2Outputs[..i + 1]
    ensures Finalized(Step(l, e), i)
  {
  }

  /** Once final, an output and all before it are the same in every later state. */
  lemma {:induction false} Finality(l: Ledger, events: seq<Event>, i: nat)
    requires Inv(l) && Timely(l.now, events) && Fits(l.s, Run(l, events).now)
    requires i < |l.s.l2Outputs| && Finalized(l, i)
    ensures i < |Run(l, events).s.l2Outputs|
    ensures Run(l, events).s.l2Outputs[..i + 1] == l.s.l2Outputs[..i + 1]
    ensures Finalized(Run(l, events), i)
    decreases |events|
  {
    if events != [] {
      FirstStep(l, events);
      StepKeepsFinal(l, events[0], i);
      Finality(Step(l, events[0]), events[1..], i);
    }
  }

  // ---------------------------------------------------------------- lookup

  /** Linear search: how many outputs precede the first at or after block `n`. */
  function FirstAtOrAfter(outs: seq<OutputProposal>, n: nat): (k: nat)
    ensures k <= |outs|
    ensures forall i :: 0 <= i < k ==> outs[i].l2BlockNumber < n
    ensures k < |outs| ==> n <= outs[k].l2BlockNumber
  {
    if outs == [] || n <= outs[0].l2BlockNumber then 0 else 1 + FirstAtOrAfter(outs[1..], n)
  }

  function Lookup(s: State, n: uint256): Result<nat, Revert> {
    if n > LatestBlockNumber(s) then Failure(NotYetProposed)
    else if s.l2Outputs == [] then Failure(NoOutputs)
    else Success(FirstAtOrAfter(s.l2Outputs, n))
  }

  /** In an ordered log one position alone has a smaller block before it and `n` or more at it. */
  lemma BoundaryIsFirst(outs: seq<OutputProposal>, n: nat, k: nat)
    requires Sorted(outs) && k < |outs|
    requires n <= outs[k].l2BlockNumber && (k > 0 ==> outs[k - 1].l2BlockNumber < n)
    ensures FirstAtOrAfter(outs, n) == k
  {
  }

  /** Two logs with a common prefix that holds the answer give the same answer. */
  lemma LookupByPrefix(s: State, t: State, n: uint256, k: nat)
    requires Sorted(s.l2Outputs) && Sorted(t.l2Outputs)
    requires k < |s.l2Outputs| && k < |t.l2Outputs| && s.l2Outputs[..k + 1] == t.l2Outputs[..k + 1]
    requires Lookup(s, n) == Success(k)
    ensures Lookup(t, n) == Success(k) && t.l2Outputs[k] == s.l2Outputs[k]
  {
    assert s.l2Outputs[..k + 1][k] == t.l2Outputs[..k + 1][k];
    if k > 0 {
      assert s.l2Outputs[..k + 1][k - 1] == t.l2Outputs[..k + 1][k - 1];
    }
    BoundaryIsFirst(t.l2Outputs, n, k);
  }

  /** A lookup that named a final output keeps naming it in every later state. */
  lemma StableLookup(l: Ledger, events: seq<Event>, n: uint256, k: nat)
    requires Inv(l) && Timely(l.now, events) && Fits(l.s, Run(l, events).now)
    requires Lookup(l.s, n) == Success(k) && Finalized(l, k)
    ensures Lookup(Run(l, events).s, n) == Success(k)
    ensures Run(l, events).s.l2Outputs[k] == l.s.l2Outputs[k]
  {
    Finality(l, events, k);
    RunKeepsInv(l, events);
    LookupByPrefix(l.s, Run(l, events).s, n, k);
  }

  /** A proposal changes no answer that there was. */
  lemma ProposalKeepsLookups(l: Ledger, env: Env, p: Proposal, n: uint256)
    requires Inv(l) && l.now <= env.timestamp && Fits(l.s, env.timestamp)
    requires ApplyPropose(l.s, env, p).Success? && n <= LatestBlockNumber(l.s)
    ensures Lookup(ApplyPropose(l.s, env, p).value, n) == Lookup(l.s, n)
  {
    var t := ApplyPropose(l.s, env, p).value;
    StepKeepsInv(l, Event(env, ProposeL2Output(p)));
    assert t.l2Outputs[|l.s.l2Outputs| - 1] == l.s.l2Outputs[|l.s.l2Outputs| - 1];
    var k := FirstAtOrAfter(l.s.l2Outputs, n);
    assert t.l2Outputs[..k + 1] == l.s.l2Outputs[..k + 1];
    LookupByPrefix(l.s, t, n, k);
  }

  /** A deletion at `k` keeps exactly the answers below `k`; the others become reverts. */
  lemma DeletionKeepsLowerLookups(l: Ledger, env: Env, k: uint256, n: uint256)
    requires Inv(l) && ApplyDelete(l.s, env, k).Success? && Lookup(l.s, n).Success?
    ensures var t := ApplyDelete(l.s, env, k).value;
            if Lookup(l.s, n).value < k then Lookup(t, n) == Lookup(l.s, n) else Lookup(t, n).Failure?
  {
    var t := ApplyDelete(l.s, env, k).value;
    var i := Lookup(l.s, n).value;
    if i < k {
      assert t.l2Outputs[..i + 1] == l.s.l2Outputs[..i + 1];
      LookupByPrefix(l.s, t, n, i);
    } else if k > 0 {
      assert l.s.l2Outputs[k - 1].l2BlockNumber < n;
    }
  }

  // ---------------------------------------------------------------- growth

  /** What a fresh deployment has and an upgraded log need not have. */
  ghost predicate Spaced(s: State) {
    && (s.l2Outputs != [] ==>
          s.l2Outputs[0].l2BlockNumber == s.startingBlockNumber && s.l2Outputs[0].timestamp == s.startingTimestamp)
    && (forall i :: 0 < i < |s.l2Outputs| ==>
          && s.l2Outputs[i - 1].l2BlockNumber + s.submissionInterval <= s.l2Outputs[i].l2BlockNumber
          && BlockTime(s, s.l2Outputs[i].l2BlockNumber) < s.l2Outputs[i].timestamp)
  }

  /** `ComputeL2Timestamp` without the width. */
  function BlockTime(s: State, n: nat): int {
    s.startingTimestamp + (n - s.startingBlockNumber) * s.l2BlockTime
  }

  lemma AppendKeepsSpaced(s: State, o: OutputProposal)
    requires Spaced(s) && s.l2Outputs != []
    requires LatestBlockNumber(s) + s.submissionInterval <= o.l2BlockNumber
    requires BlockTime(s, o.l2BlockNumber) < o.timestamp
    ensures Spaced(s.(l2Outputs := s.l2Outputs + [o]))
  {
    var t := s.(l2Outputs := s.l2Outputs + [o]);
    forall i | 0 < i < |t.l2Outputs|
      ensures t.l2Outputs[i - 1].l2BlockNumber + t.submissionInterval <= t.l2Outputs[i].l2BlockNumber
      ensures BlockTime(t, t.l2Outputs[i].l2BlockNumber) < t.l2Outputs[i].timestamp
    {
      assert BlockTime(t, t.l2Outputs[i].l2BlockNumber) == BlockTime(s, t.l2Outputs[i].l2BlockNumber);
    }
  }

  lemma OtherStepKeepsPrefix(l: Ledger, e: Event)
    requires l.s.initialized >= VERSION && !e.action.ProposeL2Output?
    ensures Step(l, e).s.l2Outputs <= l.s.l2Outputs
  {
  }

  lemma PrefixKeepsSpaced(s: State, t: State)
    requires Spaced(s) && SameConfig(s, t) && t.l2Outputs <= s.l2Outputs
    ensures Spaced(t)
  {
    assert forall i :: 0 <= i < |t.l2Outputs| ==>
      BlockTime(t, t.l2Outputs[i].l2BlockNumber) == BlockTime(s, s.l2Outputs[i].l2BlockNumber);
  }

  lemma ProposalKeepsSpaced(l: Ledger, env: Env, p: Proposal)
    requires Inv(l) && Spaced(l.s) && Fits(l.s, env.timestamp) && ApplyPropose(l.s, env, p).Success?
    ensures Spaced(ApplyPropose(l.s, env, p).value)
  {
    LosslessCasts(l, env, p);
    AcceptedBlockNumberBound(l.s, env, p);
    assert l.s.l2Outputs != [] by {
      ProposalAppends(l.s, env, p);
    }
    AppendKeepsSpaced(l.s, OutputProposal(p.outputRoot, env.timestamp, p.l2BlockNumber));
  }

  lemma StepKeepsSpaced(l: Ledger, e: Event)
    requires Inv(l) && Spaced(l.s) && Fits(l.s, e.env.timestamp)
    ensures Spaced(Step(l, e).s)
  {
    match e.action {
      case ProposeL2Output(p) =>
        if ApplyPropose(l.s, e.env, p).Success? {
          ProposalKeepsSpaced(l, e.env, p);
        }
      case _ =>
        StepKeepsConfig(l, e);
        OtherStepKeepsPrefix(l, e);
        PrefixKeepsSpaced(l.s, Step(l, e).s);
    }
  }

  lemma {:induction false} RunKeepsSpaced(l: Ledger, events: seq<Event>)
    requires Inv(l) && Spaced(l.s) && Timely(l.now, events) && Fits(l.s, Run(l, events).now)
    ensures Spaced(Run(l, events).s)
    decreases |events|
  {
    if events != [] {
      FirstStep(l, events);
      StepKeepsSpaced(l, events[0]);
      RunKeepsSpaced(Step(l, events[0]), events[1..]);
    }
  }

  lemma {:induction false} BlocksGrow(s: State, i: nat)
    requires Spaced(s) && i < |s.l2Outputs|
    ensures s.startingBlockNumber + i * s.submissionInterval <= s.l2Outputs[i].l2BlockNumber
  {
    if i > 0 {
      BlocksGrow(s, i - 1);
    }
  }

  /** Output `i` cannot be recorded before `i` submission intervals of L2 time have passed. */
  lemma GrowthBound(s: State, i: nat)
    requires Spaced(s) && i < |s.l2Outputs|
    ensures s.startingTimestamp + i * s.submissionInterval * s.l2BlockTime <= s.l2Outputs[i].timestamp
    ensures i > 0 ==> s.startingTimestamp + i * s.submissionInterval * s.l2BlockTime < s.l2Outputs[i].timestamp
  {
    BlocksGrow(s, i);
    BlockTimeGrows(s, i * s.submissionInterval, s.l2Outputs[i].l2BlockNumber);
  }

  lemma BlockTimeGrows(s: State, blocks: nat, n: nat)
    requires s.startingBlockNumber + blocks <= n
    ensures s.startingTimestamp + blocks * s.l2BlockTime <= BlockTime(s, n)
  {
    var actual := n - s.startingBlockNumber;
    assert (actual - blocks) * s.l2BlockTime >= 0;
    assert actual * s.l2BlockTime == (actual - blocks) * s.l2BlockTime + blocks * s.l2BlockTime;
  }

  /** So elapsed time bounds the number of outputs, in every state of every run. */
  lemma LengthBound(l: Ledger, events: seq<Event>)
    requires Inv(l) && Spaced(l.s) && Timely(l.now, events) && Fits(l.s, Run(l, events).now)
    ensures var t := Run(l, events);
            |t.s.l2Outputs| >= 2 ==>
              (|t.s.l2Outputs| - 1) * l.s.submissionInterval * l.s.l2BlockTime < t.now - l.s.startingTimestamp
  {
    RunKeepsInv(l, events);
    RunKeepsSpaced(l, events);
    var t := Run(l, events).s;
    if |t.l2Outputs| >= 2 {
      GrowthBound(t, |t.l2Outputs| - 1);
    }
  }

  // ---------------------------------------------------------------- reverts by arithmetic

  /** From a valid state no subtraction of the two public entry points underflows, except
      `nextOutputIndex() - 1` on a log that was emptied. */
  lemma NoUnderflow(l: Ledger, e: Event)
    requires Inv(l) && l.now <= e.env.timestamp
    ensures Apply(l.s, e.env, e.action) == Failure(Underflow) ==> e.action.ProposeL2Output? && l.s.l2Outputs == []
  {
  }

  /** A log emptied by a deletion at index 0 stays empty: no proposal is accepted again. */
  lemma {:induction false} EmptiedLogStaysEmpty(l: Ledger, events: seq<Event>)
    requires l.s.initialized >= VERSION && l.s.l2Outputs == []
    ensures Run(l, events).s.l2Outputs == [] && Run(l, events).proofs == l.proofs
    decreases |events|
  {
    if events != [] {
      StepKeepsConfig(l, events[0]);
      EmptiedLogStaysEmpty(Step(l, events[0]), events[1..]);
    }
  }

  // ---------------------------------------------------------------- checkpoints

  ghost predicate CheckpointsOn(l1: seq<B256>, l: Ledger) {
    && (forall n :: n in l.s.historicBlockHashes && l.s.historicBlockHashes[n] != ZERO_HASH ==>
          n < |l1| && l.s.historicBlockHashes[n] == l1[n])
    && (forall i :: 0 <= i < |l.proofs| && l.proofs[i].values.l1Head != ZERO_HASH ==>
          l.proofs[i].values.l1Head in l1)
  }

  /** Zero is stored for a block outside the window; every other checkpoint is the L1 hash of its
      block, and every accepted proof names such a hash or zero. */
  lemma {:induction false} CheckpointSoundness(l1: seq<B256>, l: Ledger, events: seq<Event>)
    requires CheckpointsOn(l1, l) && OnL1(l1, events)
    ensures CheckpointsOn(l1, Run(l, events))
    decreases |events|
  {
    if events != [] {
      var e, next := events[0], Step(l, events[0]);
      assert e.env.ancestors <= l1;
      if e.action.ProposeL2Output? && Apply(l.s, e.env, e.action).Success? {
        var n := e.action.proposal.l1BlockNumber;
        assert next.proofs[|l.proofs|].values.l1Head == HistoricBlockHash(l.s, n);
        assert n in l.s.historicBlockHashes && l.s.historicBlockHashes[n] != ZERO_HASH ==> l1[n] in l1;
      }
      CheckpointSoundness(l1, next, events[1..]);
    }
  }

  // ---------------------------------------------------------------- proofs behind the links

  /** The statement that carries output `a` to the next output `b` on chain `chainId`. */
  ghost predicate Links(p: PublicValues, chainId: uint256, a: OutputProposal, b: OutputProposal) {
    && p.l2PreRoot == a.outputRoot
    && p.claimRoot == b.outputRoot
    && p.claimBlockNum == b.l2BlockNumber
    && p.chainId == chainId
  }

  ghost predicate LinkBacked(l: Ledger, i: nat)
    requires 0 < i < |l.s.l2Outputs|
  {
    exists k :: 0 <= k < |l.proofs| && Links(l.proofs[k].values, l.s.chainId, l.s.l2Outputs[i - 1], l.s.l2Outputs[i])
  }

  /** Every link after position `base` has its accepted proof. */
  ghost predicate Backed(l: Ledger, base: nat) {
    forall i :: base < i < |l.s.l2Outputs| ==> LinkBacked(l, i)
  }

  lemma StepKeepsBacked(l: Ledger, e: Event, base: nat)
    requires Inv(l) && Backed(l, base) && l.now <= e.env.timestamp && Fits(l.s, e.env.timestamp)
    ensures Backed(Step(l, e), base)
  {
    StepKeepsConfig(l, e);
    var next := Step(l, e);
    if e.action.ProposeL2Output? && Apply(l.s, e.env, e.action).Success? {
      LosslessCasts(l, e.env, e.action.proposal);
    }
    forall i | base < i < |next.s.l2Outputs| ensures LinkBacked(next, i) {
      if i < |l.s.l2Outputs| {
        assert LinkBacked(l, i);
        var k :| 0 <= k < |l.proofs| && Links(l.proofs[k].values, l.s.chainId, l.s.l2Outputs[i - 1], l.s.l2Outputs[i]);
        assert next.proofs[k] == l.proofs[k];
      } else {
        assert Links(next.proofs[|l.proofs|].values, next.s.chainId, next.s.l2Outputs[i - 1], next.s.l2Outputs[i]);
      }
    }
  }

  /** Through any mix of proposals, deletions and re-proposals, every link keeps its own proof. */
  lemma {:induction false} RunKeepsBacked(l: Ledger, events: seq<Event>, base: nat)
    requires Inv(l) && Backed(l, base) && Timely(l.now, events) && Fits(l.s, Run(l, events).now)
    ensures Backed(Run(l, events), base)
    decreases |events|
  {
    if events != [] {
      FirstStep(l, events);
      StepKeepsBacked(l, events[0], base);
      RunKeepsBacked(Step(l, events[0]), events[1..], base);
    }
  }

  /** Outputs up to `base` are those that were found, and every link after it has its proof. */
  ghost predicate GrownFrom(found: seq<OutputProposal>, l: Ledger, base: nat) {
    && base < |found| && base < |l.s.l2Outputs|
    && l.s.l2Outputs[..base + 1] == found[..base + 1]
    && Backed(l, base)
  }

  lemma StepGrowsFrom(found: seq<OutputProposal>, l: Ledger, e: Event, base: nat) returns (kept: nat)
    requires Inv(l) && GrownFrom(found, l, base) && l.now <= e.env.timestamp && Fits(l.s, e.env.timestamp)
    ensures Step(l, e).s.l2Outputs != [] ==> GrownFrom(found, Step(l, e), kept)
  {
    var before, after := l.s.l2Outputs, Step(l, e).s.l2Outputs;
    kept := if base < |after| || after == [] then base else |after| - 1;
    StepKeepsBacked(l, e, base);
    if after != [] {
      if !e.action.ProposeL2Output? {
        OtherStepKeepsPrefix(l, e);
      }
      assert after[..kept + 1] == before[..base + 1][..kept + 1] == found[..base + 1][..kept + 1];
    }
  }

  /** An upgraded log is at any time a prefix of what it found, then links with accepted proofs. */
  lemma {:induction false} RunGrowsFrom(found: seq<OutputProposal>, l: Ledger, events: seq<Event>, base: nat)
    returns (kept: nat)
    requires Inv(l) && GrownFrom(found, l, base) && Timely(l.now, events) && Fits(l.s, Run(l, events).now)
    ensures Run(l, events).s.l2Outputs != [] ==> GrownFrom(found, Run(l, events), kept)
    decreases |events|
  {
    kept := base;
    if events != [] {
      FirstStep(l, events);
      var next := Step(l, events[0]);
      kept := StepGrowsFrom(found, l, events[0], base);
      if next.s.l2Outputs == [] {
        EmptiedLogStaysEmpty(next, events[1..]);
      } else {
        kept := RunGrowsFrom(found, next, events[1..], kept);
      }
    }
  }
}
