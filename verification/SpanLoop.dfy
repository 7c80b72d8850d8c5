/** The derivation and execution loop of the multi-block program (`validity-client/src/main.rs`) as a
    function of how often it has gone round, and what holds however often that is. */
module SpanLoop {
  import opened Wrappers
  import opened Words
  import opened PreimageStore
  import opened L2Chain

  datatype AttributesWithParent = AttributesWithParent(attributes: Attributes, parent: L2BlockInfo)

  datatype StepResult =
    | PreparedAttributes(batch: seq<AttributesWithParent>)
    | AdvancedOrigin
    | OriginAdvanceErr
    | StepFailed

  /** One run of the program: its inputs, and how the pipeline answers its n-th step at a safe head. */
  datatype Job = Job(w: World, st: Store, boot: Boot, answer: (nat, L2BlockInfo) -> StepResult)

  datatype LoopState =
    | Running(head: Sealed, info: L2BlockInfo, blocks: seq<OpBlock>)
    | Done(head: Sealed, blocks: seq<OpBlock>)
    | Failed(error: ClientError)

  /** `n + 1` in a release build. */
  function Succ64(n: uint64): (m: uint64)
    ensures m == if n == U64 - 1 then 0 else n + 1
  {
    (n + 1) % U64
  }

  /** How many queued payloads `produce_payloads` takes: all, or those through the claim block's. */
  function ClaimCut(queue: seq<AttributesWithParent>, claim: uint64): (k: nat)
    ensures k <= |queue|
    ensures forall i :: 0 <= i < k - 1 ==> Succ64(queue[i].parent.number) != claim
    ensures k < |queue| ==> k > 0 && Succ64(queue[k - 1].parent.number) == claim
  {
    if queue == [] then 0
    else if Succ64(queue[0].parent.number) == claim then 1
    else 1 + ClaimCut(queue[1..], claim)
  }

  predicate EndsAtClaim(payloads: seq<AttributesWithParent>, claim: uint64) {
    payloads != [] && Succ64(payloads[|payloads| - 1].parent.number) == claim
  }

  lemma {:induction false} CutIsFirst(queue: seq<AttributesWithParent>, claim: uint64, k: nat)
    requires k <= |queue| && (k == |queue| || EndsAtClaim(queue[..k], claim))
    requires forall i :: 0 <= i < k - 1 ==> Succ64(queue[i].parent.number) != claim
    ensures ClaimCut(queue, claim) == k
    decreases |queue|
  {
    if queue != [] && Succ64(queue[0].parent.number) != claim {
      assert queue[..k][1..] == queue[1..][..k - 1];
      CutIsFirst(queue[1..], claim, k - 1);
    }
  }

  // ---------------------------------------------------------------- the loop

  function ExecuteBlock(job: Job, head: Sealed, p: AttributesWithParent): Result<OpBlock, ClientError> {
    var executed := job.w.execute(job.st, job.boot.config, head, p.attributes);
    :- Need(executed.Some?, ExecutionFailed);
    :- Need(executed.value.number == Succ64(p.parent.number), NumberMismatch);
    var body :- DecodeAll(job.w, p.attributes.transactions);
    Success(MakeBlock(job.boot.config, executed.value, body))
  }

  function SealOf(c: Coding, h: Header): Sealed {
    Sealed(h, HeaderHash(c, h))
  }

  function Advance(job: Job, s: LoopState, p: AttributesWithParent): LoopState
    requires s.Running?
  {
    match ExecuteBlock(job, s.head, p)
    case Failure(e) => Failed(e)
    case Success(b) =>
      match CacheUpdateResult(job.w, b, job.boot.config)
      case Failure(e) => Failed(e)
      case Success(info) =>
        var head, blocks := SealOf(job.w.coding, b.header), s.blocks + [b];
        if b.header.number == job.boot.raw.l2ClaimBlock then Done(head, blocks) else Running(head, info, blocks)
  }

  /** One payload succeeds exactly when it executes on the head, to a block with the number after its
      parent's, whose transactions decode and which has a system config and a block info. Then that block is
      the new last one, sealed with its hash, and the loop goes on unless it has the claim's number. */
  lemma AdvanceExactly(job: Job, s: LoopState, p: AttributesWithParent)
    requires s.Running?
    ensures var executed := job.w.execute(job.st, job.boot.config, s.head, p.attributes);
            var t := Advance(job, s, p);
            && (!t.Failed? ==>
                  && executed.Some? && executed.value.number == (p.parent.number + 1) % U64
                  && |t.blocks| == |s.blocks| + 1 && s.blocks <= t.blocks
                  && PayloadBlock(job, executed.value, p, t.blocks[|s.blocks|])
                  && job.w.systemConfig(t.blocks[|s.blocks|], job.boot.config).Some?
                  && job.w.blockRef(t.blocks[|s.blocks|], job.boot.config).Some?
                  && t.head.header == executed.value
                  && t.head.seal == job.w.coding.keccak(job.w.coding.encodeHeader(executed.value))
                  && (t.Done? <==> executed.value.number == job.boot.raw.l2ClaimBlock)
                  && (t.Running? ==> Some(t.info) == job.w.blockRef(t.blocks[|s.blocks|], job.boot.config)))
            && (t.Failed? ==>
                  executed.Some? && executed.value.number == (p.parent.number + 1) % U64 ==>
                    forall b: OpBlock :: PayloadBlock(job, executed.value, p, b) ==>
                      job.w.systemConfig(b, job.boot.config).None? || job.w.blockRef(b, job.boot.config).None?)
  {
    var executed := job.w.execute(job.st, job.boot.config, s.head, p.attributes);
    if executed.Some? {
      PayloadBlockExactly(job, executed.value, p);
    }
  }

  /** The block of this header with the payload's transactions, in order. */
  ghost predicate PayloadBlock(job: Job, h: Header, p: AttributesWithParent, b: OpBlock) {
    && b.header == h
    && |b.body| == |p.attributes.transactions|
    && (forall i :: 0 <= i < |b.body| ==> job.w.decodeTx(p.attributes.transactions[i]) == Some(b.body[i]))
    && b.withdrawals == (if job.boot.config.canyonTime.Some? && job.boot.config.canyonTime.value <= h.timestamp
                         then Some([]) else None)
  }

  lemma PayloadBlockExactly(job: Job, h: Header, p: AttributesWithParent)
    ensures DecodeAll(job.w, p.attributes.transactions).Success? ==>
            PayloadBlock(job, h, p, MakeBlock(job.boot.config, h, DecodeAll(job.w, p.attributes.transactions).value))
    ensures forall b: OpBlock :: PayloadBlock(job, h, p, b) ==>
            && DecodeAll(job.w, p.attributes.transactions).Success?
            && b == MakeBlock(job.boot.config, h, DecodeAll(job.w, p.attributes.transactions).value)
  {
    DecodeAllExactly(job.w, p.attributes.transactions);
    forall b: OpBlock | PayloadBlock(job, h, p, b)
      ensures DecodeAll(job.w, p.attributes.transactions).Success?
              && b == MakeBlock(job.boot.config, h, DecodeAll(job.w, p.attributes.transactions).value)
    {
      var body := DecodeAll(job.w, p.attributes.transactions).value;
      forall i | 0 <= i < |body| ensures b.body[i] == body[i] {
        assert job.w.decodeTx(p.attributes.transactions[i]) == Some(body[i]);
      }
      assert b.body == body;
    }
  }

  function RunBatch(job: Job, s: LoopState, payloads: seq<AttributesWithParent>): LoopState
    decreases |payloads|
  {
    if payloads == [] || !s.Running? then s else RunBatch(job, Advance(job, s, payloads[0]), payloads[1..])
  }

  /** The payloads that one call of `produce_payloads` returns, from an empty queue. */
  function Produced(job: Job, r: StepResult): seq<AttributesWithParent> {
    if r.PreparedAttributes? then r.batch[..ClaimCut(r.batch, job.boot.raw.l2ClaimBlock)] else []
  }

  /** Turn number `i` of the outer loop. */
  function Turn(job: Job, s: LoopState, i: nat): LoopState {
    if s.Running? then RunBatch(job, s, Produced(job, job.answer(i, s.info))) else s
  }

  /** The state after `n` turns from `s`; an ended loop stays as it ended. */
  function After(job: Job, s: LoopState, n: nat): LoopState {
    if n == 0 then s else Turn(job, After(job, s, n - 1), n - 1)
  }

  lemma {:induction false} EndedStays(job: Job, s: LoopState, n: nat, m: nat)
    requires n <= m && !After(job, s, n).Running?
    ensures After(job, s, m) == After(job, s, n)
    decreases m
  {
    if n < m {
      EndedStays(job, s, n, m - 1);
    }
  }

  // ---------------------------------------------------------------- what every turn keeps

  function HeadOf(c: Coding, start: Sealed, blocks: seq<OpBlock>): Sealed {
    if blocks == [] then start else SealOf(c, blocks[|blocks| - 1].header)
  }

  ghost predicate ExecutedFrom(w: World, st: Store, cfg: RollupConfig, parent: Sealed, b: OpBlock) {
    exists attrs :: w.execute(st, cfg, parent, attrs) == Some(b.header)
                    && DecodeAll(w, attrs.transactions).Success?
                    && b == MakeBlock(cfg, b.header, DecodeAll(w, attrs.transactions).value)
  }

  ghost predicate ExecutedAt(w: World, st: Store, cfg: RollupConfig, start: Sealed, blocks: seq<OpBlock>, i: nat)
    requires i < |blocks|
  {
    ExecutedFrom(w, st, cfg, HeadOf(w.coding, start, blocks[..i]), blocks[i])
  }

  /** Each block was executed on the one before it, the first on `start`. */
  ghost predicate Chained(w: World, st: Store, cfg: RollupConfig, start: Sealed, blocks: seq<OpBlock>) {
    forall i {:trigger ExecutedAt(w, st, cfg, start, blocks, i)} :: 0 <= i < |blocks| ==>
      ExecutedAt(w, st, cfg, start, blocks, i)
  }

  lemma ChainedExtends(w: World, st: Store, cfg: RollupConfig, start: Sealed, blocks: seq<OpBlock>, b: OpBlock)
    requires Chained(w, st, cfg, start, blocks) && ExecutedFrom(w, st, cfg, HeadOf(w.coding, start, blocks), b)
    ensures Chained(w, st, cfg, start, blocks + [b])
  {
    var longer := blocks + [b];
    forall i | 0 <= i < |longer| ensures ExecutedAt(w, st, cfg, start, longer, i) {
      assert longer[..i] == blocks[..i];
      if i < |blocks| {
        assert ExecutedAt(w, st, cfg, start, blocks, i);
      } else {
        assert blocks[..i] == blocks;
      }
    }
  }

  /** Executed numbers run on from the start block without a gap. */
  lemma {:induction false} NumbersConsecutive(
    w: World, st: Store, cfg: RollupConfig, start: Sealed, blocks: seq<OpBlock>, i: nat)
    requires Faithful(w) && Chained(w, st, cfg, start, blocks) && i < |blocks|
    ensures blocks[i].header.number == start.header.number + 1 + i
    ensures blocks[i].header.parentHash == HeadOf(w.coding, start, blocks[..i]).seal
  {
    assert ExecutedAt(w, st, cfg, start, blocks, i);
    if i > 0 {
      NumbersConsecutive(w, st, cfg, start, blocks, i - 1);
    }
  }

  /** What holds at the head of the loop, and how it can have ended. */
  ghost predicate LoopInv(job: Job, start: Sealed, startInfo: L2BlockInfo, s: LoopState) {
    match s
    case Running(head, info, blocks) =>
      && Chained(job.w, job.st, job.boot.config, start, blocks)
      && head == HeadOf(job.w.coding, start, blocks)
      && info == InfoOf(job, startInfo, blocks)
      && (forall i :: 0 <= i < |blocks| ==>
            CacheUpdateResult(job.w, blocks[i], job.boot.config).Success?
            && blocks[i].header.number != job.boot.raw.l2ClaimBlock)
    case Done(head, blocks) =>
      && Chained(job.w, job.st, job.boot.config, start, blocks)
      && blocks != []
      && head == HeadOf(job.w.coding, start, blocks)
      && head.header.number == job.boot.raw.l2ClaimBlock
      && (forall i :: 0 <= i < |blocks| - 1 ==> blocks[i].header.number != job.boot.raw.l2ClaimBlock)
    case Failed(_) => true
  }

  function InfoOf(job: Job, startInfo: L2BlockInfo, blocks: seq<OpBlock>): L2BlockInfo {
    if blocks == [] then startInfo
    else
      match CacheUpdateResult(job.w, blocks[|blocks| - 1], job.boot.config)
      case Success(info) => info
      case Failure(_) => startInfo
  }

  /** State `t` is `s` with block `b` executed on its head. */
  ghost predicate Extends(job: Job, s: LoopState, t: LoopState, b: OpBlock)
    requires s.Running? && !t.Failed?
  {
    && ExecutedFrom(job.w, job.st, job.boot.config, s.head, b)
    && CacheUpdateResult(job.w, b, job.boot.config).Success?
    && t.blocks == s.blocks + [b]
    && t.head == SealOf(job.w.coding, b.header)
    && (t.Done? <==> b.header.number == job.boot.raw.l2ClaimBlock)
    && (t.Running? ==> Success(t.info) == CacheUpdateResult(job.w, b, job.boot.config))
  }

  lemma AdvanceExtends(job: Job, s: LoopState, p: AttributesWithParent)
    requires s.Running? && !Advance(job, s, p).Failed?
    ensures var t := Advance(job, s, p); |t.blocks| > 0 && Extends(job, s, t, t.blocks[|t.blocks| - 1])
  {
    var b := ExecuteBlock(job, s.head, p).value;
    assert ExecutedFrom(job.w, job.st, job.boot.config, s.head, b);
  }

  lemma ExtensionKeepsInv(job: Job, start: Sealed, startInfo: L2BlockInfo, s: LoopState, t: LoopState, b: OpBlock)
    requires s.Running? && LoopInv(job, start, startInfo, s) && !t.Failed? && Extends(job, s, t, b)
    ensures LoopInv(job, start, startInfo, t)
  {
    ChainedExtends(job.w, job.st, job.boot.config, start, s.blocks, b);
  }

  lemma AdvanceKeepsInv(job: Job, start: Sealed, startInfo: L2BlockInfo, s: LoopState, p: AttributesWithParent)
    requires s.Running? && LoopInv(job, start, startInfo, s)
    ensures LoopInv(job, start, startInfo, Advance(job, s, p))
  {
    var t := Advance(job, s, p);
    if !t.Failed? {
      AdvanceExtends(job, s, p);
      ExtensionKeepsInv(job, start, startInfo, s, t, t.blocks[|t.blocks| - 1]);
    }
  }

  lemma {:induction false} BatchKeepsInv(
    job: Job, start: Sealed, startInfo: L2BlockInfo, s: LoopState, payloads: seq<AttributesWithParent>)
    requires LoopInv(job, start, startInfo, s)
    ensures LoopInv(job, start, startInfo, RunBatch(job, s, payloads))
    decreases |payloads|
  {
    if payloads != [] && s.Running? {
      AdvanceKeepsInv(job, start, startInfo, s, payloads[0]);
      BatchKeepsInv(job, start, startInfo, Advance(job, s, payloads[0]), payloads[1..]);
    }
  }

  lemma TurnKeepsInv(job: Job, start: Sealed, startInfo: L2BlockInfo, s: LoopState, i: nat)
    requires LoopInv(job, start, startInfo, s)
    ensures LoopInv(job, start, startInfo, Turn(job, s, i))
  {
    if s.Running? {
      BatchKeepsInv(job, start, startInfo, s, Produced(job, job.answer(i, s.info)));
    }
  }

  /** After any number of turns the state is a chain of executed blocks and agrees with its head. */
  lemma TurnsKeepInv(job: Job, start: Sealed, startInfo: L2BlockInfo, n: nat)
    ensures LoopInv(job, start, startInfo, After(job, Running(start, startInfo, []), n))
  {
    var s := Running(start, startInfo, []);
    for i := 0 to n
      invariant s == After(job, Running(start, startInfo, []), i)
      invariant LoopInv(job, start, startInfo, s)
    {
      TurnKeepsInv(job, start, startInfo, s, i);
      s := Turn(job, s, i);
    }
  }

  lemma {:induction false} StaysBelow(blocks: seq<OpBlock>, first: nat, claim: nat, m: nat)
    requires m <= |blocks| && first < claim
    requires forall i :: 0 <= i < |blocks| ==> blocks[i].header.number == first + 1 + i
    requires forall i :: 0 <= i < |blocks| ==> blocks[i].header.number != claim
    ensures first + m < claim
  {
    if m > 0 {
      StaysBelow(blocks, first, claim, m - 1);
      assert blocks[m - 1].header.number == first + m;
    }
  }

  /** No number is skipped, so a run that starts below the claim block is below it at every loop head
      and ends only on executing it; a run that starts at or above it never ends. */
  lemma LoopBounds(job: Job, start: Sealed, startInfo: L2BlockInfo, n: nat)
    requires Faithful(job.w)
    ensures var s, claim := After(job, Running(start, startInfo, []), n), job.boot.raw.l2ClaimBlock;
            match s
            case Running(head, _, blocks) =>
              && head.header.number == start.header.number + |blocks|
              && (start.header.number < claim ==> head.header.number < claim)
            case Done(head, blocks) =>
              && start.header.number < claim
              && |blocks| == claim - start.header.number
              && forall i :: 0 <= i < |blocks| ==> blocks[i].header.number == start.header.number + 1 + i <= claim
            case Failed(_) => true
  {
    TurnsKeepInv(job, start, startInfo, n);
    var s, claim := After(job, Running(start, startInfo, []), n), job.boot.raw.l2ClaimBlock;
    if !s.Failed? {
      forall i | 0 <= i < |s.blocks| ensures s.blocks[i].header.number == start.header.number + 1 + i {
        NumbersConsecutive(job.w, job.st, job.boot.config, start, s.blocks, i);
      }
      if s.Running? && start.header.number < claim {
        StaysBelow(s.blocks, start.header.number, claim, |s.blocks|);
      }
    }
  }

  // ---------------------------------------------------------------- termination

  /** Turn `m` is reached and has payloads to execute. */
  ghost predicate Yields(job: Job, s: LoopState, m: nat) {
    After(job, s, m).Running? && Produced(job, job.answer(m, After(job, s, m).info)) != []
  }

  ghost predicate NeverFails(job: Job, s: LoopState) {
    forall n: nat :: !After(job, s, n).Failed?
  }

  /** While the loop runs there are only finitely many empty turns before the next productive one. */
  ghost predicate KeepsYielding(job: Job, s: LoopState) {
    forall n: nat {:trigger YieldsFrom(job, s, n)} :: After(job, s, n).Running? ==> YieldsFrom(job, s, n)
  }

  ghost predicate YieldsFrom(job: Job, s: LoopState, n: nat) {
    exists m: nat :: n <= m && Yields(job, s, m)
  }

  /** A batch that neither fails nor ends the loop adds a block for each of its payloads. */
  lemma {:induction false} BatchGrows(job: Job, s: LoopState, payloads: seq<AttributesWithParent>)
    requires s.Running? && RunBatch(job, s, payloads).Running?
    ensures |RunBatch(job, s, payloads).blocks| == |s.blocks| + |payloads|
    decreases |payloads|
  {
    if payloads != [] {
      BatchGrows(job, Advance(job, s, payloads[0]), payloads[1..]);
    }
  }

  lemma {:induction false} BlocksOnlyGrow(job: Job, s: LoopState, n: nat, m: nat)
    requires n <= m && After(job, s, m).Running?
    ensures After(job, s, n).Running? && |After(job, s, n).blocks| <= |After(job, s, m).blocks|
    decreases m
  {
    if n < m {
      var before := After(job, s, m - 1);
      if before.Running? {
        BatchGrows(job, before, Produced(job, job.answer(m - 1, before.info)));
        BlocksOnlyGrow(job, s, n, m - 1);
      }
    }
  }

  lemma YieldProgress(job: Job, s: LoopState, m: nat)
    requires Yields(job, s, m)
    ensures var after := After(job, s, m + 1);
            after.Running? ==> |After(job, s, m).blocks| < |after.blocks|
  {
    var at := After(job, s, m);
    var payloads := Produced(job, job.answer(m, at.info));
    if RunBatch(job, at, payloads).Running? {
      BatchGrows(job, at, payloads);
    }
  }

  /** The next productive turn ends the loop or leaves it with more blocks. */
  lemma NextProgress(job: Job, s: LoopState, n: nat, m: nat)
    requires n <= m && Yields(job, s, m) && After(job, s, n).Running?
    ensures var after := After(job, s, m + 1);
            after.Running? ==> |After(job, s, n).blocks| < |after.blocks|
  {
    BlocksOnlyGrow(job, s, n, m);
    YieldProgress(job, s, m);
  }

  /** The blocks still to execute at a loop head, or none once the loop has ended. */
  function BlocksLeft(job: Job, start: Sealed, s: LoopState): int {
    if s.Running? then job.boot.raw.l2ClaimBlock - start.header.number - |s.blocks| else 0
  }

  lemma NextHead(job: Job, start: Sealed, startInfo: L2BlockInfo, s: LoopState, n: nat, m: nat) returns (k: nat)
    requires Faithful(job.w) && start.header.number < job.boot.raw.l2ClaimBlock
    requires s == Running(start, startInfo, []) && After(job, s, n).Running?
    requires n <= m && Yields(job, s, m)
    ensures 0 <= BlocksLeft(job, start, After(job, s, k)) < BlocksLeft(job, start, After(job, s, n))
  {
    NextProgress(job, s, n, m);
    LoopBounds(job, start, startInfo, n);
    LoopBounds(job, start, startInfo, m + 1);
    k := m + 1;
  }

  lemma NextYieldFrom(job: Job, s: LoopState, n: nat) returns (m: nat)
    requires KeepsYielding(job, s) && After(job, s, n).Running?
    ensures n <= m && Yields(job, s, m)
  {
    assert YieldsFrom(job, s, n);
    m :| n <= m && Yields(job, s, m);
  }

  lemma Descend(job: Job, start: Sealed, startInfo: L2BlockInfo, s: LoopState, n: nat) returns (k: nat)
    requires Faithful(job.w) && start.header.number < job.boot.raw.l2ClaimBlock
    requires s == Running(start, startInfo, []) && KeepsYielding(job, s) && After(job, s, n).Running?
    ensures 0 <= BlocksLeft(job, start, After(job, s, k)) < BlocksLeft(job, start, After(job, s, n))
  {
    var m := NextYieldFrom(job, s, n);
    k := NextHead(job, start, startInfo, s, n, m);
  }

  /** Lexicographic descent: blocks still to execute, then empty turns before the next yield. */
  lemma EndIsReached(job: Job, start: Sealed, startInfo: L2BlockInfo, s: LoopState) returns (end: nat)
    requires Faithful(job.w) && start.header.number < job.boot.raw.l2ClaimBlock
    requires s == Running(start, startInfo, []) && KeepsYielding(job, s)
    ensures !After(job, s, end).Running?
  {
    end := 0;
    while After(job, s, end).Running?
      decreases BlocksLeft(job, start, After(job, s, end))
    {
      end := Descend(job, start, startInfo, s, end);
    }
  }

  lemma {:induction false} NextYield(job: Job, s: LoopState, n: nat, end: nat) returns (m: nat)
    requires n <= end && After(job, s, n).Running? && !After(job, s, end).Running?
    ensures n <= m && Yields(job, s, m)
    decreases end - n
  {
    if Yields(job, s, n) {
      m := n;
    } else {
      assert After(job, s, n + 1) == Turn(job, After(job, s, n), n) == After(job, s, n);
      m := NextYield(job, s, n + 1, end);
    }
  }

  /** The loop ends on the claim block exactly when it starts below it, no turn panics, and the
      pipeline never stops yielding while the loop runs. */
  lemma EndsExactly(job: Job, start: Sealed, startInfo: L2BlockInfo)
    requires Faithful(job.w)
    ensures var s := Running(start, startInfo, []);
            (exists n: nat :: After(job, s, n).Done?)
            <==> start.header.number < job.boot.raw.l2ClaimBlock && NeverFails(job, s) && KeepsYielding(job, s)
  {
    var s := Running(start, startInfo, []);
    if start.header.number < job.boot.raw.l2ClaimBlock && NeverFails(job, s) && KeepsYielding(job, s) {
      var end := EndIsReached(job, start, startInfo, s);
    }
    if end: nat :| After(job, s, end).Done? {
      LoopBounds(job, start, startInfo, end);
      forall n: nat ensures !After(job, s, n).Failed? {
        if n <= end {
          if !After(job, s, n).Running? {
            EndedStays(job, s, n, end);
          }
        } else {
          EndedStays(job, s, end, n);
        }
      }
      forall n: nat | After(job, s, n).Running? ensures YieldsFrom(job, s, n) {
        if n > end {
          EndedStays(job, s, end, n);
        }
        var m := NextYield(job, s, n, end);
      }
    }
  }
}
