/** The whole multi-block program as a function of its inputs, and what its normal end proves: the
    boot info it committed describes one unbroken execution. */
module SpanProgram {
  import opened Wrappers
  import opened Words
  import opened BootInfo
  import opened PreimageStore
  import opened L2Chain
  import opened SpanLoop

  /** `find_startup_info`: the start block by the output root's preimage, which must be 128 bytes. */
  function Startup(w: World, st: Store, boot: Boot): Result<(Sealed, L2BlockInfo), ClientError> {
    var preimage :- Preimage(st, boot.raw.l2OutputRoot);
    :- Need(|preimage| == 128, Oracle(WrongLength));
    var seal: B256 := preimage[96..128];
    var header :- HeaderByHash(w.coding, st, seal);
    var info :- InfoLookup(View(w, boot, st, EMPTY_CACHES), header.number, 0);
    :- Need(w.knowsL1Origin(st, info), UnknownL1Origin);
    Success((Sealed(header, seal), info))
  }

  /** The epilogue: the output root of the last executed block must be the claim. */
  function CheckClaim(w: World, st: Store, boot: Boot, head: Sealed): Outcome<ClientError> {
    var storage := w.storageRoot(st, head.header);
    if storage.None? then Fail(OutputRootFailed)
    else
      var root := w.coding.keccak(OutputPreimage(head.header.stateRoot, storage.value, head.seal));
      Need(root == boot.raw.l2Claim, ClaimMismatch)
  }

  /** The claim is right exactly when it is the hash of 32 zero bytes, the last block's state root, the
      storage root and the block's hash. */
  lemma CheckClaimExactly(w: World, st: Store, boot: Boot, head: Sealed)
    ensures CheckClaim(w, st, boot, head).Pass? <==>
            && w.storageRoot(st, head.header).Some?
            && boot.raw.l2Claim
               == w.coding.keccak(Zeros(32) + head.header.stateRoot + w.storageRoot(st, head.header).value + head.seal)
    ensures CheckClaim(w, st, boot, head).Fail? ==>
            CheckClaim(w, st, boot, head).error ==
              if w.storageRoot(st, head.header).None? then OutputRootFailed else ClaimMismatch
  {
    ZeroHashBytes();
    assert Zeros(32) == Word(0);
  }

  /** The program starts exactly when the output root has a 128-byte preimage, whose last word is the hash of
      a header in the store, whose transactions are there and decode to a block with a block info, whose L1
      origin is known; and it starts from that header, that hash and that info. */
  ghost predicate StartsFrom(w: World, st: Store, boot: Boot, start: Sealed, info: L2BlockInfo) {
    && [2] + boot.raw.l2OutputRoot[1..] in st
    && |st[[2] + boot.raw.l2OutputRoot[1..]]| == 128
    && start.seal == st[[2] + boot.raw.l2OutputRoot[1..]][96..128]
    && HeaderByHash(w.coding, st, start.seal) == Success(start.header)
    && Transactions(w, st, start.header.transactionsRoot).Success?
    && w.blockRef(
         MakeBlock(boot.config, start.header, Transactions(w, st, start.header.transactionsRoot).value), boot.config)
       == Some(info)
    && w.knowsL1Origin(st, info)
  }

  lemma StartupExactly(w: World, st: Store, boot: Boot, start: Sealed, info: L2BlockInfo)
    ensures Startup(w, st, boot) == Success((start, info)) <==> StartsFrom(w, st, boot, start, info)
  {
    assert Key(boot.raw.l2OutputRoot, Keccak256) == [2] + boot.raw.l2OutputRoot[1..];
  }

  datatype Inputs = Inputs(
    w: World,
    raw: RawBootInfo,
    st: Store,
    order: seq<B256>,
    answer: (nat, L2BlockInfo) -> StepResult)

  function JobOf(i: Inputs, cfg: RollupConfig): Job {
    Job(i.w, i.st, Boot(i.raw, cfg), i.answer)
  }

  /** Boot, verification of the store, startup: the job and the loop's first state. */
  function Prologue(i: Inputs): Result<(Job, LoopState), ClientError>
    requires forall k :: k in i.order ==> k in i.st
  {
    var cfg := i.w.rollupConfig(i.raw.chainId);
    :- Need(cfg.Some?, UnknownChain);
    var verified := VerifyInOrder(i.w.coding, i.st, i.order);
    if verified.Failure? then Failure(StoreRejected(verified.error))
    else
      var job := JobOf(i, cfg.value);
      var (start, info) :- Startup(i.w, i.st, job.boot);
      Success((job, Running(start, info, [])))
  }

  /** What the program returns when its loop is cut off after `turns` turns: the executed blocks. */
  function Program(i: Inputs, turns: nat): Result<seq<OpBlock>, ClientError>
    requires forall k :: k in i.order ==> k in i.st
  {
    var (job, first) :- Prologue(i);
    match After(job, first, turns)
    case Running(_, _, _) => Failure(Endless)
    case Failed(e) => Failure(e)
    case Done(head, blocks) =>
      :- CheckClaim(i.w, i.st, job.boot, head);
      Success(blocks)
  }

  /** The prologue succeeds exactly on a known chain id, a store that passes and a start; the loop then
      begins there, with no block executed. */
  lemma PrologueExactly(i: Inputs, start: Sealed, info: L2BlockInfo)
    requires IterationOf(i.st, i.order)
    ensures (Prologue(i).Success? && Prologue(i).value.1 == Running(start, info, [])) <==>
            && i.w.rollupConfig(i.raw.chainId).Some?
            && VerifyInOrder(i.w.coding, i.st, i.order).Success?
            && StartsFrom(i.w, i.st, Boot(i.raw, i.w.rollupConfig(i.raw.chainId).value), start, info)
    ensures Prologue(i).Success? ==>
            && Prologue(i).value.1.Running? && Prologue(i).value.1.blocks == []
            && Prologue(i).value.0 == Job(i.w, i.st, Boot(i.raw, i.w.rollupConfig(i.raw.chainId).value), i.answer)
  {
    if i.w.rollupConfig(i.raw.chainId).Some? {
      StartupExactly(i.w, i.st, Boot(i.raw, i.w.rollupConfig(i.raw.chainId).value), start, info);
    }
  }

  // ---------------------------------------------------------------- what a normal end proves

  /** A run of the program that ended normally: its boot info, store, start and executed blocks. */
  datatype SpanRun = SpanRun(raw: RawBootInfo, st: Store, start: Sealed, blocks: seq<OpBlock>)

  function LastHeader(run: SpanRun): Header {
    if run.blocks == [] then run.start.header else run.blocks[|run.blocks| - 1].header
  }

  /** `root` is the output root of header `h`: the hash of a preimage, known to `known`, that holds
      `h`'s state root, the storage root some store yields for it, and its hash. */
  ghost predicate RootOf(w: World, known: set<Bytes>, root: B256, h: Header) {
    exists storage: B256 ::
      var preimage := OutputPreimage(h.stateRoot, storage, HeaderHash(w.coding, h));
      preimage in known && root == w.coding.keccak(preimage)
  }

  ghost predicate StartsAt(w: World, run: SpanRun) {
    && Preimage(run.st, run.raw.l2OutputRoot).Success?
    && |Preimage(run.st, run.raw.l2OutputRoot).value| == 128
    && Preimage(run.st, run.raw.l2OutputRoot).value[96..128] == run.start.seal
    && HeaderByHash(w.coding, run.st, run.start.seal) == Success(run.start.header)
  }

  ghost predicate ClaimsEnd(w: World, run: SpanRun) {
    exists storage :: w.storageRoot(run.st, LastHeader(run)) == Some(storage)
      && run.raw.l2Claim == w.coding.keccak(
           OutputPreimage(LastHeader(run).stateRoot, storage, HeaderHash(w.coding, LastHeader(run))))
  }

  ghost predicate ValidSpan(w: World, run: SpanRun) {
    && w.rollupConfig(run.raw.chainId).Some?
    && Verified(w.coding, run.st)
    && StartsAt(w, run)
    && Chained(w, run.st, w.rollupConfig(run.raw.chainId).value, run.start, run.blocks)
    && run.start.header.number < run.raw.l2ClaimBlock
    && |run.blocks| == run.raw.l2ClaimBlock - run.start.header.number
    && LastHeader(run).number == run.raw.l2ClaimBlock
    && ClaimsEnd(w, run)
  }

  lemma OrderVerifies(c: Coding, st: Store, order: seq<B256>)
    requires IterationOf(st, order) && VerifyInOrder(c, st, order).Success?
    ensures Verified(c, st)
  {
    PassChecksEntries(c, st, order);
  }

  lemma PrologueStarts(i: Inputs, run: SpanRun)
    requires IterationOf(i.st, i.order) && Prologue(i).Success?
    requires run.raw == i.raw && run.st == i.st && run.start == Prologue(i).value.1.head
    ensures VerifyInOrder(i.w.coding, i.st, i.order).Success?
    ensures i.w.rollupConfig(i.raw.chainId).Some?
    ensures Prologue(i).value.0 == JobOf(i, i.w.rollupConfig(i.raw.chainId).value)
    ensures Prologue(i).value.1 == Running(run.start, Prologue(i).value.1.info, [])
    ensures StartsAt(i.w, run)
  {
  }

  lemma EndClaims(job: Job, start: Sealed, startInfo: L2BlockInfo, turns: nat, run: SpanRun)
    requires Faithful(job.w) && After(job, Running(start, startInfo, []), turns).Done?
    requires var done := After(job, Running(start, startInfo, []), turns);
             && run == SpanRun(job.boot.raw, job.st, start, done.blocks)
             && CheckClaim(job.w, job.st, job.boot, done.head).Pass?
    ensures Chained(job.w, job.st, job.boot.config, start, run.blocks)
    ensures start.header.number < run.raw.l2ClaimBlock == LastHeader(run).number
    ensures |run.blocks| == run.raw.l2ClaimBlock - start.header.number
    ensures ClaimsEnd(job.w, run)
  {
    var done := After(job, Running(start, startInfo, []), turns);
    LoopBounds(job, start, startInfo, turns);
    EndedChain(job, start, startInfo, done, turns);
    CheckedClaim(job, done.head, run);
  }

  lemma EndedChain(job: Job, start: Sealed, startInfo: L2BlockInfo, done: LoopState, turns: nat)
    requires done == After(job, Running(start, startInfo, []), turns) && done.Done?
    ensures Chained(job.w, job.st, job.boot.config, start, done.blocks) && done.blocks != []
    ensures done.head == SealOf(job.w.coding, done.blocks[|done.blocks| - 1].header)
    ensures done.head.header.number == job.boot.raw.l2ClaimBlock
  {
    TurnsKeepInv(job, start, startInfo, turns);
  }

  lemma CheckedClaim(job: Job, head: Sealed, run: SpanRun)
    requires run.raw == job.boot.raw && run.st == job.st && head == SealOf(job.w.coding, LastHeader(run))
    requires CheckClaim(job.w, job.st, job.boot, head).Pass?
    ensures ClaimsEnd(job.w, run)
  {
  }

  /** The run that a normal end leaves behind. */
  function SpanOf(i: Inputs, turns: nat): SpanRun
    requires forall k :: k in i.order ==> k in i.st
    requires Program(i, turns).Success?
  {
    SpanRun(i.raw, i.st, Prologue(i).value.1.head, Program(i, turns).value)
  }

  /** A normal end makes the committed boot info true of one run of consecutive executions, from the
      block its output root names to the block and root it claims. */
  lemma ProgramIsSound(i: Inputs, turns: nat)
    requires Faithful(i.w) && IterationOf(i.st, i.order) && Program(i, turns).Success?
    ensures ValidSpan(i.w, SpanOf(i, turns))
  {
    var (job, first) := Prologue(i).value;
    var run := SpanOf(i, turns);
    PrologueStarts(i, run);
    OrderVerifies(i.w.coding, i.st, i.order);
    EndClaims(job, first.head, first.info, turns, run);
  }

  /** The loop's first state, under which it ends with a right claim. */
  ghost predicate Provable(job: Job, first: LoopState) {
    && first.Running?
    && first.head.header.number < job.boot.raw.l2ClaimBlock
    && NeverFails(job, first)
    && KeepsYielding(job, first)
    && forall turns: nat :: After(job, first, turns).Done? ==>
         CheckClaim(job.w, job.st, job.boot, After(job, first, turns).head).Pass?
  }

  lemma OneEnd(job: Job, s: LoopState, n: nat, m: nat)
    requires After(job, s, n).Done? && After(job, s, m).Done?
    ensures After(job, s, n) == After(job, s, m)
  {
    if n <= m {
      EndedStays(job, s, n, m);
    } else {
      EndedStays(job, s, m, n);
    }
  }

  lemma ProvableExactly(job: Job, start: Sealed, startInfo: L2BlockInfo)
    requires Faithful(job.w)
    ensures var s := Running(start, startInfo, []);
            Provable(job, s) <==>
            exists n: nat :: After(job, s, n).Done? && CheckClaim(job.w, job.st, job.boot, After(job, s, n).head).Pass?
  {
    var s := Running(start, startInfo, []);
    EndsExactly(job, start, startInfo);
    if n: nat :| After(job, s, n).Done? && CheckClaim(job.w, job.st, job.boot, After(job, s, n).head).Pass? {
      forall m: nat | After(job, s, m).Done?
        ensures CheckClaim(job.w, job.st, job.boot, After(job, s, m).head).Pass?
      {
        OneEnd(job, s, n, m);
      }
    }
  }

  lemma ProgramByEnd(i: Inputs, turns: nat)
    requires IterationOf(i.st, i.order)
    ensures Program(i, turns).Success? <==>
            && Prologue(i).Success?
            && var (job, first) := Prologue(i).value;
               && After(job, first, turns).Done?
               && CheckClaim(job.w, job.st, job.boot, After(job, first, turns).head).Pass?
  {
    if Prologue(i).Success? {
      PrologueStarts(i, SpanRun(i.raw, i.st, Prologue(i).value.1.head, []));
    }
  }

  lemma ProvableIfAccepted(i: Inputs, turns: nat)
    requires Faithful(i.w) && IterationOf(i.st, i.order) && Program(i, turns).Success?
    ensures Prologue(i).Success? && Provable(Prologue(i).value.0, Prologue(i).value.1)
  {
    ProgramByEnd(i, turns);
    var (job, first) := Prologue(i).value;
    PrologueStarts(i, SpanRun(i.raw, i.st, first.head, []));
    assert first == Running(first.head, first.info, []);
    ProvableExactly(job, first.head, first.info);
  }

  lemma AcceptedIfProvable(i: Inputs) returns (turns: nat)
    requires Faithful(i.w) && IterationOf(i.st, i.order)
    requires Prologue(i).Success? && Provable(Prologue(i).value.0, Prologue(i).value.1)
    ensures Program(i, turns).Success?
  {
    var (job, first) := Prologue(i).value;
    PrologueStarts(i, SpanRun(i.raw, i.st, first.head, []));
    assert first == Running(first.head, first.info, []);
    ProvableExactly(job, first.head, first.info);
    turns :| After(job, first, turns).Done? && CheckClaim(job.w, job.st, job.boot, After(job, first, turns).head).Pass?;
    ProgramByEnd(i, turns);
  }

  /** The program accepts, given enough turns, exactly when its prologue does, the claim block is above
      the start block, no turn panics, the pipeline keeps yielding, and the claim is right. */
  lemma ProgramAcceptsExactly(i: Inputs)
    requires Faithful(i.w) && IterationOf(i.st, i.order)
    ensures (exists turns: nat :: Program(i, turns).Success?)
            <==> Prologue(i).Success? && Provable(Prologue(i).value.0, Prologue(i).value.1)
  {
    if turns: nat :| Program(i, turns).Success? {
      ProvableIfAccepted(i, turns);
    } else if Prologue(i).Success? && Provable(Prologue(i).value.0, Prologue(i).value.1) {
      var turns := AcceptedIfProvable(i);
    }
  }

  // ---------------------------------------------------------------- what the caches hold meanwhile

  lemma ExecutionKeepsNumbering(
    w: World, st: Store, cfg: RollupConfig, past: seq<OpBlock>, start: Sealed, blocks: seq<OpBlock>)
    requires Faithful(w) && WellNumbered(w.coding, past) && past != []
    requires start == SealOf(w.coding, past[|past| - 1].header) && Chained(w, st, cfg, start, blocks)
    ensures WellNumbered(w.coding, past + blocks)
  {
    var chain := past + blocks;
    forall i | |past| <= i < |chain|
      ensures chain[i].header.number == i && chain[i].header.parentHash == HeaderHash(w.coding, chain[i - 1].header)
    {
      NumbersConsecutive(w, st, cfg, start, blocks, i - |past|);
    }
  }

  /** The chain that execution has extended, at a loop head. */
  function ChainAt(job: Job, past: seq<OpBlock>, start: Sealed, startInfo: L2BlockInfo, turns: nat): seq<OpBlock> {
    var s := After(job, Running(start, startInfo, []), turns);
    if s.Running? then past + s.blocks else past
  }

  /** What the provider sees at a loop head. */
  function ViewAt(job: Job, start: Sealed, startInfo: L2BlockInfo, turns: nat): View {
    var s := After(job, Running(start, startInfo, []), turns);
    View(job.w, job.boot, job.st, FillCaches(job.w, job.boot.config, if s.Running? then s.blocks else []))
  }

  lemma FilledFrom(w: World, cfg: RollupConfig, past: seq<OpBlock>, blocks: seq<OpBlock>, chain: seq<OpBlock>)
    requires past != [] && chain == past + blocks && WellNumbered(w.coding, chain)
    requires forall i :: 0 <= i < |blocks| ==> CacheUpdateResult(w, blocks[i], cfg).Success?
    ensures CachesHold(w, cfg, FillCaches(w, cfg, blocks), chain, |past| - 1, |chain| - 1)
  {
    assert chain[|past|..|chain|] == blocks;
    forall k | |past| - 1 < k <= |chain| - 1 ensures CacheUpdateResult(w, chain[k], cfg).Success? {
      assert chain[k] == blocks[k - |past|];
    }
    FilledCachesHold(w, cfg, chain, |past| - 1, |chain| - 1);
  }

  lemma FilledAfterExecution(
    w: World, st: Store, cfg: RollupConfig, past: seq<OpBlock>, start: Sealed, blocks: seq<OpBlock>,
    chain: seq<OpBlock>)
    requires Faithful(w) && WellNumbered(w.coding, past) && past != [] && chain == past + blocks
    requires start == SealOf(w.coding, past[|past| - 1].header) && Chained(w, st, cfg, start, blocks)
    requires forall i :: 0 <= i < |blocks| ==> CacheUpdateResult(w, blocks[i], cfg).Success?
    ensures SealOf(w.coding, chain[|chain| - 1].header) == HeadOf(w.coding, start, blocks)
    ensures WellNumbered(w.coding, chain)
    ensures CachesHold(w, cfg, FillCaches(w, cfg, blocks), chain, |past| - 1, |chain| - 1)
  {
    ExecutionKeepsNumbering(w, st, cfg, past, start, blocks);
    FilledFrom(w, cfg, past, blocks, chain);
  }

  /** At every loop head the newest block of the chain is the loop's head, and the caches hold the
      executed blocks and only those. */
  lemma LoopCaches(job: Job, past: seq<OpBlock>, start: Sealed, startInfo: L2BlockInfo, turns: nat)
    requires Faithful(job.w) && WellNumbered(job.w.coding, past) && past != []
    requires start == SealOf(job.w.coding, past[|past| - 1].header)
    requires After(job, Running(start, startInfo, []), turns).Running?
    ensures var chain := ChainAt(job, past, start, startInfo, turns);
            && SealOf(job.w.coding, chain[|chain| - 1].header) == After(job, Running(start, startInfo, []), turns).head
            && WellNumbered(job.w.coding, chain)
            && CachesHold(
                 job.w, job.boot.config, ViewAt(job, start, startInfo, turns).caches, chain, |past| - 1, |chain| - 1)
  {
    var s := After(job, Running(start, startInfo, []), turns);
    TurnsKeepInv(job, start, startInfo, turns);
    FilledAfterExecution(
      job.w, job.st, job.boot.config, past, start, s.blocks, ChainAt(job, past, start, startInfo, turns));
  }

  lemma LookupsFrom(v: View, past: seq<OpBlock>, chain: seq<OpBlock>, lo: nat, n: uint64)
    requires past != [] && past <= chain && WellNumbered(v.w.coding, chain) && lo < |past|
    requires CachesHold(v.w, v.boot.config, v.caches, chain, |past| - 1, |chain| - 1)
    requires StartHeader(v.w.coding, v.st, v.boot.raw.l2OutputRoot) == Success(past[|past| - 1].header)
    requires forall i :: lo <= i < |past| ==> Holds(v.w, v.boot.config, v.st, past[i])
    ensures lo <= n < |chain| ==>
      && HeaderLookup(v, n, |past|) == Success(chain[n].header)
      && PayloadLookup(v, n, |past|) == Success(chain[n])
      && InfoLookup(v, n, |past|) == BlockRef(v.w, chain[n], v.boot.config)
      && SystemConfigLookup(v, n, v.boot.config, |past|) == ToSystemConfig(v.w, chain[n], v.boot.config)
    ensures n >= |chain| ==>
      && HeaderLookup(v, n, |past|) == Failure(PastHead)
      && PayloadLookup(v, n, |past|) == Failure(PastHead)
      && InfoLookup(v, n, |past|) == Failure(PastHead)
      && SystemConfigLookup(v, n, v.boot.config, |past|) == Failure(PastHead)
  {
    assert forall i :: 0 <= i < |past| ==> chain[i] == past[i];
    LookupsAnswerChain(v, chain, lo, |past| - 1, |chain| - 1, n, |past|);
  }

  /** So at every loop head every lookup up to the head answers from that chain, and any above it is
      refused, although the store ends at the start block. */
  lemma LoopLookups(job: Job, past: seq<OpBlock>, start: Sealed, startInfo: L2BlockInfo, turns: nat, lo: nat, n: uint64)
    requires Faithful(job.w) && WellNumbered(job.w.coding, past) && past != [] && lo < |past|
    requires start == SealOf(job.w.coding, past[|past| - 1].header)
    requires StartHeader(job.w.coding, job.st, job.boot.raw.l2OutputRoot) == Success(start.header)
    requires forall i :: lo <= i < |past| ==> Holds(job.w, job.boot.config, job.st, past[i])
    requires After(job, Running(start, startInfo, []), turns).Running?
    ensures var chain := ChainAt(job, past, start, startInfo, turns);
            var v := ViewAt(job, start, startInfo, turns);
            && (lo <= n < |chain| ==>
                  && HeaderLookup(v, n, |past|) == Success(chain[n].header)
                  && PayloadLookup(v, n, |past|) == Success(chain[n])
                  && InfoLookup(v, n, |past|) == BlockRef(job.w, chain[n], job.boot.config)
                  && SystemConfigLookup(v, n, job.boot.config, |past|)
                     == ToSystemConfig(job.w, chain[n], job.boot.config))
            && (n >= |chain| ==>
                  && HeaderLookup(v, n, |past|) == Failure(PastHead)
                  && PayloadLookup(v, n, |past|) == Failure(PastHead)
                  && InfoLookup(v, n, |past|) == Failure(PastHead)
                  && SystemConfigLookup(v, n, job.boot.config, |past|) == Failure(PastHead))
  {
    LoopCaches(job, past, start, startInfo, turns);
    LookupsFrom(ViewAt(job, start, startInfo, turns), past, ChainAt(job, past, start, startInfo, turns), lo, n);
  }
}
