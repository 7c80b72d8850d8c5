/** The multi-block program as the objects it runs with: pipeline, driver, executor, shared caches. Its
    methods are proved to do what `SpanLoop` and `SpanProgram` say. */
module ValidityClient {
  import opened Wrappers
  import opened Words
  import opened BootInfo
  import opened PreimageStore
  import opened L2Chain
  import opened L2Provider
  import opened SpanLoop
  import opened SpanProgram

  /** The derivation pipeline: a queue of prepared payloads that `Step` may refill. */
  class Pipeline {
    const answer: (nat, L2BlockInfo) -> StepResult
    var steps: nat
    var prepared: seq<AttributesWithParent>

    constructor (answer: (nat, L2BlockInfo) -> StepResult)
      ensures this.answer == answer && steps == 0 && prepared == []
    {
      this.answer, steps, prepared := answer, 0, [];
    }

    method Step(safeHead: L2BlockInfo) returns (r: StepResult)
      modifies this
      ensures r == answer(old(steps), safeHead) && steps == old(steps) + 1
      ensures prepared == old(prepared) + if r.PreparedAttributes? then r.batch else []
    {
      r := answer(steps, safeHead);
      steps := steps + 1;
      if r.PreparedAttributes? {
        prepared := prepared + r.batch;
      }
    }

    method Next() returns (p: Option<AttributesWithParent>)
      modifies this`prepared
      ensures old(prepared) == [] ==> p == None && prepared == []
      ensures old(prepared) != [] ==> p == Some(old(prepared)[0]) && prepared == old(prepared)[1..]
    {
      if prepared == [] {
        return None;
      }
      p, prepared := Some(prepared[0]), prepared[1..];
    }
  }

  class Driver {
    var l2SafeHead: L2BlockInfo
    var l2SafeHeadHeader: Sealed
    const pipeline: Pipeline
    const l2ClaimBlock: uint64

    constructor (safeHead: L2BlockInfo, safeHeader: Sealed, pipeline: Pipeline, claimBlock: uint64)
      ensures l2SafeHead == safeHead && l2SafeHeadHeader == safeHeader
      ensures this.pipeline == pipeline && l2ClaimBlock == claimBlock
    {
      l2SafeHead, l2SafeHeadHeader, this.pipeline, l2ClaimBlock := safeHead, safeHeader, pipeline, claimBlock;
    }

    method UpdateSafeHead(newSafeHead: L2BlockInfo, newSafeHeader: Sealed)
      modifies this
      ensures l2SafeHead == newSafeHead && l2SafeHeadHeader == newSafeHeader
    {
      l2SafeHead, l2SafeHeadHeader := newSafeHead, newSafeHeader;
    }

    /** Takes the queue's prefix through the claim block's payload, and leaves the rest queued. */
    method ProducePayloads() returns (payloads: seq<AttributesWithParent>)
      modifies pipeline
      ensures pipeline.steps == old(pipeline.steps) + 1
      ensures var r := pipeline.answer(old(pipeline.steps), l2SafeHead);
              var queue := old(pipeline.prepared) + if r.PreparedAttributes? then r.batch else [];
              var cut := if r.PreparedAttributes? then ClaimCut(queue, l2ClaimBlock) else 0;
              payloads == queue[..cut] && pipeline.prepared == queue[cut..]
      ensures pipeline.prepared == [] || payloads == [] || EndsAtClaim(payloads, l2ClaimBlock)
    {
      var r := pipeline.Step(l2SafeHead);
      payloads := [];
      if !r.PreparedAttributes? {
        return;
      }
      ghost var queue := pipeline.prepared;
      var done := false;
      while !done
        invariant pipeline.steps == old(pipeline.steps) + 1
        invariant |payloads| <= |queue| && payloads == queue[..|payloads|] && pipeline.prepared == queue[|payloads|..]
        invariant forall i :: 0 <= i < |payloads| - 1 ==> Succ64(queue[i].parent.number) != l2ClaimBlock
        invariant done || payloads == [] || Succ64(queue[|payloads| - 1].parent.number) != l2ClaimBlock
        invariant done ==> |payloads| == |queue| || EndsAtClaim(payloads, l2ClaimBlock)
        decreases !done, |pipeline.prepared|
      {
        var next := pipeline.Next();
        if next.None? {
          done := true;
        } else {
          payloads := payloads + [next.value];
          done := Succ64(next.value.parent.number) == l2ClaimBlock;
        }
      }
      CutIsFirst(queue, l2ClaimBlock, |payloads|);
    }
  }

  /** `find_startup_info`, filling a 128-byte buffer with the output root's preimage. */
  method FindStartupInfo(oracle: InMemoryOracle, l2: Provider) returns (r: Result<(Sealed, L2BlockInfo), ClientError>)
    requires oracle.cache == l2.oracle && l2.Sees().caches == EMPTY_CACHES
    ensures r == Startup(l2.w, l2.oracle, l2.boot)
  {
    var preimage := new Byte[128](_ => 0);
    var got := oracle.GetExact(Key(l2.boot.raw.l2OutputRoot, Keccak256), preimage);
    if got.Failure? {
      return Failure(Oracle(got.error));
    }
    var seal: B256 := preimage[96..128];
    assert seal == preimage[..][96..128];
    var header :- HeaderByHash(l2.w.coding, l2.oracle, seal);
    assert StartHeader(l2.w.coding, l2.oracle, l2.boot.raw.l2OutputRoot) == Success(header);
    var info :- l2.L2BlockInfoByNumber(header.number, 0);
    if !l2.w.knowsL1Origin(l2.oracle, info) {
      return Failure(UnknownL1Origin);
    }
    return Success((Sealed(header, seal), info));
  }

  class Executor {
    const w: World
    const st: Store
    const cfg: RollupConfig
    var parent: Sealed

    constructor (w: World, st: Store, cfg: RollupConfig, parent: Sealed)
      ensures this.w == w && this.st == st && this.cfg == cfg && this.parent == parent
    {
      this.w, this.st, this.cfg, this.parent := w, st, cfg, parent;
    }

    method ExecutePayload(attrs: Attributes) returns (r: Result<Header, ClientError>)
      modifies this
      ensures match w.execute(st, cfg, old(parent), attrs)
              case None => r == Failure(ExecutionFailed) && parent == old(parent)
              case Some(h) => r == Success(h) && parent == SealOf(w.coding, h)
    {
      var executed := w.execute(st, cfg, parent, attrs);
      if executed.None? {
        return Failure(ExecutionFailed);
      }
      parent := SealOf(w.coding, executed.value);
      return Success(executed.value);
    }

    method ComputeOutputRoot() returns (r: Result<B256, ClientError>)
      ensures r == match w.storageRoot(st, parent.header)
                   case None => Failure(OutputRootFailed)
                   case Some(storage) =>
                     Success(w.coding.keccak(OutputPreimage(parent.header.stateRoot, storage, parent.seal)))
    {
      var storage := w.storageRoot(st, parent.header);
      if storage.None? {
        return Failure(OutputRootFailed);
      }
      return Success(w.coding.keccak(OutputPreimage(parent.header.stateRoot, storage.value, parent.seal)));
    }
  }

  datatype TurnResult = Continue | Break | Panic(error: ClientError)

  class Client {
    const l2Provider: Provider
    const driver: Driver
    const executor: Executor
    var l2BlockInfo: L2BlockInfo
    var newBlockHeader: Header

    ghost const job: Job
    ghost var blocks: seq<OpBlock>

    constructor (l2Provider: Provider, driver: Driver, executor: Executor, ghost job: Job)
      requires driver.l2SafeHeadHeader == executor.parent && driver.pipeline.prepared == []
      requires l2Provider.caches.Contents() == EMPTY_CACHES
      requires Wired(l2Provider, driver, executor, job)
      ensures this.l2Provider == l2Provider && this.driver == driver && this.executor == executor && this.job == job
      ensures Coupled() && State() == Running(driver.l2SafeHeadHeader, driver.l2SafeHead, [])
    {
      this.l2Provider, this.driver, this.executor, this.job := l2Provider, driver, executor, job;
      l2BlockInfo := driver.l2SafeHead;
      newBlockHeader := driver.l2SafeHeadHeader.header;
      blocks := [];
    }

    /** The loop's state as the objects hold it. */
    ghost function State(): LoopState
      reads this, executor
    {
      Running(executor.parent, l2BlockInfo, blocks)
    }

    /** Executor, local variables and shared caches have seen the same blocks. */
    ghost predicate InStep()
      reads this, executor, l2Provider.caches
    {
      && Wired(l2Provider, driver, executor, job)
      && newBlockHeader == executor.parent.header
      && (blocks != [] ==> executor.parent == SealOf(job.w.coding, newBlockHeader))
      && l2Provider.caches.Contents() == FillCaches(job.w, job.boot.config, blocks)
    }

    /** At the head of the loop the driver's safe head, its sealed header, the executor's head and the
        newest cached block are the same, and no payload is left queued. */
    ghost predicate Coupled()
      reads this, executor, driver, driver.pipeline, l2Provider.caches
    {
      && InStep()
      && driver.l2SafeHeadHeader == executor.parent
      && driver.l2SafeHead == l2BlockInfo
      && driver.pipeline.prepared == []
    }

    /** One payload of the inner loop: execute, check the number, cache, and stop at the claim block. */
    method ExecuteAndCache(p: AttributesWithParent) returns (r: TurnResult)
      requires InStep()
      modifies this, executor, l2Provider.caches
      ensures match Advance(job, old(State()), p)
              case Running(_, _, _) => r == Continue && InStep() && State() == Advance(job, old(State()), p)
              case Done(head, done) => r == Break && InStep() && executor.parent == head && blocks == done
              case Failed(e) => r == Panic(e)
      ensures r == Continue ==> blocks != [] && Succ64(p.parent.number) != job.boot.raw.l2ClaimBlock
      ensures r == Break ==> executor.parent.header.number == job.boot.raw.l2ClaimBlock
    {
      ghost var before := blocks;
      var executed := executor.ExecutePayload(p.attributes);
      if executed.Failure? {
        return Panic(executed.error);
      }
      newBlockHeader := executed.value;
      if newBlockHeader.number != Succ64(p.parent.number) {
        return Panic(NumberMismatch);
      }
      var body := DecodeAll(l2Provider.w, p.attributes.transactions);
      if body.Failure? {
        return Panic(body.error);
      }
      var block := MakeBlock(l2Provider.boot.config, newBlockHeader, body.value);
      var cached := l2Provider.UpdateCache(newBlockHeader, block, l2Provider.boot.config);
      if cached.Failure? {
        return Panic(cached.error);
      }
      l2BlockInfo := cached.value;
      blocks := blocks + [block];
      assert blocks[..|blocks| - 1] == before;
      return if newBlockHeader.number == l2Provider.boot.raw.l2ClaimBlock then Break else Continue;
    }

    /** The inner loop over one batch. */
    method ExecuteBatch(payloads: seq<AttributesWithParent>) returns (r: TurnResult)
      requires InStep()
      modifies this, executor, l2Provider.caches
      ensures match RunBatch(job, old(State()), payloads)
              case Running(_, _, _) => r == Continue && InStep() && State() == RunBatch(job, old(State()), payloads)
              case Done(head, done) =>
                && r == Break && executor.parent == head && blocks == done
                && head.header.number == job.boot.raw.l2ClaimBlock
              case Failed(e) => r == Panic(e)
      ensures r == Continue ==>
        (payloads != [] ==> blocks != [])
        && forall k :: 0 <= k < |payloads| ==> Succ64(payloads[k].parent.number) != job.boot.raw.l2ClaimBlock
    {
      for i := 0 to |payloads|
        invariant InStep()
        invariant RunBatch(job, State(), payloads[i..]) == RunBatch(job, old(State()), payloads)
        invariant i > 0 ==> blocks != []
        invariant forall k :: 0 <= k < i ==> Succ64(payloads[k].parent.number) != job.boot.raw.l2ClaimBlock
      {
        assert payloads[i..][0] == payloads[i] && payloads[i..][1..] == payloads[i + 1..];
        r := ExecuteAndCache(payloads[i]);
        if r != Continue {
          return;
        }
      }
      return Continue;
    }

    /** One turn of the outer loop keeps the coupling, breaks only on the claim block, or panics. */
    method Iterate() returns (r: TurnResult)
      requires Coupled()
      modifies this, executor, driver, driver.pipeline, l2Provider.caches
      ensures driver.pipeline.steps == old(driver.pipeline.steps) + 1
      ensures match Turn(job, old(State()), old(driver.pipeline.steps))
              case Running(_, _, _) =>
                r == Continue && Coupled() && State() == Turn(job, old(State()), old(driver.pipeline.steps))
              case Done(head, done) =>
                && r == Break && executor.parent == head && blocks == done
                && head.header.number == job.boot.raw.l2ClaimBlock
              case Failed(e) => r == Panic(e)
    {
      ghost var answer := job.answer(driver.pipeline.steps, l2BlockInfo);
      var payloads := driver.ProducePayloads();
      assert payloads == Produced(job, answer) by {
        assert answer.PreparedAttributes? ==> [] + answer.batch == answer.batch;
      }
      assert payloads == [] ==> driver.pipeline.prepared == [];
      if payloads == [] {
        return Continue;
      }
      r := ExecuteBatch(payloads);
      if r == Continue {
        assert driver.pipeline.prepared == [];
        driver.UpdateSafeHead(l2BlockInfo, SealOf(l2Provider.w.coding, newBlockHeader));
      }
    }
  }

  /** The objects were made from the job's inputs. */
  ghost predicate Wired(l2Provider: Provider, driver: Driver, executor: Executor, job: Job) {
    && l2Provider.w == executor.w == job.w
    && l2Provider.boot == job.boot && executor.cfg == job.boot.config
    && l2Provider.oracle == executor.st == job.st
    && driver.pipeline.answer == job.answer
    && driver.l2ClaimBlock == job.boot.raw.l2ClaimBlock
  }

  /** `main`, with its loop cut off after `turns` turns. The boot info is committed before anything is
      checked; the proof exists only if the program then ends normally. */
  method RunProgram(i: Inputs, turns: nat) returns (committed: Bytes, r: Outcome<ClientError>)
    requires IterationOf(i.st, i.order)
    ensures committed == AbiEncode(i.raw)
    ensures r == match Program(i, turns) case Success(_) => Pass case Failure(e) => Fail(e)
  {
    committed := AbiEncode(i.raw);
    var cfg := i.w.rollupConfig(i.raw.chainId);
    if cfg.None? {
      return committed, Fail(UnknownChain);
    }
    var boot := Boot(i.raw, cfg.value);
    var oracle := new InMemoryOracle(i.st, i.w.coding);
    var verified := oracle.Verify(i.order);
    if verified.Failure? {
      return committed, Fail(StoreRejected(verified.error));
    }
    var caches := new SharedCaches();
    var l2Provider := new Provider(i.w, boot, i.st, caches);
    var driverProvider := l2Provider.Clone();
    var startup := FindStartupInfo(oracle, driverProvider);
    if startup.Failure? {
      return committed, Fail(startup.error);
    }
    var (safeHeader, safeHead) := startup.value;
    var pipeline := new Pipeline(i.answer);
    var driver := new Driver(safeHead, safeHeader, pipeline, i.raw.l2ClaimBlock);
    var executor := new Executor(i.w, i.st, cfg.value, driver.l2SafeHeadHeader);
    ghost var job := JobOf(i, cfg.value);
    ghost var first := Running(safeHeader, safeHead, []);
    assert Prologue(i) == Success((job, first));
    var client := new Client(l2Provider, driver, executor, job);

    var outcome := RunLoop(client, first, turns);
    match outcome {
      case Continue => r := Fail(Endless);
      case Panic(e) => r := Fail(e);
      case Break =>
        var root := executor.ComputeOutputRoot();
        if root.Failure? {
          r := Fail(root.error);
        } else {
          r := Need(root.value == i.raw.l2Claim, ClaimMismatch);
        }
    }
  }

  method RunLoop(client: Client, ghost first: LoopState, turns: nat) returns (r: TurnResult)
    requires client.Coupled() && client.State() == first && client.driver.pipeline.steps == 0
    modifies client, client.executor, client.driver, client.driver.pipeline, client.l2Provider.caches
    ensures match After(client.job, first, turns)
            case Running(_, _, _) =>
              r == Continue && client.Coupled() && client.State() == After(client.job, first, turns)
            case Done(head, done) => r == Break && client.executor.parent == head && client.blocks == done
            case Failed(e) => r == Panic(e)
  {
    r := Continue;
    for i := 0 to turns
      invariant client.Coupled() && client.State() == After(client.job, first, i)
      invariant client.driver.pipeline.steps == i
    {
      r := client.Iterate();
      if r != Continue {
        EndedStays(client.job, first, i + 1, turns);
        return;
      }
    }
    r := Continue;
  }
}
