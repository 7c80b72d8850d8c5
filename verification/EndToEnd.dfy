/** The join of the parts: spans that aggregate execute one consecutive run of blocks, and so the
    output log of every reachable state lies on one unbroken chain of executed blocks. */
module EndToEnd {
  import opened Wrappers
  import opened Words
  import opened BootInfo
  import opened PreimageStore
  import opened L2Chain
  import opened SpanLoop
  import opened SpanProgram
  import opened Aggregation
  import opened L1Heads
  import opened OutputLog
  import opened OutputLogRuns
  import opened OutputLogSteps

  // ---------------------------------------------------------------- one span after another

  /** Every byte string that a span's run hashed is in `known`: its store, its last header, the
      preimage of its claim. Collision-freedom is asked of `known` alone. */
  ghost predicate SpanKnown(w: World, known: set<Bytes>, run: SpanRun) {
    && run.st.Values <= known
    && w.coding.encodeHeader(LastHeader(run)) in known
    && forall storage :: w.storageRoot(run.st, LastHeader(run)) == Some(storage) ==>
         OutputPreimage(LastHeader(run).stateRoot, storage, HeaderHash(w.coding, LastHeader(run))) in known
  }

  /** A verified store answers a key with the byte string of `known` that has that hash. */
  lemma StoreAnswers(w: World, known: set<Bytes>, st: Store, bytes: Bytes, hash: B256)
    requires Verified(w.coding, st) && st.Values <= known && bytes in known && hash == w.coding.keccak(bytes)
    requires CollisionFree(w.coding.keccak, known) && Preimage(st, hash).Success?
    ensures Preimage(st, hash) == Success(bytes)
  {
    var key := Key(hash, Keccak256);
    assert st[key] in st.Values;
    KeyTail(w.coding.keccak(st[key]), hash, Keccak256);
    assert !Collide(w.coding.keccak, st[key], bytes);
  }

  /** The output root fixes the header: a span whose boot info starts from the root of `h` starts at
      `h`, sealed with `h`'s own hash, although the client looks both up by 31 bytes only. */
  lemma SpanStartsAtRoot(w: World, known: set<Bytes>, run: SpanRun, h: Header)
    requires Faithful(w) && CollisionFree(w.coding.keccak, known)
    requires ValidSpan(w, run) && SpanKnown(w, known, run)
    requires RootOf(w, known, run.raw.l2OutputRoot, h) && w.coding.encodeHeader(h) in known
    ensures run.start == SealOf(w.coding, h)
  {
    var storage: B256 :|
      var preimage := OutputPreimage(h.stateRoot, storage, HeaderHash(w.coding, h));
      preimage in known && run.raw.l2OutputRoot == w.coding.keccak(preimage);
    var preimage := OutputPreimage(h.stateRoot, storage, HeaderHash(w.coding, h));
    StoreAnswers(w, known, run.st, preimage, run.raw.l2OutputRoot);
    OutputPreimageFields(h.stateRoot, storage, HeaderHash(w.coding, h));
    assert run.start.seal == HeaderHash(w.coding, h);
    StoreAnswers(w, known, run.st, w.coding.encodeHeader(h), run.start.seal);
  }

  lemma SpanEndsAtRoot(w: World, known: set<Bytes>, run: SpanRun)
    requires ValidSpan(w, run) && SpanKnown(w, known, run)
    ensures RootOf(w, known, run.raw.l2Claim, LastHeader(run))
    ensures w.coding.encodeHeader(LastHeader(run)) in known
  {
    var storage :| w.storageRoot(run.st, LastHeader(run)) == Some(storage)
      && run.raw.l2Claim == w.coding.keccak(
           OutputPreimage(LastHeader(run).stateRoot, storage, HeaderHash(w.coding, LastHeader(run))));
    assert OutputPreimage(LastHeader(run).stateRoot, storage, HeaderHash(w.coding, LastHeader(run))) in known;
  }

  // ---------------------------------------------------------------- chains of executed headers

  /** Header `b` is what executing some payload on `a` yields, over a verified store of known values. */
  ghost predicate Executes(w: World, known: set<Bytes>, cfg: RollupConfig, a: Header, b: Header) {
    exists st, attrs ::
      Verified(w.coding, st) && st.Values <= known && w.execute(st, cfg, SealOf(w.coding, a), attrs) == Some(b)
  }

  /** Header `more[k]` was executed on the one before it, the first on `from`. */
  ghost predicate ExecutesAt(
    w: World, known: set<Bytes>, cfg: RollupConfig, from: Header, more: seq<Header>, k: nat)
    requires k < |more|
  {
    Executes(w, known, cfg, if k == 0 then from else more[k - 1], more[k])
  }

  ghost predicate Follows(w: World, known: set<Bytes>, cfg: RollupConfig, from: Header, more: seq<Header>) {
    forall k {:trigger ExecutesAt(w, known, cfg, from, more, k)} :: 0 <= k < |more| ==>
      ExecutesAt(w, known, cfg, from, more, k)
  }

  /** Every header after the first was executed on the one before it. */
  ghost predicate ExecutionChain(w: World, known: set<Bytes>, cfg: RollupConfig, chain: seq<Header>) {
    chain != [] && Follows(w, known, cfg, chain[0], chain[1..])
  }

  function Headers(blocks: seq<OpBlock>): (hs: seq<Header>)
    ensures |hs| == |blocks| && forall i :: 0 <= i < |blocks| ==> hs[i] == blocks[i].header
  {
    seq(|blocks|, i requires 0 <= i < |blocks| => blocks[i].header)
  }

  lemma SpanExecutes(w: World, known: set<Bytes>, cfg: RollupConfig, run: SpanRun, from: Header)
    requires ValidSpan(w, run) && run.st.Values <= known && w.rollupConfig(run.raw.chainId) == Some(cfg)
    requires run.start == SealOf(w.coding, from)
    ensures Follows(w, known, cfg, from, Headers(run.blocks))
  {
    var more := Headers(run.blocks);
    forall k | 0 <= k < |more| ensures ExecutesAt(w, known, cfg, from, more, k) {
      assert ExecutedAt(w, run.st, cfg, run.start, run.blocks, k);
      assert HeadOf(w.coding, run.start, run.blocks[..k]) == SealOf(w.coding, if k == 0 then from else more[k - 1]);
    }
  }

  lemma ChainsJoin(w: World, known: set<Bytes>, cfg: RollupConfig, chain: seq<Header>, more: seq<Header>)
    requires ExecutionChain(w, known, cfg, chain) && Follows(w, known, cfg, chain[|chain| - 1], more)
    ensures ExecutionChain(w, known, cfg, chain + more)
  {
    var first, rest := chain[1..], (chain + more)[1..];
    forall k | 0 <= k < |rest| ensures ExecutesAt(w, known, cfg, chain[0], rest, k) {
      if k < |first| {
        assert ExecutesAt(w, known, cfg, chain[0], first, k);
      } else {
        assert ExecutesAt(w, known, cfg, chain[|chain| - 1], more, k - |first|);
      }
    }
  }

  /** The chain ends at a known header whose output root is `root`. */
  ghost predicate EndsAtRoot(w: World, known: set<Bytes>, cfg: RollupConfig, chain: seq<Header>, root: B256) {
    && ExecutionChain(w, known, cfg, chain)
    && w.coding.encodeHeader(chain[|chain| - 1]) in known
    && RootOf(w, known, root, chain[|chain| - 1])
  }

  /** A span that starts from the root at which a chain ends starts at its last header, and its blocks
      extend the chain to the span's claim, by as many as the claim block's number is above the last. */
  lemma SpanExtendsChain(w: World, known: set<Bytes>, cfg: RollupConfig, chain: seq<Header>, run: SpanRun)
    requires Faithful(w) && CollisionFree(w.coding.keccak, known)
    requires ValidSpan(w, run) && SpanKnown(w, known, run) && w.rollupConfig(run.raw.chainId) == Some(cfg)
    requires EndsAtRoot(w, known, cfg, chain, run.raw.l2OutputRoot)
    ensures run.start == SealOf(w.coding, chain[|chain| - 1])
    ensures var longer := chain + Headers(run.blocks);
            && EndsAtRoot(w, known, cfg, longer, run.raw.l2Claim)
            && longer[|longer| - 1].number == run.raw.l2ClaimBlock
            && |longer| - |chain| == run.raw.l2ClaimBlock - chain[|chain| - 1].number
  {
    var from := chain[|chain| - 1];
    SpanStartsAtRoot(w, known, run, from);
    SpanEndsAtRoot(w, known, run);
    SpanExecutes(w, known, cfg, run, from);
    ChainsJoin(w, known, cfg, chain, Headers(run.blocks));
    var longer := chain + Headers(run.blocks);
    assert longer[|longer| - 1] == LastHeader(run);
  }

  // ---------------------------------------------------------------- spans laid along a chain

  /** The run behind a boot info ended normally and hashed known byte strings only. */
  ghost predicate StandsBehind(w: World, known: set<Bytes>, run: SpanRun, boot: RawBootInfo) {
    run.raw == boot && ValidSpan(w, run) && SpanKnown(w, known, run)
  }

  /** A chain of headers with the runs that executed it, one stretch after the other. */
  datatype History = History(chain: seq<Header>, runs: seq<SpanRun>)

  function Extended(h: History, run: SpanRun): History {
    History(h.chain + Headers(run.blocks), h.runs + [run])
  }

  function ExtendedBy(h: History, runs: seq<SpanRun>): History {
    if runs == [] then h else Extended(ExtendedBy(h, runs[..|runs| - 1]), runs[|runs| - 1])
  }

  lemma ExtendedByOneMore(h: History, runs: seq<SpanRun>, k: nat)
    requires 0 < k <= |runs|
    ensures ExtendedBy(h, runs[..k]) == Extended(ExtendedBy(h, runs[..k - 1]), runs[k - 1])
  {
    assert runs[..k][..k - 1] == runs[..k - 1];
  }

  lemma {:induction false} ExtendedByAppends(h: History, runs: seq<SpanRun>)
    ensures h.chain <= ExtendedBy(h, runs).chain && ExtendedBy(h, runs).runs == h.runs + runs
  {
    if runs != [] {
      ExtendedByAppends(h, runs[..|runs| - 1]);
    }
  }

  /** Where the chain has block number `n`. */
  function At(h: History, n: nat): int
    requires h.chain != []
  {
    n - h.chain[0].number
  }

  /** Run `i` starts at the header of the chain with its start block's number and executed the headers
      from there through its claim block; it continues the run before it, in root and number. */
  ghost predicate Placed(c: Coding, h: History, i: nat)
    requires i < |h.runs| && h.chain != []
  {
    var run := h.runs[i];
    var from, to := At(h, run.start.header.number), At(h, run.raw.l2ClaimBlock);
    && 0 <= from < to < |h.chain|
    && run.start == SealOf(c, h.chain[from])
    && h.chain[from + 1..to + 1] == Headers(run.blocks)
    && (if i == 0 then from == 0
        else
          && run.start.header.number == h.runs[i - 1].raw.l2ClaimBlock
          && run.raw.l2OutputRoot == h.runs[i - 1].raw.l2Claim)
  }

  /** Run `i` ended normally, on the chain with this id, and is placed. */
  ghost predicate RunAt(w: World, known: set<Bytes>, chainId: nat, h: History, i: nat)
    requires i < |h.runs| && h.chain != []
  {
    StandsBehind(w, known, h.runs[i], h.runs[i].raw) && h.runs[i].raw.chainId == chainId && Placed(w.coding, h, i)
  }

  /** The runs cover the chain after its first header exactly. */
  ghost predicate Laid(w: World, known: set<Bytes>, chainId: nat, h: History) {
    && h.chain != []
    && At(h, h.chain[|h.chain| - 1].number) == |h.chain| - 1
    && (if h.runs == [] then |h.chain| == 1
        else h.runs[|h.runs| - 1].raw.l2ClaimBlock == h.chain[|h.chain| - 1].number)
    && forall i {:trigger RunAt(w, known, chainId, h, i)} :: 0 <= i < |h.runs| ==> RunAt(w, known, chainId, h, i)
  }

  /** The last run, if any, claimed this root. */
  predicate ClaimedLast(h: History, root: B256) {
    h.runs != [] ==> h.runs[|h.runs| - 1].raw.l2Claim == root
  }

  lemma PlacedStays(c: Coding, h: History, run: SpanRun, i: nat)
    requires i < |h.runs| && h.chain != [] && Placed(c, h, i)
    ensures Placed(c, Extended(h, run), i)
  {
    var to := At(h, h.runs[i].raw.l2ClaimBlock);
    assert Extended(h, run).chain[..to + 1] == h.chain[..to + 1];
    var from := At(h, h.runs[i].start.header.number);
    assert Extended(h, run).chain[from + 1..to + 1] == h.chain[from + 1..to + 1];
  }

  lemma LastIsPlaced(c: Coding, h: History, run: SpanRun)
    requires h.chain != [] && run.start == SealOf(c, h.chain[|h.chain| - 1])
    requires At(h, run.start.header.number) == |h.chain| - 1
    requires run.blocks != [] && |run.blocks| == run.raw.l2ClaimBlock - run.start.header.number
    requires if h.runs == [] then |h.chain| == 1
             else
               && h.runs[|h.runs| - 1].raw.l2ClaimBlock == run.start.header.number
               && ClaimedLast(h, run.raw.l2OutputRoot)
    ensures Placed(c, Extended(h, run), |h.runs|)
  {
    var longer := Extended(h, run);
    assert longer.chain[|h.chain|..] == Headers(run.blocks);
    assert longer.chain[|h.chain|..|longer.chain|] == longer.chain[|h.chain|..];
  }

  lemma LastRunAt(w: World, known: set<Bytes>, chainId: nat, h: History, run: SpanRun)
    requires Laid(w, known, chainId, h) && ClaimedLast(h, run.raw.l2OutputRoot)
    requires StandsBehind(w, known, run, run.raw) && run.raw.chainId == chainId
    requires run.start == SealOf(w.coding, h.chain[|h.chain| - 1])
    ensures RunAt(w, known, chainId, Extended(h, run), |h.runs|)
    ensures var longer := Extended(h, run).chain;
            && longer[|longer| - 1].number == run.raw.l2ClaimBlock
            && |longer| - |h.chain| == run.raw.l2ClaimBlock - h.chain[|h.chain| - 1].number
  {
    LastIsPlaced(w.coding, h, run);
    assert Extended(h, run).chain[|Extended(h, run).chain| - 1] == LastHeader(run);
  }

  lemma RunExtends(w: World, known: set<Bytes>, chainId: nat, h: History, run: SpanRun)
    requires Laid(w, known, chainId, h) && RunAt(w, known, chainId, Extended(h, run), |h.runs|)
    requires var longer := Extended(h, run).chain;
             && longer[|longer| - 1].number == run.raw.l2ClaimBlock
             && |longer| - |h.chain| == run.raw.l2ClaimBlock - h.chain[|h.chain| - 1].number
    ensures Laid(w, known, chainId, Extended(h, run))
  {
    forall i | 0 <= i < |Extended(h, run).runs| ensures RunAt(w, known, chainId, Extended(h, run), i) {
      if i < |h.runs| {
        RunStays(w, known, chainId, h, run, i);
      }
    }
  }

  lemma RunStays(w: World, known: set<Bytes>, chainId: nat, h: History, run: SpanRun, i: nat)
    requires Laid(w, known, chainId, h) && i < |h.runs|
    ensures RunAt(w, known, chainId, Extended(h, run), i)
  {
    assert RunAt(w, known, chainId, h, i);
    PlacedStays(w.coding, h, run, i);
  }

  /** A history whose chain ends at an output root, which its last run claimed. */
  ghost predicate HistoryTo(
    w: World, known: set<Bytes>, cfg: RollupConfig, chainId: nat, h: History, root: B256)
  {
    Laid(w, known, chainId, h) && ClaimedLast(h, root) && EndsAtRoot(w, known, cfg, h.chain, root)
  }

  lemma RunContinues(w: World, known: set<Bytes>, cfg: RollupConfig, chainId: nat, run: SpanRun, h: History)
    requires Faithful(w) && CollisionFree(w.coding.keccak, known)
    requires StandsBehind(w, known, run, run.raw)
    requires run.raw.chainId == chainId && w.rollupConfig(run.raw.chainId) == Some(cfg)
    requires HistoryTo(w, known, cfg, chainId, h, run.raw.l2OutputRoot)
    ensures HistoryTo(w, known, cfg, chainId, Extended(h, run), run.raw.l2Claim)
  {
    SpanExtendsChain(w, known, cfg, h.chain, run);
    LastRunAt(w, known, chainId, h, run);
    RunExtends(w, known, chainId, h, run);
  }

  /** Run `i` ended normally on the chain with this id, and starts from the root that the one before
      claims. */
  ghost predicate JoinedAt(w: World, known: set<Bytes>, chainId: nat, runs: seq<SpanRun>, i: nat)
    requires i < |runs|
  {
    && StandsBehind(w, known, runs[i], runs[i].raw)
    && runs[i].raw.chainId == chainId
    && (i > 0 ==> runs[i].raw.l2OutputRoot == runs[i - 1].raw.l2Claim)
  }

  ghost predicate Joined(w: World, known: set<Bytes>, chainId: nat, runs: seq<SpanRun>) {
    forall i {:trigger JoinedAt(w, known, chainId, runs, i)} :: 0 <= i < |runs| ==>
      JoinedAt(w, known, chainId, runs, i)
  }

  /** The root that the first `k` runs lead to. */
  function RootAfter(runs: seq<SpanRun>, k: nat): B256
    requires runs != [] && k <= |runs|
  {
    if k == 0 then runs[0].raw.l2OutputRoot else runs[k - 1].raw.l2Claim
  }

  lemma NextRun(
    w: World, known: set<Bytes>, cfg: RollupConfig, chainId: uint64, runs: seq<SpanRun>, k: nat, h: History)
    requires Faithful(w) && CollisionFree(w.coding.keccak, known)
    requires Joined(w, known, chainId, runs) && w.rollupConfig(chainId) == Some(cfg) && k < |runs|
    requires HistoryTo(w, known, cfg, chainId, h, RootAfter(runs, k))
    ensures HistoryTo(w, known, cfg, chainId, Extended(h, runs[k]), RootAfter(runs, k + 1))
  {
    assert JoinedAt(w, known, chainId, runs, k);
    RunContinues(w, known, cfg, chainId, runs[k], h);
  }

  /** Joined runs continue a history from root to root. */
  lemma {:induction false} RunsContinue(
    w: World, known: set<Bytes>, cfg: RollupConfig, chainId: uint64, runs: seq<SpanRun>, k: nat, h: History)
    requires Faithful(w) && CollisionFree(w.coding.keccak, known)
    requires Joined(w, known, chainId, runs) && w.rollupConfig(chainId) == Some(cfg) && k <= |runs| && runs != []
    requires HistoryTo(w, known, cfg, chainId, h, RootAfter(runs, 0))
    ensures HistoryTo(w, known, cfg, chainId, ExtendedBy(h, runs[..k]), RootAfter(runs, k))
  {
    if k > 0 {
      RunsContinue(w, known, cfg, chainId, runs, k - 1, h);
      NextRun(w, known, cfg, chainId, runs, k - 1, ExtendedBy(h, runs[..k - 1]));
      ExtendedByOneMore(h, runs, k);
    }
  }

  lemma EndNumbers(w: World, known: set<Bytes>, chainId: nat, h: History, longer: History)
    requires Laid(w, known, chainId, h) && Laid(w, known, chainId, longer) && h.chain <= longer.chain
    requires longer.runs != []
    ensures longer.chain[|longer.chain| - 1].number == longer.runs[|longer.runs| - 1].raw.l2ClaimBlock
    ensures |longer.chain| - |h.chain|
            == longer.runs[|longer.runs| - 1].raw.l2ClaimBlock - h.chain[|h.chain| - 1].number
  {
  }

  lemma RunsCompose(w: World, known: set<Bytes>, cfg: RollupConfig, chainId: uint64, runs: seq<SpanRun>, h: History)
    returns (longer: History)
    requires Faithful(w) && CollisionFree(w.coding.keccak, known)
    requires Joined(w, known, chainId, runs) && w.rollupConfig(chainId) == Some(cfg) && runs != []
    requires HistoryTo(w, known, cfg, chainId, h, RootAfter(runs, 0))
    ensures h.chain <= longer.chain && longer.runs == h.runs + runs
    ensures HistoryTo(w, known, cfg, chainId, longer, RootAfter(runs, |runs|))
    ensures longer.chain[|longer.chain| - 1].number == runs[|runs| - 1].raw.l2ClaimBlock
    ensures |longer.chain| - |h.chain| == runs[|runs| - 1].raw.l2ClaimBlock - h.chain[|h.chain| - 1].number
  {
    RunsContinue(w, known, cfg, chainId, runs, |runs|, h);
    assert runs[..|runs|] == runs;
    longer := ExtendedBy(h, runs);
    ExtendedByAppends(h, runs);
    EndNumbers(w, known, chainId, h, longer);
  }

  // ---------------------------------------------------------------- one aggregated proof

  /** A run of the aggregation program that ended normally, with the runs of the spans behind the
      proofs that it verified. */
  datatype AggRun = AggRun(inputs: AggregationInputs, headers: seq<Header>, spans: seq<SpanRun>)

  ghost predicate ValidAgg(w: World, known: set<Bytes>, agg: AggRun) {
    var boots := agg.inputs.bootInfos;
    && boots != [] && Sequential(boots)
    && LinkedTo(w.coding, agg.headers, agg.inputs.latestL1CheckpointHead)
    && Covers(w.coding, agg.headers, boots)
    && |agg.spans| == |boots|
    && forall i {:trigger StandsBehind(w, known, agg.spans[i], boots[i])} :: 0 <= i < |boots| ==>
         StandsBehind(w, known, agg.spans[i], boots[i])
  }

  lemma {:induction false} SameChain(boots: seq<RawBootInfo>, i: nat)
    requires Sequential(boots) && i < |boots|
    ensures boots[i].chainId == boots[|boots| - 1].chainId
    decreases |boots| - i
  {
    if i + 1 < |boots| {
      SameChain(boots, i + 1);
    }
  }

  function Raws(runs: seq<SpanRun>): (raws: seq<RawBootInfo>)
    ensures |raws| == |runs| && forall i :: 0 <= i < |runs| ==> raws[i] == runs[i].raw
  {
    seq(|runs|, i requires 0 <= i < |runs| => runs[i].raw)
  }

  lemma SpansAreJoined(w: World, known: set<Bytes>, agg: AggRun)
    requires ValidAgg(w, known, agg)
    ensures Joined(w, known, Consolidate(agg.inputs.bootInfos).chainId, agg.spans)
    ensures RootAfter(agg.spans, 0) == Consolidate(agg.inputs.bootInfos).l2OutputRoot
    ensures RootAfter(agg.spans, |agg.spans|) == Consolidate(agg.inputs.bootInfos).l2Claim
    ensures agg.spans[|agg.spans| - 1].raw.l2ClaimBlock == Consolidate(agg.inputs.bootInfos).l2ClaimBlock
    ensures Raws(agg.spans) == agg.inputs.bootInfos
  {
    var boots := agg.inputs.bootInfos;
    forall i | 0 <= i < |boots| ensures agg.spans[i].raw == boots[i] {
      assert StandsBehind(w, known, agg.spans[i], boots[i]);
    }
    assert Raws(agg.spans) == boots;
    forall i | 0 <= i < |boots| ensures JoinedAt(w, known, Consolidate(boots).chainId, agg.spans, i) {
      SameChain(boots, i);
      assert StandsBehind(w, known, agg.spans[i], boots[i]);
    }
  }

  /** The spans of an aggregation compose: each starts at the block where the one before it ended, so
      together they extend a history that ends at the first root to one that ends at the last claim. */
  lemma SpansCompose(w: World, known: set<Bytes>, cfg: RollupConfig, agg: AggRun, h: History)
    returns (longer: History)
    requires Faithful(w) && CollisionFree(w.coding.keccak, known) && ValidAgg(w, known, agg)
    requires w.rollupConfig(Consolidate(agg.inputs.bootInfos).chainId) == Some(cfg)
    requires var joined := Consolidate(agg.inputs.bootInfos);
             HistoryTo(w, known, cfg, joined.chainId, h, joined.l2OutputRoot)
    ensures h.chain <= longer.chain && longer.runs == h.runs + agg.spans
    ensures var joined := Consolidate(agg.inputs.bootInfos);
            && HistoryTo(w, known, cfg, joined.chainId, longer, joined.l2Claim)
            && longer.chain[|longer.chain| - 1].number == joined.l2ClaimBlock
            && |longer.chain| - |h.chain| == joined.l2ClaimBlock - h.chain[|h.chain| - 1].number
  {
    SpansAreJoined(w, known, agg);
    longer := RunsCompose(w, known, cfg, Consolidate(agg.inputs.bootInfos).chainId, agg.spans, h);
  }

  // ---------------------------------------------------------------- proofs that the verifiers accept

  /** A run of the multi-block program that ended normally and hashed byte strings of `known` only. */
  ghost predicate NormalRun(w: World, known: set<Bytes>, i: Inputs, turns: nat) {
    && i.w == w && IterationOf(i.st, i.order)
    && Program(i, turns).Success?
    && AbiEncode(i.raw) in known && SpanKnown(w, known, SpanOf(i, turns))
  }

  /** The zkVM verifies a proof under the multi-block key only if a normal run committed bytes with the
      digest that it is given. */
  ghost predicate SoundVerifier(w: World, known: set<Bytes>, verify: (seq<nat>, B256) -> bool) {
    forall digest :: verify(MULTI_BLOCK_PROGRAM_VKEY_DIGEST, digest) ==> Proved(w, known, digest)
  }

  ghost predicate Proved(w: World, known: set<Bytes>, digest: B256) {
    exists i, turns :: NormalRun(w, known, i, turns) && w.coding.sha256(AbiEncode(i.raw)) == digest
  }

  /** These bytes were committed by a run of the aggregation program that ended normally. */
  ghost predicate CommittedBytes(w: World, known: set<Bytes>, verify: (seq<nat>, B256) -> bool, bytes: Bytes) {
    exists inputs: AggregationInputs, headers ::
      && Accepts(w.coding, verify, inputs, headers)
      && EncodingsKnown(known, inputs.bootInfos)
      && bytes == AbiEncode(Consolidate(inputs.bootInfos))
  }

  ghost predicate Committed(w: World, known: set<Bytes>, verify: (seq<nat>, B256) -> bool, p: AcceptedProof) {
    CommittedBytes(w, known, verify, SolidityEncode(p.values))
  }

  /** The assumption on the contract's verifiers: a gateway that has had a proof accepted, asked under the
      key of that proof, answers for bytes only if an aggregation committed them. */
  ghost predicate SoundGateways(
    w: World, known: set<Bytes>, verify: (seq<nat>, B256) -> bool, events: seq<Event>, accepted: seq<AcceptedProof>)
  {
    forall i, k, bytes, proof {:trigger events[i].env.verify(accepted[k].gateway, accepted[k].vkey, bytes, proof)} ::
      (0 <= i < |events| && 0 <= k < |accepted|
       && events[i].env.verify(accepted[k].gateway, accepted[k].vkey, bytes, proof))
      ==> CommittedBytes(w, known, verify, bytes)
  }

  ghost predicate EncodingsKnown(known: set<Bytes>, boots: seq<RawBootInfo>) {
    forall i :: 0 <= i < |boots| ==> AbiEncode(boots[i]) in known
  }

  /** Behind an accepted digest of a boot info is a valid span of that very boot info. */
  lemma ProvedBoot(w: World, known: set<Bytes>, boot: RawBootInfo) returns (run: SpanRun)
    requires Faithful(w) && CollisionFree(w.coding.sha256, known)
    requires AbiEncode(boot) in known && Proved(w, known, w.coding.sha256(AbiEncode(boot)))
    ensures StandsBehind(w, known, run, boot)
  {
    var i, turns :|
      NormalRun(w, known, i, turns) && w.coding.sha256(AbiEncode(i.raw)) == w.coding.sha256(AbiEncode(boot));
    assert !Collide(w.coding.sha256, AbiEncode(i.raw), AbiEncode(boot));
    DecodeAfterEncode(i.raw);
    DecodeAfterEncode(boot);
    ProgramIsSound(i, turns);
    run := SpanOf(i, turns);
  }

  ghost predicate HasSpan(w: World, known: set<Bytes>, boot: RawBootInfo) {
    exists run :: StandsBehind(w, known, run, boot)
  }

  ghost function SpanBehind(w: World, known: set<Bytes>, boot: RawBootInfo): (run: SpanRun)
    requires HasSpan(w, known, boot)
    ensures StandsBehind(w, known, run, boot)
  {
    var run :| StandsBehind(w, known, run, boot);
    run
  }

  /** What the aggregation program accepts has a valid span behind every boot info. */
  lemma AcceptedIsValid(
    w: World, known: set<Bytes>, verify: (seq<nat>, B256) -> bool, inputs: AggregationInputs, headers: seq<Header>)
    returns (agg: AggRun)
    requires Faithful(w) && CollisionFree(w.coding.sha256, known) && SoundVerifier(w, known, verify)
    requires Accepts(w.coding, verify, inputs, headers) && EncodingsKnown(known, inputs.bootInfos)
    ensures agg.inputs == inputs && agg.headers == headers && ValidAgg(w, known, agg)
  {
    var boots := inputs.bootInfos;
    forall i | 0 <= i < |boots| ensures HasSpan(w, known, boots[i]) {
      var run := ProvedBoot(w, known, boots[i]);
    }
    agg := AggRun(inputs, headers, seq(|boots|, i requires 0 <= i < |boots| => SpanBehind(w, known, boots[i])));
  }

  /** The accepted bytes are those that a valid aggregation committed. */
  ghost predicate Attested(w: World, known: set<Bytes>, p: AcceptedProof) {
    exists agg :: ValidAgg(w, known, agg) && SolidityEncode(p.values) == AbiEncode(Consolidate(agg.inputs.bootInfos))
  }

  lemma CommittedIsAttested(w: World, known: set<Bytes>, verify: (seq<nat>, B256) -> bool, p: AcceptedProof)
    requires Faithful(w) && CollisionFree(w.coding.sha256, known) && SoundVerifier(w, known, verify)
    requires Committed(w, known, verify, p)
    ensures Attested(w, known, p)
  {
    var inputs: AggregationInputs, headers :|
      && Accepts(w.coding, verify, inputs, headers)
      && EncodingsKnown(known, inputs.bootInfos)
      && SolidityEncode(p.values) == AbiEncode(Consolidate(inputs.bootInfos));
    var agg := AcceptedIsValid(w, known, verify, inputs, headers);
  }

  // ---------------------------------------------------------------- the output log

  /** The seed is honest: it is the output root of a header with the seed's block number. */
  ghost predicate HonestSeed(w: World, known: set<Bytes>, seed: OutputProposal, h: Header) {
    && RootOf(w, known, seed.outputRoot, h)
    && w.coding.encodeHeader(h) in known
    && h.number == seed.l2BlockNumber
  }

  /** These runs lead from output `a` to output `b`, and one accepted proof states what they do together. */
  ghost predicate LinkBetween(proofs: seq<AcceptedProof>, a: OutputProposal, b: OutputProposal, runs: seq<SpanRun>) {
    && runs != []
    && runs[0].raw.l2OutputRoot == a.outputRoot
    && runs[|runs| - 1].raw.l2Claim == b.outputRoot
    && runs[|runs| - 1].raw.l2ClaimBlock == b.l2BlockNumber
    && exists k :: 0 <= k < |proofs| && SolidityEncode(proofs[k].values) == AbiEncode(Consolidate(Raws(runs)))
  }

  /** Output `j` is reached after `cuts[j]` runs, and the runs since the output before it make the link. */
  ghost predicate CutAt(proofs: seq<AcceptedProof>, outs: seq<OutputProposal>, j: nat, h: History, cuts: seq<nat>)
    requires j < |outs| && j < |cuts|
  {
    if j == 0 then cuts[0] == 0
    else
      && cuts[j - 1] < cuts[j] <= |h.runs|
      && LinkBetween(proofs, outs[j - 1], outs[j], h.runs[cuts[j - 1]..cuts[j]])
  }

  /** Output `j` is the output root of the block with its number on the chain. */
  ghost predicate RootAt(w: World, known: set<Bytes>, outs: seq<OutputProposal>, j: nat, h: History)
    requires j < |outs| && h.chain != []
  {
    && 0 <= At(h, outs[j].l2BlockNumber) < |h.chain|
    && RootOf(w, known, outs[j].outputRoot, h.chain[At(h, outs[j].l2BlockNumber)])
  }

  /** The history leads from the first output's block to output `i`'s, through every output between. */
  ghost predicate Accounted(
    w: World, known: set<Bytes>, cfg: RollupConfig, chainId: nat, proofs: seq<AcceptedProof>,
    outs: seq<OutputProposal>, i: nat, h: History, cuts: seq<nat>)
    requires i < |outs|
  {
    && HistoryTo(w, known, cfg, chainId, h, outs[i].outputRoot)
    && h.chain[0].number == outs[0].l2BlockNumber
    && h.chain[|h.chain| - 1].number == outs[i].l2BlockNumber
    && |cuts| == i + 1 && cuts[i] == |h.runs|
    && forall j :: 0 <= j <= i ==> RootAt(w, known, outs, j, h) && CutAt(proofs, outs, j, h, cuts)
  }

  lemma CutStays(
    proofs: seq<AcceptedProof>, outs: seq<OutputProposal>, j: nat, h: History, cuts: seq<nat>, longer: History,
    cut: nat)
    requires j < |outs| && j < |cuts| && CutAt(proofs, outs, j, h, cuts) && h.runs <= longer.runs
    ensures CutAt(proofs, outs, j, longer, cuts + [cut])
  {
    if j > 0 {
      assert longer.runs[..cuts[j]] == h.runs[..cuts[j]];
      assert longer.runs[cuts[j - 1]..cuts[j]] == h.runs[cuts[j - 1]..cuts[j]];
    }
  }

  lemma NextCut(
    proofs: seq<AcceptedProof>, outs: seq<OutputProposal>, i: nat, h: History, cuts: seq<nat>, longer: History,
    runs: seq<SpanRun>)
    requires i + 1 < |outs| && |cuts| == i + 1 && cuts[i] == |h.runs| && longer.runs == h.runs + runs
    requires LinkBetween(proofs, outs[i], outs[i + 1], runs)
    ensures CutAt(proofs, outs, i + 1, longer, cuts + [|longer.runs|])
  {
    assert longer.runs[|h.runs|..|longer.runs|] == runs;
  }

  lemma AccountedMore(
    w: World, known: set<Bytes>, cfg: RollupConfig, chainId: nat, proofs: seq<AcceptedProof>,
    outs: seq<OutputProposal>, i: nat, h: History, cuts: seq<nat>, longer: History, runs: seq<SpanRun>)
    requires i + 1 < |outs| && Accounted(w, known, cfg, chainId, proofs, outs, i, h, cuts)
    requires h.chain <= longer.chain && longer.runs == h.runs + runs
    requires HistoryTo(w, known, cfg, chainId, longer, outs[i + 1].outputRoot)
    requires longer.chain[|longer.chain| - 1].number == outs[i + 1].l2BlockNumber
    requires LinkBetween(proofs, outs[i], outs[i + 1], runs)
    ensures Accounted(w, known, cfg, chainId, proofs, outs, i + 1, longer, cuts + [|longer.runs|])
  {
    forall j | 0 <= j <= i + 1
      ensures RootAt(w, known, outs, j, longer) && CutAt(proofs, outs, j, longer, cuts + [|longer.runs|])
    {
      if j <= i {
        assert RootAt(w, known, outs, j, h);
        CutStays(proofs, outs, j, h, cuts, longer, |longer.runs|);
      } else {
        NextCut(proofs, outs, i, h, cuts, longer, runs);
      }
    }
  }

  lemma AttestedLink(w: World, known: set<Bytes>, l: Ledger, i: nat) returns (k: nat, agg: AggRun)
    requires Backed(l, 0) && 0 < i < |l.s.l2Outputs|
    requires forall k :: 0 <= k < |l.proofs| ==> Attested(w, known, l.proofs[k])
    ensures k < |l.proofs| && Links(l.proofs[k].values, l.s.chainId, l.s.l2Outputs[i - 1], l.s.l2Outputs[i])
    ensures ValidAgg(w, known, agg)
    ensures SolidityEncode(l.proofs[k].values) == AbiEncode(Consolidate(agg.inputs.bootInfos))
  {
    assert LinkBacked(l, i);
    k :| 0 <= k < |l.proofs| && Links(l.proofs[k].values, l.s.chainId, l.s.l2Outputs[i - 1], l.s.l2Outputs[i]);
    assert Attested(w, known, l.proofs[k]);
    agg :| ValidAgg(w, known, agg)
           && SolidityEncode(l.proofs[k].values) == AbiEncode(Consolidate(agg.inputs.bootInfos));
  }

  /** The spans behind an accepted proof of a link are runs that make the link. */
  lemma SpansMakeLink(
    w: World, known: set<Bytes>, proofs: seq<AcceptedProof>, k: nat, agg: AggRun, chainId: uint256,
    a: OutputProposal, b: OutputProposal)
    requires k < |proofs| && Links(proofs[k].values, chainId, a, b) && ValidAgg(w, known, agg)
    requires SolidityEncode(proofs[k].values) == AbiEncode(Consolidate(agg.inputs.bootInfos))
    ensures LinkBetween(proofs, a, b, agg.spans)
    ensures var joined := Consolidate(agg.inputs.bootInfos);
            && joined.chainId == chainId && joined.l2OutputRoot == a.outputRoot
            && joined.l2Claim == b.outputRoot && joined.l2ClaimBlock == b.l2BlockNumber
  {
    EncodingsAgree(Consolidate(agg.inputs.bootInfos), proofs[k].values);
    SpansAreJoined(w, known, agg);
  }

  /** One accepted proof carries the history from an output to the next. */
  lemma NextOutput(
    w: World, known: set<Bytes>, cfg: RollupConfig, l: Ledger, i: nat, h: History, cuts: seq<nat>)
    returns (longer: History)
    requires Faithful(w) && CollisionFree(w.coding.keccak, known)
    requires Backed(l, 0) && i + 1 < |l.s.l2Outputs|
    requires l.s.chainId < U64 && w.rollupConfig(l.s.chainId) == Some(cfg)
    requires forall k :: 0 <= k < |l.proofs| ==> Attested(w, known, l.proofs[k])
    requires Accounted(w, known, cfg, l.s.chainId, l.proofs, l.s.l2Outputs, i, h, cuts)
    ensures h.chain <= longer.chain
    ensures Accounted(w, known, cfg, l.s.chainId, l.proofs, l.s.l2Outputs, i + 1, longer, cuts + [|longer.runs|])
  {
    var k, agg := AttestedLink(w, known, l, i + 1);
    SpansMakeLink(w, known, l.proofs, k, agg, l.s.chainId, l.s.l2Outputs[i], l.s.l2Outputs[i + 1]);
    longer := SpansCompose(w, known, cfg, agg, h);
    AccountedMore(w, known, cfg, l.s.chainId, l.proofs, l.s.l2Outputs, i, h, cuts, longer, agg.spans);
  }

  lemma SeedAccounted(
    w: World, known: set<Bytes>, cfg: RollupConfig, chainId: nat, proofs: seq<AcceptedProof>,
    outs: seq<OutputProposal>, h: Header)
    requires outs != [] && HonestSeed(w, known, outs[0], h)
    ensures Accounted(w, known, cfg, chainId, proofs, outs, 0, History([h], []), [0])
  {
  }

  /** Every output of a log with an honest seed and attested proofs is accounted for by one history. */
  lemma LogIsExecuted(w: World, known: set<Bytes>, cfg: RollupConfig, l: Ledger, seed: Header)
    returns (h: History, cuts: seq<nat>)
    requires Faithful(w) && CollisionFree(w.coding.keccak, known)
    requires Backed(l, 0) && l.s.l2Outputs != []
    requires l.s.chainId < U64 && w.rollupConfig(l.s.chainId) == Some(cfg)
    requires forall k :: 0 <= k < |l.proofs| ==> Attested(w, known, l.proofs[k])
    requires HonestSeed(w, known, l.s.l2Outputs[0], seed)
    ensures [seed] <= h.chain
    ensures Accounted(w, known, cfg, l.s.chainId, l.proofs, l.s.l2Outputs, |l.s.l2Outputs| - 1, h, cuts)
  {
    h, cuts := History([seed], []), [0];
    SeedAccounted(w, known, cfg, l.s.chainId, l.proofs, l.s.l2Outputs, seed);
    for i := 0 to |l.s.l2Outputs| - 1
      invariant [seed] <= h.chain
      invariant Accounted(w, known, cfg, l.s.chainId, l.proofs, l.s.l2Outputs, i, h, cuts)
    {
      h := NextOutput(w, known, cfg, l, i, h, cuts);
      cuts := cuts + [|h.runs|];
    }
  }

  // ---------------------------------------------------------------- every reachable state

  /** The first output is the seed for as long as there is one. */
  lemma {:induction false} SeedStays(l: Ledger, events: seq<Event>, seed: OutputProposal)
    requires l.s.initialized >= VERSION && (l.s.l2Outputs != [] ==> l.s.l2Outputs[0] == seed)
    ensures Run(l, events).s.l2Outputs != [] ==> Run(l, events).s.l2Outputs[0] == seed
    decreases |events|
  {
    if events != [] {
      StepKeepsConfig(l, events[0]);
      SeedStays(Step(l, events[0]), events[1..], seed);
    }
  }

  ghost predicate AllCommitted(w: World, known: set<Bytes>, verify: (seq<nat>, B256) -> bool, l: Ledger) {
    forall k :: 0 <= k < |l.proofs| ==> Committed(w, known, verify, l.proofs[k])
  }

  /** Since every recorded proof was verified, sound gateways have only recorded what was committed. */
  lemma RecordedAreCommitted(
    w: World, known: set<Bytes>, verify: (seq<nat>, B256) -> bool, l: Ledger, events: seq<Event>)
    requires l.proofs == [] && SoundGateways(w, known, verify, events, Run(l, events).proofs)
    ensures AllCommitted(w, known, verify, Run(l, events))
  {
    var accepted := Run(l, events).proofs;
    forall k | 0 <= k < |accepted| ensures Committed(w, known, verify, accepted[k]) {
      RunVerifies(l, events, k);
      var i :| 0 <= i < |events| && VerifiedBy(events[i], accepted[k]);
      assert events[i].env.verify(
        accepted[k].gateway, accepted[k].vkey, SolidityEncode(accepted[k].values), events[i].action.proposal.proof);
    }
  }

  lemma CommittedAreAttested(w: World, known: set<Bytes>, verify: (seq<nat>, B256) -> bool, l: Ledger)
    requires Faithful(w) && CollisionFree(w.coding.sha256, known) && SoundVerifier(w, known, verify)
    requires AllCommitted(w, known, verify, l)
    ensures forall k :: 0 <= k < |l.proofs| ==> Attested(w, known, l.proofs[k])
  {
    forall k | 0 <= k < |l.proofs| ensures Attested(w, known, l.proofs[k]) {
      CommittedIsAttested(w, known, verify, l.proofs[k]);
    }
  }

  /** From a fresh deployment with an honest seed, through any run whose accepting gateways are sound,
      the log of the state reached is accounted for: one sequence of normally ended runs, on the log's
      chain id, lies end to end along one execution chain from the seed's block; it passes through every
      output at its block and root; and between two outputs it is what one accepted proof states. So as
      many blocks were executed as the numbers say. */
  lemma EveryLogIsExecuted(
    w: World, known: set<Bytes>, verify: (seq<nat>, B256) -> bool, cfg: RollupConfig, seed: Header,
    found: State, env: Env, p: InitParams, events: seq<Event>)
    returns (h: History, cuts: seq<nat>)
    requires Faithful(w) && CollisionFree(w.coding.keccak, known) && CollisionFree(w.coding.sha256, known)
    requires SoundVerifier(w, known, verify)
    requires found.l2Outputs == [] && ApplyInitialize(found, env, p).Success?
    requires var first := Ledger(ApplyInitialize(found, env, p).value, env.timestamp, []);
             var l := Run(first, events);
             && Timely(env.timestamp, events)
             && p.startingBlockNumber + l.now < U128
             && l.s.l2Outputs != []
             && HonestSeed(w, known, first.s.l2Outputs[0], seed)
             && SoundGateways(w, known, verify, events, l.proofs)
    requires p.chainId < U64 && w.rollupConfig(p.chainId) == Some(cfg)
    ensures var l := Run(Ledger(ApplyInitialize(found, env, p).value, env.timestamp, []), events);
            var outs := l.s.l2Outputs;
            && h.chain != [] && h.chain[0] == seed
            && Accounted(w, known, cfg, p.chainId, l.proofs, outs, |outs| - 1, h, cuts)
            && |h.chain| - 1 == outs[|outs| - 1].l2BlockNumber - outs[0].l2BlockNumber
  {
    var first := Ledger(ApplyInitialize(found, env, p).value, env.timestamp, []);
    var l := Run(first, events);
    RunClock(first, events);
    FreshDeployment(found, env, p);
    RunKeepsInv(first, events);
    RunKeepsBacked(first, events, 0);
    SeedStays(first, events, first.s.l2Outputs[0]);
    RecordedAreCommitted(w, known, verify, first, events);
    CommittedAreAttested(w, known, verify, l);
    h, cuts := LogIsExecuted(w, known, cfg, l, seed);
  }

  lemma SuffixBacked(l: Ledger, base: nat) returns (tail: Ledger)
    requires base < |l.s.l2Outputs| && Backed(l, base)
    ensures tail == l.(s := l.s.(l2Outputs := l.s.l2Outputs[base..])) && Backed(tail, 0)
  {
    tail := l.(s := l.s.(l2Outputs := l.s.l2Outputs[base..]));
    forall i | 0 < i < |tail.s.l2Outputs| ensures LinkBacked(tail, i) {
      assert LinkBacked(l, base + i);
    }
  }

  lemma UpgradeGrows(found: State, env: Env, p: InitParams, before: nat, events: seq<Event>) returns (base: nat)
    requires found.l2Outputs != [] && WellOrdered(found, before) && before <= env.timestamp
    requires ApplyInitialize(found, env, p).Success?
    requires var first := Ledger(ApplyInitialize(found, env, p).value, env.timestamp, []);
             && Timely(env.timestamp, events) && Fits(first.s, Run(first, events).now)
             && Run(first, events).s.l2Outputs != []
    ensures var l := Run(Ledger(ApplyInitialize(found, env, p).value, env.timestamp, []), events);
            GrownFrom(found.l2Outputs, l, base) && l.s.chainId == p.chainId
  {
    var first := Ledger(ApplyInitialize(found, env, p).value, env.timestamp, []);
    UpgradeDeployment(found, env, p, before);
    RunKeepsInv(first, events);
    base := RunGrowsFrom(found.l2Outputs, first, events, |found.l2Outputs| - 1);
  }

  /** From an upgrade of a well-ordered log of honest outputs the same holds of the outputs after the last
      one that was found there and is there still. */
  lemma EveryUpgradedLogIsExecuted(
    w: World, known: set<Bytes>, verify: (seq<nat>, B256) -> bool, cfg: RollupConfig, honest: seq<Header>,
    found: State, env: Env, p: InitParams, before: nat, events: seq<Event>)
    returns (base: nat, h: History, cuts: seq<nat>)
    requires Faithful(w) && CollisionFree(w.coding.keccak, known) && CollisionFree(w.coding.sha256, known)
    requires SoundVerifier(w, known, verify)
    requires found.l2Outputs != [] && WellOrdered(found, before) && before <= env.timestamp
    requires ApplyInitialize(found, env, p).Success?
    requires |honest| == |found.l2Outputs|
    requires forall i :: 0 <= i < |honest| ==> HonestSeed(w, known, found.l2Outputs[i], honest[i])
    requires var first := Ledger(ApplyInitialize(found, env, p).value, env.timestamp, []);
             var l := Run(first, events);
             && Timely(env.timestamp, events) && Fits(first.s, l.now) && l.s.l2Outputs != []
             && SoundGateways(w, known, verify, events, l.proofs)
    requires p.chainId < U64 && w.rollupConfig(p.chainId) == Some(cfg)
    ensures var l := Run(Ledger(ApplyInitialize(found, env, p).value, env.timestamp, []), events);
            var outs := l.s.l2Outputs;
            && base < |outs| && base < |honest| && outs[..base + 1] == found.l2Outputs[..base + 1]
            && h.chain != [] && h.chain[0] == honest[base]
            && Accounted(w, known, cfg, p.chainId, l.proofs, outs[base..], |outs| - 1 - base, h, cuts)
            && |h.chain| - 1 == outs[|outs| - 1].l2BlockNumber - outs[base].l2BlockNumber
  {
    var first := Ledger(ApplyInitialize(found, env, p).value, env.timestamp, []);
    var l := Run(first, events);
    base := UpgradeGrows(found, env, p, before, events);
    assert l.s.l2Outputs[base] == l.s.l2Outputs[..base + 1][base] == found.l2Outputs[..base + 1][base];
    var tail := SuffixBacked(l, base);
    RecordedAreCommitted(w, known, verify, first, events);
    CommittedAreAttested(w, known, verify, l);
    h, cuts := LogIsExecuted(w, known, cfg, tail, honest[base]);
  }

  // ---------------------------------------------------------------- L1 heads

  /** What an accepted proof with a nonzero L1 head says of its spans' heads: the committed head is a block
      of the L1 chain; a span's head that does not stand after it in the checked headers, as none does if it
      is the checkpoint, is that block or an ancestor of it; any other is a descendant of it. */
  lemma SpanHeadsAndL1(
    c: Coding, verify: (seq<nat>, B256) -> bool, l1: seq<B256>, l: Ledger, events: seq<Event>, k: nat,
    inputs: AggregationInputs, headers: seq<Header>, i: nat)
    requires CheckpointsOn(l1, l) && OnL1(l1, events) && k < |Run(l, events).proofs|
    requires Accepts(c, verify, inputs, headers) && i < |inputs.bootInfos|
    requires SolidityEncode(Run(l, events).proofs[k].values) == AbiEncode(Consolidate(inputs.bootInfos))
    requires CommittedHead(inputs) != ZERO_HASH
    ensures CommittedHead(inputs) in l1
    ensures NotAfter(c, headers, inputs.bootInfos[i].l1Head, CommittedHead(inputs)) ==>
      Ancestor(c, inputs.bootInfos[i].l1Head, CommittedHead(inputs))
    ensures CommittedHead(inputs) == inputs.latestL1CheckpointHead ==>
      NotAfter(c, headers, inputs.bootInfos[i].l1Head, CommittedHead(inputs))
    ensures Ancestor(c, inputs.bootInfos[i].l1Head, CommittedHead(inputs))
            || Ancestor(c, CommittedHead(inputs), inputs.bootInfos[i].l1Head)
  {
    CheckpointSoundness(l1, l, events);
    EncodingsAgree(Consolidate(inputs.bootInfos), Run(l, events).proofs[k].values);
    HeadsOnOneChain(c, headers, inputs, i, |inputs.bootInfos| - 1);
    CheckpointIsLast(c, headers, inputs, i);
    if NotAfter(c, headers, inputs.bootInfos[i].l1Head, CommittedHead(inputs)) {
      NotAfterIsAncestor(
        c, headers, inputs.latestL1CheckpointHead, inputs.bootInfos[i].l1Head, CommittedHead(inputs));
    }
  }
}
