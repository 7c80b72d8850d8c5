/** The aggregation program (`aggregation-client/src/main.rs`): spans that join, an L1 header chain
    checked backwards, one statement for the whole range; and the host code that fetches that chain
    (`zkvm-host/src/utils.rs`). */
module Aggregation {
  import opened Wrappers
  import opened Words
  import opened BootInfo
  import opened PreimageStore

  const MULTI_BLOCK_PROGRAM_VKEY_DIGEST: seq<nat> :=
    [1182742183, 831715190, 1934100752, 151832364, 1086222319, 415089854, 144530717, 984311993]

  datatype AggregationInputs = AggregationInputs(bootInfos: seq<RawBootInfo>, latestL1CheckpointHead: B256)

  // ---------------------------------------------------------------- the header check

  /** Each header names the hash of the one before it, and `tip` is the hash of the last. */
  ghost predicate LinkedTo(c: Coding, headers: seq<Header>, tip: B256) {
    && (headers != [] ==> HeaderHash(c, headers[|headers| - 1]) == tip)
    && forall i :: 0 < i < |headers| ==> headers[i].parentHash == HeaderHash(c, headers[i - 1])
  }

  ghost predicate Contains(c: Coding, headers: seq<Header>, hash: B256) {
    exists j :: 0 <= j < |headers| && HeaderHash(c, headers[j]) == hash
  }

  ghost predicate Covers(c: Coding, headers: seq<Header>, boots: seq<RawBootInfo>) {
    forall i :: 0 <= i < |boots| ==> Contains(c, headers, boots[i].l1Head)
  }

  /** The check accepts exactly the linked chains that end at the checkpoint and hold every L1 head.
      An `assert` that fails is `false` here. */
  method VerifyL1Heads(c: Coding, inputs: AggregationInputs, headers: seq<Header>) returns (ok: bool)
    ensures ok <==> LinkedTo(c, headers, inputs.latestL1CheckpointHead) && Covers(c, headers, inputs.bootInfos)
  {
    var boots := inputs.bootInfos;
    var l1Heads: map<B256, bool> := map[];
    for i := 0 to |boots|
      invariant forall h :: h in l1Heads <==> exists k :: 0 <= k < i && boots[k].l1Head == h
      invariant forall h :: h in l1Heads ==> !l1Heads[h]
    {
      l1Heads := l1Heads[boots[i].l1Head := false];
    }
    ghost var keys := l1Heads.Keys;
    var currentHash := inputs.latestL1CheckpointHead;
    for i := |headers| downto 0
      invariant l1Heads.Keys == keys
      invariant LinkedTo(c, headers[i..], inputs.latestL1CheckpointHead)
      invariant i == |headers| ==> currentHash == inputs.latestL1CheckpointHead
      invariant i < |headers| ==> currentHash == headers[i].parentHash
      invariant forall h :: h in l1Heads ==> (l1Heads[h] <==> Contains(c, headers[i..], h))
    {
      assert headers[i..] == [headers[i]] + headers[i + 1..];
      if currentHash != HeaderHash(c, headers[i]) {
        if i + 1 < |headers| {
          assert headers[i + 1].parentHash != HeaderHash(c, headers[i]);
        }
        return false;
      }
      ContainsMore(c, headers[i], headers[i + 1..]);
      LinkedMore(c, headers[i], headers[i + 1..], inputs.latestL1CheckpointHead);
      if currentHash in l1Heads {
        l1Heads := l1Heads[currentHash := true];
      }
      currentHash := headers[i].parentHash;
    }
    assert headers[0..] == headers;
    var left := l1Heads.Keys;
    while left != {}
      invariant left <= l1Heads.Keys
      invariant forall h :: h in l1Heads && h !in left ==> l1Heads[h]
      decreases left
    {
      var h :| h in left;
      if !l1Heads[h] {
        return false;
      }
      left := left - {h};
    }
    return true;
  }

  lemma ContainsMore(c: Coding, h: Header, rest: seq<Header>)
    ensures forall hash :: Contains(c, [h] + rest, hash) <==> Contains(c, rest, hash) || HeaderHash(c, h) == hash
  {
    forall hash ensures Contains(c, [h] + rest, hash) <==> Contains(c, rest, hash) || HeaderHash(c, h) == hash {
      if j :| 0 <= j < |rest| && HeaderHash(c, rest[j]) == hash {
        assert ([h] + rest)[j + 1] == rest[j];
      }
      if HeaderHash(c, h) == hash {
        assert ([h] + rest)[0] == h;
      }
    }
  }

  lemma LinkedMore(c: Coding, h: Header, rest: seq<Header>, tip: B256)
    requires LinkedTo(c, rest, tip)
    requires if rest == [] then HeaderHash(c, h) == tip else rest[0].parentHash == HeaderHash(c, h)
    ensures LinkedTo(c, [h] + rest, tip)
  {
  }

  // ---------------------------------------------------------------- ancestry

  /** A chain of headers leads from the block with hash `a` to the one with hash `b`. */
  ghost predicate Ancestor(c: Coding, a: B256, b: B256) {
    exists path :: path != [] && LinkedTo(c, path, b) && HeaderHash(c, path[0]) == a
  }

  /** Of two hashes in a linked chain the earlier is an ancestor of the later. */
  lemma EarlierIsAncestor(c: Coding, headers: seq<Header>, tip: B256, i: nat, j: nat)
    requires LinkedTo(c, headers, tip) && i <= j < |headers|
    ensures Ancestor(c, HeaderHash(c, headers[i]), HeaderHash(c, headers[j]))
  {
    var path := headers[i..j + 1];
    assert LinkedTo(c, path, HeaderHash(c, headers[j]));
  }

  /** On acceptance every boot info's L1 head is the checkpoint or its ancestor, and of any two heads
      one is an ancestor of the other. */
  lemma HeadsOnOneChain(c: Coding, headers: seq<Header>, inputs: AggregationInputs, i: nat, j: nat)
    requires LinkedTo(c, headers, inputs.latestL1CheckpointHead) && Covers(c, headers, inputs.bootInfos)
    requires i < |inputs.bootInfos| && j < |inputs.bootInfos|
    ensures Ancestor(c, inputs.bootInfos[i].l1Head, inputs.latestL1CheckpointHead)
    ensures Ancestor(c, inputs.bootInfos[i].l1Head, inputs.bootInfos[j].l1Head)
            || Ancestor(c, inputs.bootInfos[j].l1Head, inputs.bootInfos[i].l1Head)
  {
    assert Contains(c, headers, inputs.bootInfos[i].l1Head) && Contains(c, headers, inputs.bootInfos[j].l1Head);
    var x :| 0 <= x < |headers| && HeaderHash(c, headers[x]) == inputs.bootInfos[i].l1Head;
    var y :| 0 <= y < |headers| && HeaderHash(c, headers[y]) == inputs.bootInfos[j].l1Head;
    EarlierIsAncestor(c, headers, inputs.latestL1CheckpointHead, x, |headers| - 1);
    if x <= y {
      EarlierIsAncestor(c, headers, inputs.latestL1CheckpointHead, x, y);
    } else {
      EarlierIsAncestor(c, headers, inputs.latestL1CheckpointHead, y, x);
    }
  }

  // ---------------------------------------------------------------- the program

  ghost predicate Sequential(boots: seq<RawBootInfo>) {
    forall i :: 0 < i < |boots| ==>
      boots[i - 1].l2Claim == boots[i].l2OutputRoot && boots[i - 1].chainId == boots[i].chainId
  }

  /** One boot info for the whole range: the first root, everything else from the last. */
  function Consolidate(boots: seq<RawBootInfo>): RawBootInfo
    requires boots != []
  {
    var last := boots[|boots| - 1];
    RawBootInfo(last.l1Head, boots[0].l2OutputRoot, last.l2Claim, last.l2ClaimBlock, last.chainId)
  }

  ghost predicate Accepts(
    c: Coding, verify: (seq<nat>, B256) -> bool, inputs: AggregationInputs, headers: seq<Header>)
  {
    && inputs.bootInfos != []
    && Sequential(inputs.bootInfos)
    && (forall i :: 0 <= i < |inputs.bootInfos| ==>
          verify(MULTI_BLOCK_PROGRAM_VKEY_DIGEST, c.sha256(AbiEncode(inputs.bootInfos[i]))))
    && LinkedTo(c, headers, inputs.latestL1CheckpointHead)
    && Covers(c, headers, inputs.bootInfos)
  }

  /** Every boot info's proof was verified under the multi-block program's key, of the encoding's SHA-256. */
  lemma VerifiedUnderKey(
    c: Coding, verify: (seq<nat>, B256) -> bool, inputs: AggregationInputs, headers: seq<Header>, i: nat)
    requires Accepts(c, verify, inputs, headers) && i < |inputs.bootInfos|
    ensures verify(
              [1182742183, 831715190, 1934100752, 151832364, 1086222319, 415089854, 144530717, 984311993],
              c.sha256(AbiEncode(inputs.bootInfos[i])))
  {
  }

  /** `main`: what it commits if it ends normally. `verify` is the zkVM's proof verification. */
  method Aggregate(c: Coding, verify: (seq<nat>, B256) -> bool, inputs: AggregationInputs, headers: seq<Header>)
    returns (committed: Option<Bytes>)
    ensures committed.Some? <==> Accepts(c, verify, inputs, headers)
    ensures committed.Some? ==> committed.value == AbiEncode(Consolidate(inputs.bootInfos))
  {
    var boots := inputs.bootInfos;
    if boots == [] {
      return None;
    }
    for i := 1 to |boots|
      invariant forall k :: 0 < k < i ==>
        boots[k - 1].l2Claim == boots[k].l2OutputRoot && boots[k - 1].chainId == boots[k].chainId
    {
      if boots[i - 1].l2Claim != boots[i].l2OutputRoot || boots[i - 1].chainId != boots[i].chainId {
        return None;
      }
    }
    for i := 0 to |boots|
      invariant forall k :: 0 <= k < i ==> verify(MULTI_BLOCK_PROGRAM_VKEY_DIGEST, c.sha256(AbiEncode(boots[k])))
    {
      if !verify(MULTI_BLOCK_PROGRAM_VKEY_DIGEST, c.sha256(AbiEncode(boots[i]))) {
        return None;
      }
    }
    var ok := VerifyL1Heads(c, inputs, headers);
    if !ok {
      return None;
    }
    return Some(AbiEncode(Consolidate(boots)));
  }

  // ---------------------------------------------------------------- the host that fetches the headers

  datatype FetchError = HeaderNotFound | NoBootInfos

  /** An L1 chain as a node serves it: headers by position, linked by hash. */
  ghost predicate WellFormedL1(c: Coding, chain: seq<Header>) {
    && |chain| < U64
    && (forall i :: 0 <= i < |chain| ==> chain[i].number == i)
    && (forall i :: 0 < i < |chain| ==> chain[i].parentHash == HeaderHash(c, chain[i - 1]))
  }

  /** The node's answer by hash: the first header with it. */
  function IndexOfHash(c: Coding, chain: seq<Header>, hash: B256): (k: Option<nat>)
    ensures k.Some? ==> k.value < |chain| && HeaderHash(c, chain[k.value]) == hash
  {
    if chain == [] then None
    else if HeaderHash(c, chain[0]) == hash then Some(0)
    else
      match IndexOfHash(c, chain[1..], hash)
      case None => None
      case Some(k) => Some(k + 1)
  }

  /** No header before the one answered has the hash, and none at all if the answer is no header. */
  lemma {:induction false} IndexOfHashIsFirst(c: Coding, chain: seq<Header>, hash: B256)
    ensures IndexOfHash(c, chain, hash).None? <==> !Contains(c, chain, hash)
    ensures forall i ::
              0 <= i < |chain| && (IndexOfHash(c, chain, hash).Some? ==> i < IndexOfHash(c, chain, hash).value)
              ==> HeaderHash(c, chain[i]) != hash
  {
    if chain != [] && HeaderHash(c, chain[0]) != hash {
      IndexOfHashIsFirst(c, chain[1..], hash);
      forall i | 0 <= i < |chain| && (IndexOfHash(c, chain, hash).Some? ==> i < IndexOfHash(c, chain, hash).value)
        ensures HeaderHash(c, chain[i]) != hash
      {
        assert i > 0 ==> chain[i] == chain[1..][i - 1];
      }
    }
  }

  function GetHeaderByHash(c: Coding, chain: seq<Header>, hash: B256): Result<Header, FetchError> {
    match IndexOfHash(c, chain, hash)
    case None => Failure(HeaderNotFound)
    case Some(k) => Success(chain[k])
  }

  function GetHeaderByNumber(chain: seq<Header>, n: nat): Result<Header, FetchError> {
    if n < |chain| then Success(chain[n]) else Failure(HeaderNotFound)
  }

  ghost predicate AllFound(c: Coding, chain: seq<Header>, boots: seq<RawBootInfo>) {
    forall i :: 0 <= i < |boots| ==> IndexOfHash(c, chain, boots[i].l1Head).Some?
  }

  /** `m` is the least position of the boot infos' heads. */
  ghost predicate Earliest(c: Coding, chain: seq<Header>, boots: seq<RawBootInfo>, m: nat)
    requires AllFound(c, chain, boots)
  {
    && (exists i :: 0 <= i < |boots| && IndexOfHash(c, chain, boots[i].l1Head).value == m)
    && (forall i :: 0 <= i < |boots| ==> m <= IndexOfHash(c, chain, boots[i].l1Head).value)
  }

  /** The loop keeps the header with the smallest number so far, starting from `u64::MAX`. */
  method GetEarliestL1HeadInBatch(c: Coding, chain: seq<Header>, boots: seq<RawBootInfo>)
    returns (r: Result<Header, FetchError>)
    requires WellFormedL1(c, chain)
    ensures r.Success? <==> boots != [] && AllFound(c, chain, boots)
    ensures r.Success? ==> Earliest(c, chain, boots, r.value.number) && r.value == chain[r.value.number]
  {
    var earliestNumber: uint64 := U64 - 1;
    var earliest: Option<Header> := None;
    for i := 0 to |boots|
      invariant AllFound(c, chain, boots[..i])
      invariant if i == 0 then earliest.None? && earliestNumber == U64 - 1
                else
                  && earliestNumber < |chain| && earliest == Some(chain[earliestNumber])
                  && Earliest(c, chain, boots[..i], earliestNumber)
    {
      assert boots[..i + 1] == boots[..i] + [boots[i]];
      var found := GetHeaderByHash(c, chain, boots[i].l1Head);
      if found.Failure? {
        return Failure(found.error);
      }
      EarliestSoFar(c, chain, boots, i, earliestNumber);
      var header := found.value;
      if header.number < earliestNumber {
        earliestNumber, earliest := header.number, Some(header);
      }
    }
    assert boots[..|boots|] == boots;
    if earliest.None? {
      return Failure(NoBootInfos);
    }
    return Success(earliest.value);
  }

  lemma EarliestSoFar(c: Coding, chain: seq<Header>, boots: seq<RawBootInfo>, i: nat, before: nat)
    requires i < |boots| && AllFound(c, chain, boots[..i]) && IndexOfHash(c, chain, boots[i].l1Head).Some?
    requires i > 0 ==> Earliest(c, chain, boots[..i], before)
    ensures AllFound(c, chain, boots[..i + 1])
    ensures var k := IndexOfHash(c, chain, boots[i].l1Head).value;
            Earliest(c, chain, boots[..i + 1], if i == 0 || k < before then k else before)
  {
    var now, past := boots[..i + 1], boots[..i];
    assert forall x :: 0 <= x < i ==> now[x] == past[x];
    assert now[i] == boots[i];
    if i > 0 {
      var x :| 0 <= x < |past| && IndexOfHash(c, chain, past[x].l1Head).value == before;
      assert IndexOfHash(c, chain, now[x].l1Head).value == before;
    }
  }

  /** What `fetch_header_preimages` returns: the headers from the earliest head to the checkpoint. */
  ghost predicate Fetched(
    c: Coding, chain: seq<Header>, boots: seq<RawBootInfo>, checkpoint: B256, headers: seq<Header>)
  {
    && boots != [] && AllFound(c, chain, boots)
    && IndexOfHash(c, chain, checkpoint).Some?
    && exists m: nat ::
         Earliest(c, chain, boots, m) && headers == Between(chain, m, IndexOfHash(c, chain, checkpoint).value + 1)
  }

  function Between(chain: seq<Header>, first: nat, past: nat): seq<Header> {
    if first < past <= |chain| then chain[first..past] else []
  }

  /** The fetched headers are the chain's from the earliest head through the checkpoint, or none if the
      checkpoint is before that head. */
  lemma FetchedBlocks(
    c: Coding, chain: seq<Header>, boots: seq<RawBootInfo>, checkpoint: B256, headers: seq<Header>)
    returns (first: nat, last: nat)
    requires Fetched(c, chain, boots, checkpoint, headers)
    ensures IndexOfHash(c, chain, checkpoint) == Some(last) && last < |chain|
    ensures AllFound(c, chain, boots) && Earliest(c, chain, boots, first)
    ensures headers == if first <= last then chain[first..last + 1] else []
  {
    last := IndexOfHash(c, chain, checkpoint).value;
    var m: nat :| Earliest(c, chain, boots, m) && headers == Between(chain, m, last + 1);
    first := m;
  }

  method FetchHeaderPreimages(c: Coding, chain: seq<Header>, boots: seq<RawBootInfo>, checkpoint: B256)
    returns (r: Result<seq<Header>, FetchError>)
    requires WellFormedL1(c, chain)
    ensures r.Success? <==> boots != [] && AllFound(c, chain, boots) && IndexOfHash(c, chain, checkpoint).Some?
    ensures r.Success? ==> Fetched(c, chain, boots, checkpoint, r.value)
  {
    var start :- GetEarliestL1HeadInBatch(c, chain, boots);
    var latest :- GetHeaderByHash(c, chain, checkpoint);
    assert latest.number == IndexOfHash(c, chain, checkpoint).value;
    var headers: seq<Header> := [];
    var n := start.number;
    while n <= latest.number
      invariant start.number <= n
      invariant if start.number <= latest.number then n <= latest.number + 1 else n == start.number
      invariant headers == Between(chain, start.number, n)
      decreases latest.number + 1 - n
    {
      var header := GetHeaderByNumber(chain, n);
      BetweenExtends(chain, start.number, n);
      headers := headers + [header.value];
      n := n + 1;
    }
    assert headers == Between(chain, start.number, latest.number + 1);
    return Success(headers);
  }

  lemma BetweenExtends(chain: seq<Header>, first: nat, past: nat)
    requires first <= past < |chain|
    ensures Between(chain, first, past + 1) == Between(chain, first, past) + [chain[past]]
  {
  }

  lemma BetweenLinks(c: Coding, chain: seq<Header>, first: nat, last: nat)
    requires WellFormedL1(c, chain) && last < |chain|
    ensures LinkedTo(c, Between(chain, first, last + 1), HeaderHash(c, chain[last]))
  {
  }

  lemma BetweenContains(c: Coding, chain: seq<Header>, first: nat, last: nat, k: nat)
    requires first <= k < |chain| && last < |chain|
    ensures k <= last ==> Contains(c, Between(chain, first, last + 1), HeaderHash(c, chain[k]))
    ensures Contains(c, Between(chain, first, last + 1), HeaderHash(c, chain[k])) && DistinctHashes(c, chain) ==>
      k <= last
  {
    var headers := Between(chain, first, last + 1);
    if k <= last {
      assert headers[k - first] == chain[k];
    }
  }

  /** The fetched list always links up to the checkpoint, and covers the heads when none lies above the
      checkpoint; on a chain without two blocks of one hash, exactly then. */
  lemma ProducerMeetsChecker(
    c: Coding, chain: seq<Header>, boots: seq<RawBootInfo>, checkpoint: B256, headers: seq<Header>)
    requires WellFormedL1(c, chain) && Fetched(c, chain, boots, checkpoint, headers)
    ensures LinkedTo(c, headers, checkpoint)
    ensures HeadsReached(c, chain, boots, checkpoint) ==> Covers(c, headers, boots)
    ensures DistinctHashes(c, chain) && Covers(c, headers, boots) ==> HeadsReached(c, chain, boots, checkpoint)
  {
    var last := IndexOfHash(c, chain, checkpoint).value;
    var m: nat :| Earliest(c, chain, boots, m) && headers == Between(chain, m, last + 1);
    BetweenLinks(c, chain, m, last);
    forall i | 0 <= i < |boots|
      ensures IndexOfHash(c, chain, boots[i].l1Head).value <= last ==> Contains(c, headers, boots[i].l1Head)
      ensures DistinctHashes(c, chain) && Contains(c, headers, boots[i].l1Head) ==>
        IndexOfHash(c, chain, boots[i].l1Head).value <= last
    {
      BetweenContains(c, chain, m, last, IndexOfHash(c, chain, boots[i].l1Head).value);
    }
  }

  /** No boot info's head lies above the checkpoint. */
  ghost predicate HeadsReached(c: Coding, chain: seq<Header>, boots: seq<RawBootInfo>, checkpoint: B256)
    requires AllFound(c, chain, boots) && IndexOfHash(c, chain, checkpoint).Some?
  {
    forall i :: 0 <= i < |boots| ==>
      IndexOfHash(c, chain, boots[i].l1Head).value <= IndexOfHash(c, chain, checkpoint).value
  }

  ghost predicate DistinctHashes(c: Coding, chain: seq<Header>) {
    forall i, j :: 0 <= i < j < |chain| ==> HeaderHash(c, chain[i]) != HeaderHash(c, chain[j])
  }
}
