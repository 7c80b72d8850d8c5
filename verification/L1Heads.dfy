/** Where the spans' L1 heads lie relative to the one L1 head that the aggregation program commits. The
    header check starts from the checkpoint head, but the committed head is the last boot info's, and
    nothing keeps another span's head from standing between the two. */
module L1Heads {
  import opened Wrappers
  import opened Words
  import opened BootInfo
  import opened PreimageStore
  import opened Aggregation

  function CommittedHead(inputs: AggregationInputs): B256
    requires inputs.bootInfos != []
  {
    Consolidate(inputs.bootInfos).l1Head
  }

  /** In the header list hash `a` stands at or before hash `b`. */
  ghost predicate NotAfter(c: Coding, headers: seq<Header>, a: B256, b: B256) {
    exists x, y :: 0 <= x <= y < |headers| && HeaderHash(c, headers[x]) == a && HeaderHash(c, headers[y]) == b
  }

  lemma NotAfterIsAncestor(c: Coding, headers: seq<Header>, tip: B256, a: B256, b: B256)
    requires LinkedTo(c, headers, tip) && NotAfter(c, headers, a, b)
    ensures Ancestor(c, a, b)
  {
    var x, y :| 0 <= x <= y < |headers| && HeaderHash(c, headers[x]) == a && HeaderHash(c, headers[y]) == b;
    EarlierIsAncestor(c, headers, tip, x, y);
  }

  /** Every head stands at or before the checkpoint. */
  lemma CheckpointIsLast(c: Coding, headers: seq<Header>, inputs: AggregationInputs, i: nat)
    requires LinkedTo(c, headers, inputs.latestL1CheckpointHead) && Covers(c, headers, inputs.bootInfos)
    requires i < |inputs.bootInfos|
    ensures NotAfter(c, headers, inputs.bootInfos[i].l1Head, inputs.latestL1CheckpointHead)
  {
    assert Contains(c, headers, inputs.bootInfos[i].l1Head);
    var x :| 0 <= x < |headers| && HeaderHash(c, headers[x]) == inputs.bootInfos[i].l1Head;
    assert HeaderHash(c, headers[|headers| - 1]) == inputs.latestL1CheckpointHead;
  }

  // ---------------------------------------------------------------- exactly the heads not after the committed one

  /** A path of headers from the list. */
  ghost predicate PathAmong(c: Coding, headers: seq<Header>, path: seq<Header>, a: B256, b: B256) {
    && path != [] && LinkedTo(c, path, b) && HeaderHash(c, path[0]) == a
    && forall k :: 0 <= k < |path| ==> path[k] in headers
  }

  ghost predicate AncestorAmong(c: Coding, headers: seq<Header>, a: B256, b: B256) {
    exists path :: PathAmong(c, headers, path, a, b)
  }

  /** No two headers of the list have one hash, and the parent of the first is none of them. */
  ghost predicate Unlooped(c: Coding, headers: seq<Header>) {
    DistinctHashes(c, headers) && (headers != [] ==> !Contains(c, headers, headers[0].parentHash))
  }

  /** Such a path can only follow the list. */
  lemma PathFollowsList(c: Coding, headers: seq<Header>, tip: B256, path: seq<Header>, a: B256, b: B256)
    requires LinkedTo(c, headers, tip) && Unlooped(c, headers) && PathAmong(c, headers, path, a, b)
    ensures NotAfter(c, headers, a, b)
  {
    assert path[0] in headers;
    var x :| 0 <= x < |headers| && headers[x] == path[0];
    var y := x;
    for k := 1 to |path|
      invariant x <= y < |headers| && headers[y] == path[k - 1]
    {
      assert path[k] in headers;
      var next :| 0 <= next < |headers| && headers[next] == path[k];
      NextInList(c, headers, tip, y, next);
      y := next;
    }
  }

  lemma ListIsPath(c: Coding, headers: seq<Header>, tip: B256, a: B256, b: B256)
    requires LinkedTo(c, headers, tip) && NotAfter(c, headers, a, b)
    ensures AncestorAmong(c, headers, a, b)
  {
    var x, y :| 0 <= x <= y < |headers| && HeaderHash(c, headers[x]) == a && HeaderHash(c, headers[y]) == b;
    var path := headers[x..y + 1];
    assert forall k :: 0 <= k < |path| ==> path[k] == headers[x + k];
    assert LinkedTo(c, path, b);
    assert PathAmong(c, headers, path, a, b);
  }

  lemma NextInList(c: Coding, headers: seq<Header>, tip: B256, y: nat, next: nat)
    requires LinkedTo(c, headers, tip) && Unlooped(c, headers) && y < |headers| && next < |headers|
    requires headers[next].parentHash == HeaderHash(c, headers[y])
    ensures next == y + 1
  {
    if next > 0 {
      assert HeaderHash(c, headers[next - 1]) == HeaderHash(c, headers[y]);
    }
  }

  /** Within a list that does not loop, one hash is an ancestor of another exactly when it does not stand
      after it. */
  lemma AncestorsAmongExactly(c: Coding, headers: seq<Header>, tip: B256, a: B256, b: B256)
    requires LinkedTo(c, headers, tip) && Unlooped(c, headers)
    ensures AncestorAmong(c, headers, a, b) <==> NotAfter(c, headers, a, b)
  {
    if AncestorAmong(c, headers, a, b) {
      var path :| PathAmong(c, headers, path, a, b);
      PathFollowsList(c, headers, tip, path, a, b);
    }
    if NotAfter(c, headers, a, b) {
      ListIsPath(c, headers, tip, a, b);
    }
  }

  /** So the accepted headers show all spans' heads to be the committed head or ancestors of it exactly
      when no head stands after the committed one. */
  lemma CommittedHeadCoversExactly(c: Coding, headers: seq<Header>, inputs: AggregationInputs)
    requires inputs.bootInfos != [] && LinkedTo(c, headers, inputs.latestL1CheckpointHead) && Unlooped(c, headers)
    ensures (forall i :: 0 <= i < |inputs.bootInfos| ==>
              AncestorAmong(c, headers, inputs.bootInfos[i].l1Head, CommittedHead(inputs)))
            <==> (forall i :: 0 <= i < |inputs.bootInfos| ==>
              NotAfter(c, headers, inputs.bootInfos[i].l1Head, CommittedHead(inputs)))
  {
    forall i | 0 <= i < |inputs.bootInfos|
      ensures AncestorAmong(c, headers, inputs.bootInfos[i].l1Head, CommittedHead(inputs))
              <==> NotAfter(c, headers, inputs.bootInfos[i].l1Head, CommittedHead(inputs))
    {
      AncestorsAmongExactly(
        c, headers, inputs.latestL1CheckpointHead, inputs.bootInfos[i].l1Head, CommittedHead(inputs));
    }
  }

  // ---------------------------------------------------------------- a head after the committed one

  /** With any hash, any two joined boot infos whose heads are a block and then its parent are accepted
      against the block; the parent is what is committed. */
  lemma LaterHeadIsAccepted(
    c: Coding, verify: (seq<nat>, B256) -> bool, parent: Header, child: Header, b0: RawBootInfo, b1: RawBootInfo)
    requires child.parentHash == HeaderHash(c, parent)
    requires b0.l1Head == HeaderHash(c, child) && b1.l1Head == HeaderHash(c, parent)
    requires b0.l2Claim == b1.l2OutputRoot && b0.chainId == b1.chainId
    requires verify(MULTI_BLOCK_PROGRAM_VKEY_DIGEST, c.sha256(AbiEncode(b0)))
    requires verify(MULTI_BLOCK_PROGRAM_VKEY_DIGEST, c.sha256(AbiEncode(b1)))
    ensures var inputs := AggregationInputs([b0, b1], HeaderHash(c, child));
            Accepts(c, verify, inputs, [parent, child]) && CommittedHead(inputs) == HeaderHash(c, parent)
  {
    var headers := [parent, child];
    assert HeaderHash(c, headers[0]) == b1.l1Head && HeaderHash(c, headers[1]) == b0.l1Head;
  }

  const ONE: B256 := Word(1)
  const TWO: B256 := Word(2)

  /** A hash under which children of `ONE` and all their descendants are `TWO`, and other headers `ONE`. */
  function ExampleHash(b: Bytes): B256 {
    if |b| >= 32 && (b[..32] == ONE || b[..32] == TWO) then TWO else ONE
  }

  function ExampleEncode(h: Header): Bytes {
    h.parentHash + h.stateRoot + h.transactionsRoot + Word(h.number) + Word(h.timestamp) + h.otherFields
  }

  function Narrow(w: B256): uint64 {
    if WordValue(w) < U64 then WordValue(w) else 0
  }

  function ExampleDecode(b: Bytes): Option<Header> {
    if |b| < BOOT_INFO_SIZE then None
    else Some(Header(Narrow(b[96..128]), b[0..32], b[32..64], b[64..96], Narrow(b[128..160]), b[160..]))
  }

  function ExampleCoding(): Coding {
    Coding(ExampleHash, ExampleHash, ExampleEncode, ExampleDecode)
  }

  lemma ExampleFields(h: Header)
    ensures var b := ExampleEncode(h);
            && b[0..32] == h.parentHash && b[32..64] == h.stateRoot && b[64..96] == h.transactionsRoot
            && b[96..128] == Word(h.number) && b[128..160] == Word(h.timestamp) && b[160..] == h.otherFields
  {
    var five := h.parentHash + h.stateRoot + h.transactionsRoot + Word(h.number) + Word(h.timestamp);
    FiveWords(h.parentHash, h.stateRoot, h.transactionsRoot, Word(h.number), Word(h.timestamp));
    assert (five + h.otherFields)[..160] == five;
  }

  lemma ExampleRoundTrip(h: Header)
    ensures ExampleDecode(ExampleEncode(h)) == Some(h)
  {
    ExampleFields(h);
    WordRoundTrip(h.number);
    WordRoundTrip(h.timestamp);
  }

  lemma ExampleHeaderHash(h: Header)
    ensures HeaderHash(ExampleCoding(), h) == if h.parentHash == ONE || h.parentHash == TWO then TWO else ONE
  {
    ExampleFields(h);
    assert ExampleEncode(h)[..32] == h.parentHash;
  }

  lemma WordsDiffer()
    ensures ZERO_HASH != ONE && ZERO_HASH != TWO && ONE != TWO
  {
    WordRoundTrip(0);
    WordRoundTrip(1);
    WordRoundTrip(2);
  }

  lemma TwoIsNoAncestor()
    ensures !Ancestor(ExampleCoding(), TWO, ONE)
  {
    var c := ExampleCoding();
    WordsDiffer();
    forall path: seq<Header> | path != [] && HeaderHash(c, path[0]) == TWO ensures !LinkedTo(c, path, ONE) {
      if LinkedTo(c, path, ONE) {
        for k := 1 to |path|
          invariant HeaderHash(c, path[k - 1]) == TWO
        {
          ExampleHeaderHash(path[k]);
        }
        assert false;
      }
    }
  }

  function ExampleHeader(parentHash: B256): Header {
    Header(0, parentHash, ZERO_HASH, ZERO_HASH, 0, [])
  }

  function ExampleInputs(): AggregationInputs {
    AggregationInputs(
      [RawBootInfo(TWO, ZERO_HASH, ZERO_HASH, 1, 0), RawBootInfo(ONE, ZERO_HASH, ZERO_HASH, 2, 0)], TWO)
  }

  /** An accepted aggregation, under a hash with a faithful header coding, whose first span's head is no
      ancestor of the committed head: the L1 chain may end at the committed head. */
  lemma CommittedHeadMissesOne()
    ensures forall h :: ExampleCoding().decodeHeader(ExampleEncode(h)) == Some(h)
    ensures Accepts(ExampleCoding(), (_, _) => true, ExampleInputs(), [ExampleHeader(ZERO_HASH), ExampleHeader(ONE)])
    ensures CommittedHead(ExampleInputs()) != ZERO_HASH
    ensures !Ancestor(ExampleCoding(), ExampleInputs().bootInfos[0].l1Head, CommittedHead(ExampleInputs()))
  {
    forall h ensures ExampleCoding().decodeHeader(ExampleEncode(h)) == Some(h) {
      ExampleRoundTrip(h);
    }
    WordsDiffer();
    ExampleHeaderHash(ExampleHeader(ZERO_HASH));
    ExampleHeaderHash(ExampleHeader(ONE));
    var boots := ExampleInputs().bootInfos;
    LaterHeadIsAccepted(
      ExampleCoding(), (_, _) => true, ExampleHeader(ZERO_HASH), ExampleHeader(ONE), boots[0], boots[1]);
    TwoIsNoAncestor();
  }
}
