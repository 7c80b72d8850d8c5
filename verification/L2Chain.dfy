/** The L2 side as the multi-block client sees it: blocks, an abstract executor and codecs, and the
    four ways of looking a block up, as functions of the caches and the preimage store
    (`l2_chain_provider.rs`). */
module L2Chain {
  import opened Wrappers
  import opened Words
  import opened BootInfo
  import opened PreimageStore

  datatype RollupConfig = RollupConfig(l2ChainId: uint64, canyonTime: Option<uint64>, otherFields: Bytes)

  datatype SystemConfig = SystemConfig(fields: Bytes)

  datatype Tx = Tx(fields: Bytes)

  /** The block that is turned into an execution payload envelope, and stands for it here. */
  datatype OpBlock = OpBlock(header: Header, body: seq<Tx>, withdrawals: Option<seq<Bytes>>)

  datatype L2BlockInfo = L2BlockInfo(
    hash: B256,
    number: uint64,
    parentHash: B256,
    timestamp: uint64,
    l1Origin: uint64,
    seqNum: uint64)

  datatype Attributes = Attributes(transactions: seq<Bytes>, otherFields: Bytes)

  /** A header with the hash it is known by; `Sealed::new_unchecked` does not compare the two. */
  datatype Sealed = Sealed(header: Header, seal: B256)

  /** Code outside the repository, as deterministic functions. `execute` and `storageRoot` read
      state from a store; `listTrie` walks an ordered-list trie in it; `knowsL1Origin` is whether the
      L1 provider finds a block's L1 origin there. */
  datatype World = World(
    coding: Coding,
    rollupConfig: uint64 -> Option<RollupConfig>,
    execute: (Store, RollupConfig, Sealed, Attributes) -> Option<Header>,
    storageRoot: (Store, Header) -> Option<B256>,
    listTrie: (Store, B256) -> Option<seq<Bytes>>,
    decodeTx: Bytes -> Option<Tx>,
    knowsL1Origin: (Store, L2BlockInfo) -> bool,
    blockRef: (OpBlock, RollupConfig) -> Option<L2BlockInfo>,
    systemConfig: (OpBlock, RollupConfig) -> Option<SystemConfig>)

  /** What is assumed of that code: headers decode from their encoding, and an executed header follows
      its parent. */
  ghost predicate Faithful(w: World) {
    && (forall h {:trigger w.coding.encodeHeader(h)} :: w.coding.decodeHeader(w.coding.encodeHeader(h)) == Some(h))
    && (forall st, cfg, parent, attrs :: w.execute(st, cfg, parent, attrs).Some? ==>
          var h := w.execute(st, cfg, parent, attrs).value;
          h.number == parent.header.number + 1 && h.parentHash == parent.seal)
  }

  /** A Rust `Err`, a failed `unwrap`, `assert_eq!` or slice index; `Endless` is a loop cut short. */
  datatype ClientError =
    | Oracle(cause: GetError)
    | StoreRejected(reason: VerifyError)
    | ShortPreimage | HeaderDecode | PastHead | TrieWalk | TxDecode | BlockRefFailed | SystemConfigFailed
    | UnknownChain | UnknownL1Origin | ExecutionFailed | NumberMismatch | OutputRootFailed | ClaimMismatch
    | Endless

  datatype Boot = Boot(raw: RawBootInfo, config: RollupConfig)

  function CanyonActive(cfg: RollupConfig, timestamp: uint64): bool {
    cfg.canyonTime.Some? && cfg.canyonTime.value <= timestamp
  }

  function MakeBlock(cfg: RollupConfig, header: Header, body: seq<Tx>): OpBlock {
    OpBlock(header, body, if CanyonActive(cfg, header.timestamp) then Some([]) else None)
  }

  function DecodeAll(w: World, raws: seq<Bytes>): Result<seq<Tx>, ClientError>
    decreases |raws|
  {
    if raws == [] then Success([])
    else
      :- Need(w.decodeTx(raws[0]).Some?, TxDecode);
      var rest :- DecodeAll(w, raws[1..]);
      Success([w.decodeTx(raws[0]).value] + rest)
  }

  /** All raw transactions decode or none is returned, and they stay in their order. */
  lemma {:induction false} DecodeAllExactly(w: World, raws: seq<Bytes>)
    ensures DecodeAll(w, raws).Success? <==> forall i :: 0 <= i < |raws| ==> w.decodeTx(raws[i]).Some?
    ensures DecodeAll(w, raws).Success? ==>
            var body := DecodeAll(w, raws).value;
            |body| == |raws| && forall i :: 0 <= i < |raws| ==> w.decodeTx(raws[i]) == Some(body[i])
    ensures DecodeAll(w, raws).Failure? ==> DecodeAll(w, raws).error == TxDecode
    decreases |raws|
  {
    if raws != [] {
      DecodeAllExactly(w, raws[1..]);
      assert forall i :: 0 < i < |raws| ==> raws[i] == raws[1..][i - 1];
    }
  }

  /** The block is its header and transactions, with an empty withdrawals list from Canyon's time on. */
  lemma BlockContents(cfg: RollupConfig, header: Header, body: seq<Tx>)
    ensures MakeBlock(cfg, header, body).header == header && MakeBlock(cfg, header, body).body == body
    ensures match cfg.canyonTime
            case None => MakeBlock(cfg, header, body).withdrawals == None
            case Some(t) =>
              && (header.timestamp < t ==> MakeBlock(cfg, header, body).withdrawals == None)
              && (header.timestamp >= t ==> MakeBlock(cfg, header, body).withdrawals == Some([]))
  {
  }

  // ---------------------------------------------------------------- through the store

  function Preimage(st: Store, hash: B256): Result<Bytes, ClientError> {
    match Get(st, Key(hash, Keccak256))
    case Success(v) => Success(v)
    case Failure(e) => Failure(Oracle(e))
  }

  function HeaderByHash(c: Coding, st: Store, hash: B256): Result<Header, ClientError> {
    var bytes :- Preimage(st, hash);
    :- Need(c.decodeHeader(bytes).Some?, HeaderDecode);
    Success(c.decodeHeader(bytes).value)
  }

  /** Bytes 96..128 of the output root's preimage name the starting block. */
  function StartHash(st: Store, root: B256): Result<B256, ClientError> {
    var preimage :- Preimage(st, root);
    :- Need(|preimage| >= 128, ShortPreimage);
    Success(preimage[96..128])
  }

  function StartHeader(c: Coding, st: Store, root: B256): Result<Header, ClientError> {
    var hash :- StartHash(st, root);
    HeaderByHash(c, st, hash)
  }

  /** At most `fuel` steps back along parent hashes, until the number is no more than `n`. */
  function Walk(c: Coding, st: Store, h: Header, n: uint64, fuel: nat): Result<Header, ClientError>
    decreases fuel
  {
    if h.number <= n then Success(h)
    else if fuel == 0 then Failure(Endless)
    else
      var parent :- HeaderByHash(c, st, h.parentHash);
      Walk(c, st, parent, n, fuel - 1)
  }

  function WalkBack(c: Coding, st: Store, root: B256, n: uint64, fuel: nat): Result<Header, ClientError> {
    var start :- StartHeader(c, st, root);
    :- Need(n <= start.number, PastHead);
    Walk(c, st, start, n, fuel)
  }

  function Transactions(w: World, st: Store, root: B256): Result<seq<Tx>, ClientError> {
    var raws := w.listTrie(st, root);
    :- Need(raws.Some?, TrieWalk);
    DecodeAll(w, raws.value)
  }

  /** A header is found by a hash exactly when the store has a preimage for it that decodes. */
  lemma HeaderByHashExactly(c: Coding, st: Store, hash: B256, h: Header)
    ensures HeaderByHash(c, st, hash) == Success(h) <==>
            [2] + hash[1..] in st && c.decodeHeader(st[[2] + hash[1..]]) == Some(h)
  {
    assert Key(hash, Keccak256) == [2] + hash[1..];
  }

  /** The transactions under a root are those of the trie's list, decoded one by one. */
  lemma TransactionsExactly(w: World, st: Store, root: B256, body: seq<Tx>)
    ensures Transactions(w, st, root) == Success(body) <==>
            && w.listTrie(st, root).Some?
            && |body| == |w.listTrie(st, root).value|
            && forall i :: 0 <= i < |body| ==> w.decodeTx(w.listTrie(st, root).value[i]) == Some(body[i])
  {
    var raws := w.listTrie(st, root);
    if raws.Some? {
      DecodeAllExactly(w, raws.value);
      if DecodeAll(w, raws.value).Success? && |body| == |raws.value|
         && forall i :: 0 <= i < |body| ==> w.decodeTx(raws.value[i]) == Some(body[i])
      {
        var decoded := DecodeAll(w, raws.value).value;
        forall i | 0 <= i < |body| ensures decoded[i] == body[i] {
          assert w.decodeTx(raws.value[i]) == Some(decoded[i]);
        }
        assert decoded == body;
      }
    }
  }

  // ---------------------------------------------------------------- through the caches

  datatype Caches = Caches(
    headers: map<uint64, Header>,
    payloads: map<uint64, OpBlock>,
    systemConfigs: map<uint64, SystemConfig>,
    infos: map<uint64, L2BlockInfo>)

  /** A provider's whole view of the chain. */
  datatype View = View(w: World, boot: Boot, st: Store, caches: Caches)

  function HeaderLookup(v: View, n: uint64, fuel: nat): Result<Header, ClientError> {
    if n in v.caches.headers then Success(v.caches.headers[n])
    else WalkBack(v.w.coding, v.st, v.boot.raw.l2OutputRoot, n, fuel)
  }

  function PayloadLookup(v: View, n: uint64, fuel: nat): Result<OpBlock, ClientError> {
    if n in v.caches.payloads then Success(v.caches.payloads[n])
    else
      var header :- HeaderLookup(v, n, fuel);
      var body :- Transactions(v.w, v.st, header.transactionsRoot);
      Success(MakeBlock(v.boot.config, header, body))
  }

  function BlockRef(w: World, b: OpBlock, cfg: RollupConfig): Result<L2BlockInfo, ClientError> {
    if w.blockRef(b, cfg).Some? then Success(w.blockRef(b, cfg).value) else Failure(BlockRefFailed)
  }

  function ToSystemConfig(w: World, b: OpBlock, cfg: RollupConfig): Result<SystemConfig, ClientError> {
    if w.systemConfig(b, cfg).Some? then Success(w.systemConfig(b, cfg).value) else Failure(SystemConfigFailed)
  }

  function InfoLookup(v: View, n: uint64, fuel: nat): Result<L2BlockInfo, ClientError> {
    if n in v.caches.infos then Success(v.caches.infos[n])
    else
      var payload :- PayloadLookup(v, n, fuel);
      BlockRef(v.w, payload, v.boot.config)
  }

  /** A cached answer ignores the configuration asked for. */
  function SystemConfigLookup(v: View, n: uint64, cfg: RollupConfig, fuel: nat): Result<SystemConfig, ClientError> {
    if n in v.caches.systemConfigs then Success(v.caches.systemConfigs[n])
    else
      var payload :- PayloadLookup(v, n, fuel);
      ToSystemConfig(v.w, payload, cfg)
  }

  /** What `update_cache` leaves in the maps: a failed conversion stops it halfway. */
  function CacheUpdate(w: World, caches: Caches, header: Header, payload: OpBlock, cfg: RollupConfig): Caches {
    var n := header.number;
    var both := caches.(headers := caches.headers[n := header], payloads := caches.payloads[n := payload]);
    match ToSystemConfig(w, payload, cfg)
    case Failure(_) => both
    case Success(system) =>
      var three := both.(systemConfigs := caches.systemConfigs[n := system]);
      match BlockRef(w, payload, cfg)
      case Failure(_) => three
      case Success(info) => three.(infos := caches.infos[n := info])
  }

  function CacheUpdateResult(w: World, payload: OpBlock, cfg: RollupConfig): Result<L2BlockInfo, ClientError> {
    var _ :- ToSystemConfig(w, payload, cfg);
    BlockRef(w, payload, cfg)
  }

  /** An update succeeds exactly when the block has a system config and a block info, and answers that. */
  lemma CacheUpdateExactly(w: World, b: OpBlock, cfg: RollupConfig)
    ensures CacheUpdateResult(w, b, cfg).Success? <==> w.systemConfig(b, cfg).Some? && w.blockRef(b, cfg).Some?
    ensures CacheUpdateResult(w, b, cfg).Success? ==> Some(CacheUpdateResult(w, b, cfg).value) == w.blockRef(b, cfg)
    ensures CacheUpdateResult(w, b, cfg).Failure? ==>
            CacheUpdateResult(w, b, cfg).error ==
              if w.systemConfig(b, cfg).None? then SystemConfigFailed else BlockRefFailed
  {
  }

  /** Also a failed update leaves header and payload, and the system config if that was not what failed; no
      update changes what is cached of another number. */
  lemma UpdateLeaves(w: World, caches: Caches, header: Header, b: OpBlock, cfg: RollupConfig, n: uint64)
    ensures var after := CacheUpdate(w, caches, header, b, cfg);
            && header.number in after.headers && after.headers[header.number] == header
            && header.number in after.payloads && after.payloads[header.number] == b
            && (w.systemConfig(b, cfg).Some? ==>
                  header.number in after.systemConfigs
                  && after.systemConfigs[header.number] == w.systemConfig(b, cfg).value)
            && (n != header.number ==>
                  && (n in after.headers <==> n in caches.headers)
                  && (n in caches.headers ==> after.headers[n] == caches.headers[n])
                  && (n in after.payloads <==> n in caches.payloads)
                  && (n in caches.payloads ==> after.payloads[n] == caches.payloads[n])
                  && (n in after.systemConfigs <==> n in caches.systemConfigs)
                  && (n in caches.systemConfigs ==> after.systemConfigs[n] == caches.systemConfigs[n])
                  && (n in after.infos <==> n in caches.infos)
                  && (n in caches.infos ==> after.infos[n] == caches.infos[n]))
  {
  }

  /** What a provider answers from its caches does not involve the store, nor then the config asked for. */
  lemma CachedAnswers(v: View, n: uint64, cfg: RollupConfig, fuel: nat)
    ensures n in v.caches.headers ==> HeaderLookup(v, n, fuel) == Success(v.caches.headers[n])
    ensures n in v.caches.payloads ==> PayloadLookup(v, n, fuel) == Success(v.caches.payloads[n])
    ensures n in v.caches.infos ==> InfoLookup(v, n, fuel) == Success(v.caches.infos[n])
    ensures n in v.caches.systemConfigs ==> SystemConfigLookup(v, n, cfg, fuel) == Success(v.caches.systemConfigs[n])
  {
  }

  // ---------------------------------------------------------------- the chain that is looked up

  /** Blocks numbered by position, each naming the hash of the one before. */
  ghost predicate WellNumbered(c: Coding, chain: seq<OpBlock>) {
    && (forall i :: 0 <= i < |chain| ==> chain[i].header.number == i)
    && (forall i :: 0 < i < |chain| ==> chain[i].header.parentHash == HeaderHash(c, chain[i - 1].header))
  }

  /** The store has header and transactions of block `i`. */
  ghost predicate Holds(w: World, cfg: RollupConfig, st: Store, b: OpBlock) {
    && HeaderByHash(w.coding, st, HeaderHash(w.coding, b.header)) == Success(b.header)
    && Transactions(w, st, b.header.transactionsRoot) == Success(b.body)
    && b == MakeBlock(cfg, b.header, b.body)
  }

  /** All four maps have one key set: the numbers after `start` up to `head`. */
  ghost predicate Keyed(caches: Caches, start: nat, head: nat) {
    && (forall n: uint64 :: n in caches.headers <==> start < n <= head)
    && caches.headers.Keys == caches.payloads.Keys == caches.systemConfigs.Keys == caches.infos.Keys
  }

  ghost predicate CachedAs(w: World, cfg: RollupConfig, caches: Caches, n: uint64, b: OpBlock) {
    && n in caches.headers && caches.headers[n] == b.header
    && n in caches.payloads && caches.payloads[n] == b
    && n in caches.systemConfigs && w.systemConfig(b, cfg) == Some(caches.systemConfigs[n])
    && n in caches.infos && w.blockRef(b, cfg) == Some(caches.infos[n])
  }

  /** The caches have exactly the blocks after `start` up to `head`, in all four forms. */
  ghost predicate CachesHold(w: World, cfg: RollupConfig, caches: Caches, chain: seq<OpBlock>, start: nat, head: nat) {
    && start <= head < |chain|
    && Keyed(caches, start, head)
    && forall n: uint64 :: start < n <= head ==> CachedAs(w, cfg, caches, n, chain[n])
  }

  const EMPTY_CACHES := Caches(map[], map[], map[], map[])

  /** A successful update caches its block and disturbs no other number. */
  lemma UpdateCaches(w: World, cfg: RollupConfig, caches: Caches, b: OpBlock)
    requires CacheUpdateResult(w, b, cfg).Success?
    ensures var after := CacheUpdate(w, caches, b.header, b, cfg);
            && CachedAs(w, cfg, after, b.header.number, b)
            && Some(CacheUpdateResult(w, b, cfg).value) == w.blockRef(b, cfg)
            && after.headers.Keys == caches.headers.Keys + {b.header.number}
            && after.payloads.Keys == caches.payloads.Keys + {b.header.number}
            && after.systemConfigs.Keys == caches.systemConfigs.Keys + {b.header.number}
            && after.infos.Keys == caches.infos.Keys + {b.header.number}
  {
  }

  lemma UpdateKeeps(w: World, cfg: RollupConfig, caches: Caches, b: OpBlock, n: uint64, c: OpBlock)
    requires CacheUpdateResult(w, b, cfg).Success? && n != b.header.number
    requires CachedAs(w, cfg, caches, n, c)
    ensures CachedAs(w, cfg, CacheUpdate(w, caches, b.header, b, cfg), n, c)
  {
  }

  lemma UpdateExtends(w: World, cfg: RollupConfig, caches: Caches, chain: seq<OpBlock>, start: nat, head: nat)
    requires CachesHold(w, cfg, caches, chain, start, head) && head + 1 < |chain| && WellNumbered(w.coding, chain)
    requires CacheUpdateResult(w, chain[head + 1], cfg).Success?
    ensures var after := CacheUpdate(w, caches, chain[head + 1].header, chain[head + 1], cfg);
            CachesHold(w, cfg, after, chain, start, head + 1)
  {
    var b := chain[head + 1];
    assert b.header.number == head + 1;
    UpdateCaches(w, cfg, caches, b);
    forall n: uint64 | start < n <= head
      ensures CachedAs(w, cfg, CacheUpdate(w, caches, b.header, b, cfg), n, chain[n])
    {
      UpdateKeeps(w, cfg, caches, b, n, chain[n]);
    }
  }

  /** Any number of updates with executed blocks, from empty caches. */
  function FillCaches(w: World, cfg: RollupConfig, blocks: seq<OpBlock>): Caches {
    if blocks == [] then EMPTY_CACHES
    else
      var last := blocks[|blocks| - 1];
      CacheUpdate(w, FillCaches(w, cfg, blocks[..|blocks| - 1]), last.header, last, cfg)
  }

  lemma {:induction false} FilledCachesHold(w: World, cfg: RollupConfig, chain: seq<OpBlock>, start: nat, head: nat)
    requires start <= head < |chain| && WellNumbered(w.coding, chain)
    requires forall n :: start < n <= head ==> CacheUpdateResult(w, chain[n], cfg).Success?
    ensures CachesHold(w, cfg, FillCaches(w, cfg, chain[start + 1..head + 1]), chain, start, head)
    decreases head
  {
    var blocks := chain[start + 1..head + 1];
    if start < head {
      assert blocks[..|blocks| - 1] == chain[start + 1..head];
      FilledCachesHold(w, cfg, chain, start, head - 1);
      UpdateExtends(w, cfg, FillCaches(w, cfg, chain[start + 1..head]), chain, start, head - 1);
    }
  }

  /** The walk from a block of the chain returns the block it is asked for. */
  lemma {:induction false} WalkFinds(c: Coding, st: Store, chain: seq<OpBlock>, from: nat, n: uint64, fuel: nat)
    requires WellNumbered(c, chain) && n <= from < |chain| && from - n <= fuel
    requires forall i :: n <= i < from ==>
      HeaderByHash(c, st, HeaderHash(c, chain[i].header)) == Success(chain[i].header)
    ensures Walk(c, st, chain[from].header, n, fuel) == Success(chain[n].header)
    decreases from
  {
    if n < from {
      WalkFinds(c, st, chain, from - 1, n, fuel - 1);
    }
  }

  /** Every lookup up to the head answers from the one chain, whether from cache or by walking back,
      and every lookup above it is refused. */
  lemma LookupsAnswerChain(v: View, chain: seq<OpBlock>, lo: nat, start: nat, head: nat, n: uint64, fuel: nat)
    requires WellNumbered(v.w.coding, chain) && lo <= start <= fuel
    requires CachesHold(v.w, v.boot.config, v.caches, chain, start, head)
    requires StartHeader(v.w.coding, v.st, v.boot.raw.l2OutputRoot) == Success(chain[start].header)
    requires forall i :: lo <= i <= start ==> Holds(v.w, v.boot.config, v.st, chain[i])
    ensures lo <= n <= head ==>
      && HeaderLookup(v, n, fuel) == Success(chain[n].header)
      && PayloadLookup(v, n, fuel) == Success(chain[n])
      && InfoLookup(v, n, fuel) == BlockRef(v.w, chain[n], v.boot.config)
      && SystemConfigLookup(v, n, v.boot.config, fuel) == ToSystemConfig(v.w, chain[n], v.boot.config)
    ensures n > head ==>
      && HeaderLookup(v, n, fuel) == Failure(PastHead)
      && PayloadLookup(v, n, fuel) == Failure(PastHead)
      && InfoLookup(v, n, fuel) == Failure(PastHead)
      && SystemConfigLookup(v, n, v.boot.config, fuel) == Failure(PastHead)
  {
    if lo <= n <= start {
      WalkFinds(v.w.coding, v.st, chain, start, n, fuel);
      assert Holds(v.w, v.boot.config, v.st, chain[n]);
    } else if n > start {
      assert chain[start].header.number == start;
    }
  }

  /** Of a block that is not cached the system config is computed with the configuration asked for; of a
      cached one the answer is the boot configuration's, whatever is asked for. */
  lemma ConfigAskedFor(
    v: View, chain: seq<OpBlock>, lo: nat, start: nat, head: nat, n: uint64, cfg: RollupConfig, fuel: nat)
    requires WellNumbered(v.w.coding, chain) && lo <= start <= fuel && lo <= n <= head
    requires CachesHold(v.w, v.boot.config, v.caches, chain, start, head)
    requires StartHeader(v.w.coding, v.st, v.boot.raw.l2OutputRoot) == Success(chain[start].header)
    requires forall i :: lo <= i <= start ==> Holds(v.w, v.boot.config, v.st, chain[i])
    ensures SystemConfigLookup(v, n, cfg, fuel)
            == ToSystemConfig(v.w, chain[n], if n <= start then cfg else v.boot.config)
  {
    LookupsAnswerChain(v, chain, lo, start, head, n, fuel);
    if n > start {
      assert CachedAs(v.w, v.boot.config, v.caches, n, chain[n]);
    }
  }

  /** So a second client booted at the head with empty caches, over any store that holds the blocks,
      answers as this one does from its caches. */
  lemma FreshClientAgrees(v: View, u: View, chain: seq<OpBlock>, lo: nat, start: nat, head: nat, n: uint64, fuel: nat)
    requires WellNumbered(v.w.coding, chain) && lo <= start <= head <= fuel && lo <= n <= head
    requires v.w == u.w && v.boot.config == u.boot.config && u.caches == EMPTY_CACHES
    requires CachesHold(v.w, v.boot.config, v.caches, chain, start, head)
    requires StartHeader(v.w.coding, v.st, v.boot.raw.l2OutputRoot) == Success(chain[start].header)
    requires forall i :: lo <= i <= start ==> Holds(v.w, v.boot.config, v.st, chain[i])
    requires StartHeader(u.w.coding, u.st, u.boot.raw.l2OutputRoot) == Success(chain[head].header)
    requires forall i :: lo <= i <= head ==> Holds(u.w, u.boot.config, u.st, chain[i])
    ensures HeaderLookup(v, n, fuel) == HeaderLookup(u, n, fuel)
    ensures PayloadLookup(v, n, fuel) == PayloadLookup(u, n, fuel)
    ensures InfoLookup(v, n, fuel) == InfoLookup(u, n, fuel)
    ensures SystemConfigLookup(v, n, v.boot.config, fuel) == SystemConfigLookup(u, n, u.boot.config, fuel)
  {
    LookupsAnswerChain(v, chain, lo, start, head, n, fuel);
    LookupsAnswerChain(u, chain, lo, head, head, n, fuel);
  }

  // ---------------------------------------------------------------- over two verified stores

  /** The header found by a hash does not depend on which verified store it is read from. */
  lemma HeaderByHashAgrees(c: Coding, a: Store, b: Store, hash: B256)
    requires Verified(c, a) && Verified(c, b)
    requires CollisionFree(c.keccak, a.Values + b.Values) && CollisionFree(c.sha256, a.Values + b.Values)
    requires Key(hash, Keccak256) in a && Key(hash, Keccak256) in b
    ensures HeaderByHash(c, a, hash) == HeaderByHash(c, b, hash)
  {
    VerifiedStoresAgree(c, a, b, Key(hash, Keccak256));
  }

  /** Nor does a walk that both stores can make: neither lacks a key on the way. */
  lemma {:induction false} WalksAgree(c: Coding, a: Store, b: Store, h: Header, n: uint64, fuel: nat)
    requires Verified(c, a) && Verified(c, b)
    requires CollisionFree(c.keccak, a.Values + b.Values) && CollisionFree(c.sha256, a.Values + b.Values)
    requires Walk(c, a, h, n, fuel) != Failure(Oracle(KeyNotFound))
    requires Walk(c, b, h, n, fuel) != Failure(Oracle(KeyNotFound))
    ensures Walk(c, a, h, n, fuel) == Walk(c, b, h, n, fuel)
    decreases fuel
  {
    if h.number > n && fuel > 0 {
      HeaderByHashAgrees(c, a, b, h.parentHash);
      if HeaderByHash(c, a, h.parentHash).Success? {
        WalksAgree(c, a, b, HeaderByHash(c, a, h.parentHash).value, n, fuel - 1);
      }
    }
  }

  /** So an uncached lookup, from the output root's preimage on, is the same over both. */
  lemma WalkBacksAgree(c: Coding, a: Store, b: Store, root: B256, n: uint64, fuel: nat)
    requires Verified(c, a) && Verified(c, b)
    requires CollisionFree(c.keccak, a.Values + b.Values) && CollisionFree(c.sha256, a.Values + b.Values)
    requires WalkBack(c, a, root, n, fuel) != Failure(Oracle(KeyNotFound))
    requires WalkBack(c, b, root, n, fuel) != Failure(Oracle(KeyNotFound))
    ensures WalkBack(c, a, root, n, fuel) == WalkBack(c, b, root, n, fuel)
  {
    VerifiedStoresAgree(c, a, b, Key(root, Keccak256));
    assert StartHash(a, root) == StartHash(b, root);
    if StartHash(a, root).Success? {
      HeaderByHashAgrees(c, a, b, StartHash(a, root).value);
      if StartHeader(c, a, root).Success? && n <= StartHeader(c, a, root).value.number {
        WalksAgree(c, a, b, StartHeader(c, a, root).value, n, fuel);
      }
    }
  }
}
