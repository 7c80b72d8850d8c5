/** `MultiblockOracleL2ChainProvider`: four maps behind shared handles, which all clones of a provider
    see. Its methods answer as the lookups of `L2Chain`. */
module L2Provider {
  import opened Wrappers
  import opened Words
  import opened PreimageStore
  import opened L2Chain

  /** The four `Arc<Mutex<HashMap>>` of a provider. */
  class SharedCaches {
    var headers: map<uint64, Header>
    var payloads: map<uint64, OpBlock>
    var systemConfigs: map<uint64, SystemConfig>
    var infos: map<uint64, L2BlockInfo>

    constructor ()
      ensures Contents() == EMPTY_CACHES
    {
      headers, payloads, systemConfigs, infos := map[], map[], map[], map[];
    }

    ghost function Contents(): Caches
      reads this
    {
      Caches(headers, payloads, systemConfigs, infos)
    }
  }

  class Provider {
    const w: World
    const boot: Boot
    const oracle: Store
    const caches: SharedCaches

    constructor (w: World, boot: Boot, oracle: Store, caches: SharedCaches)
      ensures this.w == w && this.boot == boot && this.oracle == oracle && this.caches == caches
    {
      this.w, this.boot, this.oracle, this.caches := w, boot, oracle, caches;
    }

    ghost function Sees(): View
      reads caches
    {
      View(w, boot, oracle, caches.Contents())
    }

    /** A clone sees what the original sees, now and after every update through either. */
    method Clone() returns (p: Provider)
      ensures fresh(p) && p.caches == caches && p.Sees() == Sees()
      ensures p.w == w && p.boot == boot && p.oracle == oracle
    {
      p := new Provider(w, boot, oracle, caches);
    }

    method UpdateCache(header: Header, payload: OpBlock, cfg: RollupConfig)
      returns (r: Result<L2BlockInfo, ClientError>)
      modifies caches
      ensures caches.Contents() == CacheUpdate(w, old(caches.Contents()), header, payload, cfg)
      ensures r == CacheUpdateResult(w, payload, cfg)
    {
      caches.headers := caches.headers[header.number := header];
      caches.payloads := caches.payloads[header.number := payload];
      var system :- ToSystemConfig(w, payload, cfg);
      caches.systemConfigs := caches.systemConfigs[header.number := system];
      var info :- BlockRef(w, payload, cfg);
      caches.infos := caches.infos[header.number := info];
      return Success(info);
    }

    /** `fuel` is any number of steps within which the walk back ends. */
    method HeaderByNumber(n: uint64, ghost fuel: nat) returns (r: Result<Header, ClientError>)
      requires HeaderLookup(Sees(), n, fuel) != Failure(Endless)
      ensures r == HeaderLookup(Sees(), n, fuel)
    {
      if n in caches.headers {
        return Success(caches.headers[n]);
      }
      var header :- StartHeader(w.coding, oracle, boot.raw.l2OutputRoot);
      if n > header.number {
        return Failure(PastHead);
      }
      ghost var left := fuel;
      while header.number > n
        invariant Walk(w.coding, oracle, header, n, left) == HeaderLookup(Sees(), n, fuel)
        decreases left
      {
        header :- HeaderByHash(w.coding, oracle, header.parentHash);
        left := left - 1;
      }
      return Success(header);
    }

    method PayloadByNumber(n: uint64, ghost fuel: nat) returns (r: Result<OpBlock, ClientError>)
      requires HeaderLookup(Sees(), n, fuel) != Failure(Endless)
      ensures r == PayloadLookup(Sees(), n, fuel)
    {
      if n in caches.payloads {
        return Success(caches.payloads[n]);
      }
      var header :- HeaderByNumber(n, fuel);
      var body :- Transactions(w, oracle, header.transactionsRoot);
      return Success(MakeBlock(boot.config, header, body));
    }

    method L2BlockInfoByNumber(n: uint64, ghost fuel: nat) returns (r: Result<L2BlockInfo, ClientError>)
      requires HeaderLookup(Sees(), n, fuel) != Failure(Endless)
      ensures r == InfoLookup(Sees(), n, fuel)
    {
      if n in caches.infos {
        return Success(caches.infos[n]);
      }
      var payload :- PayloadByNumber(n, fuel);
      return BlockRef(w, payload, boot.config);
    }

    method SystemConfigByNumber(n: uint64, cfg: RollupConfig, ghost fuel: nat)
      returns (r: Result<SystemConfig, ClientError>)
      requires HeaderLookup(Sees(), n, fuel) != Failure(Endless)
      ensures r == SystemConfigLookup(Sees(), n, cfg, fuel)
    {
      if n in caches.systemConfigs {
        return Success(caches.systemConfigs[n]);
      }
      var payload :- PayloadByNumber(n, fuel);
      return ToSystemConfig(w, payload, cfg);
    }
  }
}
