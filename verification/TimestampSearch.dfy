/** `find_block_by_timestamp` of the host (`fetcher.rs`): a binary search over the L1 chain that a node
    serves, in the wrapping 64-bit arithmetic of a release build. */
module TimestampSearch {
  import opened Wrappers
  import opened Words

  datatype L1Block = L1Block(hash: B256, timestamp: uint64)

  ghost predicate Increasing(chain: seq<L1Block>) {
    forall i, j :: 0 <= i < j < |chain| ==> chain[i].timestamp < chain[j].timestamp
  }

  /** `k` is the position of the first block at or after the target time. */
  ghost predicate FirstFrom(chain: seq<L1Block>, target: uint64, k: nat) {
    && k < |chain|
    && target <= chain[k].timestamp
    && forall i :: 0 <= i < k ==> chain[i].timestamp < target
  }

  predicate InRange(chain: seq<L1Block>, target: uint64) {
    chain != [] && chain[0].timestamp <= target <= chain[|chain| - 1].timestamp
  }

  // ---------------------------------------------------------------- the loop

  /** At a loop head, or ended: with a block, or by the `unwrap` of a block that does not exist. */
  datatype Search =
    | Searching(low: uint64, high: uint64)
    | Found(k: nat)
    | NoBlock

  /** `mid - 1`: below zero it wraps to the largest number. */
  function Pred64(n: uint64): uint64 {
    if n == 0 then U64 - 1 else n - 1
  }

  /** `(low + high) / 2`, whose sum wraps. */
  function Middle(low: uint64, high: uint64): (mid: uint64)
    ensures low + high < U64 ==> mid == (low + high) / 2
    ensures low + high >= U64 && low <= high ==> mid < low
    ensures mid < U64 / 2
  {
    (low + high) % U64 / 2
  }

  /** With new bounds the loop goes on, or ends and asks for the block at `low`. */
  function WithBounds(chain: seq<L1Block>, low: uint64, high: uint64): Search {
    if low <= high then Searching(low, high) else if low < |chain| then Found(low) else NoBlock
  }

  function Start(chain: seq<L1Block>): Search
    requires |chain| <= U64
  {
    if chain == [] then NoBlock else WithBounds(chain, 0, |chain| - 1)
  }

  function Turn(chain: seq<L1Block>, target: uint64, low: uint64, high: uint64): Search {
    var mid := Middle(low, high);
    if mid >= |chain| then NoBlock
    else if chain[mid].timestamp == target then Found(mid)
    else if chain[mid].timestamp < target then WithBounds(chain, mid + 1, high)
    else WithBounds(chain, low, Pred64(mid))
  }

  /** The search after `n` turns. */
  function After(chain: seq<L1Block>, target: uint64, n: nat): Search
    requires |chain| <= U64
  {
    if n == 0 then Start(chain)
    else
      match After(chain, target, n - 1)
      case Searching(low, high) => Turn(chain, target, low, high)
      case ended => ended
  }

  lemma {:induction false} EndedStays(chain: seq<L1Block>, target: uint64, n: nat, m: nat)
    requires |chain| <= U64 && n <= m
    ensures !After(chain, target, n).Searching? ==> After(chain, target, m) == After(chain, target, n)
    decreases m
  {
    if n < m {
      EndedStays(chain, target, n, m - 1);
    }
  }

  // ---------------------------------------------------------------- what it finds, when it ends

  /** The bounds split the chain around the target, or `high` has wrapped under a target before the
      first block; an ended search is right. */
  ghost predicate Sound(chain: seq<L1Block>, target: uint64, s: Search) {
    match s
    case Searching(low, high) =>
      && chain != [] && low <= high
      && (forall i :: 0 <= i < low && i < |chain| ==> chain[i].timestamp < target)
      && (forall i :: high < i < |chain| ==> target < chain[i].timestamp)
      && (high < |chain| || (low == 0 && high == U64 - 1 && target < chain[0].timestamp))
    case Found(k) => FirstFrom(chain, target, k) && InRange(chain, target)
    case NoBlock => !InRange(chain, target)
  }

  lemma TurnKeepsSound(chain: seq<L1Block>, target: uint64, low: uint64, high: uint64)
    requires |chain| <= U64 && Increasing(chain) && Sound(chain, target, Searching(low, high))
    ensures Sound(chain, target, Turn(chain, target, low, high))
  {
  }

  /** On every chain a search that ends has found the first block at or after a target in range, and a
      target out of range ends it, if at all, at a block that does not exist. */
  lemma {:induction false} SearchIsSound(chain: seq<L1Block>, target: uint64, n: nat)
    requires |chain| <= U64 && Increasing(chain)
    ensures Sound(chain, target, After(chain, target, n))
  {
    if n > 0 {
      SearchIsSound(chain, target, n - 1);
      var before := After(chain, target, n - 1);
      if before.Searching? {
        TurnKeepsSound(chain, target, before.low, before.high);
      }
    }
  }

  // ---------------------------------------------------------------- exactly when it ends

  /** Short enough that no sum wraps, and that a wrapped `high` leads out of the chain; one block more is
      harmless only if no target is before the first block. */
  predicate ShortEnough(chain: seq<L1Block>) {
    |chain| < U64 / 2 || (|chain| == U64 / 2 && chain[0].timestamp == 0)
  }

  function TurnsLeft(chain: seq<L1Block>, s: Search): int {
    match s
    case Searching(low, high) => if high < |chain| then high - low + 2 else 1
    case _ => 0
  }

  lemma TurnDescends(chain: seq<L1Block>, target: uint64, low: uint64, high: uint64)
    requires Increasing(chain) && ShortEnough(chain) && Sound(chain, target, Searching(low, high))
    ensures 0 <= TurnsLeft(chain, Turn(chain, target, low, high)) < TurnsLeft(chain, Searching(low, high))
  {
  }

  lemma {:induction false} EndsWithin(chain: seq<L1Block>, target: uint64, n: nat)
    requires Increasing(chain) && ShortEnough(chain)
    ensures After(chain, target, n).Searching? ==> n + TurnsLeft(chain, After(chain, target, n)) <= |chain| + 1
  {
    if n > 0 {
      EndsWithin(chain, target, n - 1);
      var before := After(chain, target, n - 1);
      if before.Searching? {
        SearchIsSound(chain, target, n - 1);
        TurnDescends(chain, target, before.low, before.high);
      }
    }
  }

  /** On a longer chain the search for the last block never asks for it: the sum that would lead there
      wraps, and takes `low` back. */
  lemma {:induction false} LastIsNeverFound(chain: seq<L1Block>, n: nat)
    requires U64 / 2 < |chain| <= U64 && Increasing(chain)
    ensures var s := After(chain, chain[|chain| - 1].timestamp, n); s.Searching? && s.high == |chain| - 1
  {
    if n > 0 {
      LastIsNeverFound(chain, n - 1);
    }
  }

  /** On a chain of 2^63 blocks or more a target before the first block wraps `high` over and over. */
  lemma {:induction false} EarlyNeverEnds(chain: seq<L1Block>, target: uint64, n: nat)
    requires U64 / 2 <= |chain| <= U64 && Increasing(chain) && target < chain[0].timestamp
    ensures var s := After(chain, target, n); s.Searching? && s.low == 0
  {
    if n > 0 {
      EarlyNeverEnds(chain, target, n - 1);
    }
  }

  ghost predicate Ends(chain: seq<L1Block>, target: uint64)
    requires |chain| <= U64
  {
    exists n: nat :: !After(chain, target, n).Searching?
  }

  /** The search ends for every target exactly on the chains that are short enough. */
  lemma EndsExactly(chain: seq<L1Block>)
    requires |chain| <= U64 && Increasing(chain)
    ensures (forall target: uint64 :: Ends(chain, target)) <==> ShortEnough(chain)
  {
    if ShortEnough(chain) {
      forall target: uint64 ensures Ends(chain, target) {
        EndsWithin(chain, target, |chain| + 1);
      }
    } else if |chain| > U64 / 2 {
      var last := chain[|chain| - 1].timestamp;
      forall n: nat ensures After(chain, last, n).Searching? {
        LastIsNeverFound(chain, n);
      }
      assert !Ends(chain, last);
    } else {
      forall n: nat ensures After(chain, 0, n).Searching? {
        EarlyNeverEnds(chain, 0, n);
      }
      assert !Ends(chain, 0);
    }
  }

  /** What `turns` turns return: on a chain that is short enough, the length of the chain is enough. */
  lemma Outcome(chain: seq<L1Block>, target: uint64, turns: nat)
    requires |chain| <= U64 && Increasing(chain)
    ensures match After(chain, target, turns)
            case Found(k) => InRange(chain, target) && FirstFrom(chain, target, k)
            case NoBlock => !InRange(chain, target)
            case Searching(_, _) => turns <= |chain| || !ShortEnough(chain)
  {
    SearchIsSound(chain, target, turns);
    if ShortEnough(chain) {
      EndsWithin(chain, target, turns);
    }
  }

  /** `find_block_by_timestamp`, cut off after `turns` turns. */
  method FindBlockByTimestamp(chain: seq<L1Block>, target: uint64, turns: nat) returns (r: Search, queried: seq<nat>)
    requires |chain| <= U64 && Increasing(chain)
    ensures match r
            case Found(k) => InRange(chain, target) && FirstFrom(chain, target, k)
            case NoBlock => !InRange(chain, target)
            case Searching(_, _) => turns <= |chain| || !ShortEnough(chain)
    ensures r == After(chain, target, turns)
    ensures r.Found? ==> forall n :: n in queried ==> n < |chain|
  {
    r, queried := RunSearch(chain, target, turns);
    Outcome(chain, target, turns);
  }

  method RunSearch(chain: seq<L1Block>, target: uint64, turns: nat) returns (r: Search, queried: seq<nat>)
    requires |chain| <= U64
    ensures r == After(chain, target, turns)
    ensures r.Found? ==> forall n :: n in queried ==> n < |chain|
  {
    queried := [];
    EndedStays(chain, target, 0, turns);
    if chain == [] {
      return NoBlock, queried;
    }
    var low: uint64, high: uint64, i := 0, |chain| - 1, 0;
    while low <= high
      invariant i <= turns && After(chain, target, i) == WithBounds(chain, low, high)
      invariant forall n :: n in queried ==> n < |chain|
      decreases turns - i
    {
      if i == turns {
        return Searching(low, high), queried;
      }
      i := i + 1;
      EndedStays(chain, target, i, turns);
      var mid := Middle(low, high);
      queried := queried + [mid];
      if mid >= |chain| {
        return NoBlock, queried;
      }
      if chain[mid].timestamp == target {
        return Found(mid), queried;
      } else if chain[mid].timestamp < target {
        low := mid + 1;
      } else {
        high := Pred64(mid);
      }
    }
    EndedStays(chain, target, i, turns);
    queried := queried + [low];
    return if low < |chain| then Found(low) else NoBlock, queried;
  }
}
