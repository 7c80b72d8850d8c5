/** What the verification pass accepts and gathers, in terms of the store's bytes: the key's type byte and
    31-byte tail, and for a blob part the 80 bytes that its key hashes. */
module StoreContents {
  import opened Wrappers
  import opened Words
  import opened PreimageStore
  import opened BlobAssembly

  /** Type bytes of keys (OP Stack fault proof specification, "Pre-image key types"). */
  lemma KeyLayout(hash: B256, t: KeyType)
    ensures Key(hash, t)[1..] == hash[1..]
    ensures Key(hash, Local)[0] == 1 && Key(hash, Keccak256)[0] == 2 && Key(hash, GlobalGeneric)[0] == 3
    ensures Key(hash, Sha256)[0] == 4 && Key(hash, Blob)[0] == 5 && Key(hash, Precompile)[0] == 6
  {
  }

  // ---------------------------------------------------------------- one entry

  /** The key under which a blob part's 80 bytes are stored. */
  function PartKey(k: B256): B256 {
    [2] + k[1..]
  }

  ghost predicate IsPart(st: Store, k: B256) {
    k in st && k[0] == 5 && PartKey(k) in st && |st[PartKey(k)]| == 80
  }

  function Commitment(part: Bytes): Bytes
    requires |part| == 80
  {
    part[..48]
  }

  /** The element's index: the last 8 bytes, most significant first. */
  function Index(part: Bytes): nat
    requires |part| == 80
  {
    FromBigEndian(part[72..80])
  }

  /** Element 4096 is the proof; of the others, those below 128 after the shift's wrap have a slot. */
  predicate IsProof(part: Bytes)
    requires |part| == 80
  {
    Index(part) == 4096
  }

  predicate HasSlot(part: Bytes)
    requires |part| == 80
  {
    Index(part) != 4096 && Index(part) % 0x800_0000 < 128
  }

  /** Entry `k` passes by itself: local, or a value that hashes to its key, or a part with its 80 bytes. */
  ghost predicate Passes(c: Coding, st: Store, k: B256)
    requires k in st
  {
    || k[0] == 1
    || (k[0] == 2 && c.keccak(st[k])[1..] == k[1..])
    || (k[0] == 4 && c.sha256(st[k])[1..] == k[1..])
    || IsPart(st, k)
  }

  lemma KeyMatches(hash: B256, t: KeyType, k: B256)
    requires k[0] == Tag(t)
    ensures Key(hash, t) == k <==> hash[1..] == k[1..]
  {
    assert k == [k[0]] + k[1..];
    assert Key(hash, t)[1..] == hash[1..];
  }

  lemma PartKeyIs(k: B256)
    ensures Key(k, Keccak256) == PartKey(k)
  {
  }

  lemma ClassifiedExactly(c: Coding, st: Store, k: B256)
    requires k in st
    ensures Classify(c, st, k).Success? <==> Passes(c, st, k)
  {
    if k[0] == 2 {
      KeyMatches(c.keccak(st[k]), Keccak256, k);
    } else if k[0] == 4 {
      KeyMatches(c.sha256(st[k]), Sha256, k);
    } else if k[0] == 5 {
      PartKeyIs(k);
    }
  }

  lemma PartClassified(c: Coding, st: Store, k: B256)
    requires IsPart(st, k)
    ensures var part := st[PartKey(k)];
            Index(part) < U64
            && Classify(c, st, k) == Success(
                 if IsProof(part) then ProofOf(Commitment(part), st[k])
                 else ElementOf(Commitment(part), Index(part), st[k]))
  {
    PartKeyIs(k);
    var part := st[PartKey(k)];
    assert part[72..] == part[72..80];
    FromBigEndianBound(part[72..80]);
    Pow256Values();
  }

  lemma NoPart(c: Coding, st: Store, k: B256)
    requires k in st && !IsPart(st, k)
    ensures Classify(c, st, k).Success? ==> Classify(c, st, k).value == Checked
  {
    if k[0] == 5 {
      PartKeyIs(k);
    }
  }

  // ---------------------------------------------------------------- stores without blob parts

  /** Over entries that are no blob parts, a pass in any order succeeds exactly when each passes by itself,
      and gathers nothing. */
  lemma {:induction false} PassesWithoutBlobs(c: Coding, st: Store, order: seq<B256>)
    requires In(st, order) && forall k :: k in order ==> k[0] != 5
    ensures VerifyInOrder(c, st, order).Success? <==> forall k :: k in order ==> Passes(c, st, k)
    ensures VerifyInOrder(c, st, order).Success? ==> VerifyInOrder(c, st, order).value == map[]
  {
    if order != [] {
      InFront(st, order);
      var front, last := order[..|order| - 1], order[|order| - 1];
      PassesWithoutBlobs(c, st, front);
      ClassifiedExactly(c, st, last);
      NoPart(c, st, last);
    }
  }

  // ---------------------------------------------------------------- stores with blob parts

  lemma PutsExactly(c: Coding, st: Store, k: B256, commitment: Bytes, slot: nat, v: Bytes)
    ensures Puts(c, st, k, commitment, slot, v) <==>
            && IsPart(st, k)
            && HasSlot(st[PartKey(k)])
            && Index(st[PartKey(k)]) % 0x800_0000 == slot
            && Commitment(st[PartKey(k)]) == commitment
            && st[k] == v
  {
    if IsPart(st, k) {
      PartClassified(c, st, k);
      SlotOfExactly(Index(st[PartKey(k)]));
    } else if k in st {
      NoPart(c, st, k);
    }
  }

  lemma ProvesExactly(c: Coding, st: Store, k: B256, commitment: Bytes, v: Bytes)
    ensures Proves(c, st, k, commitment, v) <==>
            && IsPart(st, k) && IsProof(st[PartKey(k)]) && Commitment(st[PartKey(k)]) == commitment && st[k] == v
  {
    if IsPart(st, k) {
      PartClassified(c, st, k);
    } else if k in st {
      NoPart(c, st, k);
    }
  }

  /** Two parts go to one place of one blob. */
  ghost predicate SamePlace(st: Store, j: B256, k: B256)
    requires IsPart(st, j) && IsPart(st, k)
  {
    var a, b := st[PartKey(j)], st[PartKey(k)];
    && Commitment(a) == Commitment(b)
    && ((IsProof(a) && IsProof(b))
        || (HasSlot(a) && HasSlot(b) && Index(a) % 0x800_0000 == Index(b) % 0x800_0000))
  }

  ghost predicate RightSize(st: Store, k: B256)
    requires IsPart(st, k)
  {
    && (IsProof(st[PartKey(k)]) ==> |st[k]| == 48)
    && (HasSlot(st[PartKey(k)]) ==> |st[k]| == 32)
  }

  /** Two parts of one place may differ only where one of them is a zero element. */
  ghost predicate Agree(st: Store, j: B256, k: B256)
    requires IsPart(st, j) && IsPart(st, k)
  {
    st[j] == st[k] || (HasSlot(st[PartKey(j)]) && (st[j] == Zeros(32) || st[k] == Zeros(32)))
  }

  ghost predicate GoodStore(c: Coding, st: Store) {
    && (forall k :: k in st ==> Passes(c, st, k))
    && (forall k :: IsPart(st, k) ==> RightSize(st, k))
    && (forall j, k :: IsPart(st, j) && IsPart(st, k) && SamePlace(st, j, k) ==> Agree(st, j, k))
  }

  lemma GoodIsConsistent(c: Coding, st: Store)
    requires GoodStore(c, st)
    ensures Consistent(c, st)
  {
    forall k | k in st ensures Classify(c, st, k).Success? {
      ClassifiedExactly(c, st, k);
    }
    forall k, commitment, v | Proves(c, st, k, commitment, v) ensures |v| == PROOF_SIZE {
      ProvesExactly(c, st, k, commitment, v);
    }
    forall k, commitment, slot, v | Puts(c, st, k, commitment, slot, v) ensures |v| == ELEMENT_SIZE {
      PutsExactly(c, st, k, commitment, slot, v);
    }
    forall j, k, commitment, v, v' | Proves(c, st, j, commitment, v) && Proves(c, st, k, commitment, v')
      ensures v == v'
    {
      ProvesExactly(c, st, j, commitment, v);
      ProvesExactly(c, st, k, commitment, v');
      assert SamePlace(st, j, k);
    }
    forall j, k, commitment, slot, v, v' |
      Puts(c, st, j, commitment, slot, v) && Puts(c, st, k, commitment, slot, v')
      && v != Zeros(ELEMENT_SIZE) && v' != Zeros(ELEMENT_SIZE)
      ensures v == v'
    {
      PutsExactly(c, st, j, commitment, slot, v);
      PutsExactly(c, st, k, commitment, slot, v');
      assert SamePlace(st, j, k);
    }
  }

  lemma ConsistentIsGood(c: Coding, st: Store)
    requires Consistent(c, st)
    ensures GoodStore(c, st)
  {
    forall k | k in st ensures Passes(c, st, k) {
      ClassifiedExactly(c, st, k);
    }
    forall k | IsPart(st, k) ensures RightSize(st, k) {
      var part := st[PartKey(k)];
      ProvesExactly(c, st, k, Commitment(part), st[k]);
      PutsExactly(c, st, k, Commitment(part), Index(part) % 0x800_0000, st[k]);
    }
    forall j, k | IsPart(st, j) && IsPart(st, k) && SamePlace(st, j, k) ensures Agree(st, j, k) {
      var a, b := st[PartKey(j)], st[PartKey(k)];
      ProvesExactly(c, st, j, Commitment(a), st[j]);
      ProvesExactly(c, st, k, Commitment(a), st[k]);
      PutsExactly(c, st, j, Commitment(a), Index(a) % 0x800_0000, st[j]);
      PutsExactly(c, st, k, Commitment(a), Index(a) % 0x800_0000, st[k]);
    }
  }

  /** Every iteration order accepts the store with the same blobs exactly when each entry passes by itself,
      each part has its size, and parts of one place agree unless one is a zero element. */
  lemma EveryOrderAcceptsExactly(c: Coding, st: Store)
    ensures OrderFree(c, st) <==> GoodStore(c, st)
  {
    OrderFreeExactly(c, st);
    if GoodStore(c, st) {
      GoodIsConsistent(c, st);
    }
    if Consistent(c, st) {
      ConsistentIsGood(c, st);
    }
  }

  ghost predicate DistinctPlaces(st: Store) {
    forall j, k :: IsPart(st, j) && IsPart(st, k) && SamePlace(st, j, k) ==> j == k
  }

  lemma DistinctPlacesAreParts(c: Coding, st: Store)
    requires DistinctPlaces(st)
    ensures DistinctParts(c, st)
  {
    forall j, k, commitment, slot, v, v' | Puts(c, st, j, commitment, slot, v) && Puts(c, st, k, commitment, slot, v')
      ensures j == k
    {
      PutsExactly(c, st, j, commitment, slot, v);
      PutsExactly(c, st, k, commitment, slot, v');
      assert SamePlace(st, j, k);
    }
    forall j, k, commitment, v, v' | Proves(c, st, j, commitment, v) && Proves(c, st, k, commitment, v')
      ensures j == k
    {
      ProvesExactly(c, st, j, commitment, v);
      ProvesExactly(c, st, k, commitment, v');
      assert SamePlace(st, j, k);
    }
  }

  /** In a store that passes, whose parts all have places of their own, every part is in its blob: an
      element's value in its slot, the proof as the proof; and every order gives that blob. */
  lemma PartsAreGathered(c: Coding, st: Store, order: seq<B256>, k: B256)
    requires IterationOf(st, order) && VerifyInOrder(c, st, order).Success? && DistinctPlaces(st) && IsPart(st, k)
    ensures OrderFree(c, st)
    ensures var part, blobs := st[PartKey(k)], VerifyInOrder(c, st, order).value;
            && Commitment(part) in blobs
            && (IsProof(part) ==> blobs[Commitment(part)].kzgProof == st[k])
            && (HasSlot(part) ==> Slot(blobs[Commitment(part)].data, Index(part) % 0x800_0000) == st[k])
  {
    var part := st[PartKey(k)];
    DistinctPlacesAreParts(c, st);
    DistinctPartsOrderFree(c, st, order);
    PartClassified(c, st, k);
    assert Mentions(c, st, k, Commitment(part));
    PassOrigins(c, st, order, Commitment(part));
    if IsProof(part) {
      ProvesExactly(c, st, k, Commitment(part), st[k]);
    } else if HasSlot(part) {
      PutsExactly(c, st, k, Commitment(part), Index(part) % 0x800_0000, st[k]);
      SlotContents(c, st, order, k, Commitment(part), Index(part) % 0x800_0000, st[k]);
    }
  }

  /** A slot that no part has is zero. */
  lemma OtherSlotsAreZero(c: Coding, st: Store, order: seq<B256>, commitment: Bytes, slot: nat)
    requires IterationOf(st, order) && VerifyInOrder(c, st, order).Success? && slot < SLOTS
    requires forall k :: IsPart(st, k) && Commitment(st[PartKey(k)]) == commitment && HasSlot(st[PartKey(k)]) ==>
               Index(st[PartKey(k)]) % 0x800_0000 != slot
    ensures SlotAt(VerifyInOrder(c, st, order).value, commitment, slot) == Zeros(32)
  {
    forall k, v | k in order ensures !Puts(c, st, k, commitment, slot, v) {
      PutsExactly(c, st, k, commitment, slot, v);
    }
    UnnamedSlotIsZero(c, st, order, commitment, slot);
  }
}
