/** Exactly when the blobs that `verify` gathers do not depend on the order in which its hash map is
    iterated. */
module BlobAssembly {
  import opened Wrappers
  import opened Words
  import opened PreimageStore

  /** Entry `k` carries `value` for slot `slot` of the blob with this commitment. */
  ghost predicate Puts(c: Coding, st: Store, k: B256, commitment: Bytes, slot: nat, value: Bytes) {
    k in st &&
    match Classify(c, st, k)
    case Success(ElementOf(named, element, v)) => named == commitment && v == value && SlotOf(element) == Some(slot)
    case _ => false
  }

  /** Entry `k` carries `value` as the KZG proof of the blob with this commitment. */
  ghost predicate Proves(c: Coding, st: Store, k: B256, commitment: Bytes, value: Bytes) {
    k in st && Classify(c, st, k) == Success(ProofOf(commitment, value))
  }

  ghost predicate Mentions(c: Coding, st: Store, k: B256, commitment: Bytes) {
    k in st &&
    match Classify(c, st, k)
    case Success(ElementOf(named, _, _)) => named == commitment
    case Success(ProofOf(named, _)) => named == commitment
    case _ => false
  }

  ghost predicate AllClassified(c: Coding, st: Store) {
    forall k :: k in st ==> Classify(c, st, k).Success?
  }

  ghost predicate SizesRight(c: Coding, st: Store) {
    && (forall k, commitment, value :: Proves(c, st, k, commitment, value) ==> |value| == PROOF_SIZE)
    && (forall k, commitment, slot, value :: Puts(c, st, k, commitment, slot, value) ==> |value| == ELEMENT_SIZE)
  }

  ghost predicate OneProofEach(c: Coding, st: Store) {
    forall k, k', commitment, v, v' ::
      Proves(c, st, k, commitment, v) && Proves(c, st, k', commitment, v') ==> v == v'
  }

  ghost predicate OneValueEach(c: Coding, st: Store) {
    forall k, k', commitment, slot, v, v' ::
      (Puts(c, st, k, commitment, slot, v) && Puts(c, st, k', commitment, slot, v')
       && v != Zeros(ELEMENT_SIZE) && v' != Zeros(ELEMENT_SIZE)) ==> v == v'
  }

  /** Every entry checks, every part has its size, and parts of one place agree unless zero. */
  ghost predicate Consistent(c: Coding, st: Store) {
    AllClassified(c, st) && SizesRight(c, st) && OneProofEach(c, st) && OneValueEach(c, st)
  }

  // ---------------------------------------------------------------- one entry

  function SlotAt(blobs: Blobs, commitment: Bytes, slot: nat): Bytes
    requires slot < SLOTS
  {
    Slot(BlobAt(blobs, commitment).data, slot)
  }

  lemma EmptySlots(slot: nat)
    requires slot < SLOTS
    ensures Slot(Zeros(BLOB_SIZE), slot) == Zeros(ELEMENT_SIZE)
  {
  }

  lemma VisitEffect(c: Coding, st: Store, k: B256, blobs: Blobs, commitment: Bytes)
    requires k in st && Visit(c, st, k, blobs).Success?
    ensures var after := Visit(c, st, k, blobs).value;
            && (commitment in after <==> commitment in blobs || Mentions(c, st, k, commitment))
            && (Proves(c, st, k, commitment, BlobAt(after, commitment).kzgProof)
                || (BlobAt(after, commitment).kzgProof == BlobAt(blobs, commitment).kzgProof
                    && forall v :: !Proves(c, st, k, commitment, v)))
  {
  }

  /** A slot keeps a nonzero value, and a zero slot takes what the entry puts there. */
  lemma VisitSlotEffect(c: Coding, st: Store, k: B256, blobs: Blobs, commitment: Bytes, slot: nat)
    requires k in st && Visit(c, st, k, blobs).Success? && slot < SLOTS
    ensures var before := SlotAt(blobs, commitment, slot);
            var after := SlotAt(Visit(c, st, k, blobs).value, commitment, slot);
            if before != Zeros(ELEMENT_SIZE) then after == before
            else Puts(c, st, k, commitment, slot, after)
                 || (after == before && forall v :: !Puts(c, st, k, commitment, slot, v))
  {
  }

  // ---------------------------------------------------------------- a whole pass

  ghost predicate In(st: Store, order: seq<B256>) {
    forall k :: k in order ==> k in st
  }

  lemma InFront(st: Store, order: seq<B256>)
    requires In(st, order) && order != []
    ensures In(st, order[..|order| - 1]) && order[|order| - 1] in st
    ensures forall k :: k in order <==> k in order[..|order| - 1] || k == order[|order| - 1]
  {
    assert order == order[..|order| - 1] + [order[|order| - 1]];
  }

  /** The blobs are those that entries mention; each proof is the one of some entry, or zero. */
  lemma {:induction false} PassOrigins(c: Coding, st: Store, order: seq<B256>, commitment: Bytes)
    requires In(st, order) && VerifyInOrder(c, st, order).Success?
    ensures var blobs := VerifyInOrder(c, st, order).value;
            && (commitment in blobs <==> exists k :: k in order && Mentions(c, st, k, commitment))
            && ((exists k :: k in order && Proves(c, st, k, commitment, BlobAt(blobs, commitment).kzgProof))
                || (BlobAt(blobs, commitment).kzgProof == Zeros(PROOF_SIZE)
                    && forall k, v :: k in order ==> !Proves(c, st, k, commitment, v)))
  {
    if order != [] {
      InFront(st, order);
      var front, last := order[..|order| - 1], order[|order| - 1];
      PassOrigins(c, st, front, commitment);
      VisitEffect(c, st, last, VerifyInOrder(c, st, front).value, commitment);
    }
  }

  /** A slot is nonzero exactly when some entry puts a nonzero value there, and then it holds one. */
  lemma {:induction false} SlotOrigin(c: Coding, st: Store, order: seq<B256>, commitment: Bytes, slot: nat)
    requires In(st, order) && VerifyInOrder(c, st, order).Success? && slot < SLOTS
    ensures var v := SlotAt(VerifyInOrder(c, st, order).value, commitment, slot);
            if v != Zeros(ELEMENT_SIZE) then exists k :: k in order && Puts(c, st, k, commitment, slot, v)
            else forall k, w :: k in order && Puts(c, st, k, commitment, slot, w) ==> w == Zeros(ELEMENT_SIZE)
  {
    if order == [] {
      EmptySlots(slot);
    } else {
      InFront(st, order);
      var front, last := order[..|order| - 1], order[|order| - 1];
      SlotOrigin(c, st, front, commitment, slot);
      VisitSlotEffect(c, st, last, VerifyInOrder(c, st, front).value, commitment, slot);
    }
  }

  /** Two passes over a consistent store, in any orders, build the same blobs. */
  lemma PassesAgree(c: Coding, st: Store, a: seq<B256>, b: seq<B256>)
    requires Consistent(c, st) && IterationOf(st, a) && IterationOf(st, b)
    requires VerifyInOrder(c, st, a).Success? && VerifyInOrder(c, st, b).Success?
    ensures VerifyInOrder(c, st, a) == VerifyInOrder(c, st, b)
  {
    var x, y := VerifyInOrder(c, st, a).value, VerifyInOrder(c, st, b).value;
    forall commitment: Bytes ensures commitment in x <==> commitment in y {
      PassOrigins(c, st, a, commitment);
      PassOrigins(c, st, b, commitment);
    }
    forall commitment | commitment in x ensures x[commitment] == y[commitment] {
      SameProof(c, st, a, b, commitment);
      forall slot | 0 <= slot < SLOTS ensures Slot(x[commitment].data, slot) == Slot(y[commitment].data, slot) {
        SameSlot(c, st, a, b, commitment, slot);
      }
      SlotsDetermineData(x[commitment].data, y[commitment].data);
    }
    assert x == y;
  }

  lemma SameProof(c: Coding, st: Store, a: seq<B256>, b: seq<B256>, commitment: Bytes)
    requires OneProofEach(c, st) && IterationOf(st, a) && IterationOf(st, b)
    requires VerifyInOrder(c, st, a).Success? && VerifyInOrder(c, st, b).Success?
    ensures BlobAt(VerifyInOrder(c, st, a).value, commitment).kzgProof
            == BlobAt(VerifyInOrder(c, st, b).value, commitment).kzgProof
  {
    PassOrigins(c, st, a, commitment);
    PassOrigins(c, st, b, commitment);
  }

  lemma SameSlot(c: Coding, st: Store, a: seq<B256>, b: seq<B256>, commitment: Bytes, slot: nat)
    requires OneValueEach(c, st) && IterationOf(st, a) && IterationOf(st, b) && slot < SLOTS
    requires VerifyInOrder(c, st, a).Success? && VerifyInOrder(c, st, b).Success?
    ensures SlotAt(VerifyInOrder(c, st, a).value, commitment, slot)
            == SlotAt(VerifyInOrder(c, st, b).value, commitment, slot)
  {
    SlotOrigin(c, st, a, commitment, slot);
    SlotOrigin(c, st, b, commitment, slot);
  }

  lemma {:induction false} ConsistentPasses(c: Coding, st: Store, order: seq<B256>)
    requires AllClassified(c, st) && SizesRight(c, st) && In(st, order)
    ensures VerifyInOrder(c, st, order).Success?
  {
    if order != [] {
      InFront(st, order);
      var front, last := order[..|order| - 1], order[|order| - 1];
      ConsistentPasses(c, st, front);
      match Classify(c, st, last) {
        case Success(ProofOf(commitment, v)) =>
          assert Proves(c, st, last, commitment, v);
        case Success(ElementOf(commitment, element, v)) =>
          if SlotOf(element).Some? {
            assert Puts(c, st, last, commitment, SlotOf(element).value, v);
          }
        case _ =>
      }
    }
  }

  // ---------------------------------------------------------------- orders that tell

  lemma {:induction false} Enumerate(s: set<B256>) returns (order: seq<B256>)
    ensures forall k :: k in order <==> k in s
    ensures forall i, j :: 0 <= i < j < |order| ==> order[i] != order[j]
  {
    if s == {} {
      order := [];
    } else {
      var k :| k in s;
      var rest := Enumerate(s - {k});
      order := rest + [k];
    }
  }

  lemma OrderStartingAt(st: Store, k: B256) returns (order: seq<B256>)
    requires k in st
    ensures IterationOf(st, order) && order != [] && order[0] == k
  {
    var rest := Enumerate(st.Keys - {k});
    order := [k] + rest;
  }

  lemma OrderEndingAt(st: Store, k: B256) returns (order: seq<B256>)
    requires k in st
    ensures IterationOf(st, order) && order != [] && order[|order| - 1] == k
  {
    var rest := Enumerate(st.Keys - {k});
    order := rest + [k];
  }

  /** What a slot holds after part of a pass, if nonzero, it holds at the end. */
  lemma {:induction false} SlotKept(c: Coding, st: Store, order: seq<B256>, n: nat, commitment: Bytes, slot: nat)
    requires In(st, order) && VerifyInOrder(c, st, order).Success? && n <= |order| && slot < SLOTS
    ensures In(st, order[..n]) && VerifyInOrder(c, st, order[..n]).Success?
    ensures var v := SlotAt(VerifyInOrder(c, st, order[..n]).value, commitment, slot);
            v != Zeros(ELEMENT_SIZE) ==> SlotAt(VerifyInOrder(c, st, order).value, commitment, slot) == v
    decreases |order|
  {
    if n == |order| {
      assert order[..n] == order;
    } else {
      InFront(st, order);
      var front, last := order[..|order| - 1], order[|order| - 1];
      assert order[..n] == front[..n];
      SlotKept(c, st, front, n, commitment, slot);
      VisitSlotEffect(c, st, last, VerifyInOrder(c, st, front).value, commitment, slot);
    }
  }

  /** In a pass that visits `k` first, the part that `k` carries has its size and is kept. */
  lemma FirstPartWins(c: Coding, st: Store, order: seq<B256>, commitment: Bytes, slot: nat, v: Bytes)
    requires In(st, order) && order != [] && VerifyInOrder(c, st, order).Success?
    requires Puts(c, st, order[0], commitment, slot, v)
    ensures |v| == ELEMENT_SIZE && slot < SLOTS
    ensures v != Zeros(ELEMENT_SIZE) ==> SlotAt(VerifyInOrder(c, st, order).value, commitment, slot) == v
  {
    SlotKept(c, st, order, 1, commitment, slot);
    assert order[..1] == [order[0]] && order[..1][..0] == [];
    EmptySlots(slot);
    assert VerifyInOrder(c, st, order[..1]) == Visit(c, st, order[0], map[]);
    VisitSlotEffect(c, st, order[0], map[], commitment, slot);
  }

  /** In a pass that visits `k` last, the proof that `k` carries has its size and is the result. */
  lemma LastProofWins(c: Coding, st: Store, order: seq<B256>, commitment: Bytes, v: Bytes)
    requires In(st, order) && order != [] && VerifyInOrder(c, st, order).Success?
    requires Proves(c, st, order[|order| - 1], commitment, v)
    ensures |v| == PROOF_SIZE && BlobAt(VerifyInOrder(c, st, order).value, commitment).kzgProof == v
  {
    InFront(st, order);
  }

  ghost predicate OrderFree(c: Coding, st: Store) {
    forall a, b :: IterationOf(st, a) && IterationOf(st, b) ==>
      VerifyInOrder(c, st, a).Success? && VerifyInOrder(c, st, a) == VerifyInOrder(c, st, b)
  }

  lemma OrderFreeClassifies(c: Coding, st: Store)
    requires OrderFree(c, st)
    ensures AllClassified(c, st)
  {
    forall k | k in st ensures Classify(c, st, k).Success? {
      var order := OrderStartingAt(st, k);
      PassChecksEntries(c, st, order);
    }
  }

  lemma OrderFreeSizes(c: Coding, st: Store)
    requires OrderFree(c, st)
    ensures SizesRight(c, st)
  {
    forall k, commitment, v | Proves(c, st, k, commitment, v) ensures |v| == PROOF_SIZE {
      var order := OrderEndingAt(st, k);
      LastProofWins(c, st, order, commitment, v);
    }
    forall k, commitment, slot, v | Puts(c, st, k, commitment, slot, v) ensures |v| == ELEMENT_SIZE {
      var order := OrderStartingAt(st, k);
      FirstPartWins(c, st, order, commitment, slot, v);
    }
  }

  lemma OrderFreeValues(c: Coding, st: Store)
    requires OrderFree(c, st)
    ensures OneProofEach(c, st) && OneValueEach(c, st)
  {
    forall k, k', commitment, v, v' | Proves(c, st, k, commitment, v) && Proves(c, st, k', commitment, v')
      ensures v == v'
    {
      var a := OrderEndingAt(st, k);
      var b := OrderEndingAt(st, k');
      LastProofWins(c, st, a, commitment, v);
      LastProofWins(c, st, b, commitment, v');
    }
    forall k, k', commitment, slot, v, v' |
      Puts(c, st, k, commitment, slot, v) && Puts(c, st, k', commitment, slot, v')
      && v != Zeros(ELEMENT_SIZE) && v' != Zeros(ELEMENT_SIZE)
      ensures v == v'
    {
      var a := OrderStartingAt(st, k);
      var b := OrderStartingAt(st, k');
      FirstPartWins(c, st, a, commitment, slot, v);
      FirstPartWins(c, st, b, commitment, slot, v');
    }
  }

  /** Every iteration order succeeds and builds the same blobs exactly when the store is consistent. */
  lemma OrderFreeExactly(c: Coding, st: Store)
    ensures OrderFree(c, st) <==> Consistent(c, st)
  {
    if OrderFree(c, st) {
      OrderFreeClassifies(c, st);
      OrderFreeSizes(c, st);
      OrderFreeValues(c, st);
    }
    if Consistent(c, st) {
      forall a, b | IterationOf(st, a) && IterationOf(st, b)
        ensures VerifyInOrder(c, st, a).Success? && VerifyInOrder(c, st, a) == VerifyInOrder(c, st, b)
      {
        ConsistentPasses(c, st, a);
        ConsistentPasses(c, st, b);
        PassesAgree(c, st, a, b);
      }
    }
  }

  // ---------------------------------------------------------------- stores without duplicates

  ghost predicate DistinctParts(c: Coding, st: Store) {
    && (forall k, k', commitment, slot, v, v' ::
          Puts(c, st, k, commitment, slot, v) && Puts(c, st, k', commitment, slot, v') ==> k == k')
    && (forall k, k', commitment, v, v' ::
          Proves(c, st, k, commitment, v) && Proves(c, st, k', commitment, v') ==> k == k')
  }

  /** A slot that no visited entry names is still zero. */
  lemma UnnamedSlotIsZero(c: Coding, st: Store, order: seq<B256>, commitment: Bytes, slot: nat)
    requires In(st, order) && VerifyInOrder(c, st, order).Success? && slot < SLOTS
    requires forall k, v :: k in order ==> !Puts(c, st, k, commitment, slot, v)
    ensures SlotAt(VerifyInOrder(c, st, order).value, commitment, slot) == Zeros(ELEMENT_SIZE)
  {
    SlotOrigin(c, st, order, commitment, slot);
  }

  /** When the entries of a passing order name distinct places, each slot holds its entry's value. */
  lemma {:induction false} SlotContents(
    c: Coding, st: Store, order: seq<B256>, k: B256, commitment: Bytes, slot: nat, v: Bytes)
    requires In(st, order) && DistinctParts(c, st) && VerifyInOrder(c, st, order).Success?
    requires forall i, j :: 0 <= i < j < |order| ==> order[i] != order[j]
    requires k in order && Puts(c, st, k, commitment, slot, v)
    ensures slot < SLOTS && |v| == ELEMENT_SIZE
    ensures SlotAt(VerifyInOrder(c, st, order).value, commitment, slot) == v
  {
    InFront(st, order);
    var front, last := order[..|order| - 1], order[|order| - 1];
    if last == k {
      forall k', w | k' in front ensures !Puts(c, st, k', commitment, slot, w) {
      }
      UnnamedSlotIsZero(c, st, front, commitment, slot);
      VisitSlotEffect(c, st, last, VerifyInOrder(c, st, front).value, commitment, slot);
    } else {
      SlotContents(c, st, front, k, commitment, slot, v);
      VisitSlotEffect(c, st, last, VerifyInOrder(c, st, front).value, commitment, slot);
    }
  }

  lemma {:induction false} ProofSizes(c: Coding, st: Store, order: seq<B256>, k: B256, commitment: Bytes, v: Bytes)
    requires In(st, order) && VerifyInOrder(c, st, order).Success?
    requires k in order && Proves(c, st, k, commitment, v)
    ensures |v| == PROOF_SIZE
  {
    InFront(st, order);
    if order[|order| - 1] != k {
      ProofSizes(c, st, order[..|order| - 1], k, commitment, v);
    }
  }

  /** Without duplicates one passing order settles the matter for all orders. */
  lemma DistinctPartsOrderFree(c: Coding, st: Store, order: seq<B256>)
    requires IterationOf(st, order) && DistinctParts(c, st) && VerifyInOrder(c, st, order).Success?
    ensures OrderFree(c, st)
  {
    PassChecksEntries(c, st, order);
    forall k, commitment, v | Proves(c, st, k, commitment, v) ensures |v| == PROOF_SIZE {
      ProofSizes(c, st, order, k, commitment, v);
    }
    forall k, commitment, slot, v | Puts(c, st, k, commitment, slot, v) ensures |v| == ELEMENT_SIZE {
      SlotContents(c, st, order, k, commitment, slot, v);
    }
    OrderFreeExactly(c, st);
  }
}
