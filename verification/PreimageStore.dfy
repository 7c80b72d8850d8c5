/** The zkVM's preimage oracle (`oracle/mod.rs`): a key-value store, the one pass that verifies it,
    and what a passed verification is worth. Hash functions and header coding are fields of `World`;
    no theorem assumes that a hash is injective, only that no two members of a given finite set of
    byte strings collide on the 31 bytes that a key keeps. */
module PreimageStore {
  import opened Wrappers
  import opened Words

  datatype Header = Header(
    number: uint64,
    parentHash: B256,
    stateRoot: B256,
    transactionsRoot: B256,
    timestamp: uint64,
    otherFields: Bytes)

  datatype Coding = Coding(
    keccak: Bytes -> B256,
    sha256: Bytes -> B256,
    encodeHeader: Header -> Bytes,
    decodeHeader: Bytes -> Option<Header>)

  datatype KeyType = Local | Keccak256 | GlobalGeneric | Sha256 | Blob | Precompile

  type Store = map<B256, Bytes>

  /** First byte of a key by type (OP Stack fault proof specification, "Pre-image key types"). */
  function Tag(t: KeyType): Byte {
    match t
    case Local => 1
    case Keccak256 => 2
    case GlobalGeneric => 3
    case Sha256 => 4
    case Blob => 5
    case Precompile => 6
  }

  function TypeOf(key: B256): Option<KeyType> {
    match key[0]
    case 1 => Some(Local)
    case 2 => Some(Keccak256)
    case 3 => Some(GlobalGeneric)
    case 4 => Some(Sha256)
    case 5 => Some(Blob)
    case 6 => Some(Precompile)
    case _ => None
  }

  /** `PreimageKey::new(hash, t)` as bytes: the tag replaces the first byte of the hash. */
  function Key(hash: B256, t: KeyType): (key: B256)
    ensures TypeOf(key) == Some(t)
  {
    [Tag(t)] + hash[1..]
  }

  function HeaderHash(c: Coding, h: Header): B256 {
    c.keccak(c.encodeHeader(h))
  }

  ghost predicate Collide(hash: Bytes -> B256, x: Bytes, y: Bytes) {
    x != y && hash(x)[1..] == hash(y)[1..]
  }

  /** No two byte strings of `s` have hashes that agree on the 31 bytes of a key. */
  ghost predicate CollisionFree(hash: Bytes -> B256, s: set<Bytes>) {
    forall x, y {:trigger Collide(hash, x, y)} :: x in s && y in s ==> !Collide(hash, x, y)
  }

  // ---------------------------------------------------------------- verification

  const BLOB_SIZE: nat := 4096
  const ELEMENT_SIZE: nat := 32
  const SLOTS: nat := BLOB_SIZE / ELEMENT_SIZE
  const PROOF_SIZE: nat := 48
  const PROOF_ELEMENT: nat := 4096
  const BLOB_KEY_SIZE: nat := 80

  /** One more than the largest `usize` of the 32-bit zkVM, where casts and shifts wrap. */
  const USIZE: nat := 0x1_0000_0000

  /** The period of an element index under the wrapping shift. */
  const ELEMENT_WRAP: nat := 0x800_0000

  datatype VerifyError =
    | UnknownKeyType | KeccakMismatch | Sha256Mismatch | Unimplemented
    | BlobDataNotFound | BadBlobData | BadElementLength | BadProofLength

  function Zeros(n: nat): (z: Bytes)
    ensures |z| == n && forall i :: 0 <= i < n ==> z[i] == 0
  {
    seq(n, (i: nat) => 0 as Byte)
  }

  type BlobBytes = b: Bytes | |b| == BLOB_SIZE witness Zeros(BLOB_SIZE)

  datatype BlobData = BlobData(data: BlobBytes, kzgProof: Bytes)

  type Blobs = map<Bytes, BlobData>

  /** What `verify` makes of one store entry: nothing more to do, or a part of a blob. */
  datatype Entry =
    | Checked
    | ProofOf(commitment: Bytes, value: Bytes)
    | ElementOf(commitment: Bytes, element: uint64, value: Bytes)

  function Classify(c: Coding, st: Store, key: B256): Result<Entry, VerifyError>
    requires key in st
  {
    match TypeOf(key)
    case None => Failure(UnknownKeyType)
    case Some(Local) => Success(Checked)
    case Some(Keccak256) =>
      if Key(c.keccak(st[key]), Keccak256) == key then Success(Checked) else Failure(KeccakMismatch)
    case Some(Sha256) =>
      if Key(c.sha256(st[key]), Sha256) == key then Success(Checked) else Failure(Sha256Mismatch)
    case Some(GlobalGeneric) => Failure(Unimplemented)
    case Some(Precompile) => Failure(Unimplemented)
    case Some(Blob) => ClassifyBlob(st, Key(key, Keccak256), st[key])
  }

  function ClassifyBlob(st: Store, dataKey: B256, value: Bytes): Result<Entry, VerifyError> {
    if dataKey !in st then Failure(BlobDataNotFound)
    else
      :- Need(|st[dataKey]| == BLOB_KEY_SIZE, BadBlobData);
      FromBigEndianBound(st[dataKey][72..]);
      Pow256Values();
      var commitment, element := st[dataKey][..48], FromBigEndian(st[dataKey][72..]);
      Success(if element == PROOF_ELEMENT then ProofOf(commitment, value) else ElementOf(commitment, element, value))
  }

  /** `n << 5` on a 32-bit `usize`. */
  function Shl5(n: nat): (r: nat)
    ensures r < USIZE
  {
    n * ELEMENT_SIZE % USIZE
  }

  /** The slot that `get_mut(e << 5 .. (e + 1) << 5)` selects, if the range lies in the buffer. */
  function SlotOf(element: uint64): (slot: Option<nat>)
    ensures slot.Some? ==> slot.value < SLOTS
  {
    var e := element % USIZE;
    var first, past := Shl5(e), Shl5((e + 1) % USIZE);
    if first < past <= BLOB_SIZE then Some(first / ELEMENT_SIZE) else None
  }

  lemma Shl5Value(wraps: nat, rest: nat)
    requires rest < ELEMENT_WRAP
    ensures Shl5(wraps * ELEMENT_WRAP + rest) == rest * ELEMENT_SIZE
  {
    Remainder((wraps * ELEMENT_WRAP + rest) * ELEMENT_SIZE, USIZE, wraps, rest * ELEMENT_SIZE);
  }

  /** The slot of an index by its truncation to `usize`, written in periods of 2^27. */
  lemma SlotOfPeriod(element: uint64, wraps: nat, rest: nat)
    requires element % USIZE == wraps * ELEMENT_WRAP + rest && rest < ELEMENT_WRAP
    ensures SlotOf(element) == if rest < SLOTS then Some(rest) else None
  {
    Shl5Value(wraps, rest);
    if rest + 1 < ELEMENT_WRAP {
      Shl5Value(wraps, rest + 1);
    } else if element % USIZE + 1 < USIZE {
      Shl5Value(wraps + 1, 0);
    }
  }

  /** Indices repeat every 2^27; the first 128 of each period are the slots of the buffer in order, and
      the rest select none. */
  lemma SlotOfExactly(element: uint64)
    ensures SlotOf(element) == if element % ELEMENT_WRAP < SLOTS then Some(element % ELEMENT_WRAP) else None
  {
    var wraps, rest := element % USIZE / ELEMENT_WRAP, element % USIZE % ELEMENT_WRAP;
    SlotOfPeriod(element, wraps, rest);
    Remainder(element, ELEMENT_WRAP, element / USIZE * ELEMENT_SIZE + wraps, rest);
  }

  function Slot(data: BlobBytes, slot: nat): (v: Bytes)
    requires slot < SLOTS
    ensures |v| == ELEMENT_SIZE
  {
    data[slot * ELEMENT_SIZE..(slot + 1) * ELEMENT_SIZE]
  }

  function WriteSlot(data: BlobBytes, slot: nat, v: Bytes): (r: BlobBytes)
    requires slot < SLOTS && |v| == ELEMENT_SIZE
    ensures Slot(r, slot) == v
    ensures forall other :: 0 <= other < SLOTS && other != slot ==> Slot(r, other) == Slot(data, other)
  {
    var r := data[..slot * ELEMENT_SIZE] + v + data[(slot + 1) * ELEMENT_SIZE..];
    assert Slot(r, slot) == v;
    assert forall other :: 0 <= other < SLOTS && other != slot ==> Slot(r, other) == Slot(data, other) by {
      forall other | 0 <= other < SLOTS && other != slot ensures Slot(r, other) == Slot(data, other) {
        assert forall i :: 0 <= i < ELEMENT_SIZE ==> Slot(r, other)[i] == Slot(data, other)[i];
      }
    }
    r
  }

  lemma SlotsDetermineData(a: BlobBytes, b: BlobBytes)
    requires forall slot :: 0 <= slot < SLOTS ==> Slot(a, slot) == Slot(b, slot)
    ensures a == b
  {
    forall i | 0 <= i < BLOB_SIZE ensures a[i] == b[i] {
      var slot, at := i / ELEMENT_SIZE, i % ELEMENT_SIZE;
      assert a[i] == Slot(a, slot)[at] && b[i] == Slot(b, slot)[at];
    }
  }

  /** The blob that `entry(commitment).or_default()` yields. */
  function BlobAt(blobs: Blobs, commitment: Bytes): BlobData {
    if commitment in blobs then blobs[commitment] else BlobData(Zeros(BLOB_SIZE), Zeros(PROOF_SIZE))
  }

  /** Records a blob part. A slot that already holds a nonzero value is silently left alone: the
      error that the source builds for it is never looked at, nor then is the value's length. */
  function Record(blobs: Blobs, e: Entry): Result<Blobs, VerifyError> {
    match e
    case Checked => Success(blobs)
    case ProofOf(commitment, value) =>
      :- Need(|value| == PROOF_SIZE, BadProofLength);
      Success(blobs[commitment := BlobAt(blobs, commitment).(kzgProof := value)])
    case ElementOf(commitment, element, value) =>
      var blob := BlobAt(blobs, commitment);
      match SlotOf(element) {
        case None => Success(blobs[commitment := blob])
        case Some(slot) =>
          if Slot(blob.data, slot) != Zeros(ELEMENT_SIZE) then Success(blobs[commitment := blob])
          else
            :- Need(|value| == ELEMENT_SIZE, BadElementLength);
            Success(blobs[commitment := blob.(data := WriteSlot(blob.data, slot, value))])
      }
  }

  function Visit(c: Coding, st: Store, key: B256, blobs: Blobs): Result<Blobs, VerifyError>
    requires key in st
  {
    var entry :- Classify(c, st, key);
    Record(blobs, entry)
  }

  /** The pass over the store in a given order. */
  function VerifyInOrder(c: Coding, st: Store, order: seq<B256>): Result<Blobs, VerifyError>
    requires forall k :: k in order ==> k in st
  {
    if order == [] then Success(map[])
    else
      var last := |order| - 1;
      assert order[last] in order && forall k :: k in order[..last] ==> k in order;
      var blobs :- VerifyInOrder(c, st, order[..last]);
      Visit(c, st, order[last], blobs)
  }

  /** A hash map may be iterated in any order of its keys, each once. */
  ghost predicate IterationOf(st: Store, order: seq<B256>) {
    && (forall k :: k in order <==> k in st)
    && (forall i, j :: 0 <= i < j < |order| ==> order[i] != order[j])
  }

  /** What a passed verification establishes about the content-addressed entries. */
  ghost predicate Verified(c: Coding, st: Store) {
    forall k :: k in st ==>
      && (TypeOf(k) == Some(Keccak256) ==> Key(c.keccak(st[k]), Keccak256) == k)
      && (TypeOf(k) == Some(Sha256) ==> Key(c.sha256(st[k]), Sha256) == k)
  }

  lemma {:induction false} PassChecksEntries(c: Coding, st: Store, order: seq<B256>)
    requires forall k :: k in order ==> k in st
    requires VerifyInOrder(c, st, order).Success?
    ensures forall k :: k in order ==> Classify(c, st, k).Success?
  {
    if order != [] {
      var last := |order| - 1;
      assert forall k :: k in order ==> k in order[..last] || k == order[last];
      PassChecksEntries(c, st, order[..last]);
    }
  }

  class InMemoryOracle {
    const cache: Store
    const coding: Coding

    constructor (cache: Store, coding: Coding)
      ensures this.cache == cache && this.coding == coding
    {
      this.cache := cache;
      this.coding := coding;
    }

    /** The blobs are an out-parameter here; the source drops them, its KZG check being disabled. */
    method Verify(order: seq<B256>) returns (r: Result<Blobs, VerifyError>)
      requires IterationOf(cache, order)
      ensures r == VerifyInOrder(coding, cache, order)
      ensures r.Success? ==> Verified(coding, cache)
    {
      var blobs: Blobs := map[];
      for i := 0 to |order|
        invariant VerifyInOrder(coding, cache, order[..i]) == Success(blobs)
      {
        assert order[..i + 1][..i] == order[..i];
        var visited := Visit(coding, cache, order[i], blobs);
        if visited.Failure? {
          FailureStays(coding, cache, order, i + 1);
          return visited;
        }
        blobs := visited.value;
      }
      assert order[..|order|] == order;
      PassChecksEntries(coding, cache, order);
      return Success(blobs);
    }

    /** `get_exact` copies a preimage into the caller's buffer, and panics unless the sizes agree. */
    method GetExact(key: B256, buf: array<Byte>) returns (r: Result<(), GetError>)
      modifies buf
      ensures r == match Get(cache, key)
                   case Failure(e) => Failure(e)
                   case Success(v) => if |v| == buf.Length then Success(()) else Failure(WrongLength)
      ensures buf[..] == if r.Success? then cache[key] else old(buf[..])
    {
      var value :- Get(cache, key);
      if |value| != buf.Length {
        return Failure(WrongLength);
      }
      for i := 0 to buf.Length
        invariant buf[..i] == value[..i]
      {
        buf[i] := value[i];
        assert buf[..i + 1] == value[..i + 1];
      }
      return Success(());
    }
  }

  datatype GetError = KeyNotFound | WrongLength

  function Get(st: Store, key: B256): (r: Result<Bytes, GetError>)
    ensures r.Success? <==> key in st
  {
    if key in st then Success(st[key]) else Failure(KeyNotFound)
  }

  lemma {:induction false} FailureStays(c: Coding, st: Store, order: seq<B256>, n: nat)
    requires forall k :: k in order ==> k in st
    requires n <= |order| && VerifyInOrder(c, st, order[..n]).Failure?
    ensures VerifyInOrder(c, st, order) == VerifyInOrder(c, st, order[..n])
    decreases |order|
  {
    if n < |order| {
      var front := order[..|order| - 1];
      assert front[..n] == order[..n];
      FailureStays(c, st, front, n);
    } else {
      assert order[..n] == order;
    }
  }

  // ---------------------------------------------------------------- verified stores

  lemma KeyTail(a: B256, b: B256, t: KeyType)
    ensures Key(a, t) == Key(b, t) <==> a[1..] == b[1..]
  {
    assert Key(a, t)[1..] == a[1..] && Key(b, t)[1..] == b[1..];
    assert a[1..] == b[1..] ==> Key(a, t) == Key(b, t);
  }

  /** Two verified stores agree on every content-addressed key that both hold, unless two of their
      values collide. */
  lemma VerifiedStoresAgree(c: Coding, a: Store, b: Store, k: B256)
    requires Verified(c, a) && Verified(c, b) && k in a && k in b
    requires TypeOf(k) == Some(Keccak256) || TypeOf(k) == Some(Sha256)
    requires CollisionFree(c.keccak, a.Values + b.Values) && CollisionFree(c.sha256, a.Values + b.Values)
    ensures a[k] == b[k]
  {
    if TypeOf(k) == Some(Keccak256) {
      KeyTail(c.keccak(a[k]), c.keccak(b[k]), Keccak256);
    } else {
      KeyTail(c.sha256(a[k]), c.sha256(b[k]), Sha256);
    }
    assert a[k] in a.Values && b[k] in b.Values;
    assert !Collide(c.keccak, a[k], b[k]) && !Collide(c.sha256, a[k], b[k]);
  }
}
