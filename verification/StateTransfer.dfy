/**
 Packaging a container's state for a clone, cutting it into chunks, and putting
 the chunks together again in whatever order they arrive.
 */
module StateTransfer {
  import opened Common

  type Bytes = seq<byte>

  datatype Package = Package(
    version: int, containerId: string, timestamp: int, checksum: string,
    compressed: bool, encrypted: bool, size: nat, data: Bytes, metadata: map<string, string>)

  datatype Chunk = Chunk(packageId: string, index: int, data: Bytes, checksum: string)

  datatype Transfer = Transfer(packageId: string, totalSize: nat, chunkSize: nat, chunkCount: int, checksum: string)

  datatype Error =
    | KeyRequired | CiphertextTooShort | DecryptionFailed | DecompressionFailed | ChecksumMismatch
    | IncompleteChunks | InvalidChunkIndex | ChunkChecksumMismatch | OverallChecksumMismatch | BadPackage

  /** The libraries: SHA-256 as hexadecimal and as bytes, gzip, AES-GCM and JSON. */
  datatype Codec = Codec(
    hash: Bytes -> string,
    digest: Bytes -> Bytes,
    gzip: Bytes -> Bytes,
    gunzip: Bytes -> Option<Bytes>,
    seal: (Bytes, Bytes, Bytes) -> Bytes,
    open: (Bytes, Bytes, Bytes) -> Option<Bytes>,
    json: Package -> Bytes,
    unjson: Bytes -> Option<Package>)

  const NONCE_SIZE: nat := 12

  /** Each library undoes itself, and a hexadecimal hash is never empty. */
  ghost predicate Lawful(c: Codec) {
    && (forall x :: c.hash(x) != "")
    && (forall x :: c.gunzip(c.gzip(x)) == Some(x))
    && (forall key, nonce, x :: c.open(key, nonce, c.seal(key, nonce, x)) == Some(x))
    && (forall p :: c.unjson(c.json(p)) == Some(p))
  }

  // ---------------------------------------------------------------- packaging

  /** Keys of any length become 32 bytes: short ones are hashed, long ones cut. */
  function NormalKey(c: Codec, key: Bytes): Bytes {
    if |key| < 32 then c.digest(key) else key[..32]
  }

  function EncryptAesGcm(c: Codec, plaintext: Bytes, key: Bytes, nonce: Bytes): Bytes {
    nonce + c.seal(NormalKey(c, key), nonce, plaintext)
  }

  function DecryptAesGcm(c: Codec, ciphertext: Bytes, key: Bytes): Result<Bytes, Error> {
    if |ciphertext| < NONCE_SIZE then Err(CiphertextTooShort)
    else
      match c.open(NormalKey(c, key), ciphertext[..NONCE_SIZE], ciphertext[NONCE_SIZE..])
      case None => Err(DecryptionFailed)
      case Some(plaintext) => Ok(plaintext)
  }

  function PackageState(c: Codec, compress: bool, id: string, data: Bytes, metadata: map<string, string>, now: int): Package {
    Package(1, id, now, c.hash(data), compress, false, |data|, if compress then c.gzip(data) else data, metadata)
  }

  function PackageStateEncrypted(c: Codec, compress: bool, id: string, data: Bytes, key: Bytes, nonce: Bytes,
                                 metadata: map<string, string>, now: int): Package {
    var pkg := PackageState(c, compress, id, data, metadata, now);
    if |key| > 0 then pkg.(data := EncryptAesGcm(c, pkg.data, key, nonce), encrypted := true) else pkg
  }

  function Decrypted(c: Codec, pkg: Package, key: Bytes): Result<Bytes, Error> {
    if !pkg.encrypted then Ok(pkg.data)
    else if |key| == 0 then Err(KeyRequired)
    else DecryptAesGcm(c, pkg.data, key)
  }

  function UnpackageState(c: Codec, pkg: Package, key: Bytes): Result<Bytes, Error> {
    match Decrypted(c, pkg, key)
    case Err(e) => Err(e)
    case Ok(plain) =>
      var data := if pkg.compressed then c.gunzip(plain) else Some(plain);
      if data.None? then Err(DecompressionFailed)
      else if c.hash(data.value) != pkg.checksum then Err(ChecksumMismatch)
      else Ok(data.value)
  }

  /** Unpackaging with the same key gives the data back, for every key length and compression setting. */
  lemma UnpackagesWhatWasPackaged(c: Codec, compress: bool, id: string, data: Bytes, key: Bytes, nonce: Bytes,
                                  metadata: map<string, string>, now: int)
    requires Lawful(c) && |nonce| == NONCE_SIZE
    ensures UnpackageState(c, PackageStateEncrypted(c, compress, id, data, key, nonce, metadata, now), key) == Ok(data)
  {
    var plain := if compress then c.gzip(data) else data;
    var sealed := c.seal(NormalKey(c, key), nonce, plain);
    assert (nonce + sealed)[..NONCE_SIZE] == nonce && (nonce + sealed)[NONCE_SIZE..] == sealed;
  }

  /** What one key sealed, no other key opens. */
  ghost predicate Authentic(c: Codec) {
    forall key, other, nonce, x :: key != other ==> c.open(other, nonce, c.seal(key, nonce, x)) == None
  }

  /** Keys of 32 bytes and more count by their first 32 bytes, shorter ones by their digest. */
  predicate SameKey(c: Codec, a: Bytes, b: Bytes) {
    if |a| >= 32 && |b| >= 32 then a[..32] == b[..32]
    else if |a| >= 32 then a[..32] == c.digest(b)
    else if |b| >= 32 then c.digest(a) == b[..32]
    else c.digest(a) == c.digest(b)
  }

  /**
   What unpackaging gives under any other key. A package made without a key is
   readable with every key. One made with a key asks for a key, and gives the data
   back exactly under a key that counts as the same.
   */
  lemma UnpackagesUnder(c: Codec, compress: bool, id: string, data: Bytes, key: Bytes, nonce: Bytes,
                        metadata: map<string, string>, now: int, other: Bytes)
    requires Lawful(c) && Authentic(c) && |nonce| == NONCE_SIZE
    ensures UnpackageState(c, PackageStateEncrypted(c, compress, id, data, key, nonce, metadata, now), other) ==
              if |key| == 0 then Ok(data)
              else if |other| == 0 then Err(KeyRequired)
              else if SameKey(c, key, other) then Ok(data)
              else Err(DecryptionFailed)
  {
    var plain := if compress then c.gzip(data) else data;
    var sealed := c.seal(NormalKey(c, key), nonce, plain);
    assert (nonce + sealed)[..NONCE_SIZE] == nonce && (nonce + sealed)[NONCE_SIZE..] == sealed;
    assert SameKey(c, key, other) <==> NormalKey(c, key) == NormalKey(c, other);
  }

  /** Whatever is unpackaged, from whatever package, hashes to the checksum the package carries; a cut-off ciphertext is told apart. */
  lemma UnpackagedIsChecked(c: Codec, pkg: Package, key: Bytes)
    ensures var r := UnpackageState(c, pkg, key);
            && (r.Ok? ==> c.hash(r.value) == pkg.checksum)
            && (r == Err(KeyRequired) <==> pkg.encrypted && key == [])
            && (r == Err(CiphertextTooShort) <==> pkg.encrypted && key != [] && |pkg.data| < 12)
  {
  }

  // ---------------------------------------------------------------- splitting

  function ChunkCount(length: nat, size: nat): nat
    requires size > 0
  {
    (length + size - 1) / size
  }

  function ChunkStart(size: nat, i: nat): nat {
    i * size
  }

  function ChunkEnd(length: nat, size: nat, i: nat): nat {
    var end := ChunkStart(size, i) + size;
    if end > length then length else end
  }

  /** The number of chunks is the exact ceiling. */
  lemma CountIsCeiling(length: nat, size: nat)
    requires size > 0
    ensures var n := ChunkCount(length, size);
            ChunkStart(size, n) >= length && (n > 0 ==> ChunkStart(size, n - 1) < length) && (n == 0 <==> length == 0)
  {
    var n := ChunkCount(length, size);
    Quotient(length + size - 1, size);
    StartNext(size, if n > 0 then n - 1 else 0);
  }

  lemma Quotient(x: nat, size: nat)
    requires size > 0
    ensures x / size * size <= x < x / size * size + size
  {
  }

  lemma StartNext(size: nat, i: nat)
    ensures ChunkStart(size, i + 1) == ChunkStart(size, i) + size
  {
  }

  lemma {:induction false} StartGrows(size: nat, i: nat, j: nat)
    requires i <= j
    ensures ChunkStart(size, i) <= ChunkStart(size, j)
    decreases j
  {
    if i < j {
      StartGrows(size, i, j - 1);
      StartNext(size, j - 1);
    }
  }

  /** Every chunk lies within the data; all but the last are full and the last is not empty. */
  lemma ChunkBounds(length: nat, size: nat, i: nat)
    requires size > 0 && i < ChunkCount(length, size)
    ensures ChunkStart(size, i) < ChunkEnd(length, size, i) <= length
    ensures i < ChunkCount(length, size) - 1 ==> ChunkEnd(length, size, i) == ChunkStart(size, i) + size == ChunkStart(size, i + 1)
    ensures i == ChunkCount(length, size) - 1 ==> ChunkEnd(length, size, i) == length
  {
    var n := ChunkCount(length, size);
    CountIsCeiling(length, size);
    StartGrows(size, i, n - 1);
    StartNext(size, i);
    if i < n - 1 {
      StartGrows(size, i + 1, n - 1);
    }
  }

  function ChunkOf(c: Codec, packageId: string, data: Bytes, size: nat, i: nat): Chunk
    requires size > 0 && i < ChunkCount(|data|, size)
  {
    ChunkBounds(|data|, size, i);
    var part := data[ChunkStart(size, i)..ChunkEnd(|data|, size, i)];
    Chunk(packageId, i, part, c.hash(part))
  }

  function ChunksOf(c: Codec, packageId: string, data: Bytes, size: nat): (chunks: seq<Chunk>)
    requires size > 0
    ensures |chunks| == ChunkCount(|data|, size)
    ensures forall i :: 0 <= i < |chunks| ==> chunks[i] == ChunkOf(c, packageId, data, size, i)
  {
    seq(ChunkCount(|data|, size), i requires 0 <= i < ChunkCount(|data|, size) => ChunkOf(c, packageId, data, size, i))
  }

  function TransferOf(c: Codec, packageId: string, data: Bytes, size: nat): Transfer
    requires size > 0
  {
    Transfer(packageId, |data|, size, ChunkCount(|data|, size), c.hash(data))
  }

  method SplitIntoChunks(c: Codec, pkg: Package, packageId: string, size: nat) returns (transfer: Transfer, chunks: seq<Chunk>)
    requires size > 0
    ensures transfer == TransferOf(c, packageId, c.json(pkg), size)
    ensures chunks == ChunksOf(c, packageId, c.json(pkg), size)
  {
    var data := c.json(pkg);
    var count := (|data| + size - 1) / size;
    var slots := new Chunk[count](_ => EMPTY);
    for i := 0 to count
      invariant forall k :: 0 <= k < i ==> slots[k] == ChunkOf(c, packageId, data, size, k)
    {
      var start := i * size;
      var end := start + size;
      if end > |data| {
        end := |data|;
      }
      ChunkBounds(|data|, size, i);
      slots[i] := Chunk(packageId, i, data[start..end], c.hash(data[start..end]));
    }
    chunks := slots[..];
    transfer := Transfer(packageId, |data|, size, count, c.hash(data));
  }

  // ---------------------------------------------------------------- assembling

  /** A slot nothing was put into. */
  const EMPTY := Chunk("", 0, [], "")

  predicate IndexOk(chunk: Chunk, n: int) {
    0 <= chunk.index < n
  }

  predicate IndicesOk(chunks: seq<Chunk>, n: int) {
    forall k :: 0 <= k < |chunks| ==> IndexOk(chunks[k], n)
  }

  /** The chunks put at their indices, later ones over earlier ones. */
  function Slots(n: nat, chunks: seq<Chunk>): (slots: seq<Chunk>)
    requires IndicesOk(chunks, n)
    ensures |slots| == n
  {
    if chunks == [] then seq(n, _ => EMPTY)
    else
      var last := chunks[|chunks| - 1];
      Slots(n, chunks[..|chunks| - 1])[last.index := last]
  }

  function Joined(slots: seq<Chunk>): Bytes {
    if slots == [] then [] else Joined(slots[..|slots| - 1]) + slots[|slots| - 1].data
  }

  predicate Verified(c: Codec, slots: seq<Chunk>) {
    forall i :: 0 <= i < |slots| ==> c.hash(slots[i].data) == slots[i].checksum
  }

  function Assembled(c: Codec, transfer: Transfer, chunks: seq<Chunk>): Result<Package, Error> {
    if |chunks| != transfer.chunkCount then Err(IncompleteChunks)
    else if !IndicesOk(chunks, transfer.chunkCount) then Err(InvalidChunkIndex)
    else
      var slots := Slots(|chunks|, chunks);
      if !Verified(c, slots) then Err(ChunkChecksumMismatch)
      else if c.hash(Joined(slots)) != transfer.checksum then Err(OverallChecksumMismatch)
      else
        match c.unjson(Joined(slots))
        case None => Err(BadPackage)
        case Some(pkg) => Ok(pkg)
  }

  /** The first loop of AssembleChunks: every chunk goes to the slot of its index. */
  method PlaceChunks(chunks: seq<Chunk>) returns (ok: bool, slots: seq<Chunk>)
    ensures ok <==> IndicesOk(chunks, |chunks|)
    ensures ok ==> slots == Slots(|chunks|, chunks)
  {
    var sorted := new Chunk[|chunks|](_ => EMPTY);
    for k := 0 to |chunks|
      invariant IndicesOk(chunks[..k], |chunks|)
      invariant sorted[..] == Slots(|chunks|, chunks[..k])
    {
      if chunks[k].index < 0 || chunks[k].index >= |chunks| {
        assert !IndexOk(chunks[k], |chunks|);
        return false, [];
      }
      assert chunks[..k + 1][..k] == chunks[..k];
      sorted[chunks[k].index] := chunks[k];
    }
    assert chunks[..|chunks|] == chunks;
    return true, sorted[..];
  }

  /** The second loop: checksums are verified slot by slot while the data is appended. */
  method JoinChunks(c: Codec, slots: seq<Chunk>) returns (ok: bool, data: Bytes)
    ensures ok <==> Verified(c, slots)
    ensures ok ==> data == Joined(slots)
  {
    data := [];
    for i := 0 to |slots|
      invariant forall k :: 0 <= k < i ==> c.hash(slots[k].data) == slots[k].checksum
      invariant data == Joined(slots[..i])
    {
      if c.hash(slots[i].data) != slots[i].checksum {
        return false, [];
      }
      assert slots[..i + 1][..i] == slots[..i];
      data := data + slots[i].data;
    }
    assert slots[..|slots|] == slots;
    ok := true;
  }

  method AssembleChunks(c: Codec, transfer: Transfer, chunks: seq<Chunk>) returns (result: Result<Package, Error>)
    ensures result == Assembled(c, transfer, chunks)
  {
    hide IndicesOk, Verified, Slots, Joined;
    if |chunks| != transfer.chunkCount {
      return Err(IncompleteChunks);
    }
    var placed, slots := PlaceChunks(chunks);
    if !placed {
      return Err(InvalidChunkIndex);
    }
    var intact, data := JoinChunks(c, slots);
    if !intact {
      return Err(ChunkChecksumMismatch);
    }
    if c.hash(data) != transfer.checksum {
      return Err(OverallChecksumMismatch);
    }
    var pkg := c.unjson(data);
    result := if pkg.None? then Err(BadPackage) else Ok(pkg.value);
  }

  // ---------------------------------------------------------------- only permutations are accepted

  /** A slot is filled exactly if some chunk carries its index, and then by one of those chunks. */
  lemma {:induction false} SlotFilled(n: nat, chunks: seq<Chunk>, i: nat)
    requires IndicesOk(chunks, n) && i < n
    ensures Slots(n, chunks)[i] == EMPTY || (exists k :: 0 <= k < |chunks| && chunks[k].index == i && Slots(n, chunks)[i] == chunks[k])
    ensures (exists k :: 0 <= k < |chunks| && chunks[k].index == i) ==>
              exists k :: 0 <= k < |chunks| && chunks[k].index == i && Slots(n, chunks)[i] == chunks[k]
  {
    if chunks != [] {
      var before, last := chunks[..|chunks| - 1], chunks[|chunks| - 1];
      SlotFilled(n, before, i);
      if last.index != i && exists k :: 0 <= k < |chunks| && chunks[k].index == i {
        var k :| 0 <= k < |chunks| && chunks[k].index == i;
        assert before[k] == chunks[k];
      }
    }
  }

  function Indices(chunks: seq<Chunk>): (xs: seq<int>)
    ensures |xs| == |chunks|
    ensures forall k :: 0 <= k < |chunks| ==> xs[k] == chunks[k].index
  {
    seq(|chunks|, k requires 0 <= k < |chunks| => chunks[k].index)
  }

  /** Each index below the count occurs, and no index occurs twice. */
  ghost predicate IsPermutation(xs: seq<int>) {
    && (forall i :: 0 <= i < |xs| ==> i in xs)
    && (forall k, m :: 0 <= k < m < |xs| ==> xs[k] != xs[m])
  }

  function Without(xs: seq<int>, k: nat): (rest: seq<int>)
    requires k < |xs|
    ensures |rest| == |xs| - 1
    ensures forall x :: x in xs ==> x == xs[k] || x in rest
  {
    var rest := xs[..k] + xs[k + 1..];
    assert xs == xs[..k] + [xs[k]] + xs[k + 1..];
    rest
  }

  /** Fewer picks than places leave some place out. */
  lemma {:induction false} Pigeonhole(xs: seq<int>, n: nat)
    requires |xs| < n
    ensures exists i :: 0 <= i < n && i !in xs
    decreases n
  {
    var last := n - 1;
    if last !in xs {
      assert 0 <= last < n;
    } else {
      var k :| 0 <= k < |xs| && xs[k] == last;
      Pigeonhole(Without(xs, k), n - 1);
      var i :| 0 <= i < n - 1 && i !in Without(xs, k);
      assert 0 <= i < n && i !in xs;
    }
  }

  lemma OntoIsPermutation(xs: seq<int>)
    requires forall i :: 0 <= i < |xs| ==> i in xs
    ensures IsPermutation(xs)
  {
    forall k, m | 0 <= k < m < |xs|
      ensures xs[k] != xs[m]
    {
      Pigeonhole(Without(xs, m), |xs|);
      assert Without(xs, m)[k] == xs[k];
    }
  }

  lemma FilledIsPermutation(c: Codec, chunks: seq<Chunk>)
    requires Lawful(c) && IndicesOk(chunks, |chunks|) && Verified(c, Slots(|chunks|, chunks))
    ensures IsPermutation(Indices(chunks))
  {
    var n := |chunks|;
    forall i | 0 <= i < n
      ensures i in Indices(chunks)
    {
      SlotFilled(n, chunks, i);
      assert c.hash(Slots(n, chunks)[i].data) == Slots(n, chunks)[i].checksum;
      var k :| 0 <= k < n && chunks[k].index == i;
      assert Indices(chunks)[k] == i;
    }
    OntoIsPermutation(Indices(chunks));
  }

  /** A pick outside the range would leave too few picks for it. */
  lemma InRange(xs: seq<int>, k: nat)
    requires IsPermutation(xs) && k < |xs|
    ensures 0 <= xs[k] < |xs|
  {
    Pigeonhole(Without(xs, k), |xs|);
  }

  lemma PermutationInRange(chunks: seq<Chunk>)
    requires IsPermutation(Indices(chunks))
    ensures IndicesOk(chunks, |chunks|)
  {
    forall k | 0 <= k < |chunks|
      ensures IndexOk(chunks[k], |chunks|)
    {
      InRange(Indices(chunks), k);
    }
  }

  lemma SameIndexSamePlace(chunks: seq<Chunk>, k: nat, m: nat)
    requires IsPermutation(Indices(chunks)) && k < |chunks| && m < |chunks| && chunks[k].index == chunks[m].index
    ensures k == m
  {
    assert Indices(chunks)[k] == Indices(chunks)[m];
  }

  lemma SlotTaker(n: nat, chunks: seq<Chunk>, k: nat) returns (m: nat)
    requires IndicesOk(chunks, n) && k < |chunks|
    ensures 0 <= chunks[k].index < n
    ensures m < |chunks| && chunks[m].index == chunks[k].index && Slots(n, chunks)[chunks[k].index] == chunks[m]
  {
    assert IndexOk(chunks[k], n);
    SlotFilled(n, chunks, chunks[k].index);
    hide Slots;
    m :| m < |chunks| && chunks[m].index == chunks[k].index && Slots(n, chunks)[chunks[k].index] == chunks[m];
  }

  /** In a permutation each chunk ends up in the slot of its index. */
  lemma PermutationFillsSlot(chunks: seq<Chunk>, k: nat)
    requires IsPermutation(Indices(chunks)) && IndicesOk(chunks, |chunks|) && k < |chunks|
    ensures 0 <= chunks[k].index < |chunks| && Slots(|chunks|, chunks)[chunks[k].index] == chunks[k]
  {
    hide Slots, IsPermutation, IndicesOk;
    var m := SlotTaker(|chunks|, chunks, k);
    SameIndexSamePlace(chunks, k, m);
  }

  lemma Occurs(chunks: seq<Chunk>, i: nat) returns (k: nat)
    requires IsPermutation(Indices(chunks)) && i < |chunks|
    ensures k < |chunks| && chunks[k].index == i
  {
    assert i in Indices(chunks);
    k :| k < |chunks| && Indices(chunks)[k] == i;
  }

  lemma SlotComesFrom(chunks: seq<Chunk>, i: nat)
    requires IsPermutation(Indices(chunks)) && IndicesOk(chunks, |chunks|) && i < |chunks|
    ensures Slots(|chunks|, chunks)[i] in chunks
  {
    hide Slots, IsPermutation, IndicesOk;
    var k := Occurs(chunks, i);
    PermutationFillsSlot(chunks, k);
  }

  predicate AllVerified(c: Codec, chunks: seq<Chunk>) {
    forall k :: 0 <= k < |chunks| ==> c.hash(chunks[k].data) == chunks[k].checksum
  }

  /**
   A chunk list is accepted exactly if it is as long as announced, carries each
   index exactly once, every chunk is intact, and the chunks in index order hash
   to the announced checksum and read as a package.
   */
  lemma AcceptedIffPermutation(c: Codec, transfer: Transfer, chunks: seq<Chunk>)
    requires Lawful(c)
    ensures Assembled(c, transfer, chunks).Ok? <==>
              && |chunks| == transfer.chunkCount
              && IsPermutation(Indices(chunks))
              && AllVerified(c, chunks)
              && (PermutationInRange(chunks);
                  var joined := Joined(Slots(|chunks|, chunks));
                  c.hash(joined) == transfer.checksum && c.unjson(joined).Some?)
  {
    if IndicesOk(chunks, |chunks|) && Verified(c, Slots(|chunks|, chunks)) {
      FilledIsPermutation(c, chunks);
    }
    if IsPermutation(Indices(chunks)) {
      PermutationInRange(chunks);
      IntactEitherWay(c, chunks);
    }
  }

  lemma IntactEitherWay(c: Codec, chunks: seq<Chunk>)
    requires IsPermutation(Indices(chunks)) && IndicesOk(chunks, |chunks|)
    ensures AllVerified(c, chunks) <==> Verified(c, Slots(|chunks|, chunks))
  {
    hide Slots;
    var slots := Slots(|chunks|, chunks);
    if Verified(c, slots) {
      forall k | 0 <= k < |chunks|
        ensures c.hash(chunks[k].data) == chunks[k].checksum
      {
        PermutationFillsSlot(chunks, k);
      }
    }
    if AllVerified(c, chunks) {
      forall i | 0 <= i < |slots|
        ensures c.hash(slots[i].data) == slots[i].checksum
      {
        SlotComesFrom(chunks, i);
      }
    }
  }

  /** With a hash without collisions, what is accepted is the original package and nothing else. */
  lemma AcceptedIsOriginal(c: Codec, pkg: Package, transfer: Transfer, chunks: seq<Chunk>)
    requires Lawful(c) && Assembled(c, transfer, chunks).Ok?
    requires transfer.checksum == c.hash(c.json(pkg))
    requires forall x, y :: c.hash(x) == c.hash(y) ==> x == y
    ensures Joined(Slots(|chunks|, chunks)) == c.json(pkg)
    ensures Assembled(c, transfer, chunks) == Ok(pkg)
  {
  }

  // ---------------------------------------------------------------- every permutation is accepted

  lemma {:induction false} JoinedChunks(c: Codec, packageId: string, data: Bytes, size: nat, n: nat)
    requires size > 0 && n <= ChunkCount(|data|, size)
    ensures (if n == ChunkCount(|data|, size) then |data| else ChunkStart(size, n)) <= |data|
    ensures Joined(ChunksOf(c, packageId, data, size)[..n]) ==
              data[..if n == ChunkCount(|data|, size) then |data| else ChunkStart(size, n)]
  {
    CountIsCeiling(|data|, size);
    var chunks := ChunksOf(c, packageId, data, size);
    if n == 0 {
      assert chunks[..0] == [];
    } else {
      JoinedChunks(c, packageId, data, size, n - 1);
      ChunkBounds(|data|, size, n - 1);
      assert chunks[..n][..n - 1] == chunks[..n - 1];
      var a, b := ChunkStart(size, n - 1), ChunkEnd(|data|, size, n - 1);
      assert data[..a] + data[a..b] == data[..b];
    }
  }

  lemma PermutedSlots(c: Codec, packageId: string, data: Bytes, size: nat, chunks: seq<Chunk>)
    requires size > 0 && multiset(chunks) == multiset(ChunksOf(c, packageId, data, size))
    ensures |chunks| == ChunkCount(|data|, size) && IndicesOk(chunks, |chunks|)
    ensures Slots(|chunks|, chunks) == ChunksOf(c, packageId, data, size)
  {
    var original := ChunksOf(c, packageId, data, size);
    assert |chunks| == |multiset(chunks)| == |original|;
    forall k | 0 <= k < |chunks|
      ensures IndexOk(chunks[k], |chunks|) && chunks[k] == original[chunks[k].index]
    {
      assert chunks[k] in multiset(chunks);
      assert chunks[k] in original;
    }
    forall i | 0 <= i < |original|
      ensures Slots(|chunks|, chunks)[i] == original[i]
    {
      assert original[i] in multiset(original);
      assert original[i] in chunks;
      SlotFilled(|chunks|, chunks, i);
    }
  }

  /** Chunks of a package assemble to that package in every order of arrival. */
  lemma AnyOrderAssembles(c: Codec, pkg: Package, packageId: string, size: nat, chunks: seq<Chunk>)
    requires Lawful(c) && size > 0
    requires multiset(chunks) == multiset(ChunksOf(c, packageId, c.json(pkg), size))
    ensures Assembled(c, TransferOf(c, packageId, c.json(pkg), size), chunks) == Ok(pkg)
  {
    var original := ChunksOf(c, packageId, c.json(pkg), size);
    PermutedSlots(c, packageId, c.json(pkg), size, chunks);
    JoinedChunks(c, packageId, c.json(pkg), size, |original|);
    assert original[..|original|] == original;
    assert c.json(pkg)[..|c.json(pkg)|] == c.json(pkg);
    IntactChunks(c, packageId, c.json(pkg), size);
  }

  lemma IntactChunks(c: Codec, packageId: string, data: Bytes, size: nat)
    requires size > 0
    ensures Verified(c, ChunksOf(c, packageId, data, size))
  {
  }

  /** The announcement fits the chunks: their number, owner, sizes, total size and checksum; all but the last are full. */
  lemma AnnouncedAsCut(c: Codec, packageId: string, data: Bytes, size: nat)
    requires size > 0
    ensures var transfer, chunks := TransferOf(c, packageId, data, size), ChunksOf(c, packageId, data, size);
            && transfer.chunkCount == |chunks| && transfer.chunkSize == size && transfer.packageId == packageId
            && transfer.totalSize == |Joined(chunks)| && transfer.checksum == c.hash(Joined(chunks))
            && (forall i :: 0 <= i < |chunks| ==> chunks[i].packageId == packageId && 0 < |chunks[i].data| <= size)
            && (forall i :: 0 <= i < |chunks| - 1 ==> |chunks[i].data| == size)
  {
    var chunks := ChunksOf(c, packageId, data, size);
    JoinedChunks(c, packageId, data, size, |chunks|);
    assert chunks[..|chunks|] == chunks && data[..|data|] == data;
    hide ChunkCount, ChunkStart, Joined;
    forall i | 0 <= i < |chunks|
      ensures 0 < |chunks[i].data| <= size && (i < |chunks| - 1 ==> |chunks[i].data| == size)
    {
      ChunkBounds(|data|, size, i);
    }
  }

  /**
   The round trip: package with any key and compression setting, cut with any
   positive chunk size, deliver the chunks in any order, assemble, and unpackage
   with the same key: the data comes back.
   */
  lemma RoundTrip(c: Codec, compress: bool, id: string, data: Bytes, key: Bytes, nonce: Bytes, metadata: map<string, string>,
                  now: int, packageId: string, size: nat, pkg: Package, chunks: seq<Chunk>)
    requires Lawful(c) && |nonce| == NONCE_SIZE && size > 0
    requires pkg == PackageStateEncrypted(c, compress, id, data, key, nonce, metadata, now)
    requires multiset(chunks) == multiset(ChunksOf(c, packageId, c.json(pkg), size))
    ensures var assembled := Assembled(c, TransferOf(c, packageId, c.json(pkg), size), chunks);
            assembled.Ok? && UnpackageState(c, assembled.value, key) == Ok(data)
    ensures var got := Assembled(c, TransferOf(c, packageId, c.json(pkg), size), chunks).value;
            && got.version == 1 && got.containerId == id && got.timestamp == now && got.metadata == metadata
            && got.size == |data| && got.checksum == c.hash(data)
            && got.compressed == compress && got.encrypted == (key != [])
  {
    AnyOrderAssembles(c, pkg, packageId, size, chunks);
    UnpackagesWhatWasPackaged(c, compress, id, data, key, nonce, metadata, now);
    hide Assembled, UnpackageState, ChunksOf, Lawful;
  }
}
