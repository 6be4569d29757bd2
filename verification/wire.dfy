/** Machine words of a little-endian host, and the byte swaps between host and network order. */
module Wire {

  datatype Option<+T> = None | Some(value: T)

  /** The errno values the driver returns. */
  datatype Error = EOPNOTSUPP | EINVAL | EEXIST | ENOMEM | ERANGE | ENOENT

  datatype Result<+T> = Ok(value: T) | Err(error: Error)

  // The two 16-bit fields that share one 32-bit descriptor word: the lower address is the low half.

  function Lo16(w: bv32): bv16 { (w & 0xffff) as bv16 }

  function Hi16(w: bv32): bv16 { (w >> 16) as bv16 }

  function Pack16(lo: bv16, hi: bv16): bv32 { (lo as bv32) | ((hi as bv32) << 16) }

  // The bytes of a word, in memory order.

  function Byte0(w: bv32): bv8 { (w & 0xff) as bv8 }

  function Byte1(w: bv32): bv8 { ((w >> 8) & 0xff) as bv8 }

  function Byte2(w: bv32): bv8 { ((w >> 16) & 0xff) as bv8 }

  function Byte3(w: bv32): bv8 { (w >> 24) as bv8 }

  function Word(a: bv8, b: bv8, c: bv8, d: bv8): bv32 {
    (a as bv32) | ((b as bv32) << 8) | ((c as bv32) << 16) | ((d as bv32) << 24)
  }

  type Bytes = seq<bv8>

  function Load32(b: Bytes, i: nat): bv32
    requires i + 4 <= |b|
  {
    Word(b[i], b[i + 1], b[i + 2], b[i + 3])
  }

  /** memcpy: overwrite the bytes from `at` on. */
  function Splice(b: Bytes, at: nat, bytes: Bytes): (r: Bytes)
    requires at + |bytes| <= |b|
    ensures |r| == |b|
    ensures forall k :: 0 <= k < |b| ==> r[k] == if at <= k < at + |bytes| then bytes[k - at] else b[k]
  {
    b[..at] + bytes + b[at + |bytes|..]
  }

  function Bytes32(w: bv32): (r: Bytes)
    ensures |r| == 4
  {
    [Byte0(w), Byte1(w), Byte2(w), Byte3(w)]
  }

  function Store32(b: Bytes, i: nat, w: bv32): Bytes
    requires i + 4 <= |b|
  {
    Splice(b, i, Bytes32(w))
  }

  function Half(a: bv8, b: bv8): bv16 { (a as bv16) | ((b as bv16) << 8) }

  function Load16(b: Bytes, i: nat): bv16
    requires i + 2 <= |b|
  {
    Half(b[i], b[i + 1])
  }

  // Network byte order on the wire.

  function BigEndian32(w: bv32): (r: Bytes)
    ensures |r| == 4
  {
    [Byte3(w), Byte2(w), Byte1(w), Byte0(w)]
  }

  function BigEndian16(h: bv16): (r: Bytes)
    ensures |r| == 2
  {
    [(h >> 8) as bv8, (h & 0xff) as bv8]
  }

  /** htons and ntohs. */
  function Swap16(x: bv16): bv16 { (x << 8) | (x >> 8) }

  /** htonl and ntohl. */
  function Swap32(x: bv32): bv32 {
    (x << 24) | ((x & 0xff00) << 8) | ((x >> 8) & 0xff00) | (x >> 24)
  }

  lemma HalvesOfPack(lo: bv16, hi: bv16)
    ensures Lo16(Pack16(lo, hi)) == lo && Hi16(Pack16(lo, hi)) == hi
  {}

  lemma PackOfHalves(w: bv32)
    ensures Pack16(Lo16(w), Hi16(w)) == w
  {}

  lemma BytesOfWord(a: bv8, b: bv8, c: bv8, d: bv8)
    ensures Byte0(Word(a, b, c, d)) == a && Byte1(Word(a, b, c, d)) == b
    ensures Byte2(Word(a, b, c, d)) == c && Byte3(Word(a, b, c, d)) == d
  {}

  lemma WordOfBytes(w: bv32)
    ensures Word(Byte0(w), Byte1(w), Byte2(w), Byte3(w)) == w
  {}

  lemma HalvesFromBytes(w: bv32)
    ensures Lo16(w) == Half(Byte0(w), Byte1(w)) && Hi16(w) == Half(Byte2(w), Byte3(w))
  {}

  lemma LoadOfStore32(b: Bytes, i: nat, w: bv32)
    requires i + 4 <= |b|
    ensures Load32(Store32(b, i, w), i) == w
  {
    WordOfBytes(w);
  }

  lemma LoadElsewhere32(b: Bytes, i: nat, w: bv32, j: nat)
    requires i + 4 <= |b| && j + 4 <= |b| && (i + 4 <= j || j + 4 <= i)
    ensures Load32(Store32(b, i, w), j) == Load32(b, j)
  {}

  lemma BigEndianOfSwap(w: bv32)
    ensures BigEndian32(Swap32(w)) == Bytes32(w)
  {}

  lemma BigEndianPorts(src: bv16, dst: bv16)
    ensures BigEndian16(Swap16(src)) + BigEndian16(Swap16(dst)) == Bytes32(Pack16(src, dst))
  {}

  lemma SpliceTwice(b: Bytes, at: nat, x: Bytes, y: Bytes)
    requires at + |x| + |y| <= |b|
    ensures Splice(b, at, x + y) == Splice(Splice(b, at, x), at + |x|, y)
  {}

  lemma SwapTwice(x: bv32, y: bv16)
    ensures Swap32(Swap32(x)) == x && Swap16(Swap16(y)) == y
  {}

  /** Byte k of a word, in memory order. */
  function ByteOf(w: bv32, k: nat): bv8
    requires k < 4
  {
    if k == 0 then Byte0(w) else if k == 1 then Byte1(w) else if k == 2 then Byte2(w) else Byte3(w)
  }

  function And8(a: bv8, b: bv8): bv8 { a & b }
  function Xor8(a: bv8, b: bv8): bv8 { a ^ b }
  function Xor16(a: bv16, b: bv16): bv16 { a ^ b }

  /** One masked edit of a word: keep the bits under the mask, then exclusive-or the value in. */
  function EditedWord(w: bv32, mask: bv32, val: bv32): bv32 { (w & mask) ^ val }

  /** It acts on each byte separately. */
  lemma EditIsBytewise(w: bv32, mask: bv32, val: bv32, k: nat)
    requires k < 4
    ensures ByteOf(EditedWord(w, mask, val), k) == Xor8(And8(ByteOf(w, k), ByteOf(mask, k)), ByteOf(val, k))
  {
    hide EditedWord, Byte0, Byte1, Byte2, Byte3, And8, Xor8;
    match k {
      case 0 => EditByte0(w, mask, val);
      case 1 => EditByte1(w, mask, val);
      case 2 => EditByte2(w, mask, val);
      case _ => EditByte3(w, mask, val);
    }
  }

  lemma EditByte0(w: bv32, mask: bv32, val: bv32)
    ensures Byte0(EditedWord(w, mask, val)) == Xor8(And8(Byte0(w), Byte0(mask)), Byte0(val))
  {}

  lemma EditByte1(w: bv32, mask: bv32, val: bv32)
    ensures Byte1(EditedWord(w, mask, val)) == Xor8(And8(Byte1(w), Byte1(mask)), Byte1(val))
  {}

  lemma EditByte2(w: bv32, mask: bv32, val: bv32)
    ensures Byte2(EditedWord(w, mask, val)) == Xor8(And8(Byte2(w), Byte2(mask)), Byte2(val))
  {}

  lemma EditByte3(w: bv32, mask: bv32, val: bv32)
    ensures Byte3(EditedWord(w, mask, val)) == Xor8(And8(Byte3(w), Byte3(mask)), Byte3(val))
  {}

  lemma XorLaws(a: bv8, b: bv8, c: bv8)
    ensures Xor8(Xor8(a, b), c) == Xor8(a, Xor8(b, c)) && Xor8(a, 0) == a
    ensures Xor8(a, b) == a <==> b == 0
    ensures And8(a, 0xff) == a && And8(a, 0) == 0 && Xor8(0, a) == a
  {}

  lemma XorLaws16(a: bv16, b: bv16, c: bv16)
    ensures Xor16(Xor16(a, b), c) == Xor16(a, Xor16(b, c)) && Xor16(a, 0) == a
    ensures Xor16(a, b) == a <==> b == 0
  {}

  lemma HalfOfXor(a: bv8, b: bv8, c: bv8, d: bv8)
    ensures Half(Xor8(a, c), Xor8(b, d)) == Xor16(Half(a, b), Half(c, d))
  {}
}
