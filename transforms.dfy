/** The keyed byte transforms of bbcrack, as values.

    `Char(op)` stands for the subclasses of `Transform_char`, whose output byte
    depends only on the input byte at the same position; the other
    constructors stand for the subclasses of `Transform_string`, whose output
    depends on the position or on neighbouring bytes. Every transform here
    keeps the length of its input. */
module Transforms {
  import opened Bytes

  /** The per-byte operations (the `transform_char` of each subclass of
      `Transform_char`), with their parameters in the order the source
      unpacks them. */
  datatype CharOp =
    | Xor(key: byte)
    | Add(key: byte)
    | XorRol(key: byte, bits: RolCount)
    | AddRol(key: byte, bits: RolCount)
    | RolAdd(bits: RolCount, key: byte)
    | XorAdd(key: byte, addKey: byte)
    | AddXor(addKey: byte, key: byte)

  datatype Transform =
    | Identity
    | Char(op: CharOp)
    | XorInc(key: byte)
    | XorDec(key: byte)
    | SubInc(key: byte)
    | XorIncRol(key: byte, bits: RolCount)
    | XorChained(key: byte)
    | XorRChained(key: byte)
    | XorRChainedAll(key: byte)

  // The per-byte operations of the subclasses that combine two steps, and
  // the obfuscations they undo.

  /** XOR_ROL: xor with the key, then rotate left. */
  function XorRolChar(k: byte, n: RolCount, b: byte): byte { Rol(b ^ k, n) }

  /** ADD_ROL: add the key, then rotate left. */
  function AddRolChar(k: byte, n: RolCount, b: byte): byte { Rol(b + k, n) }

  /** ROL_ADD: rotate left, then add the key. */
  function RolAddChar(n: RolCount, k: byte, b: byte): byte { Rol(b, n) + k }

  /** XOR_ADD: xor with the key, then add the second key. */
  function XorAddChar(x: byte, a: byte, b: byte): byte { (b ^ x) + a }

  /** ADD_XOR: add the first key, then xor with the key. */
  function AddXorChar(a: byte, x: byte, b: byte): byte { (b + a) ^ x }

  function XorRolUnchar(k: byte, n: RolCount, b: byte): byte { Rol(b, 8 - n) ^ k }

  function AddRolUnchar(k: byte, n: RolCount, b: byte): byte { Rol(b, 8 - n) - k }

  function RolAddUnchar(n: RolCount, k: byte, b: byte): byte { Rol(b - k, 8 - n) }

  function XorAddUnchar(x: byte, a: byte, b: byte): byte { (b - a) ^ x }

  function AddXorUnchar(a: byte, x: byte, b: byte): byte { (b ^ x) - a }

  /** `transform_char`: what a per-byte transform does to one byte. The bv8
      `+` wraps modulo 256, as the source's `& 0xFF` does. */
  function CharFn(op: CharOp, b: byte): byte
  {
    match op
    case Xor(k) => b ^ k
    case Add(k) => b + k
    case XorRol(k, n) => XorRolChar(k, n, b)
    case AddRol(k, n) => AddRolChar(k, n, b)
    case RolAdd(n, k) => RolAddChar(n, k, b)
    case XorAdd(x, a) => XorAddChar(x, a, b)
    case AddXor(a, x) => AddXorChar(a, x, b)
  }

  /** The obfuscation that `CharFn(op, _)` undoes. */
  function UncharFn(op: CharOp, b: byte): byte
  {
    match op
    case Xor(k) => b ^ k
    case Add(k) => b - k
    case XorRol(k, n) => XorRolUnchar(k, n, b)
    case AddRol(k, n) => AddRolUnchar(k, n, b)
    case RolAdd(n, k) => RolAddUnchar(n, k, b)
    case XorAdd(x, a) => XorAddUnchar(x, a, b)
    case AddXor(a, x) => AddXorUnchar(a, x, b)
  }

  // The rotation identities behind the per-byte round trips, stated on the
  // raw formulas so that each proof below only has to unfold one layer.

  lemma XorRolBack(k: byte, n: RolCount, b: byte)
    ensures Rol(Rol(b, 8 - n) ^ k ^ k, n) == b
  {
  }

  lemma XorRolThenBack(k: byte, n: RolCount, b: byte)
    ensures Rol(Rol(b ^ k, n), 8 - n) ^ k == b
  {
  }

  lemma AddRolBack(k: byte, n: RolCount, b: byte)
    ensures Rol(Rol(b, 8 - n) - k + k, n) == b
  {
  }

  lemma AddRolThenBack(k: byte, n: RolCount, b: byte)
    ensures Rol(Rol(b + k, n), 8 - n) - k == b
  {
  }

  lemma RolAddBack(n: RolCount, k: byte, b: byte)
    ensures Rol(Rol(b - k, 8 - n), n) + k == b
  {
  }

  lemma XorRolCharUnchar(k: byte, n: RolCount, b: byte)
    ensures XorRolChar(k, n, XorRolUnchar(k, n, b)) == b
  {
    XorRolBack(k, n, b);
    assert XorRolUnchar(k, n, b) == Rol(b, 8 - n) ^ k;
  }

  lemma XorRolUncharChar(k: byte, n: RolCount, b: byte)
    ensures XorRolUnchar(k, n, XorRolChar(k, n, b)) == b
  {
    XorRolThenBack(k, n, b);
    assert XorRolChar(k, n, b) == Rol(b ^ k, n);
  }

  lemma AddRolCharUnchar(k: byte, n: RolCount, b: byte)
    ensures AddRolChar(k, n, AddRolUnchar(k, n, b)) == b
  {
    AddRolBack(k, n, b);
    assert AddRolUnchar(k, n, b) == Rol(b, 8 - n) - k;
  }

  lemma AddRolUncharChar(k: byte, n: RolCount, b: byte)
    ensures AddRolUnchar(k, n, AddRolChar(k, n, b)) == b
  {
    AddRolThenBack(k, n, b);
    assert AddRolChar(k, n, b) == Rol(b + k, n);
  }

  lemma RolAddCharUnchar(n: RolCount, k: byte, b: byte)
    ensures RolAddChar(n, k, RolAddUnchar(n, k, b)) == b
  {
    RolAddBack(n, k, b);
    assert RolAddUnchar(n, k, b) == Rol(b - k, 8 - n);
  }

  lemma RolAddUncharChar(n: RolCount, k: byte, b: byte)
    ensures RolAddUnchar(n, k, RolAddChar(n, k, b)) == b
  {
    RolInverse(b, n);
    assert RolAddChar(n, k, b) - k == Rol(b, n);
  }

  lemma XorAddCharUnchar(x: byte, a: byte, b: byte)
    ensures XorAddChar(x, a, XorAddUnchar(x, a, b)) == b
  {
    assert XorAddUnchar(x, a, b) ^ x == b - a;
  }

  lemma XorAddUncharChar(x: byte, a: byte, b: byte)
    ensures XorAddUnchar(x, a, XorAddChar(x, a, b)) == b
  {
    assert XorAddChar(x, a, b) - a == b ^ x;
  }

  lemma AddXorCharUnchar(a: byte, x: byte, b: byte)
    ensures AddXorChar(a, x, AddXorUnchar(a, x, b)) == b
  {
    assert AddXorUnchar(a, x, b) + a == b ^ x;
  }

  lemma AddXorUncharChar(a: byte, x: byte, b: byte)
    ensures AddXorUnchar(a, x, AddXorChar(a, x, b)) == b
  {
    assert AddXorChar(a, x, b) ^ x == b + a;
  }

  // One round trip per constructor and direction.

  lemma XorDecodes(k: byte, b: byte)
    ensures CharFn(Xor(k), UncharFn(Xor(k), b)) == b
  {
  }

  lemma AddDecodes(k: byte, b: byte)
    ensures CharFn(Add(k), UncharFn(Add(k), b)) == b
  {
  }

  lemma XorRolDecodes(k: byte, n: RolCount, b: byte)
    ensures CharFn(XorRol(k, n), UncharFn(XorRol(k, n), b)) == b
  {
    XorRolCharUnchar(k, n, b);
  }

  lemma AddRolDecodes(k: byte, n: RolCount, b: byte)
    ensures CharFn(AddRol(k, n), UncharFn(AddRol(k, n), b)) == b
  {
    AddRolCharUnchar(k, n, b);
  }

  lemma RolAddDecodes(n: RolCount, k: byte, b: byte)
    ensures CharFn(RolAdd(n, k), UncharFn(RolAdd(n, k), b)) == b
  {
    RolAddCharUnchar(n, k, b);
  }

  lemma XorAddDecodes(x: byte, a: byte, b: byte)
    ensures CharFn(XorAdd(x, a), UncharFn(XorAdd(x, a), b)) == b
  {
    XorAddCharUnchar(x, a, b);
  }

  lemma AddXorDecodes(a: byte, x: byte, b: byte)
    ensures CharFn(AddXor(a, x), UncharFn(AddXor(a, x), b)) == b
  {
    AddXorCharUnchar(a, x, b);
  }

  lemma XorRecovers(k: byte, b: byte)
    ensures UncharFn(Xor(k), CharFn(Xor(k), b)) == b
  {
  }

  lemma AddRecovers(k: byte, b: byte)
    ensures UncharFn(Add(k), CharFn(Add(k), b)) == b
  {
  }

  lemma XorRolRecovers(k: byte, n: RolCount, b: byte)
    ensures UncharFn(XorRol(k, n), CharFn(XorRol(k, n), b)) == b
  {
    XorRolUncharChar(k, n, b);
  }

  lemma AddRolRecovers(k: byte, n: RolCount, b: byte)
    ensures UncharFn(AddRol(k, n), CharFn(AddRol(k, n), b)) == b
  {
    AddRolUncharChar(k, n, b);
  }

  lemma RolAddRecovers(n: RolCount, k: byte, b: byte)
    ensures UncharFn(RolAdd(n, k), CharFn(RolAdd(n, k), b)) == b
  {
    RolAddUncharChar(n, k, b);
  }

  lemma XorAddRecovers(x: byte, a: byte, b: byte)
    ensures UncharFn(XorAdd(x, a), CharFn(XorAdd(x, a), b)) == b
  {
    XorAddUncharChar(x, a, b);
  }

  lemma AddXorRecovers(a: byte, x: byte, b: byte)
    ensures UncharFn(AddXor(a, x), CharFn(AddXor(a, x), b)) == b
  {
    AddXorUncharChar(a, x, b);
  }

  /** Every per-byte transform decodes what UncharFn obfuscates. */
  lemma CharDecodes(op: CharOp, b: byte)
    ensures CharFn(op, UncharFn(op, b)) == b
  {
    match op
    case Xor(k) => XorDecodes(k, b);
    case Add(k) => AddDecodes(k, b);
    case XorRol(k, n) => XorRolDecodes(k, n, b);
    case AddRol(k, n) => AddRolDecodes(k, n, b);
    case RolAdd(n, k) => RolAddDecodes(n, k, b);
    case XorAdd(x, a) => XorAddDecodes(x, a, b);
    case AddXor(a, x) => AddXorDecodes(a, x, b);
  }

  /** UncharFn undoes every per-byte transform, so no two bytes have the
      same image. */
  lemma CharInjective(op: CharOp, b: byte)
    ensures UncharFn(op, CharFn(op, b)) == b
  {
    match op
    case Xor(k) => XorRecovers(k, b);
    case Add(k) => AddRecovers(k, b);
    case XorRol(k, n) => XorRolRecovers(k, n, b);
    case AddRol(k, n) => AddRolRecovers(k, n, b);
    case RolAdd(n, k) => RolAddRecovers(n, k, b);
    case XorAdd(x, a) => XorAddRecovers(x, a, b);
    case AddXor(a, x) => AddXorRecovers(a, x, b);
  }

  /** The 256-entry translation table `trans_table`: entry `i` is the image
      of byte `i`. */
  function TableOf(op: CharOp): (table: seq<byte>)
    ensures |table| == 256
  {
    seq(256, i requires 0 <= i < 256 => CharFn(op, i as byte))
  }

  /** Python's `str.translate(table)`: every byte is replaced by the table
      entry it indexes. */
  function Translate(data: seq<byte>, table: seq<byte>): (out: seq<byte>)
    requires |table| == 256
    ensures |out| == |data|
  {
    seq(|data|, i requires 0 <= i < |data| => table[data[i] as int])
  }

  /** The value list `l` holds at index `i` (1 <= i < |d|) when the
      right-to-left loop of XOR_RChainedAll has finished and before the last
      byte is xored with the key: the last byte itself, and every other byte
      xored with the key and with the already updated byte to its right. */
  function RChainedAcc(d: seq<byte>, k: byte, i: nat): byte
    requires 1 <= i < |d|
    decreases |d| - i
  {
    if i == |d| - 1 then d[i] else d[i] ^ k ^ RChainedAcc(d, k, i + 1)
  }

  /** Byte `i` of the output of XOR_RChainedAll: the last byte is xored with
      the key, the first is left as it is, and the others are what the loop
      left there. */
  function RChainedAllByte(d: seq<byte>, k: byte, i: nat): byte
    requires i < |d|
  {
    if i == |d| - 1 then d[i] ^ k
    else if i == 0 then d[0]
    else RChainedAcc(d, k, i)
  }

  /** Byte `i` of the obfuscation XOR_RChainedAll undoes. */
  function RChainedAllEncodeByte(p: seq<byte>, k: byte, i: nat): byte
    requires i < |p|
  {
    if i == |p| - 1 then p[i] ^ k
    else if i == 0 then p[0]
    else if i == |p| - 2 then p[i] ^ p[i + 1]
    else p[i] ^ k ^ p[i + 1]
  }

  // ---------------------------------------------------------------------
  // The output of each family's `transform_string`.

  /** Transform_char.transform_string: `transform_char` on every byte. */
  function CharOut(op: CharOp, data: seq<byte>): (out: seq<byte>)
    ensures |out| == |data|
  {
    seq(|data|, i requires 0 <= i < |data| => CharFn(op, data[i]))
  }

  /** XOR_INC: byte `i` xored with `(key + i) & 0xFF`. */
  function XorIncOut(k: byte, data: seq<byte>): (out: seq<byte>)
    ensures |out| == |data|
  {
    seq(|data|, i requires 0 <= i < |data| => data[i] ^ IncKey(k, i))
  }

  /** XOR_DEC: byte `i` xored with `(key + 0xFF - i) & 0xFF`. */
  function XorDecOut(k: byte, data: seq<byte>): (out: seq<byte>)
    ensures |out| == |data|
  {
    seq(|data|, i requires 0 <= i < |data| => data[i] ^ DecKey(k, i))
  }

  /** SUB_INC: `(key + i) & 0xFF` subtracted from byte `i`, modulo 256. */
  function SubIncOut(k: byte, data: seq<byte>): (out: seq<byte>)
    ensures |out| == |data|
  {
    seq(|data|, i requires 0 <= i < |data| => data[i] - IncKey(k, i))
  }

  /** XOR_INC_ROL: byte `i` xored with `(key + i) & 0xFF`, then rotated. */
  function XorIncRolOut(k: byte, n: RolCount, data: seq<byte>): (out: seq<byte>)
    ensures |out| == |data|
  {
    seq(|data|, i requires 0 <= i < |data| => XorRolChar(IncKey(k, i), n, data[i]))
  }

  /** XOR_Chained: the first byte xored with the key, every other one with
      the key and with the input byte before it. */
  function XorChainedOut(k: byte, data: seq<byte>): (out: seq<byte>)
    ensures |out| == |data|
  {
    seq(|data|, i requires 0 <= i < |data| =>
      if i == 0 then data[0] ^ k else data[i] ^ k ^ data[i - 1])
  }

  /** XOR_RChained: the last byte xored with the key, every other one with
      the key and with the input byte after it. */
  function XorRChainedOut(k: byte, data: seq<byte>): (out: seq<byte>)
    ensures |out| == |data|
  {
    seq(|data|, i requires 0 <= i < |data| =>
      if i == |data| - 1 then data[i] ^ k else data[i] ^ k ^ data[i + 1])
  }

  /** XOR_RChainedAll: see RChainedAllByte. */
  function XorRChainedAllOut(k: byte, data: seq<byte>): (out: seq<byte>)
    ensures |out| == |data|
  {
    seq(|data|, i requires 0 <= i < |data| => RChainedAllByte(data, k, i))
  }

  /** `transform_string` of every transform; every one keeps the length. */
  function Apply(t: Transform, data: seq<byte>): (out: seq<byte>)
    ensures |out| == |data|
  {
    match t
    case Identity => data
    case Char(op) => CharOut(op, data)
    case XorInc(k) => XorIncOut(k, data)
    case XorDec(k) => XorDecOut(k, data)
    case SubInc(k) => SubIncOut(k, data)
    case XorIncRol(k, n) => XorIncRolOut(k, n, data)
    case XorChained(k) => XorChainedOut(k, data)
    case XorRChained(k) => XorRChainedOut(k, data)
    case XorRChainedAll(k) => XorRChainedAllOut(k, data)
  }

  // ---------------------------------------------------------------------
  // Inverses: the obfuscation each transform decodes.

  function CharEncode(op: CharOp, plain: seq<byte>): (data: seq<byte>)
    ensures |data| == |plain|
  {
    seq(|plain|, i requires 0 <= i < |plain| => UncharFn(op, plain[i]))
  }

  function SubIncEncode(k: byte, plain: seq<byte>): (data: seq<byte>)
    ensures |data| == |plain|
  {
    seq(|plain|, i requires 0 <= i < |plain| => plain[i] + IncKey(k, i))
  }

  function XorIncRolEncode(k: byte, n: RolCount, plain: seq<byte>): (data: seq<byte>)
    ensures |data| == |plain|
  {
    seq(|plain|, i requires 0 <= i < |plain| => XorRolUnchar(IncKey(k, i), n, plain[i]))
  }

  /** Left-chained obfuscation, byte `i`: the plain byte xored with the key
      and with the previous obfuscated byte (0 before the first). */
  function ChainByte(p: seq<byte>, k: byte, i: nat): byte
    requires i < |p|
  {
    p[i] ^ k ^ (if i == 0 then 0 else ChainByte(p, k, i - 1))
  }

  function XorChainedEncode(k: byte, plain: seq<byte>): (data: seq<byte>)
    ensures |data| == |plain|
  {
    seq(|plain|, i requires 0 <= i < |plain| => ChainByte(plain, k, i))
  }

  /** Right-chained obfuscation, byte `i`: the plain byte xored with the key
      and with the next obfuscated byte (0 after the last). */
  function RChainByte(p: seq<byte>, k: byte, i: nat): byte
    requires i < |p|
    decreases |p| - i
  {
    p[i] ^ k ^ (if i == |p| - 1 then 0 else RChainByte(p, k, i + 1))
  }

  function XorRChainedEncode(k: byte, plain: seq<byte>): (data: seq<byte>)
    ensures |data| == |plain|
  {
    seq(|plain|, i requires 0 <= i < |plain| => RChainByte(plain, k, i))
  }

  function XorRChainedAllEncode(k: byte, plain: seq<byte>): (data: seq<byte>)
    ensures |data| == |plain|
  {
    seq(|plain|, i requires 0 <= i < |plain| => RChainedAllEncodeByte(plain, k, i))
  }

  /** For every transform, the input it decodes into `plain`. The xor
      families with a position key are their own inverse. */
  function Encode(t: Transform, plain: seq<byte>): (data: seq<byte>)
    ensures |data| == |plain|
  {
    match t
    case Identity => plain
    case Char(op) => CharEncode(op, plain)
    case XorInc(k) => XorIncOut(k, plain)
    case XorDec(k) => XorDecOut(k, plain)
    case SubInc(k) => SubIncEncode(k, plain)
    case XorIncRol(k, n) => XorIncRolEncode(k, n, plain)
    case XorChained(k) => XorChainedEncode(k, plain)
    case XorRChained(k) => XorRChainedEncode(k, plain)
    case XorRChainedAll(k) => XorRChainedAllEncode(k, plain)
  }
}
