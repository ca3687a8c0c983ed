/** The `transform_string` methods of bbcrack as the source runs them: a
    per-byte transform fills its translation table in a 256-step loop and
    translates through it; the stream transforms build their output byte by
    byte; XOR_RChainedAll updates a list in place from right to left. Each
    method is proved to compute `Transforms.Apply`. */
module TransformMethods {
  import opened Bytes
  import opened Transforms
  import TransformProps

  /** A `Transform_char` object: a per-byte operation and the translation
      table its `transform_string` builds. */
  class CharTransform {
    const op: CharOp
    var transTable: seq<byte>

    constructor (op: CharOp)
      ensures this.op == op && transTable == []
    {
      this.op := op;
      transTable := [];
    }

    /** Builds the 256-entry table from `transform_char`, then translates
        `data` through it. */
    method TransformString(data: seq<byte>) returns (out: seq<byte>)
      modifies this
      ensures transTable == TableOf(op)
      ensures out == Apply(Char(op), data)
    {
      transTable := [];
      var i := 0;
      while i < 256
        invariant 0 <= i <= 256
        invariant transTable == TableOf(op)[..i]
      {
        transTable := transTable + [CharFn(op, i as byte)];
        i := i + 1;
      }
      out := Translate(data, transTable);
      TransformProps.TranslateTable(op, data);
    }
  }

  method XorIncString(key: byte, data: seq<byte>) returns (out: seq<byte>)
    ensures out == Apply(XorInc(key), data)
  {
    out := [];
    for i := 0 to |data|
      invariant out == XorIncOut(key, data)[..i]
    {
      var xorKey := IncKey(key, i);
      assert XorIncOut(key, data)[i] == data[i] ^ xorKey;
      out := out + [data[i] ^ xorKey];
    }
  }

  method XorDecString(key: byte, data: seq<byte>) returns (out: seq<byte>)
    ensures out == Apply(XorDec(key), data)
  {
    out := [];
    for i := 0 to |data|
      invariant out == XorDecOut(key, data)[..i]
    {
      var xorKey := DecKey(key, i);
      assert XorDecOut(key, data)[i] == data[i] ^ xorKey;
      out := out + [data[i] ^ xorKey];
    }
  }

  method SubIncString(key: byte, data: seq<byte>) returns (out: seq<byte>)
    ensures out == Apply(SubInc(key), data)
  {
    out := [];
    for i := 0 to |data|
      invariant out == SubIncOut(key, data)[..i]
    {
      var subKey := IncKey(key, i);
      assert SubIncOut(key, data)[i] == data[i] - subKey;
      out := out + [data[i] - subKey];
    }
  }

  method XorIncRolString(key: byte, bits: RolCount, data: seq<byte>) returns (out: seq<byte>)
    ensures out == Apply(XorIncRol(key, bits), data)
  {
    out := [];
    for i := 0 to |data|
      invariant out == XorIncRolOut(key, bits, data)[..i]
    {
      var xorKey := IncKey(key, i);
      assert XorIncRolOut(key, bits, data)[i] == XorRolChar(xorKey, bits, data[i]);
      out := out + [XorRolChar(xorKey, bits, data[i])];
    }
  }

  method XorChainedString(key: byte, data: seq<byte>) returns (out: seq<byte>)
    ensures out == Apply(XorChained(key), data)
  {
    if |data| == 0 {
      return [];
    }
    ghost var want := XorChainedOut(key, data);
    out := [data[0] ^ key];
    assert want[0] == data[0] ^ key;
    for i := 1 to |data|
      invariant out == want[..i]
    {
      assert want[i] == data[i] ^ key ^ data[i - 1];
      out := out + [data[i] ^ key ^ data[i - 1]];
    }
    assert want[..|data|] == want;
  }

  method XorRChainedString(key: byte, data: seq<byte>) returns (out: seq<byte>)
    ensures out == Apply(XorRChained(key), data)
  {
    if |data| == 0 {
      return [];
    }
    out := [];
    for i := 0 to |data| - 1
      invariant out == XorRChainedOut(key, data)[..i]
    {
      assert XorRChainedOut(key, data)[i] == data[i] ^ key ^ data[i + 1];
      out := out + [data[i] ^ key ^ data[i + 1]];
    }
    out := out + [data[|data| - 1] ^ key];
  }

  /** What list `l` of XOR_RChainedAll holds at index `j` once the loop has
      reached `i`: the bytes from `i` on (except byte 0) are updated, the
      others are still the input. */
  ghost function LoopByte(data: seq<byte>, key: byte, i: nat, j: nat): byte
    requires j < |data|
  {
    if 1 <= j && i <= j then RChainedAcc(data, key, j) else data[j]
  }

  /** One step of the loop updates byte `i - 1` and nothing else. */
  lemma LoopStep(data: seq<byte>, key: byte, i: nat)
    requires 2 <= i < |data|
    ensures LoopByte(data, key, i - 1, i - 1) == LoopByte(data, key, i, i - 1) ^ key ^ LoopByte(data, key, i, i)
    ensures forall j | 0 <= j < |data| && j != i - 1 :: LoopByte(data, key, i - 1, j) == LoopByte(data, key, i, j)
  {
  }

  /** Once the loop stops, the last byte xored with the key completes the
      output of XOR_RChainedAll. */
  lemma LoopDone(data: seq<byte>, key: byte, i: nat)
    requires 0 <= i <= 1 && i < |data|
    ensures forall j | 0 <= j < |data| - 1 :: LoopByte(data, key, i, j) == XorRChainedAllOut(key, data)[j]
    ensures LoopByte(data, key, i, |data| - 1) ^ key == XorRChainedAllOut(key, data)[|data| - 1]
  {
  }

  method XorRChainedAllString(key: byte, data: seq<byte>) returns (out: seq<byte>)
    ensures out == Apply(XorRChainedAll(key), data)
  {
    var n := |data|;
    if n == 0 {
      return [];
    }
    var l := new byte[n](j requires 0 <= j < n => data[j]);
    // from the last byte down to the second: l[i - 1] takes in l[i]
    var i := n - 1;
    while i > 1
      invariant 0 <= i < n
      invariant forall j | 0 <= j < n :: l[j] == LoopByte(data, key, i, j)
    {
      LoopStep(data, key, i);
      l[i - 1] := l[i - 1] ^ key ^ l[i];
      i := i - 1;
    }
    LoopDone(data, key, i);
    l[n - 1] := l[n - 1] ^ key;
    out := l[..];
  }

  /** `transform_string` of any transform. */
  method TransformString(t: Transform, data: seq<byte>) returns (out: seq<byte>)
    ensures out == Apply(t, data)
  {
    match t
    case Identity =>
      out := data;
    case Char(op) =>
      var c := new CharTransform(op);
      out := c.TransformString(data);
    case XorInc(k) =>
      out := XorIncString(k, data);
    case XorDec(k) =>
      out := XorDecString(k, data);
    case SubInc(k) =>
      out := SubIncString(k, data);
    case XorIncRol(k, n) =>
      out := XorIncRolString(k, n, data);
    case XorChained(k) =>
      out := XorChainedString(k, data);
    case XorRChained(k) =>
      out := XorRChainedString(k, data);
    case XorRChainedAll(k) =>
      out := XorRChainedAllString(k, data);
  }
}
