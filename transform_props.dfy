/** What the transforms of bbcrack promise about each other: every one of
    them is a bijection on byte strings of a given length (its encoder in
    module Transforms is the inverse on both sides), the translation table of
    a per-byte transform does what `transform_char` does, and the
    right-to-left loop of XOR_RChainedAll has a closed form. */
module TransformProps {
  import opened Bytes
  import opened Transforms

  // ---------------------------------------------------------------------
  // Per-byte transforms.

  /** `Transform_char.transform_string` (translating through the 256-entry
      table) computes `transform_char` on every byte. */
  lemma TranslateTable(op: CharOp, data: seq<byte>)
    ensures Translate(data, TableOf(op)) == Apply(Char(op), data)
  {
    var table := TableOf(op);
    forall i | 0 <= i < |data|
      ensures Translate(data, table)[i] == CharOut(op, data)[i]
    {
      assert (data[i] as int) as byte == data[i];
    }
  }

  lemma CharApplyEncode(op: CharOp, p: seq<byte>)
    ensures CharOut(op, CharEncode(op, p)) == p
  {
    var e := CharEncode(op, p);
    forall i | 0 <= i < |p| ensures CharOut(op, e)[i] == p[i] {
      assert e[i] == UncharFn(op, p[i]);
      CharDecodes(op, p[i]);
    }
  }

  lemma CharEncodeApply(op: CharOp, d: seq<byte>)
    ensures CharEncode(op, CharOut(op, d)) == d
  {
    var a := CharOut(op, d);
    forall i | 0 <= i < |d| ensures CharEncode(op, a)[i] == d[i] {
      assert a[i] == CharFn(op, d[i]);
      CharInjective(op, d[i]);
    }
  }

  /** XOR with a key: applying it twice gives the input back. */
  lemma XorTwice(k: byte, d: seq<byte>)
    ensures Apply(Char(Xor(k)), Apply(Char(Xor(k)), d)) == d
  {
    CharEncodeApply(Xor(k), d);
    assert CharEncode(Xor(k), CharOut(Xor(k), d)) == CharOut(Xor(k), CharOut(Xor(k), d));
  }

  // ---------------------------------------------------------------------
  // Position-keyed transforms.

  /** XOR_INC and XOR_DEC: applying one twice gives the input back. */
  lemma XorIncTwice(k: byte, d: seq<byte>)
    ensures XorIncOut(k, XorIncOut(k, d)) == d
  {
  }

  lemma XorDecTwice(k: byte, d: seq<byte>)
    ensures XorDecOut(k, XorDecOut(k, d)) == d
  {
  }

  lemma SubIncApplyEncode(k: byte, p: seq<byte>)
    ensures SubIncOut(k, SubIncEncode(k, p)) == p
  {
  }

  lemma SubIncEncodeApply(k: byte, d: seq<byte>)
    ensures SubIncEncode(k, SubIncOut(k, d)) == d
  {
  }

  lemma XorIncRolApplyEncode(k: byte, n: RolCount, p: seq<byte>)
    ensures XorIncRolOut(k, n, XorIncRolEncode(k, n, p)) == p
  {
    forall i | 0 <= i < |p| ensures XorIncRolOut(k, n, XorIncRolEncode(k, n, p))[i] == p[i] {
      XorRolCharUnchar(IncKey(k, i), n, p[i]);
    }
  }

  lemma XorIncRolEncodeApply(k: byte, n: RolCount, d: seq<byte>)
    ensures XorIncRolEncode(k, n, XorIncRolOut(k, n, d)) == d
  {
    forall i | 0 <= i < |d| ensures XorIncRolEncode(k, n, XorIncRolOut(k, n, d))[i] == d[i] {
      XorRolUncharChar(IncKey(k, i), n, d[i]);
    }
  }

  // ---------------------------------------------------------------------
  // Left-chained and right-chained xor (XOR_Chained, XOR_RChained).

  lemma ChainedApplyEncode(k: byte, p: seq<byte>)
    ensures XorChainedOut(k, XorChainedEncode(k, p)) == p
  {
  }

  lemma {:induction false} ChainedRecoversAt(k: byte, d: seq<byte>, i: nat)
    requires i < |d|
    ensures ChainByte(XorChainedOut(k, d), k, i) == d[i]
    decreases i
  {
    if 0 < i {
      ChainedRecoversAt(k, d, i - 1);
    }
  }

  lemma ChainedEncodeApply(k: byte, d: seq<byte>)
    ensures XorChainedEncode(k, XorChainedOut(k, d)) == d
  {
    forall i | 0 <= i < |d| ensures XorChainedEncode(k, XorChainedOut(k, d))[i] == d[i] {
      ChainedRecoversAt(k, d, i);
    }
  }

  lemma RChainedApplyEncode(k: byte, p: seq<byte>)
    ensures XorRChainedOut(k, XorRChainedEncode(k, p)) == p
  {
  }

  lemma {:induction false} RChainedRecoversAt(k: byte, d: seq<byte>, i: nat)
    requires i < |d|
    ensures RChainByte(XorRChainedOut(k, d), k, i) == d[i]
    decreases |d| - i
  {
    if i < |d| - 1 {
      RChainedRecoversAt(k, d, i + 1);
    }
  }

  lemma RChainedEncodeApply(k: byte, d: seq<byte>)
    ensures XorRChainedEncode(k, XorRChainedOut(k, d)) == d
  {
    forall i | 0 <= i < |d| ensures XorRChainedEncode(k, XorRChainedOut(k, d))[i] == d[i] {
      RChainedRecoversAt(k, d, i);
    }
  }

  // ---------------------------------------------------------------------
  // XOR_RChainedAll.

  /** The byte the loop leaves at index `i` is the xor of all the bytes from
      `i` to the end, together with the key when `i` lies an odd distance
      from the last byte. */
  lemma {:induction false} RChainedAccClosedForm(d: seq<byte>, k: byte, i: nat)
    requires 1 <= i < |d|
    ensures RChainedAcc(d, k, i) == XorAll(d[i..]) ^ (if (|d| - 1 - i) % 2 == 1 then k else 0)
    decreases |d| - i
  {
    assert d[i..][1..] == d[i + 1..];
    if i < |d| - 1 {
      RChainedAccClosedForm(d, k, i + 1);
    }
  }

  lemma AccStep(d: seq<byte>, k: byte, i: nat)
    requires 1 <= i < |d| - 1
    ensures RChainedAcc(d, k, i) == d[i] ^ k ^ RChainedAcc(d, k, i + 1)
  {
  }

  lemma AccLast(d: seq<byte>, k: byte)
    requires 2 <= |d|
    ensures RChainedAcc(d, k, |d| - 1) == d[|d| - 1]
  {
  }

  lemma OutInner(k: byte, d: seq<byte>, i: nat)
    requires 1 <= i <= |d| - 2
    ensures XorRChainedAllOut(k, d)[i] == RChainedAcc(d, k, i)
  {
  }

  lemma OutEnds(k: byte, d: seq<byte>)
    ensures |d| >= 1 ==> XorRChainedAllOut(k, d)[|d| - 1] == d[|d| - 1] ^ k
    ensures |d| >= 2 ==> XorRChainedAllOut(k, d)[0] == d[0]
  {
  }

  /** The output of XOR_RChainedAll position by position, as its loop
      builds it: the last byte is xored with the key, the one before it with
      the key and the last input byte, every other byte but the first with
      the key and the output byte to its right, and the first byte (when
      there is more than one) is left alone. */
  lemma RChainedAllShape(k: byte, d: seq<byte>)
    ensures |XorRChainedAllOut(k, d)| == |d|
    ensures |d| >= 1 ==> XorRChainedAllOut(k, d)[|d| - 1] == d[|d| - 1] ^ k
    ensures |d| >= 3 ==> XorRChainedAllOut(k, d)[|d| - 2] == d[|d| - 2] ^ k ^ d[|d| - 1]
    ensures forall i | 1 <= i <= |d| - 3 ::
      XorRChainedAllOut(k, d)[i] == d[i] ^ k ^ XorRChainedAllOut(k, d)[i + 1]
    ensures |d| >= 2 ==> XorRChainedAllOut(k, d)[0] == d[0]
  {
    OutEnds(k, d);
    if |d| >= 3 {
      OutInner(k, d, |d| - 2);
      AccStep(d, k, |d| - 2);
      AccLast(d, k);
    }
    forall i | 1 <= i <= |d| - 3
      ensures XorRChainedAllOut(k, d)[i] == d[i] ^ k ^ XorRChainedAllOut(k, d)[i + 1]
    {
      OutInner(k, d, i);
      OutInner(k, d, i + 1);
      AccStep(d, k, i);
    }
  }

  /** The same output in closed form: for `0 < i < |d| - 1`, byte `i` is
      the xor of the input from `i` to the end, and carries the key only
      when `i` is an odd distance from the last byte. */
  lemma RChainedAllClosedForm(k: byte, d: seq<byte>, i: nat)
    requires 0 < i < |d| - 1
    ensures XorRChainedAllOut(k, d)[i] ==
      XorAll(d[i..]) ^ (if (|d| - 1 - i) % 2 == 1 then k else 0)
  {
    RChainedAccClosedForm(d, k, i);
  }

  lemma {:induction false} RChainedAllDecodesAt(k: byte, p: seq<byte>, e: seq<byte>, i: nat)
    requires e == XorRChainedAllEncode(k, p)
    requires 1 <= i <= |p| - 2
    ensures RChainedAcc(e, k, i) == p[i]
    decreases |p| - i
  {
    assert e[i] == RChainedAllEncodeByte(p, k, i);
    if i == |p| - 2 {
      assert e[i + 1] == p[i + 1] ^ k;
      assert RChainedAcc(e, k, i + 1) == e[i + 1];
    } else {
      RChainedAllDecodesAt(k, p, e, i + 1);
    }
  }

  lemma RChainedAllApplyEncode(k: byte, p: seq<byte>)
    ensures XorRChainedAllOut(k, XorRChainedAllEncode(k, p)) == p
  {
    var e := XorRChainedAllEncode(k, p);
    forall i | 0 <= i < |p| ensures XorRChainedAllOut(k, e)[i] == p[i] {
      if 1 <= i <= |p| - 2 {
        RChainedAllDecodesAt(k, p, e, i);
      }
    }
  }

  lemma XorCancelLast(x: byte, k: byte, y: byte)
    ensures (x ^ k ^ y) ^ (y ^ k) == x
  {
  }

  lemma XorCancelInner(x: byte, k: byte, y: byte)
    ensures (x ^ k ^ y) ^ k ^ y == x
  {
  }

  lemma EncodeInner(a: seq<byte>, k: byte, i: nat)
    requires 1 <= i < |a| - 2
    ensures RChainedAllEncodeByte(a, k, i) == a[i] ^ k ^ a[i + 1]
  {
  }

  lemma RChainedAllRecoversBeforeLast(k: byte, d: seq<byte>, i: nat)
    requires 1 <= i && i == |d| - 2
    ensures RChainedAllEncodeByte(XorRChainedAllOut(k, d), k, i) == d[i]
  {
    OutInner(k, d, i);
    AccStep(d, k, i);
    AccLast(d, k);
    OutEnds(k, d);
    XorCancelLast(d[i], k, d[i + 1]);
  }

  lemma RChainedAllRecoversInner(k: byte, d: seq<byte>, i: nat)
    requires 1 <= i < |d| - 2
    ensures RChainedAllEncodeByte(XorRChainedAllOut(k, d), k, i) == d[i]
  {
    OutInner(k, d, i);
    OutInner(k, d, i + 1);
    AccStep(d, k, i);
    EncodeInner(XorRChainedAllOut(k, d), k, i);
    XorCancelInner(d[i], k, RChainedAcc(d, k, i + 1));
  }

  lemma RChainedAllEncodeApply(k: byte, d: seq<byte>)
    ensures XorRChainedAllEncode(k, XorRChainedAllOut(k, d)) == d
  {
    var a := XorRChainedAllOut(k, d);
    forall i | 0 <= i < |d| ensures XorRChainedAllEncode(k, a)[i] == d[i] {
      if i == |d| - 1 || i == 0 {
        OutEnds(k, d);
      } else if i == |d| - 2 {
        RChainedAllRecoversBeforeLast(k, d, i);
      } else {
        RChainedAllRecoversInner(k, d, i);
      }
    }
  }

  // ---------------------------------------------------------------------
  // Every transform.

  /** Every transform decodes what its encoder produces. */
  lemma ApplyEncode(t: Transform, p: seq<byte>)
    ensures Apply(t, Encode(t, p)) == p
  {
    match t
    case Identity =>
    case Char(op) => CharApplyEncode(op, p);
    case XorInc(k) => XorIncTwice(k, p);
    case XorDec(k) => XorDecTwice(k, p);
    case SubInc(k) => SubIncApplyEncode(k, p);
    case XorIncRol(k, n) => XorIncRolApplyEncode(k, n, p);
    case XorChained(k) => ChainedApplyEncode(k, p);
    case XorRChained(k) => RChainedApplyEncode(k, p);
    case XorRChainedAll(k) => RChainedAllApplyEncode(k, p);
  }

  /** Every transform loses nothing: its encoder recovers the input. */
  lemma EncodeApply(t: Transform, d: seq<byte>)
    ensures Encode(t, Apply(t, d)) == d
  {
    match t
    case Identity =>
    case Char(op) => CharEncodeApply(op, d);
    case XorInc(k) => XorIncTwice(k, d);
    case XorDec(k) => XorDecTwice(k, d);
    case SubInc(k) => SubIncEncodeApply(k, d);
    case XorIncRol(k, n) => XorIncRolEncodeApply(k, n, d);
    case XorChained(k) => ChainedEncodeApply(k, d);
    case XorRChained(k) => RChainedEncodeApply(k, d);
    case XorRChainedAll(k) => RChainedAllEncodeApply(k, d);
  }

  /** Two different inputs never give the same output. */
  lemma ApplyInjective(t: Transform, d1: seq<byte>, d2: seq<byte>)
    requires Apply(t, d1) == Apply(t, d2)
    ensures d1 == d2
  {
    EncodeApply(t, d1);
    EncodeApply(t, d2);
  }
}
