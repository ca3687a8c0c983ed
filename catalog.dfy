/** The transform catalogue of bbcrack: the transform classes, the
    parameters each one enumerates (`iter_params`), what its constructor
    accepts, and the three tiers the command line chooses from. */
module Catalog {
  import opened Bytes
  import opened Transforms

  /** One transform class of the source. */
  datatype Family =
    | TransformIdentity
    | TransformXor
    | TransformXorInc
    | TransformXorDec
    | TransformXorIncRol
    | TransformSubInc
    | TransformXorChained
    | TransformXorRChained
    | TransformXorRChainedAll
    | TransformXorRol
    | TransformAdd
    | TransformAddRol
    | TransformRolAdd
    | TransformXorAdd
    | TransformAddXor

  /** The class attribute `gen_id`, by which `-t` names a class. */
  function GenId(f: Family): string
  {
    match f
    case TransformIdentity => "ident"
    case TransformXor => "xor"
    case TransformXorInc => "xor_inc"
    case TransformXorDec => "xor_dec"
    case TransformXorIncRol => "xor_inc_rol"
    case TransformSubInc => "sub_inc"
    case TransformXorChained => "xor_chained"
    case TransformXorRChained => "xor_rchained"
    case TransformXorRChainedAll => "xor_rchained_all"
    case TransformXorRol => "xor_rol"
    case TransformAdd => "add"
    case TransformAddRol => "add_rol"
    case TransformRolAdd => "rol_add"
    case TransformXorAdd => "xor_add"
    case TransformAddXor => "add_xor"
  }

  // ---------------------------------------------------------------------
  // Parameters.

  /** A value a constructor is given: `None`, an int, or a pair of ints. */
  datatype Param = NoParam | Single(v: int) | Pair(a: int, b: int)

  /** `v` for v in `lo .. hi - 1`, ascending. */
  function Singles(lo: int, hi: int): seq<Param>
  {
    if lo < hi then seq(hi - lo, i requires 0 <= i < hi - lo => Single(lo + i)) else []
  }

  /** `(a, b)` for b in `lo .. hi - 1`, ascending. */
  function Row(a: int, lo: int, hi: int): seq<Param>
  {
    if lo < hi then seq(hi - lo, i requires 0 <= i < hi - lo => Pair(a, lo + i)) else []
  }

  /** Two nested loops, the first component outside: `(a, b)` for a in
      `lo1 .. hi1 - 1` and, within each, b in `lo2 .. hi2 - 1`. */
  function Pairs(lo1: int, hi1: int, lo2: int, hi2: int): seq<Param>
    decreases hi1 - lo1
  {
    if lo1 < hi1 then Row(lo1, lo2, hi2) + Pairs(lo1 + 1, hi1, lo2, hi2) else []
  }

  /** `iter_params` of every class. */
  function Params(f: Family): seq<Param>
  {
    match f
    case TransformIdentity => [NoParam]
    case TransformXor => Singles(1, 256)
    case TransformAdd => Singles(1, 256)
    case TransformXorInc => Singles(0, 256)
    case TransformXorDec => Singles(0, 256)
    case TransformSubInc => Singles(0, 256)
    case TransformXorChained => Singles(0, 256)
    case TransformXorRChained => Singles(0, 256)
    case TransformXorRChainedAll => Singles(0, 256)
    case TransformXorRol => Pairs(1, 256, 1, 8)
    case TransformAddRol => Pairs(1, 256, 1, 8)
    case TransformXorIncRol => Pairs(0, 256, 1, 8)
    case TransformRolAdd => Pairs(1, 8, 1, 256)
    case TransformXorAdd => Pairs(1, 256, 1, 256)
    case TransformAddXor => Pairs(1, 256, 1, 256)
  }

  /** The order `iter_params` yields in: ints ascending, pairs ascending by
      their first component and then by their second. */
  predicate ParamLess(p: Param, q: Param)
  {
    match (p, q)
    case (Single(x), Single(y)) => x < y
    case (Pair(a1, b1), Pair(a2, b2)) => a1 < a2 || (a1 == a2 && b1 < b2)
    case _ => false
  }

  predicate Ascending(ps: seq<Param>)
  {
    forall i, j | 0 <= i < j < |ps| :: ParamLess(ps[i], ps[j])
  }

  lemma {:induction false} PairsMembers(lo1: int, hi1: int, lo2: int, hi2: int, p: Param)
    ensures p in Pairs(lo1, hi1, lo2, hi2) <==>
      p.Pair? && lo1 <= p.a < hi1 && lo2 <= p.b < hi2
    decreases hi1 - lo1
  {
    if lo1 < hi1 {
      PairsMembers(lo1 + 1, hi1, lo2, hi2, p);
      if p.Pair? && p.a == lo1 && lo2 <= p.b < hi2 {
        assert p == Row(lo1, lo2, hi2)[p.b - lo2];
      }
    }
  }

  lemma {:induction false} PairsAscending(lo1: int, hi1: int, lo2: int, hi2: int)
    ensures Ascending(Pairs(lo1, hi1, lo2, hi2))
    decreases hi1 - lo1
  {
    if lo1 < hi1 {
      var row := Row(lo1, lo2, hi2);
      var rest := Pairs(lo1 + 1, hi1, lo2, hi2);
      PairsAscending(lo1 + 1, hi1, lo2, hi2);
      forall j | 0 <= j < |rest| ensures rest[j].Pair? && rest[j].a > lo1 {
        PairsMembers(lo1 + 1, hi1, lo2, hi2, rest[j]);
      }
    }
  }

  lemma {:induction false} PairsLength(lo1: int, hi1: int, lo2: int, hi2: int)
    requires lo1 <= hi1 && lo2 <= hi2
    ensures |Pairs(lo1, hi1, lo2, hi2)| == (hi1 - lo1) * (hi2 - lo2)
    decreases hi1 - lo1
  {
    if lo1 < hi1 {
      PairsLength(lo1 + 1, hi1, lo2, hi2);
      assert (hi1 - lo1) * (hi2 - lo2) == (hi2 - lo2) + (hi1 - (lo1 + 1)) * (hi2 - lo2);
    }
  }

  /** The smallest key (the first component of a pair) `iter_params`
      yields: 1 where a zero key would make the transform the identity. */
  function KeyFloor(f: Family): int
  {
    if f in {TransformXor, TransformAdd, TransformXorRol, TransformAddRol,
             TransformXorAdd, TransformAddXor} then 1 else 0
  }

  /** Exactly the values each `iter_params` yields. */
  lemma ParamsMembers(f: Family, p: Param)
    ensures p in Params(f) <==>
      match f
      case TransformIdentity => p == NoParam
      case TransformXorRol => p.Pair? && 1 <= p.a < 256 && 1 <= p.b < 8
      case TransformAddRol => p.Pair? && 1 <= p.a < 256 && 1 <= p.b < 8
      case TransformXorIncRol => p.Pair? && 0 <= p.a < 256 && 1 <= p.b < 8
      case TransformRolAdd => p.Pair? && 1 <= p.a < 8 && 1 <= p.b < 256
      case TransformXorAdd => p.Pair? && 1 <= p.a < 256 && 1 <= p.b < 256
      case TransformAddXor => p.Pair? && 1 <= p.a < 256 && 1 <= p.b < 256
      case _ => p.Single? && KeyFloor(f) <= p.v < 256
  {
    match f
    case TransformIdentity =>
    case TransformXorRol => PairsMembers(1, 256, 1, 8, p);
    case TransformAddRol => PairsMembers(1, 256, 1, 8, p);
    case TransformXorIncRol => PairsMembers(0, 256, 1, 8, p);
    case TransformRolAdd => PairsMembers(1, 8, 1, 256, p);
    case TransformXorAdd => PairsMembers(1, 256, 1, 256, p);
    case TransformAddXor => PairsMembers(1, 256, 1, 256, p);
    case _ =>
      if p.Single? && KeyFloor(f) <= p.v < 256 {
        assert p == Params(f)[p.v - KeyFloor(f)];
      }
  }

  /** Every `iter_params` yields in strictly ascending order (so never the
      same value twice), the first component of a pair as the outer loop. */
  lemma ParamsAscending(f: Family)
    ensures Ascending(Params(f))
  {
    match f
    case TransformXorRol => PairsAscending(1, 256, 1, 8);
    case TransformAddRol => PairsAscending(1, 256, 1, 8);
    case TransformXorIncRol => PairsAscending(0, 256, 1, 8);
    case TransformRolAdd => PairsAscending(1, 8, 1, 256);
    case TransformXorAdd => PairsAscending(1, 256, 1, 256);
    case TransformAddXor => PairsAscending(1, 256, 1, 256);
    case _ =>
  }

  /** The number of values `iter_params` yields, class by class. */
  function ParamCount(f: Family): nat
  {
    match f
    case TransformIdentity => 1
    case TransformXor => 255
    case TransformAdd => 255
    case TransformXorRol => 255 * 7
    case TransformAddRol => 255 * 7
    case TransformXorIncRol => 256 * 7
    case TransformRolAdd => 7 * 255
    case TransformXorAdd => 255 * 255
    case TransformAddXor => 255 * 255
    case _ => 256
  }

  /** How many parameter values each class yields. */
  lemma ParamsCount(f: Family)
    ensures |Params(f)| == ParamCount(f)
  {
    match f
    case TransformXorRol => PairsLength(1, 256, 1, 8);
    case TransformAddRol => PairsLength(1, 256, 1, 8);
    case TransformXorIncRol => PairsLength(0, 256, 1, 8);
    case TransformRolAdd => PairsLength(1, 8, 1, 256);
    case TransformXorAdd => PairsLength(1, 256, 1, 256);
    case TransformAddXor => PairsLength(1, 256, 1, 256);
    case _ =>
  }

  // ---------------------------------------------------------------------
  // Constructors.

  /** Why a constructor call does not give a transform:
      `AssertionFailed` — one of its `assert`s fails;
      `FormatError` — formatting its name with `%` raises, because the
      parameter has the wrong shape;
      `OutsideModel` — a class without asserts given a key outside 0..255 or
      a rotation outside 0..8, which the source would build but which a byte
      here cannot carry. */
  datatype ConstructError = AssertionFailed | FormatError | OutsideModel

  datatype Result<T> = Ok(value: T) | Err(error: ConstructError)

  predicate IsByte(v: int) { 0 <= v < 256 }

  predicate IsRolCount(v: int) { 0 <= v <= 8 }

  /** The classes whose constructor asserts `isinstance(params, int)` and a
      range for it. */
  predicate Asserts(f: Family)
  {
    f in {TransformXor, TransformXorInc, TransformXorDec, TransformSubInc,
          TransformXorChained, TransformXorRChained, TransformXorRChainedAll}
  }

  /** An asserting constructor: an int from `lo` to 255, else the assert
      fails. */
  function Checked(p: Param, lo: nat, make: byte -> Transform): Result<Transform>
  {
    if p.Single? && lo <= p.v < 256 then Ok(make(p.v as byte)) else Err(AssertionFailed)
  }

  /** A constructor without asserts whose name takes one `%02X`. */
  function OneKey(p: Param, make: byte -> Transform): Result<Transform>
  {
    if !p.Single? then Err(FormatError)
    else if IsByte(p.v) then Ok(make(p.v as byte))
    else Err(OutsideModel)
  }

  /** A constructor without asserts whose name takes two numbers: a key
      and a rotation (`rotFirst` says which comes first) or two keys. */
  function KeyAndRol(p: Param, rotFirst: bool, make: (byte, RolCount) -> Transform): Result<Transform>
  {
    if !p.Pair? then Err(FormatError)
    else
      var (key, bits) := if rotFirst then (p.b, p.a) else (p.a, p.b);
      if IsByte(key) && IsRolCount(bits) then Ok(make(key as byte, bits as bv8))
      else Err(OutsideModel)
  }

  function TwoKeys(p: Param, make: (byte, byte) -> Transform): Result<Transform>
  {
    if !p.Pair? then Err(FormatError)
    else if IsByte(p.a) && IsByte(p.b) then Ok(make(p.a as byte, p.b as byte))
    else Err(OutsideModel)
  }

  /** `Transform_class(params)`: the transform a constructor builds, or why
      it does not. */
  function Construct(f: Family, p: Param): Result<Transform>
  {
    match f
    case TransformIdentity => Ok(Identity)
    case TransformXor => Checked(p, 1, k => Char(Xor(k)))
    case TransformXorInc => Checked(p, 0, k => XorInc(k))
    case TransformXorDec => Checked(p, 0, k => XorDec(k))
    case TransformSubInc => Checked(p, 0, k => SubInc(k))
    case TransformXorChained => Checked(p, 0, k => XorChained(k))
    case TransformXorRChained => Checked(p, 0, k => XorRChained(k))
    case TransformXorRChainedAll => Checked(p, 0, k => XorRChainedAll(k))
    case TransformAdd => OneKey(p, k => Char(Add(k)))
    case TransformXorRol => KeyAndRol(p, false, (k: byte, n: RolCount) => Char(XorRol(k, n)))
    case TransformAddRol => KeyAndRol(p, false, (k: byte, n: RolCount) => Char(AddRol(k, n)))
    case TransformRolAdd => KeyAndRol(p, true, (k: byte, n: RolCount) => Char(RolAdd(n, k)))
    case TransformXorIncRol => KeyAndRol(p, false, (k: byte, n: RolCount) => XorIncRol(k, n))
    case TransformXorAdd => TwoKeys(p, (x, a) => Char(XorAdd(x, a)))
    case TransformAddXor => TwoKeys(p, (a, x) => Char(AddXor(a, x)))
  }

  /** The asserting constructors accept exactly an int from their lower
      bound (1 for XOR, whose key 0 would be the identity; 0 otherwise) to
      255, and fail their assert on anything else. */
  lemma ConstructAsserts(f: Family, p: Param)
    requires Asserts(f)
    ensures Construct(f, p).Ok? <==> p.Single? && KeyFloor(f) <= p.v < 256
    ensures Construct(f, p).Err? ==> Construct(f, p).error == AssertionFailed
  {
  }

  /** The other constructors refuse only a parameter of the wrong shape
      (and values a byte cannot carry). */
  lemma ConstructShapes(f: Family, p: Param)
    requires !Asserts(f) && f != TransformIdentity
    ensures Construct(f, p).Err? && Construct(f, p).error == FormatError <==>
      if f == TransformAdd then !p.Single? else !p.Pair?
  {
  }

  /** Every value `iter_params` yields is one its constructor accepts. */
  lemma ParamsConstruct(f: Family, p: Param)
    requires p in Params(f)
    ensures Construct(f, p).Ok?
  {
    ParamsMembers(f, p);
  }

  /** The transforms of one class, in `iter_params` order. */
  function Instances(f: Family): (ts: seq<Transform>)
    ensures |ts| == |Params(f)|
  {
    var ps := Params(f);
    seq(|ps|, i requires 0 <= i < |ps| =>
      ParamsConstruct(f, ps[i]);
      Construct(f, ps[i]).value)
  }

  /** The `i`-th transform of a class is built from its `i`-th parameter. */
  lemma InstancesAt(f: Family, i: nat)
    requires i < |Params(f)|
    ensures Construct(f, Params(f)[i]).Ok?
    ensures Instances(f)[i] == Construct(f, Params(f)[i]).value
  {
    ParamsConstruct(f, Params(f)[i]);
  }

  /** The transforms of a list of classes, class by class, in the order
      the search loops visit them. */
  function Candidates(classes: seq<Family>): seq<Transform>
  {
    if classes == [] then []
    else Candidates(classes[..|classes| - 1]) + Instances(classes[|classes| - 1])
  }

  // ---------------------------------------------------------------------
  // Tiers and the command line.

  /** `transform_classes1`. */
  function Tier1(): seq<Family>
  {
    [TransformIdentity, TransformXor, TransformAdd, TransformXorRol,
     TransformAddRol, TransformRolAdd]
  }

  /** `transform_classes2`. */
  function Tier2(): seq<Family>
  {
    Tier1() + [TransformXorAdd, TransformAddXor, TransformXorInc, TransformXorDec,
               TransformSubInc, TransformXorChained, TransformXorRChained,
               TransformXorRChainedAll]
  }

  /** `transform_classes3`. */
  function Tier3(): seq<Family>
  {
    Tier2() + [TransformXorIncRol]
  }

  /** Each tier extends the one before it, and tier 3 lists every class
      exactly once. */
  lemma TiersNested()
    ensures Tier1() == Tier2()[..|Tier1()|]
    ensures Tier2() == Tier3()[..|Tier2()|]
    ensures forall f: Family :: f in Tier3()
    ensures forall i, j | 0 <= i < j < |Tier3()| :: Tier3()[i] != Tier3()[j]
  {
    forall f: Family ensures f in Tier3() {
      match f
      case TransformIdentity => assert Tier3()[0] == f;
      case TransformXor => assert Tier3()[1] == f;
      case TransformAdd => assert Tier3()[2] == f;
      case TransformXorRol => assert Tier3()[3] == f;
      case TransformAddRol => assert Tier3()[4] == f;
      case TransformRolAdd => assert Tier3()[5] == f;
      case TransformXorAdd => assert Tier3()[6] == f;
      case TransformAddXor => assert Tier3()[7] == f;
      case TransformXorInc => assert Tier3()[8] == f;
      case TransformXorDec => assert Tier3()[9] == f;
      case TransformSubInc => assert Tier3()[10] == f;
      case TransformXorChained => assert Tier3()[11] == f;
      case TransformXorRChained => assert Tier3()[12] == f;
      case TransformXorRChainedAll => assert Tier3()[13] == f;
      case TransformXorIncRol => assert Tier3()[14] == f;
    }
  }

  /** `-l`: level 1 and 2 pick their tier, and any other level tier 3.
      Every level searches an initial part of tier 3 that holds all of
      tier 1, and a level other than 1 and 2 searches every class. */
  function ClassesForLevel(level: int): (classes: seq<Family>)
    ensures |Tier1()| <= |classes| <= |Tier3()|
    ensures classes == Tier3()[..|classes|]
    ensures Tier1() == classes[..|Tier1()|]
    ensures level != 1 && level != 2 ==> forall f: Family :: f in classes
  {
    TiersNested();
    if level == 1 then Tier1() else if level == 2 then Tier2() else Tier3()
  }

  function SearchSize(classes: seq<Family>): nat
  {
    if classes == [] then 0
    else SearchSize(classes[..|classes| - 1]) + ParamCount(classes[|classes| - 1])
  }

  lemma {:induction false} CandidatesSize(classes: seq<Family>)
    ensures |Candidates(classes)| == SearchSize(classes)
  {
    if classes != [] {
      CandidatesSize(classes[..|classes| - 1]);
      ParamsCount(classes[|classes| - 1]);
    }
  }

  lemma SizeStep(cs: seq<Family>, k: nat)
    requires k < |cs|
    ensures SearchSize(cs[..k + 1]) == SearchSize(cs[..k]) + ParamCount(cs[k])
  {
    assert cs[..k + 1][..k] == cs[..k];
  }

  lemma TierSearchSizes()
    ensures SearchSize(Tier3()[..6]) == 5866
    ensures SearchSize(Tier3()[..14]) == 137452
    ensures SearchSize(Tier3()[..15]) == 139244
  {
    var t3 := Tier3();
    assert t3[..0] == [];
    SizeStep(t3, 0);
    assert SearchSize(t3[..1]) == 1;
    SizeStep(t3, 1);
    assert SearchSize(t3[..2]) == 256;
    SizeStep(t3, 2);
    assert SearchSize(t3[..3]) == 511;
    SizeStep(t3, 3);
    assert SearchSize(t3[..4]) == 2296;
    SizeStep(t3, 4);
    assert SearchSize(t3[..5]) == 4081;
    SizeStep(t3, 5);
    assert SearchSize(t3[..6]) == 5866;
    SizeStep(t3, 6);
    assert SearchSize(t3[..7]) == 70891;
    SizeStep(t3, 7);
    assert SearchSize(t3[..8]) == 135916;
    SizeStep(t3, 8);
    assert SearchSize(t3[..9]) == 136172;
    SizeStep(t3, 9);
    assert SearchSize(t3[..10]) == 136428;
    SizeStep(t3, 10);
    assert SearchSize(t3[..11]) == 136684;
    SizeStep(t3, 11);
    assert SearchSize(t3[..12]) == 136940;
    SizeStep(t3, 12);
    assert SearchSize(t3[..13]) == 137196;
    SizeStep(t3, 13);
    assert SearchSize(t3[..14]) == 137452;
    SizeStep(t3, 14);
    assert SearchSize(t3[..15]) == 139244;
  }

  /** How many transforms each level tries: 5866, 137452 and 139244. */
  lemma TierSizes()
    ensures |Candidates(Tier1())| == 5866
    ensures |Candidates(Tier2())| == 137452
    ensures |Candidates(Tier3())| == 139244
  {
    TiersNested();
    TierSearchSizes();
    assert Tier3()[..15] == Tier3();
    assert Tier3()[..14][..6] == Tier3()[..6];
    CandidatesSize(Tier1());
    CandidatesSize(Tier2());
    CandidatesSize(Tier3());
  }
}
