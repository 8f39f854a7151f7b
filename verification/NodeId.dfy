/**
 From a 32-byte secret to a node id: the double-and-add loop and the
 hexadecimal rendering of the public point.
 */
module NodeId {
  import opened Base
  import opened ModArith
  import opened Secp256k1

  /** The field prime, group order and base point of section 2.4.1 of SEC 2 version 2.0. */
  const P: int := 0xFFFFFFFFFFFFFFFFFFFFFFFFFFFFFFFFFFFFFFFFFFFFFFFFFFFFFFFEFFFFFC2F
  const N: int := 0xFFFFFFFFFFFFFFFFFFFFFFFFFFFFFFFEBAAEDCE6AF48A03BBFD25E8CD0364141
  const GX: int := 0x79BE667EF9DCBBAC55A06295CE870B07029BFCDB2DCE28D959F2815B16F81798
  const GY: int := 0x483ADA7726A3C4655DA4FBFC0E1108A8FD17B448A68554199C47D08FFB10D4B8

  // ---------------------------------------------------------------------
  // Multiples of a point
  // ---------------------------------------------------------------------

  /** The sum as a total operation; on the curve it is the program's own sum. */
  function Add(p: int, a: Point, b: Point): Point
    requires p > 1
  {
    match EcAdd(p, a, b)
    case Ok(r) => r
    case Err(_) => Infinity
  }

  /** The n-fold sum of `a`. */
  function Multiple(p: int, n: nat, a: Point): Point
    requires p > 1
  {
    if n == 0 then Infinity else Add(p, a, Multiple(p, n - 1, a))
  }

  /** The group law taken as a hypothesis. */
  ghost predicate Associative(p: int)
    requires p > 1
  {
    forall a, b, c :: OnCurve(p, a) && OnCurve(p, b) && OnCurve(p, c) ==>
      Add(p, Add(p, a, b), c) == Add(p, a, Add(p, b, c))
  }

  lemma {:induction false} MultipleOnCurve(p: int, n: nat, a: Point)
    requires IsPrime(p) && OnCurve(p, a)
    ensures OnCurve(p, Multiple(p, n, a))
  {
    if n > 0 {
      MultipleOnCurve(p, n - 1, a);
      EcAddClosed(p, a, Multiple(p, n - 1, a));
    }
  }

  lemma AddAssociates(p: int, a: Point, b: Point, c: Point)
    requires p > 1 && Associative(p) && OnCurve(p, a) && OnCurve(p, b) && OnCurve(p, c)
    ensures Add(p, Add(p, a, b), c) == Add(p, a, Add(p, b, c))
  {
  }

  /** Even multiples are multiples of the double. */
  lemma {:induction false} MultipleOfDouble(p: int, h: nat, a: Point)
    requires IsPrime(p) && Associative(p) && OnCurve(p, a)
    ensures Multiple(p, 2 * h, a) == Multiple(p, h, Add(p, a, a))
  {
    if h > 0 {
      MultipleOfDouble(p, h - 1, a);
      var rest := Multiple(p, 2 * h - 2, a);
      MultipleOnCurve(p, 2 * h - 2, a);
      hide Add, OnCurve;
      assert Multiple(p, 2 * h, a) == Add(p, a, Multiple(p, 2 * h - 1, a));
      assert Multiple(p, 2 * h - 1, a) == Add(p, a, rest);
      AddAssociates(p, a, a, rest);
    }
  }

  /**
   The loop of `node_id_from_secret` for any prime modulus and base point. No
   addition fails, every intermediate point is on the curve, and under the group
   law the result is the scalar multiple of the base point.
   */
  method DoubleAndAdd(p: int, base: Point, scalar: nat)
    returns (r: Result<Point, ArithmeticError>)
    requires IsPrime(p) && OnCurve(p, base)
    ensures r.Ok? && OnCurve(p, r.value)
    ensures Associative(p) ==> r.value == Multiple(p, scalar, base)
    ensures scalar == 1 ==> r == Ok(base)
  {
    hide EcAdd, OnCurve;
    var result, addend, left := Infinity, base, scalar;
    InfinityIsNeutral(p, base);
    assert OnCurve(p, Infinity) by { InfinityOnCurve(p); }
    InfinityAdds(p, Multiple(p, scalar, base));
    while left > 0
      invariant OnCurve(p, result) && OnCurve(p, addend)
      invariant Associative(p) ==>
                  Add(p, result, Multiple(p, left, addend)) == Multiple(p, scalar, base)
      invariant scalar == 1 ==>
                  (left == 1 && result == Infinity && addend == base) ||
                  (left == 0 && result == base)
    {
      var half := left / 2;
      ghost var double := Add(p, addend, addend);
      MultipleOnCurve(p, 2 * half, addend);
      if Associative(p) {
        MultipleOfDouble(p, half, addend);
        if left % 2 == 1 {
          assert Multiple(p, left, addend) == Add(p, addend, Multiple(p, 2 * half, addend));
          AddAssociates(p, result, addend, Multiple(p, 2 * half, addend));
        }
      }
      if left % 2 == 1 {
        EcAddClosed(p, result, addend);
        var sum := EcAdd(p, result, addend);
        if sum.Err? {
          return sum;
        }
        result := sum.value;
      }
      EcAddClosed(p, addend, addend);
      var doubled := EcAdd(p, addend, addend);
      if doubled.Err? {
        return doubled;
      }
      addend := doubled.value;
      left := half;
    }
    InfinityAdds(p, result);
    return Ok(result);
  }

  lemma InfinityOnCurve(p: int)
    ensures OnCurve(p, Infinity)
  {
  }

  lemma InfinityIsNeutral(p: int, a: Point)
    requires p > 1
    ensures EcAdd(p, Infinity, a) == Ok(a) && EcAdd(p, a, Infinity) == Ok(a)
  {
  }

  lemma InfinityAdds(p: int, a: Point)
    requires p > 1
    ensures Add(p, Infinity, a) == a && Add(p, a, Infinity) == a
  {
  }

  // ---------------------------------------------------------------------
  // Hexadecimal
  // ---------------------------------------------------------------------

  const HEX: string := "0123456789abcdef"

  function Power16(n: nat): (r: nat)
    ensures r > 0
  {
    if n == 0 then 1 else 16 * Power16(n - 1)
  }

  function HexDigits(x: nat): string {
    if x < 16 then [HEX[x]] else HexDigits(x / 16) + [HEX[x % 16]]
  }

  function Zeros(n: nat): string {
    seq(n, _ => '0')
  }

  /** The format `064x`: at least 64 digits, padded with zeros. */
  function Hex64(x: nat): string {
    var digits := HexDigits(x);
    if |digits| < 64 then Zeros(64 - |digits|) + digits else digits
  }

  predicate IsHexDigit(c: char) {
    '0' <= c <= '9' || 'a' <= c <= 'f'
  }

  function DigitValue(c: char): nat
    requires IsHexDigit(c)
  {
    if c <= '9' then (c - '0') as nat else (c - 'a') as nat + 10
  }

  predicate IsHex(s: string) {
    forall i :: 0 <= i < |s| ==> IsHexDigit(s[i])
  }

  function HexValue(s: string): nat
    requires IsHex(s)
  {
    if s == "" then 0 else 16 * HexValue(s[..|s| - 1]) + DigitValue(s[|s| - 1])
  }

  lemma HexDigitValue(d: nat)
    requires d < 16
    ensures IsHexDigit(HEX[d]) && DigitValue(HEX[d]) == d
  {
  }

  lemma {:induction false} HexDigitsValue(x: nat)
    ensures HexDigits(x) != "" && IsHex(HexDigits(x)) && HexValue(HexDigits(x)) == x
  {
    HexDigitValue(x % 16);
    hide DigitValue, IsHexDigit;
    if x < 16 {
      assert [HEX[x]][..0] == "";
    } else {
      HexDigitsValue(x / 16);
      var s := HexDigits(x);
      assert s[..|s| - 1] == HexDigits(x / 16);
    }
  }

  lemma {:induction false} HexDigitsLength(x: nat, n: nat)
    requires n > 0 && x < Power16(n)
    ensures |HexDigits(x)| <= n
  {
    if x >= 16 {
      assert n > 1 by {
        assert Power16(1) == 16 * Power16(0);
      }
      HexDigitsLength(x / 16, n - 1);
    }
  }

  lemma {:induction false} LeadingZeros(n: nat, s: string)
    requires IsHex(s)
    ensures IsHex(Zeros(n) + s) && HexValue(Zeros(n) + s) == HexValue(s)
    decreases |s| + n
  {
    var t := Zeros(n) + s;
    if s != "" {
      assert t[..|t| - 1] == Zeros(n) + s[..|s| - 1];
      LeadingZeros(n, s[..|s| - 1]);
    } else if n > 0 {
      assert t[..|t| - 1] == Zeros(n - 1) + s;
      LeadingZeros(n - 1, s);
    } else {
      assert t == s;
    }
  }

  /** 64 lower-case digits that decode to the number. */
  lemma Hex64Decodes(x: nat)
    requires x < Power16(64)
    ensures |Hex64(x)| == 64 && IsHex(Hex64(x)) && HexValue(Hex64(x)) == x
  {
    hide HexDigits, HexValue, Power16, IsHexDigit, DigitValue;
    HexDigitsValue(x);
    HexDigitsLength(x, 64);
    LeadingZeros(64 - |HexDigits(x)|, HexDigits(x));
    assert |HexDigits(x)| == 64 ==> Zeros(0) + HexDigits(x) == HexDigits(x);
  }

  // ---------------------------------------------------------------------
  // The node id
  // ---------------------------------------------------------------------

  datatype SecretError = InvalidScalar | Arithmetic | PointAtInfinity

  /** `int.from_bytes(secret, "big")` */
  function FromBytes(bytes: seq<Byte>): nat {
    if bytes == [] then 0 else 256 * FromBytes(bytes[..|bytes| - 1]) + bytes[|bytes| - 1]
  }

  function Power256(n: nat): (r: nat)
    ensures r > 0
  {
    if n == 0 then 1 else 256 * Power256(n - 1)
  }

  lemma Regroup(x: nat, m: nat, y: nat, b: nat)
    ensures 256 * (x * m + y) + b == x * (256 * m) + (256 * y + b)
  {
  }

  /** The most significant byte comes first. */
  lemma {:induction false} BigEndian(first: seq<Byte>, rest: seq<Byte>)
    ensures FromBytes(first + rest) == FromBytes(first) * Power256(|rest|) + FromBytes(rest)
    decreases |rest|
  {
    if rest == [] {
      assert first + rest == first;
    } else {
      var all, n := first + rest, |rest| - 1;
      assert all[..|all| - 1] == first + rest[..n];
      BigEndian(first, rest[..n]);
      Regroup(FromBytes(first), Power256(n), FromBytes(rest[..n]), rest[n]);
    }
  }

  /** A single byte is its own value, and k bytes are less than 256 to the power of k. */
  lemma {:induction false} BytesBound(bytes: seq<Byte>)
    ensures FromBytes(bytes) < Power256(|bytes|)
    ensures |bytes| == 1 ==> FromBytes(bytes) == bytes[0]
  {
    if bytes != [] {
      BytesBound(bytes[..|bytes| - 1]);
    }
  }

  lemma {:induction false} ZeroBytes(n: nat)
    ensures FromBytes(seq(n, _ => 0)) == 0
  {
    if n > 0 {
      ZeroBytes(n - 1);
      var bytes: seq<Byte> := seq(n, _ => 0);
      assert bytes[..n - 1] == seq(n - 1, _ => 0);
    }
  }

  /** 31 zeros and a one. */
  lemma ScalarOne()
    ensures FromBytes(seq(31, _ => 0) + [1]) == 1
  {
    ZeroBytes(31);
    BytesBound([1]);
    BigEndian(seq(31, _ => 0), [1]);
  }

  /** The base point lies on the curve. */
  lemma BaseOnCurve()
    ensures P > 1 && OnCurve(P, Affine(GX, GY))
  {
    assert (GY * GY - GX * GX * GX - 7) % P == 0;
    DividesIffMod(P, CurveValue(GX, GY));
  }

  lemma {:induction false} Power16Sum(m: nat, n: nat)
    ensures Power16(m + n) == Power16(m) * Power16(n)
  {
    if m > 0 {
      Power16Sum(m - 1, n);
      assert 16 * (Power16(m - 1) * Power16(n)) == 16 * Power16(m - 1) * Power16(n);
    }
  }

  lemma FieldFits()
    ensures P < Power16(64)
  {
    assert Power16(8) == 0x1_0000_0000;
    Power16Sum(8, 8);
    Power16Sum(16, 16);
    Power16Sum(32, 32);
    assert Power16(16) == 0x1_0000_0000_0000_0000;
    assert Power16(32) == 0x1_0000_0000_0000_0000_0000_0000_0000_0000;
  }

  /** What a scalar has to be for the group of section 2.4.1 of SEC 2 version 2.0. */
  predicate ValidScalar(scalar: nat) {
    1 <= scalar < 0xFFFFFFFFFFFFFFFFFFFFFFFFFFFFFFFEBAAEDCE6AF48A03BBFD25E8CD0364141
  }

  /** A point of the curve over the field of section 2.4.1 of SEC 2 version 2.0. */
  ghost predicate OnSecp256k1(x: nat, y: nat) {
    OnCurve(0xFFFFFFFFFFFFFFFFFFFFFFFFFFFFFFFFFFFFFFFFFFFFFFFFFFFFFFFEFFFFFC2F, Affine(x, y))
  }

  /** The coordinates of the base point of section 2.4.1 of SEC 2 version 2.0. */
  predicate IsBasePoint(x: nat, y: nat) {
    x == 0x79BE667EF9DCBBAC55A06295CE870B07029BFCDB2DCE28D959F2815B16F81798 &&
    y == 0x483ADA7726A3C4655DA4FBFC0E1108A8FD17B448A68554199C47D08FFB10D4B8
  }

  /**
   `node_id_from_secret`. Only a scalar outside 1..N-1, or one whose multiple of
   the base point is infinity, is refused; the id is 128 lower-case hexadecimal
   digits whose halves decode to the coordinates of a point on the curve, under
   the group law the scalar multiple of the base point. The secret one, most
   significant byte first, has the base point itself.
   */
  method NodeIdFromSecret(secret: seq<Byte>) returns (r: Result<string, SecretError>)
    requires IsPrime(P)
    ensures r.Ok? ==> ValidScalar(FromBytes(secret))
    ensures r.Ok? ==>
              && |r.value| == 128 && IsHex(r.value[..64]) && IsHex(r.value[64..])
              && OnSecp256k1(HexValue(r.value[..64]), HexValue(r.value[64..]))
              && (Associative(P) ==>
                    Multiple(P, FromBytes(secret), Affine(GX, GY)) ==
                    Affine(HexValue(r.value[..64]), HexValue(r.value[64..])))
    ensures r.Err? ==>
              (r.error.InvalidScalar? && !ValidScalar(FromBytes(secret))) ||
              (r.error.PointAtInfinity? && ValidScalar(FromBytes(secret)) &&
               (Associative(P) ==>
                  Multiple(P, FromBytes(secret), Affine(GX, GY)) == Infinity))
    ensures secret == seq(31, _ => 0) + [1] ==>
              && r == Ok(Hex64(GX) + Hex64(GY))
              && IsBasePoint(HexValue(r.value[..64]), HexValue(r.value[64..]))
  {
    hide Multiple, Associative, Hex64, HexValue, IsHex, FromBytes, Power16, Power256;
    var scalar := FromBytes(secret);
    ScalarOne();
    assert ValidScalar(scalar) <==> 1 <= scalar < N;
    assert ValidScalar(1);
    if !(1 <= scalar < N) {
      return Err(InvalidScalar);
    }
    BaseOnCurve();
    FieldFits();
    assert forall x: nat, y: nat :: OnCurve(P, Affine(x, y)) ==> OnSecp256k1(x, y);
    assert IsBasePoint(GX, GY);
    hide P, N, GX, GY, OnSecp256k1, IsBasePoint, ValidScalar;
    var point := DoubleAndAdd(P, Affine(GX, GY), scalar);
    if point.Err? {
      return Err(Arithmetic);
    }
    if point.value.Infinity? {
      return Err(PointAtInfinity);
    }
    var x, y := point.value.x, point.value.y;
    Hex64Decodes(x);
    Hex64Decodes(y);
    var id := Hex64(x) + Hex64(y);
    assert id[..64] == Hex64(x) && id[64..] == Hex64(y);
    return Ok(id);
  }
}
