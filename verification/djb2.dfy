/**
  The password digest (`hashString`). The source runs DJB2 on JavaScript
  Numbers: `h = ((h << 5) + h) + code` from 5381, then `h >>> 0`. The shift
  first converts `h` with ToInt32, so the loop keeps a partly reduced value;
  the model computes that loop exactly on integers and proves that its
  result modulo 2^32 is the textbook DJB2 fold modulo 2^32.
 */
module Djb2 {
  import opened JsString

  const Two31: int := 0x8000_0000
  const Two32: int := 0x1_0000_0000
  /** Largest integer a JavaScript Number holds exactly (2^53 - 1). */
  const MaxSafeInteger: int := 0x1F_FFFF_FFFF_FFFF
  const Seed: int := 5381

  /** Reference definition: the DJB2 fold `h = 33 * h + c` from 5381, unreduced. */
  function Djb2(u: seq<int>): int {
    if |u| == 0 then Seed else 33 * Djb2(u[..|u| - 1]) + u[|u| - 1]
  }

  /** ECMAScript ToInt32 on an integral Number. */
  function ToInt32(x: int): (r: int)
    ensures -Two31 <= r < Two31
    ensures (r - x) % Two32 == 0
  {
    var m := x % Two32;
    if m >= Two31 then m - Two32 else m
  }

  /** ECMAScript ToUint32 (`x >>> 0`) on an integral Number. */
  function ToUint32(x: int): (r: nat)
    ensures r < Two32
    ensures (r - x) % Two32 == 0
  {
    x % Two32
  }

  /**
    One iteration of the source loop: `((h << 5) + h) + c`. The shifted part
    is a signed 32-bit value, so the step moves `h + c` by less than 2^31,
    and it agrees with the DJB2 step `33 * h + c` modulo 2^32.
   */
  function ShiftAddStep(h: int, c: int): (r: int)
    ensures -Two31 <= r - (h + c) < Two31
    ensures (r - (33 * h + c)) % Two32 == 0
  {
    ShiftCongruent(h);
    ToInt32(ToInt32(h) * 32) + h + c
  }

  /**
    The value of `h` after the source loop has consumed the code units `u`.
    It agrees with the DJB2 fold modulo 2^32, although it is never kept in
    [0, 2^32).
   */
  function JsFold(u: seq<int>): (r: int)
    ensures (r - Djb2(u)) % Two32 == 0
  {
    if |u| == 0 then Seed
    else
      var p := u[..|u| - 1];
      var c := u[|u| - 1];
      var h := JsFold(p);
      StepCongruent(h, Djb2(p), c);
      CongruenceTransitive(ShiftAddStep(h, c), 33 * h + c, Djb2(u));
      ShiftAddStep(h, c)
  }

  lemma MultipleOfTwo32(q: int, a: int)
    requires a == q * Two32
    ensures a % Two32 == 0
  {
  }

  /** Numbers that differ by a multiple of 2^32 leave the same remainder. */
  lemma CongruentSameRemainder(a: int, b: int)
    requires (a - b) % Two32 == 0
    ensures a % Two32 == b % Two32
  {
    var q := (a - b) / Two32;
    var p := b / Two32;
    var r := b % Two32;
    assert a - b == q * Two32;
    assert b == p * Two32 + r;
    assert a == (p + q) * Two32 + r;
    UniqueRemainder(a, p + q, r);
  }

  lemma UniqueRemainder(a: int, q: int, r: int)
    requires 0 <= r < Two32 && a == q * Two32 + r
    ensures a % Two32 == r
  {
  }

  /** If `a` and `b` agree modulo 2^32, so do `33a + c` and `33b + c`. */
  lemma StepCongruent(a: int, b: int, c: int)
    requires (a - b) % Two32 == 0
    ensures ((33 * a + c) - (33 * b + c)) % Two32 == 0
  {
    var q := (a - b) / Two32;
    assert a - b == q * Two32;
    assert (33 * a + c) - (33 * b + c) == (33 * q) * Two32;
    MultipleOfTwo32(33 * q, (33 * a + c) - (33 * b + c));
  }

  /** `h << 5` agrees with `32 * h` modulo 2^32. */
  lemma ShiftCongruent(h: int)
    ensures (ToInt32(ToInt32(h) * 32) - 32 * h) % Two32 == 0
  {
    var t := ToInt32(h);
    var s := ToInt32(t * 32);
    var q1 := (t - h) / Two32;
    assert t - h == q1 * Two32;
    var q2 := (s - t * 32) / Two32;
    assert s - t * 32 == q2 * Two32;
    assert s - 32 * h == (q2 + 32 * q1) * Two32;
    MultipleOfTwo32(q2 + 32 * q1, s - 32 * h);
  }

  lemma CongruenceTransitive(a: int, b: int, c: int)
    requires (a - b) % Two32 == 0 && (b - c) % Two32 == 0
    ensures (a - c) % Two32 == 0
  {
    var q1 := (a - b) / Two32;
    var q2 := (b - c) / Two32;
    assert a - b == q1 * Two32;
    assert b - c == q2 * Two32;
    MultipleOfTwo32(q1 + q2, a - c);
  }

  /** Every value `h` takes stays within a band that grows linearly with the input. */
  lemma {:induction false} JsFoldBounds(u: seq<int>)
    requires forall k :: 0 <= k < |u| ==> 0 <= u[k] < 0x1_0000
    ensures Seed - |u| * Two31 <= JsFold(u) <= Seed + |u| * (Two31 + 0xFFFF)
  {
    if |u| > 0 {
      JsFoldBounds(u[..|u| - 1]);
    }
  }

  /**
    For inputs of fewer than 2^21 code units every intermediate value of the
    source loop is a safe integer, so the floating-point arithmetic of the
    source is exact and agrees with this integer model.
   */
  lemma JsFoldIsSafeInteger(u: seq<int>)
    requires forall k :: 0 <= k < |u| ==> 0 <= u[k] < 0x1_0000
    requires |u| < 0x20_0000
    ensures -MaxSafeInteger <= JsFold(u) <= MaxSafeInteger
    ensures -MaxSafeInteger <= ToInt32(ToInt32(JsFold(u)) * 32) + JsFold(u) <= MaxSafeInteger
  {
    JsFoldBounds(u);
  }

  /** The number `hashString` prints: always a uint32, and equal to DJB2 modulo 2^32. */
  function HashValue(s: string): (h: nat)
    ensures h < Two32
    ensures h == Djb2(Utf16(s)) % Two32
  {
    var u := Utf16(s);
    CongruentSameRemainder(JsFold(u), Djb2(u));
    ToUint32(JsFold(u))
  }

  /** `hashString(s)`: the decimal text of the uint32 digest. */
  function HashString(s: string): (r: string)
    ensures |r| >= 1 && IsDigits(r) && DecimalValue(r) == HashValue(s)
    ensures r[0] == '0' ==> r == "0"
  {
    var h := HashValue(s);
    DecimalRoundTrip(h);
    NatToDecimal(h)
  }

  /** Digest texts are equal exactly when the DJB2 values agree modulo 2^32. */
  lemma HashStringEqualIff(a: string, b: string)
    ensures HashString(a) == HashString(b) <==> Djb2(Utf16(a)) % Two32 == Djb2(Utf16(b)) % Two32
  {
    DecimalInjective(HashValue(a), HashValue(b));
  }

  /** Distinct passwords can share a digest: "Ez" and "FY" both hash to 2399 + 5381 * 33^2. */
  lemma HashCollisionExample()
    ensures "Ez" != "FY" && HashString("Ez") == HashString("FY")
  {
    Utf16TwoBmp('E', 'z');
    Utf16TwoBmp('F', 'Y');
    Djb2Collision();
    HashStringEqualIff("Ez", "FY");
  }

  lemma Utf16TwoBmp(a: char, b: char)
    requires a as int < 0x1_0000 && b as int < 0x1_0000
    ensures Utf16([a, b]) == [a as int, b as int]
  {
    assert [a, b][..1] == [a];
    assert [a][..0] == [];
    assert Utf16([a]) == Utf16([]) + Utf16Units(a) == [a as int];
    assert Utf16([a, b]) == Utf16([a]) + Utf16Units(b);
  }

  lemma Djb2Collision()
    ensures Djb2([69, 122]) == Djb2([70, 89])
  {
    assert [69, 122][..1] == [69] && [70, 89][..1] == [70];
    assert [69][..0] == [] && [70][..0] == [];
  }
}
