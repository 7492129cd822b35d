/** Byte strings: little-endian numbers and the order in which keys are kept. */
module ByteStrings {
  type Byte = b: int | 0 <= b < 256
  type Bytes = seq<Byte>

  const U16_MAX: nat := 0xFFFF
  const U64_RANGE: nat := 0x1_0000_0000_0000_0000

  /** A Rust `as u16` cast. */
  function AsU16(x: nat): (r: nat)
    ensures r <= U16_MAX && (x <= U16_MAX ==> r == x)
  {
    x % 0x1_0000
  }

  function Zeros(n: nat): Bytes {
    seq(n, _ => 0)
  }

  /** The `width` low bytes of a number, least significant first. */
  function Le(x: nat, width: nat): (r: Bytes)
    ensures |r| == width
  {
    if width == 0 then [] else [x % 256] + Le(x / 256, width - 1)
  }

  function FromLe(b: Bytes): nat {
    if b == [] then 0 else b[0] + 256 * FromLe(b[1..])
  }

  /** How many numbers `width` bytes can hold: 256 to that power. */
  function Capacity(width: nat): (r: nat)
    ensures r > 0
  {
    if width == 0 then 1 else 256 * Capacity(width - 1)
  }

  lemma CapacityValues()
    ensures Capacity(2) == U16_MAX + 1 && Capacity(4) == 0x1_0000_0000 && Capacity(8) == U64_RANGE
  {
    assert Capacity(1) == 256;
    assert Capacity(3) == 0x100_0000;
    assert Capacity(5) == 0x100_0000_0000;
    assert Capacity(6) == 0x1_0000_0000_0000;
    assert Capacity(7) == 0x100_0000_0000_0000;
  }

  /** Encoding keeps a number modulo the width, so exactly the numbers that fit survive. */
  lemma {:induction false} LeRoundTrip(x: nat, width: nat)
    ensures FromLe(Le(x, width)) == x <==> x < Capacity(width)
    ensures FromLe(Le(x, width)) < Capacity(width)
    decreases width
  {
    if width > 0 {
      LeRoundTrip(x / 256, width - 1);
      assert Le(x, width)[1..] == Le(x / 256, width - 1);
    }
  }

  /** Byte i of the encoding is digit i of the number in base 256, the least significant first. */
  lemma {:induction false} LeDigits(x: nat, width: nat, i: nat)
    requires i < width
    ensures Le(x, width)[i] == x / Capacity(i) % 256
    decreases i
  {
    if i > 0 {
      LeDigits(x / 256, width - 1, i - 1);
      DivideTwice(x, Capacity(i - 1));
    }
  }

  lemma DivideTwice(x: nat, p: nat)
    requires p > 0
    ensures x / 256 / p == x / (256 * p)
  {
    var y, low := x / 256, x % 256;
    var q, r := y / p, y % p;
    assert x == 256 * y + low && y == p * q + r;
    DistributeOver(p, q, r);
    DivideSum(256 * p, q, 256 * r + low);
  }

  lemma DistributeOver(p: nat, q: nat, r: nat)
    ensures 256 * (p * q + r) == 256 * p * q + 256 * r
  {
  }

  /** Division is what it should be: the quotient is the only one that leaves less than the divisor. */
  lemma DivideSum(p: nat, q: nat, r: nat)
    requires r < p
    ensures (p * q + r) / p == q
  {
    var z := (p * q + r) / p;
    if z < q {
      TimesAtMost(p, z + 1, q);
    } else if z > q {
      TimesAtMost(p, q + 1, z);
    }
  }

  lemma TimesAtMost(p: nat, a: nat, b: nat)
    requires a <= b
    ensures p * a <= p * b
  {
  }

  lemma TwoBytes(x: nat)
    ensures Le(x, 2) == [x % 256, x / 256 % 256]
  {
    assert Le(x, 2) == [x % 256] + Le(x / 256, 1);
    assert Le(x / 256, 1) == [x / 256 % 256] + Le(x / 256 / 256, 0);
  }

  lemma LowBytes(x: nat)
    ensures AsU16(x) % 256 == x % 256 && AsU16(x) / 256 % 256 == x / 256 % 256
  {
    var q, r := x / 0x1_0000, x % 0x1_0000;
    assert x == 256 * (256 * q + r / 256) + r % 256;
    assert x / 256 == 256 * q + r / 256;
  }

  /** Writing a length as a `u16` truncates it, as two bytes of it do anyway. */
  lemma LeTruncates(x: nat)
    ensures Le(AsU16(x), 2) == Le(x, 2)
  {
    hide AsU16, Le;
    TwoBytes(x);
    TwoBytes(AsU16(x));
    LowBytes(x);
  }

  lemma LeU16(x: nat)
    requires x <= U16_MAX
    ensures FromLe(Le(x, 2)) == x
  {
    CapacityValues();
    LeRoundTrip(x, 2);
  }

  lemma LeU64(x: nat)
    requires x < U64_RANGE
    ensures FromLe(Le(x, 8)) == x
  {
    CapacityValues();
    LeRoundTrip(x, 8);
  }

  /** Decoding then encoding gives the bytes back. */
  lemma {:induction false} FromLeRoundTrip(b: Bytes)
    ensures Le(FromLe(b), |b|) == b && FromLe(b) < Capacity(|b|)
    decreases |b|
  {
    if b != [] {
      FromLeRoundTrip(b[1..]);
      assert FromLe(b) / 256 == FromLe(b[1..]) && FromLe(b) % 256 == b[0];
    }
  }

  lemma U16RoundTrip(b: Bytes)
    requires |b| == 2
    ensures Le(FromLe(b), 2) == b && FromLe(b) <= U16_MAX
  {
    CapacityValues();
    FromLeRoundTrip(b);
  }

  /** `buf[at..at + src.len()].copy_from_slice(src)`. */
  method CopyInto(buf: array<Byte>, at: nat, src: Bytes)
    requires at + |src| <= buf.Length
    modifies buf
    ensures buf[..] == old(buf[..at]) + src + old(buf[at + |src|..])
  {
    ghost var was := buf[..];
    assert buf[..at] == was[..at] && buf[at + |src|..] == was[at + |src|..];
    for i := 0 to |src|
      invariant buf[..] == was[..at] + src[..i] + was[at + i..]
    {
      buf[at + i] := src[i];
      CopiedOne(was, at, src, i);
    }
  }

  lemma CopiedOne(was: Bytes, at: nat, src: Bytes, i: nat)
    requires i < |src| && at + |src| <= |was|
    ensures (was[..at] + src[..i] + was[at + i..])[at + i := src[i]] == was[..at] + src[..i + 1] + was[at + i + 1..]
  {
  }

  /** Copies past what has been written so far into a buffer that is zero from there on. */
  method CopyNext(buf: array<Byte>, at: nat, src: Bytes, ghost head: Bytes)
    requires |head| == at && at + |src| <= buf.Length && buf[..] == head + Zeros(buf.Length - at)
    modifies buf
    ensures buf[..] == head + src + Zeros(buf.Length - at - |src|)
  {
    ghost var was := buf[..];
    CopyInto(buf, at, src);
    assert was[..at] == head && was[at + |src|..] == Zeros(buf.Length - at - |src|);
  }

  /* ---- Lexicographic order ---- */

  predicate Less(a: Bytes, b: Bytes)
    decreases |a|
  {
    b != [] && (a == [] || a[0] < b[0] || (a[0] == b[0] && Less(a[1..], b[1..])))
  }

  /** The two agree before position i, where `a` has ended or has the smaller byte. */
  ghost predicate Precedes(a: Bytes, b: Bytes, i: nat) {
    i <= |a| && i < |b| && (forall j :: 0 <= j < i ==> a[j] == b[j]) && (i == |a| || a[i] < b[i])
  }

  /** The order is that of byte strings compared from the left, a beginning before the whole. */
  lemma {:induction false} LessIsLexicographic(a: Bytes, b: Bytes)
    ensures Less(a, b) <==> exists i: nat :: Precedes(a, b, i)
    decreases |a|
  {
    if a == [] || b == [] || a[0] != b[0] {
      assert Less(a, b) ==> Precedes(a, b, 0);
    } else {
      LessIsLexicographic(a[1..], b[1..]);
      if Less(a, b) {
        var i: nat :| Precedes(a[1..], b[1..], i);
        OneFurther(a, b, i);
      }
      if i: nat :| Precedes(a, b, i) {
        OneFurther(a, b, i - 1);
      }
    }
  }

  lemma OneFurther(a: Bytes, b: Bytes, i: nat)
    requires a != [] && b != [] && a[0] == b[0]
    ensures Precedes(a, b, i + 1) <==> Precedes(a[1..], b[1..], i)
  {
    var x, y := a[1..], b[1..];
    assert forall j :: 0 < j < |a| ==> a[j] == x[j - 1];
    assert forall j :: 0 < j < |b| ==> b[j] == y[j - 1];
    if Precedes(a, b, i + 1) {
      assert forall j :: 0 <= j < i ==> x[j] == a[j + 1] && y[j] == b[j + 1];
    }
  }

  lemma {:induction false} LessIrreflexive(a: Bytes)
    ensures !Less(a, a)
    decreases |a|
  {
    if a != [] {
      LessIrreflexive(a[1..]);
    }
  }

  lemma {:induction false} LessTransitive(a: Bytes, b: Bytes, c: Bytes)
    requires Less(a, b) && Less(b, c)
    ensures Less(a, c)
    decreases |a|
  {
    if a != [] && a[0] == b[0] == c[0] {
      LessTransitive(a[1..], b[1..], c[1..]);
    }
  }

  lemma {:induction false} LessTotal(a: Bytes, b: Bytes)
    ensures Less(a, b) || a == b || Less(b, a)
    decreases |a|
  {
    if a != [] && b != [] && a[0] == b[0] {
      LessTotal(a[1..], b[1..]);
      if a[1..] == b[1..] {
        assert a == [a[0]] + a[1..] && b == [b[0]] + b[1..];
      }
    }
  }

  lemma LessAsymmetric(a: Bytes, b: Bytes)
    requires Less(a, b)
    ensures !Less(b, a) && a != b
  {
    LessIrreflexive(a);
    if Less(b, a) {
      LessTransitive(a, b, a);
    }
  }

  /** Key comparison that also covers equality. */
  predicate AtMost(a: Bytes, b: Bytes) {
    !Less(b, a)
  }

  lemma AtMostLess(a: Bytes, b: Bytes, c: Bytes)
    requires (AtMost(a, b) && Less(b, c)) || (Less(a, b) && AtMost(b, c))
    ensures Less(a, c)
  {
    LessTotal(a, b);
    LessTotal(b, c);
    LessTotal(a, c);
    if Less(c, a) {
      if Less(b, c) {
        LessTransitive(b, c, a);
      } else {
        LessTransitive(c, a, b);
      }
    } else if a == c {
      LessIrreflexive(a);
    } else if a != b && b != c && Less(a, b) && Less(b, c) {
      LessTransitive(a, b, c);
    }
  }

  /** A list of keys in strictly increasing order. */
  ghost predicate Sorted(keys: seq<Bytes>) {
    forall i, j :: 0 <= i < j < |keys| ==> Less(keys[i], keys[j])
  }
}
