/**
 Positional notation: big-endian digit strings in any base, and the conversion between
 two bases that keeps leading zeros. Base58 text and DER integers are both instances.
 */
module Positional {
  ghost predicate Digits(base: nat, ds: seq<nat>) {
    forall i :: 0 <= i < |ds| ==> ds[i] < base
  }

  function Value(base: nat, ds: seq<nat>): nat {
    if ds == [] then 0 else Value(base, ds[..|ds| - 1]) * base + ds[|ds| - 1]
  }

  /** The digits of n without leading zeros; none at all for zero. */
  function DigitsOf(base: nat, n: nat): seq<nat>
    requires base >= 2
  {
    if n == 0 then []
    else
      DivStep(n, base);
      DigitsOf(base, n / base) + [n % base]
  }

  /** `DigitsOf` writes n, in digits of the base and with no leading zero. */
  lemma {:induction false} DigitsOfWrites(base: nat, n: nat)
    requires base >= 2
    ensures Digits(base, DigitsOf(base, n)) && Value(base, DigitsOf(base, n)) == n
    ensures n > 0 <==> DigitsOf(base, n) != []
    ensures n > 0 ==> DigitsOf(base, n)[0] != 0
  {
    if n > 0 {
      DivStep(n, base);
      var q, r := n / base, n % base;
      DigitsOfWrites(base, q);
      var ds := DigitsOf(base, q) + [r];
      assert ds[..|ds| - 1] == DigitsOf(base, q);
    }
  }

  lemma DivStep(n: nat, d: nat)
    requires d >= 2 && n > 0
    ensures 0 <= n / d < n && 0 <= n % d < d && (n / d) * d + n % d == n
    ensures n / d == 0 ==> n % d != 0
  {
    assert (n / d) * d + n % d == n;
    if n / d >= 1 {
      MulMono(2, d, n / d);
    }
  }

  /** How many zeros the digit string starts with. */
  function LeadingZeros(ds: seq<nat>): (z: nat)
    ensures z <= |ds|
    ensures forall i :: 0 <= i < z ==> ds[i] == 0
    ensures z < |ds| ==> ds[z] != 0
  {
    if ds == [] || ds[0] != 0 then 0 else 1 + LeadingZeros(ds[1..])
  }

  function Zeros(n: nat): (zs: seq<nat>)
    ensures |zs| == n && forall i :: 0 <= i < n ==> zs[i] == 0
  {
    seq(n, _ => 0)
  }

  /** Rewrite a digit string in another base, zero for zero at the front. */
  function Convert(from: nat, to: nat, ds: seq<nat>): seq<nat>
    requires to >= 2
  {
    Zeros(LeadingZeros(ds)) + DigitsOf(to, Value(from, ds))
  }

  function Pow(base: nat, e: nat): nat {
    if e == 0 then 1 else base * Pow(base, e - 1)
  }

  /** Zeros in front do not change the value. */
  lemma {:induction false} LeadingZerosAreFree(base: nat, z: nat, ds: seq<nat>)
    ensures Value(base, Zeros(z) + ds) == Value(base, ds)
  {
    var all := Zeros(z) + ds;
    if ds != [] {
      assert all[..|all| - 1] == Zeros(z) + ds[..|ds| - 1];
      LeadingZerosAreFree(base, z, ds[..|ds| - 1]);
    } else if z > 0 {
      assert all[..|all| - 1] == Zeros(z - 1) + [];
      LeadingZerosAreFree(base, z - 1, []);
    }
  }

  /** A digit string without leading zeros is the one `DigitsOf` produces. */
  lemma {:induction false} DigitsAreUnique(base: nat, ds: seq<nat>)
    requires base >= 2 && Digits(base, ds)
    requires ds != [] ==> ds[0] != 0
    ensures DigitsOf(base, Value(base, ds)) == ds
  {
    if ds != [] {
      var front, last := ds[..|ds| - 1], ds[|ds| - 1];
      DigitsAreUnique(base, front);
      NonZeroLeads(base, ds);
      DivMod(Value(base, front), base, last);
      assert ds == front + [last];
    }
  }

  lemma DivMod(q: nat, d: nat, r: nat)
    requires r < d
    ensures (q * d + r) / d == q && (q * d + r) % d == r
  {
    var n := q * d + r;
    assert n == (n / d) * d + n % d;
    var e := q - n / d;
    assert e * d == n % d - r;
    SmallMultiple(e, d);
  }

  lemma SmallMultiple(e: int, d: nat)
    requires -(d as int) < e * d < d
    ensures e == 0
  {
    if e >= 1 {
      MulMono(1, e, d);
    } else if e <= -1 {
      MulMono(e, -1, d);
    }
  }

  lemma {:induction false} NonZeroLeads(base: nat, ds: seq<nat>)
    requires base >= 2 && ds != [] && ds[0] != 0
    ensures Value(base, ds) > 0
  {
    if |ds| > 1 {
      NonZeroLeads(base, ds[..|ds| - 1]);
      assert Value(base, ds[..|ds| - 1]) * base >= 1;
    }
  }

  /** Converting to another base and back is the identity on every digit string. */
  lemma ConvertRoundTrip(b1: nat, b2: nat, ds: seq<nat>)
    requires b1 >= 2 && b2 >= 2 && Digits(b1, ds)
    ensures Digits(b2, Convert(b1, b2, ds))
    ensures Convert(b2, b1, Convert(b1, b2, ds)) == ds
  {
    var z := LeadingZeros(ds);
    var body := ds[z..];
    assert ds == Zeros(z) + body;
    DigitsOfWrites(b2, Value(b1, ds));
    LeadingZerosAreFree(b1, z, body);
    DigitsAreUnique(b1, body);
    var out := DigitsOf(b2, Value(b1, ds));
    var text := Convert(b1, b2, ds);
    LeadingZerosAreFree(b2, z, out);
    LeadingZerosOfPadded(z, out);
    assert Value(b2, text) == Value(b1, body);
  }

  lemma {:induction false} LeadingZerosOfPadded(z: nat, ds: seq<nat>)
    requires ds != [] ==> ds[0] != 0
    ensures LeadingZeros(Zeros(z) + ds) == z
  {
    if z > 0 {
      assert (Zeros(z) + ds)[1..] == Zeros(z - 1) + ds;
      LeadingZerosOfPadded(z - 1, ds);
    } else {
      assert Zeros(0) + ds == ds;
    }
  }

  /** Values of k-digit strings lie below base^k, and a leading digit d puts them at least at d*base^(k-1). */
  lemma {:induction false} ValueBounds(base: nat, ds: seq<nat>)
    requires base >= 2 && Digits(base, ds)
    ensures Value(base, ds) < Pow(base, |ds|)
    ensures ds != [] ==> ds[0] * Pow(base, |ds| - 1) <= Value(base, ds) < (ds[0] + 1) * Pow(base, |ds| - 1)
  {
    if |ds| == 1 {
      assert ds[..0] == [];
      assert Pow(base, 0) == 1 && Pow(base, 1) == base * 1;
    } else if ds != [] {
      var front, last := ds[..|ds| - 1], ds[|ds| - 1];
      ValueBounds(base, front);
      ScaleBounds(base, ds[0], Pow(base, |front| - 1), Value(base, front), last);
      MulMono(ds[0] + 1, base, Pow(base, |front|));
    }
  }

  lemma ScaleBounds(base: nat, d: nat, p: nat, v: nat, last: nat)
    requires d * p <= v < (d + 1) * p && last < base
    ensures d * (base * p) <= v * base + last < (d + 1) * (base * p)
  {
    MulMono(d * p, v, base);
    MulMono(v, (d + 1) * p - 1, base);
    assert d * p * base == d * (base * p);
    assert ((d + 1) * p - 1) * base == (d + 1) * (base * p) - base by {
      assert ((d + 1) * p) * base == (d + 1) * (base * p);
    }
  }

  lemma MulMono(a: int, b: int, m: nat)
    requires a <= b
    ensures a * m <= b * m
  {
  }
}
