/** Decimal compression of amounts: a 35-bit significand and a power of ten. */
module Amounts {
  import opened Field
  import opened Wrappers

  const SIGNIFICAND_LIMIT := 34359738368

  function Pow10(n: nat): (r: nat)
    ensures r >= 1
  {
    if n == 0 then 1 else 10 * Pow10(n - 1)
  }

  /** Significand and exponent after stripping all trailing decimal zeros. */
  function Strip(x: nat): (nat, nat) {
    if x > 0 && x % 10 == 0 then
      var (significand, exponent) := Strip(x / 10);
      (significand, exponent + 1)
    else
      (x, 0)
  }

  /** `Float40`: the significand in the low 35 bits, the exponent above. */
  function Float40(significand: nat, exponent: nat): nat {
    significand + exponent * SIGNIFICAND_LIMIT
  }

  function Compress(x: nat): Result<nat> {
    if x == 0 then
      Ok(0)
    else
      var (significand, exponent) := Strip(x);
      if significand >= SIGNIFICAND_LIMIT then Err("significand too big") else Ok(Float40(significand, exponent))
  }

  /** `decompress_fr`, the value taken back into the field. */
  function Decompress(code: nat): Fr {
    (code % SIGNIFICAND_LIMIT * Pow10(code / SIGNIFICAND_LIMIT)) % P
  }

  // --------------------------------------------------------------- stripping

  lemma {:induction false} StripSound(x: nat)
    ensures var (significand, exponent) := Strip(x);
            && x == significand * Pow10(exponent)
            && significand <= x
            && (x > 0 ==> significand % 10 != 0)
  {
    if x > 0 && x % 10 == 0 {
      StripSound(x / 10);
      var (significand, exponent) := Strip(x / 10);
      calc {
        x;
        10 * (significand * Pow10(exponent));
        significand * (10 * Pow10(exponent));
      }
    }
  }

  /** No way of writing the amount has a smaller significand. */
  lemma {:induction false} StripMinimal(x: nat, m: nat, e: nat)
    requires x > 0 && x == m * Pow10(e)
    ensures Strip(x).0 <= m
  {
    StripSound(x);
    if e > 0 {
      var rest := m * Pow10(e - 1);
      assert x == 10 * rest;
      StripMinimal(rest, m, e - 1);
    }
  }

  lemma {:induction false} Pow10Monotone(a: nat, b: nat)
    requires a <= b
    ensures Pow10(a) <= Pow10(b)
    decreases b
  {
    if a < b {
      Pow10Monotone(a, b - 1);
    }
  }

  lemma Pow10Ten(n: nat)
    ensures Pow10(n + 10) == 10000000000 * Pow10(n)
  {
    assert Pow10(n + 2) == 100 * Pow10(n);
    assert Pow10(n + 4) == 100 * Pow10(n + 2);
    assert Pow10(n + 6) == 100 * Pow10(n + 4);
    assert Pow10(n + 8) == 100 * Pow10(n + 6);
    assert Pow10(n + 10) == 100 * Pow10(n + 8);
  }

  lemma FieldBelowPower()
    ensures P < Pow10(77)
  {
    assert Pow10(7) == 10000000;
    Pow10Ten(7);
    Pow10Ten(17);
    Pow10Ten(27);
    Pow10Ten(37);
    Pow10Ten(47);
    Pow10Ten(57);
    Pow10Ten(67);
  }

  /** A field element has at most 76 trailing zeros, so the exponent fits its byte. */
  lemma ExponentBound(x: Fr)
    ensures Strip(x).1 <= 76
  {
    if x == 0 {
      return;
    }
    hide Pow10, Strip;
    StripSound(x);
    FieldBelowPower();
    var (significand, exponent) := Strip(x);
    if exponent >= 77 {
      Pow10Monotone(77, exponent);
      MulAtLeast(significand, Pow10(exponent));
    }
  }

  // ------------------------------------------------------------- main results

  ghost predicate Denotes(x: nat, m: nat, e: nat) {
    m < SIGNIFICAND_LIMIT && x == m * Pow10(e)
  }

  /** Compression succeeds exactly on the amounts that some 35-bit significand and power of ten denote. */
  lemma CompressDefined(x: nat)
    ensures Compress(x).Ok? <==> exists m: nat, e: nat :: Denotes(x, m, e)
  {
    StripSound(x);
    if x == 0 {
      assert Denotes(x, 0, 0);
    } else if Compress(x).Ok? {
      var (significand, exponent) := Strip(x);
      assert Denotes(x, significand, exponent);
    } else {
      forall m: nat, e: nat
        ensures !Denotes(x, m, e)
      {
        if x == m * Pow10(e) {
          StripMinimal(x, m, e);
        }
      }
    }
  }

  lemma Float40Parts(significand: nat, exponent: nat)
    requires significand < SIGNIFICAND_LIMIT
    ensures Float40(significand, exponent) % SIGNIFICAND_LIMIT == significand
    ensures Float40(significand, exponent) / SIGNIFICAND_LIMIT == exponent
  {
  }

  /** Whenever compression succeeds, decompression gives the amount back. */
  lemma RoundTrip(x: Fr)
    requires Compress(x).Ok?
    ensures Decompress(Compress(x).value) == x
  {
    if x == 0 {
      assert Decompress(0) == 0;
    } else {
      hide Pow10, Strip;
      StripSound(x);
      var (significand, exponent) := Strip(x);
      Float40Parts(significand, exponent);
    }
  }

  /** The low 35 bits of a code are the significand and the rest is the power of ten of the amount. */
  lemma CodeDenotes(x: Fr)
    requires Compress(x).Ok?
    ensures var code := Compress(x).value; Denotes(x, code % 34359738368, code / 34359738368)
  {
    if x != 0 {
      StripSound(x);
      Float40Parts(Strip(x).0, Strip(x).1);
    }
  }

  /** The encoding is canonical: the significand is zero or not divisible by ten, and distinct amounts differ. */
  lemma Canonical(x: Fr, y: Fr)
    requires Compress(x).Ok? && Compress(y).Ok?
    ensures var significand := Compress(x).value % SIGNIFICAND_LIMIT; significand == 0 <==> x == 0
    ensures x != 0 ==> Compress(x).value % SIGNIFICAND_LIMIT % 10 != 0
    ensures Compress(x).value == Compress(y).value <==> x == y
  {
    RoundTrip(x);
    RoundTrip(y);
    if x != 0 {
      StripSound(x);
      Float40Parts(Strip(x).0, Strip(x).1);
    }
  }

  /** A compressed amount is a field element, and fits 40 bits exactly when its exponent is below 32. */
  lemma CompressedSize(x: Fr)
    requires Compress(x).Ok?
    ensures Compress(x).value < P
    ensures Compress(x).value < 1099511627776 <==> x == 0 || Strip(x).1 < 32
  {
    ExponentBound(x);
  }

  // ------------------------------------------------------------- the program

  /** The zero-stripping loop. */
  method CompressFr(fr: Fr) returns (r: Result<Fr>)
    ensures r.Ok? <==> Compress(fr).Ok?
    ensures r.Ok? ==> r.value == Compress(fr).value && Decompress(r.value) == fr
  {
    if fr == 0 {
      assert Decompress(0) == 0;
      return Ok(0);
    }
    ExponentBound(fr);
    var encodeInt: nat, exponent := fr, 0;
    var testSig := encodeInt / 10;
    while encodeInt == testSig * 10
      invariant encodeInt > 0 && testSig == encodeInt / 10
      invariant Strip(fr) == (Strip(encodeInt).0, Strip(encodeInt).1 + exponent)
      invariant exponent < 256
      decreases encodeInt
    {
      encodeInt := testSig;
      exponent := exponent + 1;
      testSig := encodeInt / 10;
    }
    assert Strip(fr) == (encodeInt, exponent);
    if encodeInt >= SIGNIFICAND_LIMIT {
      return Err("significand too big");
    }
    CompressedSize(fr);
    RoundTrip(fr);
    r := Ok(Float40(encodeInt, exponent));
  }
}
