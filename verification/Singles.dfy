/** IEEE 754 single precision: what the bit patterns of FLOAT values and pixels denote, and that they can be written. */
module Singles {
  import opened Common
  import opened Tiff

  /** Powers of two are pinned by 2^0 = 1 and doubling, in both directions. */
  lemma {:induction false} PowersDouble(k: int)
    ensures PowerOfTwo(0) == 1.0 && PowerOfTwo(k + 1) == 2.0 * PowerOfTwo(k) && PowerOfTwo(k) > 0.0
    decreases if k < 0 then -k else k
  {
    if k < 0 {
      PowersDouble(k + 1);
    } else if k > 0 {
      PowersDouble(k - 1);
    }
  }

  /** A finite single as its three fields: sign, biased exponent and fraction. */
  datatype Single = Single(negative: bool, biased: nat, fraction: nat)

  predicate IsFinite(s: Single) {
    s.biased <= 254 && s.fraction < 0x80_0000
  }

  /** The number the three fields stand for: subnormal when the biased exponent is 0. */
  function NumberOf(s: Single): real {
    var magnitude :=
      if s.biased == 0 then s.fraction as real * PowerOfTwo(-149)
      else (0x80_0000 + s.fraction) as real * PowerOfTwo(s.biased - 150);
    if s.negative then -magnitude else magnitude
  }

  /** The bits the three fields are put together as. */
  function Pattern(s: Single): nat {
    (if s.negative then 0x8000_0000 else 0) + s.biased * 0x80_0000 + s.fraction
  }

  lemma FieldsOfPattern(s: Single)
    requires s.biased <= 255 && s.fraction < 0x80_0000
    ensures Pattern(s) < 0x1_0000_0000
    ensures Pattern(s) % 0x80_0000 == s.fraction && Pattern(s) / 0x80_0000 % 256 == s.biased
    ensures Pattern(s) / 0x8000_0000 % 2 == (if s.negative then 1 else 0)
  {
    var q := (if s.negative then 256 else 0) + s.biased;
    assert Pattern(s) == q * 0x80_0000 + s.fraction;
    assert Pattern(s) / 0x80_0000 == q;
  }

  /**
   * A pattern put together as sign * 2^31 + (x + 127) * 2^23 + f with 1 <= x + 127 <= 254 denotes
   * (-1)^sign * (2^23 + f) * 2^(x - 23).
   */
  lemma NormalDenotes(sign: int, x: int, f: int)
    requires (sign == 0 || sign == 1) && 1 <= x + 127 <= 254 && 0 <= f < 0x80_0000
    ensures var bits := sign * 0x8000_0000 + (x + 127) * 0x80_0000 + f;
            bits >= 0
            && Float32(bits)
               == Finite((if sign == 1 then -1.0 else 1.0) * ((0x80_0000 + f) as real * PowerOfTwo(x - 23)))
  {
    FieldsOfPattern(Single(sign == 1, x + 127, f));
  }

  /** With a zero exponent it denotes (-1)^sign * f * 2^-149. */
  lemma SubnormalDenotes(sign: int, f: int)
    requires (sign == 0 || sign == 1) && 0 <= f < 0x80_0000
    ensures Float32(sign * 0x8000_0000 + f)
         == Finite((if sign == 1 then -1.0 else 1.0) * (f as real * PowerOfTwo(-149)))
  {
    FieldsOfPattern(Single(sign == 1, 0, f));
  }

  /** With an exponent of 255 it is an infinity or NaN. */
  lemma NonFiniteDenotes(sign: int, f: int)
    requires (sign == 0 || sign == 1) && 0 <= f < 0x80_0000
    ensures Float32(sign * 0x8000_0000 + 255 * 0x80_0000 + f) == NonFinite
  {
    FieldsOfPattern(Single(sign == 1, 255, f));
  }

  /** Every pattern of 32 bits is one of these three. */
  lemma EveryPattern(bits: nat) returns (sign: int, biased: int, f: int)
    requires bits < 0x1_0000_0000
    ensures (sign == 0 || sign == 1) && 0 <= biased <= 255 && 0 <= f < 0x80_0000
    ensures bits == sign * 0x8000_0000 + biased * 0x80_0000 + f
  {
    sign, biased, f := bits / 0x8000_0000, bits / 0x80_0000 % 256, bits % 0x80_0000;
  }

  /** What is put together is taken apart again. */
  lemma PatternDenotes(s: Single)
    requires IsFinite(s)
    ensures Pattern(s) < 0x1_0000_0000 && Float32(Pattern(s)) == Finite(NumberOf(s))
  {
    FieldsOfPattern(s);
  }
}
