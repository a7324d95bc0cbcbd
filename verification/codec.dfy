/** The register codec of the embedded controller (EC): raw duty byte to
    percent, tachometer bytes to RPM, and percent to the raw byte written
    back. The C code computes the duty conversions in `double`; on the byte
    and 1..100 domains every value is exact under integer division, so they
    are modelled with `/` on naturals. */
module Codec {
  import opened Base

  /** Tachometer constant of the EC's fan-speed counter. */
  const TachConstant: int := 2156220

  /** `calculate_fan_duty`: a raw duty byte as a percentage, rounded down. */
  function DutyFromRaw(raw: Byte): (d: int)
    ensures 0 <= d <= 100
    ensures d * 255 <= raw * 100 < (d + 1) * 255
  {
    raw * 100 / 255
  }

  /** The 16-bit tachometer count `(hi << 8) + lo`. */
  function Tach(hi: Byte, lo: Byte): (t: int)
    ensures 0 <= t < 0x1_0000
    ensures t == 0 <==> hi == 0 && lo == 0
  {
    hi * 256 + lo
  }

  /** RPM for a tachometer count; a zero count means a stopped fan. */
  function RpmOfTach(t: nat): (rpm: int)
    ensures t == 0 ==> rpm == 0
    ensures t > 0 ==> rpm * t <= TachConstant < (rpm + 1) * t
    ensures 0 <= rpm <= TachConstant
  {
    if t > 0 then TachConstant / t else 0
  }

  /** `calculate_fan_rpms`. */
  function RpmFromRaw(hi: Byte, lo: Byte): (rpm: int)
    ensures 0 <= rpm <= TachConstant
    ensures hi == 0 && lo == 0 ==> rpm == 0
  {
    RpmOfTach(Tach(hi, lo))
  }

  /** The raw value `ec_write_fan_duty` sends for an accepted percentage. */
  function DutyToRaw(p: int): (raw: Byte)
    requires 1 <= p <= 100
    ensures raw * 100 <= p * 255 < (raw + 1) * 100
  {
    p * 255 / 100
  }

  /** The RPM reading never increases as the tachometer count grows. */
  lemma {:induction false} RpmNonIncreasing(t1: nat, t2: nat)
    requires 0 < t1 <= t2
    ensures RpmOfTach(t1) >= RpmOfTach(t2)
  {
    var r1, r2 := RpmOfTach(t1), RpmOfTach(t2);
    if r1 < r2 {
      calc {
        TachConstant;
      < (r1 + 1) * t1;
      <= { assert r1 + 1 <= r2; MulMono(r1 + 1, r2, t1); }
        r2 * t1;
      <= { MulMono(t1, t2, r2); }
        r2 * t2;
      <= TachConstant;
      }
    }
  }

  /** Writing a percentage and reading the duty register back loses at
      most one percent, and never rounds up. */
  lemma DutyRoundTrip(p: int)
    requires 1 <= p <= 100
    ensures DutyFromRaw(DutyToRaw(p)) == p || DutyFromRaw(DutyToRaw(p)) == p - 1
  {
    var raw := DutyToRaw(p);
    var d := DutyFromRaw(raw);
    // raw * 100 <= p * 255 gives d <= p; p * 255 < (raw + 1) * 100 gives d >= p - 1.
    assert d * 255 * 100 <= raw * 100 * 100 <= p * 255 * 100;
    assert d <= p;
    assert (p - 1) * 255 * 100 < raw * 100 * 100 < (d + 1) * 255 * 100 by {
      assert p * 255 * 100 < (raw + 1) * 100 * 100;
    }
    assert p - 1 < d + 1;
  }

  /** The duty reference vectors of the project's test suite. */
  lemma DutyTestVectors()
    ensures DutyFromRaw(0) == 0 && DutyFromRaw(64) == 25 && DutyFromRaw(127) == 49
    ensures DutyFromRaw(191) == 74 && DutyFromRaw(255) == 100
  {
  }

  /** The RPM reading is the unique quotient of the tachometer constant. */
  lemma {:induction false} RpmOfTachUnique(t: nat, r: int)
    requires t > 0 && r * t <= TachConstant < (r + 1) * t
    ensures RpmOfTach(t) == r
  {
    var q := RpmOfTach(t);
    if q < r {
      MulMono(q + 1, r, t);
    } else if q > r {
      MulMono(r + 1, q, t);
    }
  }

  /** The first non-zero RPM reference vector of the project's test suite. */
  lemma RpmTestVectorSlow()
    ensures RpmFromRaw(0x43, 0x1A) == 125
  {
    RpmVector(0x43, 0x1A, 17178, 125);
  }

  /** The second non-zero RPM reference vector of the project's test suite. */
  lemma RpmTestVectorFast()
    ensures RpmFromRaw(0x21, 0x8D) == 251
  {
    RpmVector(0x21, 0x8D, 8589, 251);
  }

  lemma RpmVector(hi: Byte, lo: Byte, t: nat, r: int)
    requires Tach(hi, lo) == t > 0
    requires r * t <= TachConstant < (r + 1) * t
    ensures RpmFromRaw(hi, lo) == r
  {
    RpmOfTachUnique(t, r);
  }
}
