/**
 * One-time codes: a value drawn uniformly from [0, 999999) by the cryptographic
 * random source, rendered as six zero-padded decimal digits.
 */
module Otp {

  import opened Wrappers
  import opened Decimal

  /** The exclusive upper bound handed to the random source. */
  const OtpBound: nat := 999999

  datatype Generated = Generated(code: string, failed: bool)

  /**
   * `draw` is what the random source returned: `None` when it failed, otherwise a
   * value below the bound.  A failure gives the empty code together with the error;
   * a value gives its six-digit zero-padded rendering.
   */
  function GenerateOTP(draw: Option<nat>): (r: Generated)
    requires draw.Some? ==> draw.value < OtpBound
    ensures draw.None? <==> r.failed
    ensures r.failed ==> r.code == ""
    ensures !r.failed ==> |r.code| == 6 && AllDigits(r.code) && ValueOf(r.code) == draw.value
  {
    if draw.None? then Generated("", true)
    else
      DigitsLength(draw.value, 6);
      Generated(ZeroPadded(draw.value, 6), false)
  }

  /** The code "999999" is never produced, since the drawn value is below 999999. */
  lemma {:induction false} NeverAllNines(draw: Option<nat>)
    requires draw.Some? ==> draw.value < OtpBound
    ensures GenerateOTP(draw).code != "999999"
  {
    AllNinesValue();
  }

  lemma {:induction false} AllNinesValue()
    ensures ValueOf("999999") == 999999
  {
    assert "9"[..0] == "";
    assert "99"[..1] == "9";
    assert "999"[..2] == "99";
    assert "9999"[..3] == "999";
    assert "99999"[..4] == "9999";
    assert "999999"[..5] == "99999";
  }

  /** Distinct drawn values give distinct codes. */
  lemma {:induction false} CodesDistinct(m: nat, n: nat)
    requires m < OtpBound && n < OtpBound && m != n
    ensures GenerateOTP(Some(m)).code != GenerateOTP(Some(n)).code
  {
  }
}
