/** The TOTP helpers of the Electron store (`src/app/lib/totp.js`): the seconds left
    in the current 30-second time step and the bundle handed to the view.  The code
    itself comes from the `otpauth` library, which is a parameter here. */
module Totp {
  import opened Wrappers

  /** The time step X of section 4 of RFC 6238, in seconds. */
  const Period: nat := 30

  /** `remainingTime` is an `int`: the countdown keeps decreasing past zero while
      the code cannot be regenerated. */
  datatype OtpInfo = OtpInfo(otpUrl: string, otp: string, remainingTime: int)

  /** `Math.ceil(a / b)` on naturals. */
  function CeilDiv(a: nat, b: nat): (q: nat)
    requires b > 0
    ensures a <= q * b < a + b
  {
    (a + b - 1) / b
  }

  /** `getRemainingTime`: seconds from `now = floor(nowMs / 1000)` up to the next
      multiple of the period (0 when `now` is itself one). */
  function RemainingTime(nowMs: nat): (r: nat)
    ensures r < Period
    ensures (nowMs / 1000 + r) % Period == 0
    ensures r == 0 <==> (nowMs / 1000) % Period == 0
  {
    var now := nowMs / 1000;
    CeilDiv(now, Period) * Period - now
  }

  /** No smaller wait reaches a step boundary: the countdown is the least one. */
  lemma RemainingTimeIsLeast(nowMs: nat, k: nat)
    requires k < RemainingTime(nowMs)
    ensures (nowMs / 1000 + k) % Period != 0
  {
  }

  /** The same countdown as `(30 - now mod 30) mod 30`. */
  lemma RemainingTimeByRemainder(nowMs: nat)
    ensures RemainingTime(nowMs) == (Period - (nowMs / 1000) % Period) % Period
  {
    var now := nowMs / 1000;
    var t := (Period - now % Period) % Period;
    assert (now + t) % Period == 0;
    SameStepBoundary(now, RemainingTime(nowMs), t);
  }

  /** Two waits shorter than a period that both reach a step boundary are equal. */
  lemma SameStepBoundary(now: nat, x: nat, y: nat)
    requires x < Period && y < Period
    requires (now + x) % Period == 0 && (now + y) % Period == 0
    ensures x == y
  {
    var a, b := (now + x) / Period, (now + y) / Period;
    assert now + x == Period * a && now + y == Period * b;
  }

  /** `getOtpInfo`: nothing for an empty URL; otherwise the URL unchanged, the code
      `generate` computes for it, and the current countdown. `generate` is
      `generateOTP`: `None` when `OTPAuth.URI.parse` throws on a malformed URL, and
      then `getOtpInfo` throws too. */
  function GetOtpInfo(otpUrl: string, generate: string -> Option<string>, nowMs: nat): (r: Result<Option<OtpInfo>>)
    ensures r.Ok? && r.value.None? <==> otpUrl == ""
    ensures r.Err? <==> otpUrl != "" && generate(otpUrl).None?
    ensures r.Ok? && r.value.Some? ==>
      && r.value.value.otpUrl == otpUrl && generate(otpUrl) == Some(r.value.value.otp)
      && r.value.value.remainingTime == RemainingTime(nowMs) && r.value.value.remainingTime < Period
  {
    if |otpUrl| > 0 then
      match generate(otpUrl)
      case None => Err(InvalidOtpUrl)
      case Some(code) => Ok(Some(OtpInfo(otpUrl, code, RemainingTime(nowMs))))
    else Ok(None)
  }

  /** The error `generateOTP` throws on a URL it cannot parse. */
  const InvalidOtpUrl := "invalid otpauth URI"
}
