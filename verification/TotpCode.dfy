// Checking a six-digit code against the three steps around now (src/auth_factors/totp.rs).

module TotpCode {
  import opened Prelude

  newtype u64 = n: int | 0 <= n < 0x1_0000_0000_0000_0000
  newtype i64 = n: int | -0x8000_0000_0000_0000 <= n < 0x8000_0000_0000_0000

  const STEP_SECONDS: nat := 30
  const SKEW: nat := 1

  // `generate` is the code for a Unix timestamp under one secret.
  type Generator = nat -> string

  predicate WellFormed(code: string) {
    |code| == 6 && forall i :: 0 <= i < 6 ==> '0' <= code[i] <= '9'
  }

  predicate StepMatches(generate: Generator, code: string, step: int) {
    step >= 0 && generate(step * STEP_SECONDS) == code
  }

  // The least step, at most one away from the current one, whose code was presented.
  function Accepted(generate: Generator, code: string, timestamp: nat): (r: Option<nat>)
    ensures r.Some? ==> timestamp / STEP_SECONDS - SKEW <= r.value <= timestamp / STEP_SECONDS + SKEW
    ensures r.Some? ==> WellFormed(code) && StepMatches(generate, code, r.value)
    ensures r.Some? ==> forall s :: timestamp / STEP_SECONDS - SKEW <= s < r.value ==> !StepMatches(generate, code, s)
    ensures r.None? && WellFormed(code) ==>
              forall s :: timestamp / STEP_SECONDS - SKEW <= s <= timestamp / STEP_SECONDS + SKEW ==> !StepMatches(generate, code, s)
  {
    var now := timestamp / STEP_SECONDS;
    if !WellFormed(code) then None
    else if StepMatches(generate, code, now - 1) then Some(now - 1)
    else if StepMatches(generate, code, now) then Some(now)
    else if StepMatches(generate, code, now + 1) then Some(now + 1)
    else None
  }

  // Constant-time selection: the loop always runs to the end and masks later hits. The bound on
  // the timestamp is exactly what keeps `candidate_step * TOTP_STEP_SECONDS` inside a u64.
  method VerifyAtTimestep(generate: Generator, code: string, timestamp: u64) returns (r: Option<nat>)
    requires (timestamp as int / STEP_SECONDS + SKEW) * STEP_SECONDS < 0x1_0000_0000_0000_0000
    ensures r == Accepted(generate, code, timestamp as nat)
  {
    if !WellFormed(code) {
      return None;
    }
    var current: i64 := (timestamp / 30) as i64;
    var matched := false;
    var matchedStep: u64 := 0;
    var offset: i64 := -1;
    while offset <= 1
      invariant -1 <= offset <= 2
      invariant matched <==> exists s :: current as int - 1 <= s < current as int + offset as int && StepMatches(generate, code, s)
      invariant matched ==> current as int - 1 <= matchedStep as int < current as int + offset as int
      invariant matched ==> StepMatches(generate, code, matchedStep as int)
      invariant matched ==> forall s :: current as int - 1 <= s < matchedStep as int ==> !StepMatches(generate, code, s)
      decreases 2 - offset as int
    {
      var step: i64 := current + offset;
      var candidate: u64 := (if step >= 0 then step else 0) as u64;
      var expected := generate((candidate * 30) as nat);
      var hit := expected == code && step >= 0;
      assert hit <==> StepMatches(generate, code, step as int);
      var firstHit := hit && !matched;
      matchedStep := if firstHit then candidate else matchedStep;
      matched := matched || hit;
      offset := offset + 1;
    }
    return if matched then Some(matchedStep as nat) else None;
  }

  // Every instant an i64 can hold is safe; instants before the epoch are refused.
  method VerifyNow(generate: Generator, code: string, now: i64) returns (r: Option<nat>)
    ensures now < 0 ==> r == None
    ensures now >= 0 ==> r == Accepted(generate, code, now as nat)
  {
    if now < 0 {
      return None;
    }
    r := VerifyAtTimestep(generate, code, now as u64);
  }
}
