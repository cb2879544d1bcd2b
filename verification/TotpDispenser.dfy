/** One-time codes under a replay guard.  A small program hands out the next unspent time step of RFC 6238,
    section 5.2, keeping the last one in a file; the server accepts a step once, within one step of its clock.
    Each run of the program reads the clock twice. */
module TotpDispenser {

  import opened Wrappers

  /** A run of the program: the clock's step when it picks one, and again when it checks it. */
  datatype Reading = Reading(first: int, second: int)

  function Candidate(lastStep: int, r: Reading): int {
    if r.first >= lastStep + 1 then r.first else lastStep + 1
  }

  predicate Issues(lastStep: int, r: Reading) { Candidate(lastStep, r) <= r.second + 1 }

  class Dispenser {
    var lastStep: int

    constructor (lastStep: int)
      ensures this.lastStep == lastStep
    {
      this.lastStep := lastStep;
    }

    /** One run: either the next step, now recorded as spent, or exit code 2 with the state as it was. */
    method Run(r: Reading) returns (issued: bool, step: int)
      modifies this
      ensures issued <==> Issues(old(lastStep), r)
      ensures issued ==> step == lastStep == Candidate(old(lastStep), r)
      ensures issued ==> old(lastStep) < step && r.first <= step <= r.second + 1
      ensures !issued ==> lastStep == old(lastStep)
    {
      step := if r.first >= lastStep + 1 then r.first else lastStep + 1;
      if step > r.second + 1 {
        return false, step;
      }
      lastStep := step;
      issued := true;
    }
  }

  /* ---------------------------------------------------------------- whole histories */

  /** The steps a sequence of runs issues, in order. */
  function Issued(lastStep: int, runs: seq<Reading>): seq<int>
    decreases |runs|
  {
    if runs == [] then []
    else if Issues(lastStep, runs[0]) then [Candidate(lastStep, runs[0])] + Issued(Candidate(lastStep, runs[0]), runs[1..])
    else Issued(lastStep, runs[1..])
  }

  function After(lastStep: int, runs: seq<Reading>): int
    decreases |runs|
  {
    if runs == [] then lastStep
    else After(if Issues(lastStep, runs[0]) then Candidate(lastStep, runs[0]) else lastStep, runs[1..])
  }

  predicate Rising(floor: int, steps: seq<int>) {
    (forall i :: 0 <= i < |steps| ==> steps[i] > floor) && forall i, j :: 0 <= i < j < |steps| ==> steps[i] < steps[j]
  }

  /** Whatever the clock does, forwards or backwards, no step is ever issued twice. */
  lemma {:induction false} StepsNeverRepeat(lastStep: int, runs: seq<Reading>)
    ensures Rising(lastStep, Issued(lastStep, runs))
    decreases |runs|
  {
    if runs != [] {
      StepsNeverRepeat(if Issues(lastStep, runs[0]) then Candidate(lastStep, runs[0]) else lastStep, runs[1..]);
    }
  }

  /** The clock never runs backwards, starting from now. */
  predicate Monotone(now: int, runs: seq<Reading>)
    decreases |runs|
  {
    runs == [] || (now <= runs[0].first <= runs[0].second && Monotone(runs[0].second, runs[1..]))
  }

  function Latest(now: int, runs: seq<Reading>): int
    decreases |runs|
  {
    if runs == [] then now else Latest(runs[0].second, runs[1..])
  }

  lemma {:induction false} NeverFarAhead(now: int, lastStep: int, runs: seq<Reading>)
    requires Monotone(now, runs) && lastStep <= now + 1
    ensures After(lastStep, runs) <= Latest(now, runs) + 1
    decreases |runs|
  {
    if runs != [] {
      NeverFarAhead(runs[0].second, if Issues(lastStep, runs[0]) then Candidate(lastStep, runs[0]) else lastStep, runs[1..]);
    }
  }

  /** With a clock that never runs backwards, a refused caller that waits for one step always gets a code. */
  lemma OneStepOfWaitingSuffices(now: int, lastStep: int, runs: seq<Reading>, refused: Reading, retry: Reading)
    requires Monotone(now, runs) && lastStep <= now + 1
    requires Latest(now, runs) <= refused.first <= refused.second && !Issues(After(lastStep, runs), refused)
    requires refused.second + 1 <= retry.first <= retry.second
    ensures Issues(After(lastStep, runs), retry)
  {
    NeverFarAhead(now, lastStep, runs);
  }

  /* ---------------------------------------------------------------- the server's guard */

  /** The step a presented code is taken for: the earliest one within one of the clock's whose code it is.  Steps
      are not negative. */
  function Matched(code: int -> string, presented: string, clock: nat): Option<int> {
    if clock >= 1 && code(clock - 1) == presented then Some(clock - 1)
    else if code(clock) == presented then Some(clock as int)
    else if code(clock + 1) == presented then Some(clock + 1)
    else None
  }

  /** The server accepts a code whose step is past the last one used. */
  predicate Accepts(code: int -> string, lastUsed: int, presented: string, clock: nat) {
    var step := Matched(code, presented, clock); step.Some? && step.value > lastUsed
  }

  /** A code just issued, presented before the clock leaves the step after the one it was picked in to a server that has
      only ever seen codes issued before it, is accepted if and only if no used step in the window has the same code. */
  lemma IssuedCodeIsAcceptedIff(code: int -> string, lastStep: int, lastUsed: int, r: Reading, clock: nat)
    requires Issues(lastStep, r) && lastUsed <= lastStep && r.first >= 0
    requires r.second <= clock <= r.first + 1
    ensures Accepts(code, lastUsed, code(Candidate(lastStep, r)), clock)
       <==> forall step :: 0 <= step <= lastUsed && clock - 1 <= step ==> code(step) != code(Candidate(lastStep, r))
  {
    var step := Candidate(lastStep, r);
    var m := Matched(code, code(step), clock);
    assert clock - 1 <= step <= clock + 1 && step >= 0;
    if m.Some? && m.value <= lastUsed {
      assert code(m.value) == code(step);
    }
  }
}
