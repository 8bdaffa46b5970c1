// Constant-time comparison and the OTP prompt of the dApp's untrusted flow
// (packages/core/src/utils/timing-safe-equal.ts,
//  packages/dapp-client/src/handlers/untrusted-connection-handler.ts).

module ConstantTime {

  // A JavaScript string, as its UTF-16 code units.
  type Utf16 = seq<bv16>

  // One turn of the loop: the accumulator stays 0 exactly while the units agree.
  method Accumulate(result: bv16, x: bv16, y: bv16) returns (next: bv16)
    ensures next == 0 <==> result == 0 && x == y
  {
    next := result | (x ^ y);
  }

  predicate AgreeUpTo(a: Utf16, b: Utf16, n: nat)
    requires n <= |a| && n <= |b|
  {
    n == 0 || (AgreeUpTo(a, b, n - 1) && a[n - 1] == b[n - 1])
  }

  lemma {:induction false} AgreeOnPrefix(a: Utf16, b: Utf16, n: nat)
    requires n <= |a| && n <= |b|
    ensures AgreeUpTo(a, b, n) <==> a[..n] == b[..n]
  {
    if n > 0 {
      AgreeOnPrefix(a, b, n - 1);
      assert a[..n] == a[..n - 1] + [a[n - 1]] && b[..n] == b[..n - 1] + [b[n - 1]];
    }
  }

  /** The accumulating loop decides equality, wherever the strings differ. */
  method TimingSafeEqual(a: Utf16, b: Utf16) returns (equal: bool)
    ensures equal <==> a == b
  {
    if |a| != |b| {
      return false;
    }
    var result: bv16 := 0;
    for i := 0 to |a|
      invariant result == 0 <==> AgreeUpTo(a, b, i)
    {
      result := Accumulate(result, a[i], b[i]);
    }
    AgreeOnPrefix(a, b, |a|);
    assert a[..|a|] == a && b[..|b|] == b;
    return result == 0;
  }
}

module Otp {
  import opened ConstantTime

  const OTP_ATTEMPTS := 3

  datatype Input = Submit(otp: Utf16) | Cancel

  // The promise of _handleOtpInput.
  datatype Outcome = Pending | Accepted | TooManyAttempts | Cancelled

  // What the call of `submit` itself did.
  datatype Reply = Resolved | Incorrect(remaining: int)

  datatype Prompt = Prompt(expected: Utf16, attempts: nat, outcome: Outcome)

  function Settle(current: Outcome, to: Outcome): Outcome {
    if current.Pending? then to else current
  }

  /** One user input. A settled promise ignores every later resolve or reject. */
  function Step(p: Prompt, input: Input): Prompt {
    match input
    case Cancel => p.(outcome := Settle(p.outcome, Cancelled))
    case Submit(otp) =>
      if otp == p.expected then p.(outcome := Settle(p.outcome, Accepted))
      else if p.attempts + 1 >= OTP_ATTEMPTS
      then p.(attempts := p.attempts + 1, outcome := Settle(p.outcome, TooManyAttempts))
      else p.(attempts := p.attempts + 1)
  }

  function Start(expected: Utf16): Prompt { Prompt(expected, 0, Pending) }

  function Run(p: Prompt, inputs: seq<Input>): Prompt {
    if inputs == [] then p else Step(Run(p, inputs[..|inputs| - 1]), inputs[|inputs| - 1])
  }

  /** The closures handed out with `otp_required`: they share the counter and the promise. */
  class OtpPrompt {
    const expectedOtp: Utf16
    var attempts: nat
    var outcome: Outcome

    ghost function View(): Prompt reads this { Prompt(expectedOtp, attempts, outcome) }

    constructor (expected: Utf16)
      ensures View() == Start(expected)
    {
      expectedOtp, attempts, outcome := expected, 0, Pending;
    }

    method Submit(otp: Utf16) returns (reply: Reply)
      modifies this
      ensures View() == Step(old(View()), Input.Submit(otp))
      ensures attempts == old(attempts) + if otp != expectedOtp then 1 else 0
      ensures outcome == if !old(outcome).Pending? then old(outcome)
                         else if otp == expectedOtp then Accepted
                         else if old(attempts) >= 2 then TooManyAttempts else Pending
      ensures reply.Incorrect? <==> otp != expectedOtp && old(attempts) < 2
      ensures reply.Incorrect? ==> reply.remaining == 3 - attempts > 0
    {
      var equal := TimingSafeEqual(otp, expectedOtp);
      if !equal {
        attempts := attempts + 1;
        if attempts >= OTP_ATTEMPTS {
          outcome := Settle(outcome, TooManyAttempts);
        } else {
          return Incorrect(OTP_ATTEMPTS - attempts);
        }
        return Resolved;
      }
      outcome := Settle(outcome, Accepted);
      return Resolved;
    }

    method Cancel()
      modifies this
      ensures View() == Step(old(View()), Input.Cancel)
      ensures attempts == old(attempts) && outcome == if old(outcome).Pending? then Cancelled else old(outcome)
    {
      outcome := Settle(outcome, Cancelled);
    }
  }

  function Wrong(expected: Utf16, inputs: seq<Input>): nat {
    if inputs == [] then 0
    else
      var last := inputs[|inputs| - 1];
      Wrong(expected, inputs[..|inputs| - 1]) + if last.Submit? && last.otp != expected then 1 else 0
  }

  // Input i settles the prompt in the user's favour.
  ghost predicate AcceptedAt(expected: Utf16, inputs: seq<Input>, i: nat)
    requires i < |inputs|
  {
    && inputs[i] == Submit(expected)
    && Cancel !in inputs[..i]
    && Wrong(expected, inputs[..i]) <= 2
  }

  // Input i is the user's cancel, and nothing has settled the prompt before.
  ghost predicate CancelledAt(expected: Utf16, inputs: seq<Input>, i: nat)
    requires i < |inputs|
  {
    && inputs[i] == Cancel
    && Submit(expected) !in inputs[..i]
    && Wrong(expected, inputs[..i]) <= 2
  }

  // Input i is the third wrong submission, and nothing has settled the prompt before.
  ghost predicate ExhaustedAt(expected: Utf16, inputs: seq<Input>, i: nat)
    requires i < |inputs|
  {
    && inputs[i].Submit? && inputs[i].otp != expected
    && Cancel !in inputs[..i] && Submit(expected) !in inputs[..i]
    && Wrong(expected, inputs[..i]) == 2
  }

  lemma {:induction false} WrongMonotone(expected: Utf16, inputs: seq<Input>, i: nat)
    requires i <= |inputs|
    ensures Wrong(expected, inputs[..i]) <= Wrong(expected, inputs)
  {
    if i < |inputs| {
      assert inputs[..|inputs| - 1][..i] == inputs[..i];
      WrongMonotone(expected, inputs[..|inputs| - 1], i);
    } else {
      assert inputs[..i] == inputs;
    }
  }

  // The counter counts the wrong submissions, and the promise is pending exactly
  // while nothing has settled it.
  lemma {:induction false} RunState(expected: Utf16, inputs: seq<Input>)
    ensures var p := Run(Start(expected), inputs);
      && p.expected == expected
      && p.attempts == Wrong(expected, inputs)
      && (p.outcome.Pending? <==> Cancel !in inputs && Submit(expected) !in inputs
                                  && Wrong(expected, inputs) < 3)
  {
    if inputs != [] {
      var front, last := inputs[..|inputs| - 1], inputs[|inputs| - 1];
      RunState(expected, front);
      assert inputs == front + [last];
    }
  }

  /** For every finite sequence of submissions and cancels, the OTP is accepted exactly when
      a right submission comes before any cancel and after at most two wrong ones. */
  lemma {:induction false} OtpAcceptedIff(expected: Utf16, inputs: seq<Input>)
    ensures Run(Start(expected), inputs).outcome.Accepted?
            <==> exists i: nat :: i < |inputs| && AcceptedAt(expected, inputs, i)
  {
    if inputs != [] {
      var n := |inputs| - 1;
      var front, last := inputs[..n], inputs[n];
      OtpAcceptedIff(expected, front);
      RunState(expected, front);
      forall i: nat | i < n
        ensures AcceptedAt(expected, inputs, i) <==> AcceptedAt(expected, front, i)
      {
        assert inputs[..i] == front[..i];
      }
      if AcceptedAt(expected, inputs, n) {
        if Submit(expected) in front {
          var i: nat :| i < n && front[i] == Submit(expected);
          WrongMonotone(expected, front, i);
          assert Cancel !in inputs[..i];
          assert AcceptedAt(expected, inputs, i);
        }
      }
    }
  }

  lemma {:induction false} CancelledOnce(expected: Utf16, inputs: seq<Input>, i: nat)
    requires i < |inputs| && CancelledAt(expected, inputs, i)
    ensures Run(Start(expected), inputs).outcome.Cancelled?
  {
    var n := |inputs| - 1;
    RunState(expected, inputs[..n]);
    if i < n {
      assert inputs[..n][..i] == inputs[..i];
      CancelledOnce(expected, inputs[..n], i);
    } else {
      CancelWins(expected, inputs[..n]);
    }
  }

  // Without a right submission and with at most two wrong ones, only a cancel can have settled the prompt.
  lemma {:induction false} CancelWins(expected: Utf16, inputs: seq<Input>)
    requires Submit(expected) !in inputs && Wrong(expected, inputs) <= 2
    ensures Run(Start(expected), inputs).outcome in {Pending, Cancelled}
  {
    if inputs != [] {
      var n := |inputs| - 1;
      CancelWins(expected, inputs[..n]);
      RunState(expected, inputs[..n]);
    }
  }

  /** The prompt ends cancelled exactly when the user cancels before any right submission and after at
      most two wrong ones. */
  lemma {:induction false} OtpCancelledIff(expected: Utf16, inputs: seq<Input>)
    ensures Run(Start(expected), inputs).outcome == Cancelled
            <==> exists i: nat :: i < |inputs| && CancelledAt(expected, inputs, i)
  {
    if inputs != [] {
      var n := |inputs| - 1;
      OtpCancelledIff(expected, inputs[..n]);
      RunState(expected, inputs[..n]);
      forall i: nat | i < n ensures CancelledAt(expected, inputs, i) <==> CancelledAt(expected, inputs[..n], i) {
        assert inputs[..n][..i] == inputs[..i];
      }
      if i: nat :| i < n && CancelledAt(expected, inputs[..n], i) { assert CancelledAt(expected, inputs, i); }
      if Run(Start(expected), inputs[..n]).outcome.Pending? && Run(Start(expected), inputs).outcome.Cancelled? {
        assert CancelledAt(expected, inputs, n);
      }
      forall i: nat | i < |inputs| && CancelledAt(expected, inputs, i)
        ensures Run(Start(expected), inputs).outcome == Cancelled
      {
        CancelledOnce(expected, inputs, i);
      }
    }
  }

  lemma {:induction false} ExhaustedOnce(expected: Utf16, inputs: seq<Input>, i: nat)
    requires i < |inputs| && ExhaustedAt(expected, inputs, i)
    ensures Run(Start(expected), inputs).outcome.TooManyAttempts?
  {
    var n := |inputs| - 1;
    RunState(expected, inputs[..n]);
    if i < n {
      assert inputs[..n][..i] == inputs[..i];
      ExhaustedOnce(expected, inputs[..n], i);
      OtpOutcomeIsFinal(expected, inputs[..n], [inputs[n]]);
      assert inputs == inputs[..n] + [inputs[n]];
    }
  }

  /** It ends with too many attempts exactly when a third wrong submission comes before any cancel and
      before any right one. */
  lemma {:induction false} OtpExhaustedIff(expected: Utf16, inputs: seq<Input>)
    ensures Run(Start(expected), inputs).outcome == TooManyAttempts
            <==> exists i: nat :: i < |inputs| && ExhaustedAt(expected, inputs, i)
  {
    if inputs != [] {
      var n := |inputs| - 1;
      OtpExhaustedIff(expected, inputs[..n]);
      RunState(expected, inputs[..n]);
      forall i: nat | i < n ensures ExhaustedAt(expected, inputs, i) <==> ExhaustedAt(expected, inputs[..n], i) {
        assert inputs[..n][..i] == inputs[..i];
      }
      if i: nat :| i < n && ExhaustedAt(expected, inputs[..n], i) { assert ExhaustedAt(expected, inputs, i); }
      if Run(Start(expected), inputs[..n]).outcome.Pending? && Run(Start(expected), inputs).outcome.TooManyAttempts? {
        assert ExhaustedAt(expected, inputs, n);
      }
      forall i: nat | i < |inputs| && ExhaustedAt(expected, inputs, i)
        ensures Run(Start(expected), inputs).outcome == TooManyAttempts
      {
        ExhaustedOnce(expected, inputs, i);
      }
    }
  }

  /** Once the promise is settled, no later input changes the outcome. */
  lemma {:induction false} OtpOutcomeIsFinal(expected: Utf16, inputs: seq<Input>, later: seq<Input>)
    requires !Run(Start(expected), inputs).outcome.Pending?
    ensures Run(Start(expected), inputs + later).outcome == Run(Start(expected), inputs).outcome
  {
    if later == [] {
      assert inputs + later == inputs;
    } else {
      var n := |later| - 1;
      OtpOutcomeIsFinal(expected, inputs, later[..n]);
      assert (inputs + later)[..|inputs + later| - 1] == inputs + later[..n];
    }
  }
}
