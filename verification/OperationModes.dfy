/** The broadcast of the operation mode to all sub-HALs, with its rollback. */
module OperationModes {

  datatype Mode = NORMAL | DATA_INJECTION

  datatype Result = OK | FAILED(code: int)

  /** As numbered by the sensors HAL 1.0 interface. */
  const BAD_VALUE: Result := FAILED(-22)

  /** One call: the mode asked for, each sub-HAL's answer, and whether it would accept being reset. */
  datatype Request = Request(mode: Mode, answers: seq<Result>, resets: seq<bool>)

  /** The first sub-HAL that refuses, or the number of sub-HALs. */
  function FirstRefusal(answers: seq<Result>): (k: nat)
    ensures k <= |answers|
    ensures k < |answers| ==> answers[k] != OK
    ensures forall i | 0 <= i < k :: answers[i] == OK
  {
    if answers == [] || answers[0] != OK then 0 else 1 + FirstRefusal(answers[1..])
  }

  /** Every sub-HAL is in the proxy's current mode. */
  predicate AllIn(modes: seq<Mode>, current: Mode) {
    forall i | 0 <= i < |modes| :: modes[i] == current
  }

  predicate Fits(modes: seq<Mode>, r: Request) {
    |r.answers| == |modes| == |r.resets|
  }

  function ModesAfter(modes: seq<Mode>, current: Mode, r: Request): (after: seq<Mode>)
    requires Fits(modes, r)
    ensures |after| == |modes|
  {
    var k := FirstRefusal(r.answers);
    seq(|modes|, i requires 0 <= i < |modes| =>
      if k == |modes| then r.mode
      else if i >= k then modes[i]
      else if r.resets[i] then current else r.mode)
  }

  function CurrentAfter(current: Mode, r: Request): Mode {
    if FirstRefusal(r.answers) == |r.answers| then r.mode else current
  }

  predicate AcceptedByAll(r: Request) {
    FirstRefusal(r.answers) == |r.answers|
  }

  /** Every sub-HAL that took the mode before the refusal lets itself be reset. */
  predicate RollsBack(r: Request)
    requires |r.answers| == |r.resets|
  {
    forall i | 0 <= i < FirstRefusal(r.answers) :: r.resets[i]
  }

  /** A call keeps the agreement exactly when all accept, nothing was to change, or the rollback succeeds. */
  lemma AgreementAfterCall(modes: seq<Mode>, current: Mode, r: Request)
    requires Fits(modes, r) && AllIn(modes, current)
    ensures AllIn(ModesAfter(modes, current, r), CurrentAfter(current, r))
       <==> FirstRefusal(r.answers) == |modes| || r.mode == current || RollsBack(r)
  {
    var k := FirstRefusal(r.answers);
    var after := ModesAfter(modes, current, r);
    if k < |modes| && r.mode != current && !RollsBack(r) {
      var i :| 0 <= i < k && !r.resets[i];
      assert after[i] == r.mode;
    }
  }

  /** A call from any modes, agreeing or not: accepted by all, it brings every sub-HAL into the mode asked for; refused,
      it brings those before the first refusal into the current mode, whatever they were in, unless they do not take
      it back, leaves the others alone, and keeps the current mode. */
  lemma CallFromAnyModes(modes: seq<Mode>, current: Mode, r: Request)
    requires Fits(modes, r)
    ensures var after := ModesAfter(modes, current, r);
            && ((forall i | 0 <= i < |modes| :: r.answers[i] == OK) ==> AllIn(after, r.mode) && CurrentAfter(current, r) == r.mode)
            && (forall k | 0 <= k < |modes| && r.answers[k] != OK && (forall i | 0 <= i < k :: r.answers[i] == OK) ::
                  && CurrentAfter(current, r) == current
                  && (forall i | 0 <= i < k :: after[i] == if r.resets[i] then current else r.mode)
                  && (forall i | k <= i < |modes| :: after[i] == modes[i]))
  {
    forall k | 0 <= k < |modes| && r.answers[k] != OK && (forall i | 0 <= i < k :: r.answers[i] == OK)
      ensures FirstRefusal(r.answers) == k
    {
    }
  }

  predicate AllFit(n: nat, calls: seq<Request>) {
    forall i | 0 <= i < |calls| :: |calls[i].answers| == n && |calls[i].resets| == n
  }

  function RunCalls(modes: seq<Mode>, current: Mode, calls: seq<Request>): (end: (seq<Mode>, Mode))
    requires AllFit(|modes|, calls)
    decreases |calls|
  {
    if calls == [] then (modes, current)
    else RunCalls(ModesAfter(modes, current, calls[0]), CurrentAfter(current, calls[0]), calls[1..])
  }

  /** The call keeps agreement: it is accepted by all, asks for the current mode, or rolls back. */
  predicate KeepsAgreement(current: Mode, r: Request)
    requires |r.answers| == |r.resets|
  {
    AcceptedByAll(r) || r.mode == current || RollsBack(r)
  }

  predicate AgreeThroughout(modes: seq<Mode>, current: Mode, calls: seq<Request>)
    requires AllFit(|modes|, calls)
    decreases |calls|
  {
    AllIn(modes, current)
    && (calls != [] ==> AgreeThroughout(ModesAfter(modes, current, calls[0]), CurrentAfter(current, calls[0]), calls[1..]))
  }

  predicate AllKeepAgreement(n: nat, current: Mode, calls: seq<Request>)
    requires AllFit(n, calls)
    decreases |calls|
  {
    calls != [] ==> KeepsAgreement(current, calls[0]) && AllKeepAgreement(n, CurrentAfter(current, calls[0]), calls[1..])
  }

  /** Over every sequence of calls, whichever sub-HALs refuse: all sub-HALs are in the proxy's current mode after
      each call exactly when each call is accepted by all, asks for the mode that is current, or rolls back. */
  lemma {:induction false} AgreementThroughoutCalls(modes: seq<Mode>, current: Mode, calls: seq<Request>)
    requires AllFit(|modes|, calls) && AllIn(modes, current)
    ensures AgreeThroughout(modes, current, calls) <==> AllKeepAgreement(|modes|, current, calls)
    decreases |calls|
  {
    if calls != [] {
      AgreementAfterCall(modes, current, calls[0]);
      if KeepsAgreement(current, calls[0]) {
        AgreementThroughoutCalls(ModesAfter(modes, current, calls[0]), CurrentAfter(current, calls[0]), calls[1..]);
      }
    }
  }

  /** Whichever sub-HALs refuse, over every sequence of calls whose rollbacks succeed, all sub-HALs end in
      the proxy's current mode. */
  lemma {:induction false} AgreementOverCalls(modes: seq<Mode>, current: Mode, calls: seq<Request>)
    requires AllFit(|modes|, calls) && forall i | 0 <= i < |calls| :: RollsBack(calls[i])
    requires AllIn(modes, current)
    ensures var (modes', current') := RunCalls(modes, current, calls); AllIn(modes', current')
    decreases |calls|
  {
    if calls != [] {
      AgreementAfterCall(modes, current, calls[0]);
      AgreementOverCalls(ModesAfter(modes, current, calls[0]), CurrentAfter(current, calls[0]), calls[1..]);
    }
  }

  lemma {:induction false} RefusedCallsChangeNothing(modes: seq<Mode>, current: Mode, calls: seq<Request>)
    requires AllFit(|modes|, calls) && forall j | 0 <= j < |calls| :: !AcceptedByAll(calls[j])
    ensures RunCalls(modes, current, calls).1 == current
    decreases |calls|
  {
    if calls != [] {
      assert !AcceptedByAll(calls[0]);
      RefusedCallsChangeNothing(ModesAfter(modes, current, calls[0]), current, calls[1..]);
    }
  }

  /** The current mode is that of the last call all sub-HALs accepted. */
  lemma {:induction false} LastAcceptedWins(modes: seq<Mode>, current: Mode, calls: seq<Request>, i: nat)
    requires AllFit(|modes|, calls) && i < |calls| && AcceptedByAll(calls[i])
    requires forall j | i < j < |calls| :: !AcceptedByAll(calls[j])
    ensures RunCalls(modes, current, calls).1 == calls[i].mode
    decreases |calls|
  {
    var modes1, current1 := ModesAfter(modes, current, calls[0]), CurrentAfter(current, calls[0]);
    if i == 0 {
      RefusedCallsChangeNothing(modes1, current1, calls[1..]);
    } else {
      LastAcceptedWins(modes1, current1, calls[1..], i - 1);
    }
  }
}
