/**
 The over-the-air update routine `performOTA` of the ESP32 firmware agent.

 Every library the routine talks to (the HTTPS client, the flash `Update`
 object, the restart call) is replaced by the value it returned, collected in
 an `Oracle`; the routine itself becomes a state machine over those values that
 records, in order, every library call it makes.
 */
module Ota {

  /** The only URL scheme the routine accepts. */
  const HttpsPrefix: string := "https://"
  /** HTTP_CODE_OK. */
  const HttpCodeOk: int := 200
  /** Milliseconds waited between the success message and the restart. */
  const RestartDelayMs: nat := 1500

  /** The values the libraries hand back, one per call the routine may make. */
  datatype Oracle = Oracle(
    beginOk: bool,        // https.begin(client, url)
    httpCode: int,        // https.GET()
    contentLength: int,   // https.getSize()
    flashBeginOk: bool,   // Update.begin(contentLength)
    written: nat,         // Update.writeStream(*stream)
    flashEndOk: bool,     // Update.end()
    finished: bool)       // Update.isFinished()

  /** A library call made by the routine, in the order it is made. */
  datatype Call =
    | NewSecureClient       // WiFiClientSecure + setInsecure + HTTPClient
    | HttpsBegin(url: string)
    | HttpGet
    | HttpGetSize
    | HttpGetStream
    | FlashBegin(size: int)
    | FlashWriteStream
    | FlashEnd
    | FlashIsFinished
    | HttpsEnd
    | Delay(ms: nat)
    | Restart

  /** Why the routine returned false. */
  datatype FailReason =
    | NotHttps
    | ConnectFailed
    | BadStatus(code: int)
    | BadLength(length: int)
    | FlashBeginFailed
    | ShortWrite(written: nat, expected: int)
    | FlashEndFailed
    | NotFinished

  /** The control points of the routine; `Restarting` and `Fail` are terminal. */
  datatype Phase =
    | Idle
    | CheckUrl
    | Connecting
    | CheckStatus
    | CheckLength
    | FlashBeginning
    | Writing
    | Finalizing
    | Verifying
    | Restarting
    | Fail(reason: FailReason)

  /**
   The state of one run: where it is, the calls made so far, whether the HTTP
   session is open (begun and not yet ended) and whether the flash image was
   committed (`Update.end()` succeeded, so the new image boots next).
   */
  datatype Machine = Machine(phase: Phase, calls: seq<Call>, sessionOpen: bool, committed: bool)

  predicate Terminal(p: Phase) {
    p.Restarting? || p.Fail?
  }

  function Rank(p: Phase): nat {
    match p
    case Idle => 9
    case CheckUrl => 8
    case Connecting => 7
    case CheckStatus => 6
    case CheckLength => 5
    case FlashBeginning => 4
    case Writing => 3
    case Finalizing => 2
    case Verifying => 1
    case Restarting => 0
    case Fail(_) => 0
  }

  predicate StartsWith(s: string, prefix: string) {
    |prefix| <= |s| && s[..|prefix|] == prefix
  }

  const Init: Machine := Machine(Idle, [], false, false)

  /** Closes the HTTP session and fails: what every guard after `https.begin` does. */
  function CloseAndFail(m: Machine, extra: seq<Call>, r: FailReason): Machine {
    Machine(Fail(r), m.calls + extra + [HttpsEnd], false, m.committed)
  }

  /** One transition: perform the call of the current control point and check its result. */
  function Step(url: string, o: Oracle, m: Machine): (m': Machine)
    requires !Terminal(m.phase)
    ensures Rank(m'.phase) < Rank(m.phase)
  {
    match m.phase
    case Idle => m.(phase := CheckUrl)
    case CheckUrl =>
      if StartsWith(url, HttpsPrefix) then m.(phase := Connecting, calls := m.calls + [NewSecureClient])
      else m.(phase := Fail(NotHttps))
    case Connecting =>
      if o.beginOk then m.(phase := CheckStatus, calls := m.calls + [HttpsBegin(url)], sessionOpen := true)
      else m.(phase := Fail(ConnectFailed), calls := m.calls + [HttpsBegin(url)])
    case CheckStatus =>
      if o.httpCode == HttpCodeOk then m.(phase := CheckLength, calls := m.calls + [HttpGet])
      else CloseAndFail(m, [HttpGet], BadStatus(o.httpCode))
    case CheckLength =>
      if o.contentLength > 0 then m.(phase := FlashBeginning, calls := m.calls + [HttpGetSize, HttpGetStream])
      else CloseAndFail(m, [HttpGetSize], BadLength(o.contentLength))
    case FlashBeginning =>
      if o.flashBeginOk then m.(phase := Writing, calls := m.calls + [FlashBegin(o.contentLength)])
      else CloseAndFail(m, [FlashBegin(o.contentLength)], FlashBeginFailed)
    case Writing =>
      if o.written == o.contentLength then m.(phase := Finalizing, calls := m.calls + [FlashWriteStream])
      else CloseAndFail(m, [FlashWriteStream], ShortWrite(o.written, o.contentLength))
    case Finalizing =>
      if o.flashEndOk then m.(phase := Verifying, calls := m.calls + [FlashEnd], committed := true)
      else CloseAndFail(m, [FlashEnd], FlashEndFailed)
    case Verifying =>
      if o.finished then m.(phase := Restarting, calls := m.calls + [FlashIsFinished, Delay(RestartDelayMs), Restart])
      else CloseAndFail(m, [FlashIsFinished], NotFinished)
  }

  /** Runs the machine from `m` to a terminal phase. */
  function Run(url: string, o: Oracle, m: Machine): (r: Machine)
    ensures Terminal(r.phase)
    decreases Rank(m.phase)
  {
    if Terminal(m.phase) then m else Run(url, o, Step(url, o, m))
  }

  /** A transition only appends to the call trace: no call is undone or reordered. */
  lemma StepOnlyAppends(url: string, o: Oracle, m: Machine)
    requires !Terminal(m.phase)
    ensures |m.calls| <= |Step(url, o, m).calls|
    ensures Step(url, o, m).calls[..|m.calls|] == m.calls
  {
  }

  /** A whole run only appends to the call trace it starts from. */
  lemma {:induction false} RunOnlyAppends(url: string, o: Oracle, m: Machine)
    ensures |m.calls| <= |Run(url, o, m).calls|
    ensures Run(url, o, m).calls[..|m.calls|] == m.calls
    decreases Rank(m.phase)
  {
    if !Terminal(m.phase) {
      var next := Step(url, o, m);
      StepOnlyAppends(url, o, m);
      RunOnlyAppends(url, o, next);
      var r := Run(url, o, m).calls;
      assert r[..|next.calls|][..|m.calls|] == next.calls[..|m.calls|];
    }
  }

  /** The whole of `performOTA(url)` under the library results `o`. */
  function Execute(url: string, o: Oracle): (r: Machine)
    ensures Terminal(r.phase)
  {
    Run(url, o, Init)
  }

  // ---------------------------------------------------------------------------
  // An independent description: the eight guards in source order.
  // ---------------------------------------------------------------------------

  const GuardCount: nat := 8

  /** Guard `i` of the routine, in the order the source tests them. */
  predicate Guard(url: string, o: Oracle, i: nat)
    requires i < GuardCount
  {
    match i
    case 0 => StartsWith(url, HttpsPrefix)
    case 1 => o.beginOk
    case 2 => o.httpCode == HttpCodeOk
    case 3 => o.contentLength > 0
    case 4 => o.flashBeginOk
    case 5 => o.written == o.contentLength
    case 6 => o.flashEndOk
    case _ => o.finished
  }

  /** The failure reported when guard `i` is the first to fail. */
  function Reason(o: Oracle, i: nat): FailReason
    requires i < GuardCount
  {
    match i
    case 0 => NotHttps
    case 1 => ConnectFailed
    case 2 => BadStatus(o.httpCode)
    case 3 => BadLength(o.contentLength)
    case 4 => FlashBeginFailed
    case 5 => ShortWrite(o.written, o.contentLength)
    case 6 => FlashEndFailed
    case _ => NotFinished
  }

  /** The number of leading guards, counted from `i`, that pass. */
  function PassedFrom(url: string, o: Oracle, i: nat): (n: nat)
    requires i <= GuardCount
    ensures i <= n <= GuardCount
    ensures forall j :: i <= j < n ==> Guard(url, o, j)
    ensures n < GuardCount ==> !Guard(url, o, n)
    decreases GuardCount - i
  {
    if i == GuardCount || !Guard(url, o, i) then i else PassedFrom(url, o, i + 1)
  }

  /** How many guards pass before the first one that fails (8 when all pass). */
  function Passed(url: string, o: Oracle): (n: nat)
    ensures n <= GuardCount
    ensures forall j :: 0 <= j < n ==> Guard(url, o, j)
    ensures n < GuardCount ==> !Guard(url, o, n)
  {
    PassedFrom(url, o, 0)
  }

  predicate AllGuardsPass(url: string, o: Oracle) {
    forall i :: 0 <= i < GuardCount ==> Guard(url, o, i)
  }

  /** Every call the routine makes on its way to the restart, before the restart itself. */
  function FullCalls(url: string, o: Oracle): seq<Call> {
    [NewSecureClient, HttpsBegin(url), HttpGet, HttpGetSize, HttpGetStream,
     FlashBegin(o.contentLength), FlashWriteStream, FlashEnd, FlashIsFinished]
  }

  /** How many of `FullCalls` are made when exactly `n` guards pass. */
  function Attempted(n: nat): nat
    requires n <= GuardCount
  {
    match n
    case 0 => 0
    case 1 => 2
    case 2 => 3
    case 3 => 4
    case 4 => 6
    case 5 => 7
    case 6 => 8
    case _ => 9
  }

  /** The calls made when exactly `n` guards pass. */
  function CallsWhenPassed(url: string, o: Oracle, n: nat): seq<Call>
    requires n <= GuardCount
  {
    FullCalls(url, o)[..Attempted(n)]
    + (if 2 <= n < GuardCount then [HttpsEnd] else [])
    + (if n == GuardCount then [Delay(RestartDelayMs), Restart] else [])
  }

  /** The terminal phase reached when exactly `n` guards pass. */
  function PhaseWhenPassed(o: Oracle, n: nat): Phase
    requires n <= GuardCount
  {
    if n == GuardCount then Restarting else Fail(Reason(o, n))
  }

  // ---------------------------------------------------------------------------
  // The state machine agrees with the guard description.
  // ---------------------------------------------------------------------------

  /** One unfolding of `Run` at a non-terminal phase. */
  lemma RunUnfold(url: string, o: Oracle, m: Machine)
    requires !Terminal(m.phase)
    ensures Run(url, o, m) == Run(url, o, Step(url, o, m))
  {
  }

  /**
   One transition taken from `m` to `next`: the run from `m` is the run from
   `next`, and when `next` is terminal it is the final state.
   */
  lemma Advance(url: string, o: Oracle, m: Machine, next: Machine) returns (m': Machine)
    requires !Terminal(m.phase) && Step(url, o, m) == next
    ensures m' == next
    ensures Run(url, o, m) == Run(url, o, next)
    ensures Terminal(next.phase) ==> Run(url, o, m) == next
  {
    m' := next;
  }

  /** The control point at which guard `k` is tested. */
  function GuardPhase(k: nat): (p: Phase)
    requires k < GuardCount
    ensures !Terminal(p)
  {
    match k
    case 0 => CheckUrl
    case 1 => Connecting
    case 2 => CheckStatus
    case 3 => CheckLength
    case 4 => FlashBeginning
    case 5 => Writing
    case 6 => Finalizing
    case _ => Verifying
  }

  /** How many of `FullCalls` have been made when guard `k` is about to be tested. */
  function CallsBefore(k: nat): nat
    requires k < GuardCount
  {
    match k
    case 0 => 0
    case 1 => 1
    case 2 => 2
    case 3 => 3
    case 4 => 5
    case 5 => 6
    case 6 => 7
    case _ => 8
  }

  /** The state of the run when guard `k` is about to be tested, every earlier guard having passed. */
  function Checkpoint(url: string, o: Oracle, k: nat): Machine
    requires k < GuardCount
  {
    Machine(GuardPhase(k), FullCalls(url, o)[..CallsBefore(k)], 2 <= k, 7 <= k)
  }

  /** The final state of the run when exactly `n` guards pass. */
  function Outcome(url: string, o: Oracle, n: nat): Machine
    requires n <= GuardCount
  {
    Machine(PhaseWhenPassed(o, n), CallsWhenPassed(url, o, n), n == GuardCount, 7 <= n)
  }

  /** A guard that passes at its checkpoint leads to the checkpoint of the next guard. */
  lemma GuardPassesToNext(url: string, o: Oracle, k: nat)
    requires k + 1 < GuardCount && Guard(url, o, k)
    ensures Step(url, o, Checkpoint(url, o, k)) == Checkpoint(url, o, k + 1)
  {
  }

  /** A guard that fails at its checkpoint ends the run with that guard's failure. */
  lemma GuardFailsToOutcome(url: string, o: Oracle, k: nat)
    requires k < GuardCount && !Guard(url, o, k)
    ensures Step(url, o, Checkpoint(url, o, k)) == Outcome(url, o, k)
  {
  }

  /** The last guard passing at its checkpoint ends the run in the restart. */
  lemma LastGuardPassesToRestart(url: string, o: Oracle)
    requires Guard(url, o, GuardCount - 1)
    ensures Step(url, o, Checkpoint(url, o, GuardCount - 1)) == Outcome(url, o, GuardCount)
  {
  }

  /** From the checkpoint of guard `k`, with every guard before it passing, the run ends in the closed form. */
  lemma {:induction false} RunFromCheckpoint(url: string, o: Oracle, k: nat)
    requires k < GuardCount && k <= Passed(url, o)
    ensures Run(url, o, Checkpoint(url, o, k)) == Outcome(url, o, Passed(url, o))
    decreases GuardCount - k
  {
    var m := Checkpoint(url, o, k);
    assert Run(url, o, m) == Run(url, o, Step(url, o, m));
    if k == Passed(url, o) {
      GuardFailsToOutcome(url, o, k);
    } else if k + 1 < GuardCount {
      GuardPassesToNext(url, o, k);
      RunFromCheckpoint(url, o, k + 1);
    } else {
      LastGuardPassesToRestart(url, o);
    }
  }

  /**
   The run of the machine is fully determined by the first failing guard: the
   terminal phase, the exact call trace, whether the HTTP session is still open
   and whether the image was committed.
   */
  lemma {:induction false} ExecuteClosedForm(url: string, o: Oracle)
    ensures Execute(url, o).phase == PhaseWhenPassed(o, Passed(url, o))
    ensures Execute(url, o).calls == CallsWhenPassed(url, o, Passed(url, o))
    ensures Execute(url, o).sessionOpen == (Passed(url, o) == GuardCount)
    ensures Execute(url, o).committed == (Passed(url, o) >= 7)
  {
    assert Step(url, o, Init) == Checkpoint(url, o, 0);
    RunFromCheckpoint(url, o, 0);
  }

  // ---------------------------------------------------------------------------
  // What the routine promises, stated over all library results.
  // ---------------------------------------------------------------------------

  /** The restart is reached exactly when every guard passes; otherwise the first failing guard names the failure. */
  lemma RestartIffAllGuardsPass(url: string, o: Oracle)
    ensures Execute(url, o).phase.Restarting? <==> AllGuardsPass(url, o)
    ensures !AllGuardsPass(url, o) ==>
      var n := Passed(url, o);
      n < GuardCount && !Guard(url, o, n) && (forall j :: 0 <= j < n ==> Guard(url, o, j))
      && Execute(url, o).phase == Fail(Reason(o, n)) && Restart !in Execute(url, o).calls
  {
    ExecuteClosedForm(url, o);
    var n := Passed(url, o);
    if n < GuardCount {
      assert !AllGuardsPass(url, o) by { assert !Guard(url, o, n); }
    }
  }

  /** A URL that does not start with "https://" fails before any client or connection is created. */
  lemma NonHttpsNeverConnects(url: string, o: Oracle)
    requires !StartsWith(url, HttpsPrefix)
    ensures Execute(url, o).phase == Fail(NotHttps)
    ensures Execute(url, o).calls == []
    ensures !Execute(url, o).sessionOpen && !Execute(url, o).committed
  {
    ExecuteClosedForm(url, o);
    assert Passed(url, o) == 0 by { assert !Guard(url, o, 0); }
  }

  /** How many leading guards must pass before call `k` of `FullCalls` is made. */
  function GuardsBeforeCall(k: nat): nat
    requires k < 9
  {
    match k
    case 0 => 1
    case 1 => 1
    case 2 => 2
    case 3 => 3
    case 4 => 4
    case 5 => 4
    case 6 => 5
    case 7 => 6
    case _ => 7
  }

  /**
   Guards run in source order and the first failing one stops the routine: a
   call is made exactly when every guard before it in the source passed (so
   `Update.begin` is never called after a bad status or length, and
   `writeStream` never after a failed `Update.begin`).
   */
  lemma CallGatedByEarlierGuards(url: string, o: Oracle, k: nat)
    requires k < 9
    ensures FullCalls(url, o)[k] in Execute(url, o).calls <==>
            forall j :: 0 <= j < GuardsBeforeCall(k) ==> Guard(url, o, j)
  {
    ExecuteClosedForm(url, o);
    var n := Passed(url, o);
    var full := FullCalls(url, o);
    var calls := Execute(url, o).calls;
    var g := GuardsBeforeCall(k);
    assert k < Attempted(n) <==> g <= n;
    if g <= n {
      assert full[k] == full[..Attempted(n)][k];
    } else {
      assert !Guard(url, o, n);
      forall i | 0 <= i < |calls| ensures calls[i] != full[k] {
        if i < Attempted(n) {
          assert calls[i] == full[i];
        }
      }
    }
  }

  /**
   Once `https.begin` succeeded, every failure calls `https.end()` exactly once,
   as the last call, and leaves the session closed; a failure of the scheme check
   or of `https.begin` itself never calls it, and neither does the success path,
   which restarts with the session still open.
   */
  lemma SessionEndedOnceOnFailure(url: string, o: Oracle)
    ensures var m := Execute(url, o);
      m.phase.Fail? && StartsWith(url, HttpsPrefix) && o.beginOk ==>
        multiset(m.calls)[HttpsEnd] == 1 && m.calls[|m.calls| - 1] == HttpsEnd && !m.sessionOpen
    ensures var m := Execute(url, o);
      !(StartsWith(url, HttpsPrefix) && o.beginOk) ==> HttpsEnd !in m.calls && !m.sessionOpen
    ensures var m := Execute(url, o);
      m.phase.Restarting? ==> HttpsEnd !in m.calls && m.sessionOpen
  {
    ExecuteClosedForm(url, o);
    var n := Passed(url, o);
    HttpsEndOnlyOnFailure(url, o, n);
    if n < 2 {
      assert !(StartsWith(url, HttpsPrefix) && o.beginOk) by {
        assert !Guard(url, o, n);
      }
    }
    if 2 <= n {
      assert Guard(url, o, 0) && Guard(url, o, 1);
    }
  }

  /** `https.end()` appears in the trace exactly once, as the last call, when a guard after `https.begin` fails, and never otherwise. */
  lemma HttpsEndOnlyOnFailure(url: string, o: Oracle, n: nat)
    requires n <= GuardCount
    ensures var c := CallsWhenPassed(url, o, n);
      (2 <= n < GuardCount ==> multiset(c)[HttpsEnd] == 1 && c[|c| - 1] == HttpsEnd)
      && (!(2 <= n < GuardCount) ==> HttpsEnd !in c)
  {
  }

  /**
   The new image is committed (`Update.end()` succeeded) exactly when every guard
   up to and including `Update.end()` passed, in particular only when the bytes
   written equal the declared length. A commit can still end in failure: when
   `Update.isFinished()` then reports false, the routine returns without restarting.
   */
  lemma CommitOnlyAfterFullWrite(url: string, o: Oracle)
    ensures Execute(url, o).committed <==>
      StartsWith(url, HttpsPrefix) && o.beginOk && o.httpCode == HttpCodeOk && o.contentLength > 0
      && o.flashBeginOk && o.written == o.contentLength && o.flashEndOk
    ensures Execute(url, o).committed && Execute(url, o).phase.Fail? <==>
      Execute(url, o).committed && !o.finished
  {
    ExecuteClosedForm(url, o);
    var n := Passed(url, o);
    if n < 7 {
      assert !Guard(url, o, n);
    }
    if n == 7 {
      assert !Guard(url, o, 7);
    }
    if n == GuardCount {
      assert Guard(url, o, 7);
    }
  }

  // ---------------------------------------------------------------------------
  // The routine as the source writes it: a chain of early returns.
  // ---------------------------------------------------------------------------

  /**
   `performOTA(url)`: checks the scheme, connects, checks the status and the
   length, writes the image, finalises it and restarts; every failure returns at
   once. The result is the final state of the run, which agrees with the state
   machine.
   */
  method PerformOta(url: string, o: Oracle) returns (m: Machine)
    ensures m == Execute(url, o)
    ensures m.phase.Restarting? <==> AllGuardsPass(url, o)
  {
    RestartIffAllGuardsPass(url, o);
    // `run` is the state machine at the guard the code is about to test; the
    // whole run agrees with `Run` from there.
    ghost var run := Machine(CheckUrl, [], false, false);
    RunUnfold(url, o, Init);
    var calls: seq<Call> := [];
    if !StartsWith(url, HttpsPrefix) {
      run := Advance(url, o, run, Machine(Fail(NotHttps), calls, false, false));
      return Machine(Fail(NotHttps), calls, false, false);
    }
    calls := calls + [NewSecureClient];
    run := Advance(url, o, run, Machine(Connecting, calls, false, false));
    calls := calls + [HttpsBegin(url)];
    if !o.beginOk {
      run := Advance(url, o, run, Machine(Fail(ConnectFailed), calls, false, false));
      return Machine(Fail(ConnectFailed), calls, false, false);
    }
    run := Advance(url, o, run, Machine(CheckStatus, calls, true, false));
    calls := calls + [HttpGet];
    var httpCode := o.httpCode;
    if httpCode != HttpCodeOk {
      calls := calls + [HttpsEnd];
      run := Advance(url, o, run, Machine(Fail(BadStatus(httpCode)), calls, false, false));
      return Machine(Fail(BadStatus(httpCode)), calls, false, false);
    }
    run := Advance(url, o, run, Machine(CheckLength, calls, true, false));
    calls := calls + [HttpGetSize];
    var contentLength := o.contentLength;
    if contentLength <= 0 {
      calls := calls + [HttpsEnd];
      run := Advance(url, o, run, Machine(Fail(BadLength(contentLength)), calls, false, false));
      return Machine(Fail(BadLength(contentLength)), calls, false, false);
    }
    calls := calls + [HttpGetStream];
    run := Advance(url, o, run, Machine(FlashBeginning, calls, true, false));
    calls := calls + [FlashBegin(contentLength)];
    if !o.flashBeginOk {
      calls := calls + [HttpsEnd];
      run := Advance(url, o, run, Machine(Fail(FlashBeginFailed), calls, false, false));
      return Machine(Fail(FlashBeginFailed), calls, false, false);
    }
    run := Advance(url, o, run, Machine(Writing, calls, true, false));
    calls := calls + [FlashWriteStream];
    var written := o.written;
    if written != contentLength {
      calls := calls + [HttpsEnd];
      run := Advance(url, o, run, Machine(Fail(ShortWrite(written, contentLength)), calls, false, false));
      return Machine(Fail(ShortWrite(written, contentLength)), calls, false, false);
    }
    run := Advance(url, o, run, Machine(Finalizing, calls, true, false));
    calls := calls + [FlashEnd];
    if !o.flashEndOk {
      calls := calls + [HttpsEnd];
      run := Advance(url, o, run, Machine(Fail(FlashEndFailed), calls, false, false));
      return Machine(Fail(FlashEndFailed), calls, false, false);
    }
    run := Advance(url, o, run, Machine(Verifying, calls, true, true));
    calls := calls + [FlashIsFinished];
    if !o.finished {
      calls := calls + [HttpsEnd];
      run := Advance(url, o, run, Machine(Fail(NotFinished), calls, false, true));
      return Machine(Fail(NotFinished), calls, false, true);
    }
    calls := calls + [Delay(RestartDelayMs), Restart];
    run := Advance(url, o, run, Machine(Restarting, calls, true, true));
    m := Machine(Restarting, calls, true, true);
  }
}
