/**
 The bounded reconnect machine of xConnector (net/connector.cpp), and how many
 attempts and calls of the finish callback one doConnect can lead to.
 `Connector.Connector` is the class these functions specify.
 */
module Reconnect {
  import opened EventLoop
  import opened Statuses

  const RECONNECT_INTERVAL_MS: nat := 500
  const RECONNECT_MAX_MS: nat := 3000
  const GAVE_UP: int := -7

  /** What the finish callback does with the socket of a successful connection. */
  datatype Handover =
    | TakesOver(id: nat)  // keeps it and registers its own handler for it, as xClient does
    | KeepsOnly           // keeps it open and leaves the connector's handler registered
    | Drops               // does not take it, so the temporary socket closes it

  datatype Phase = Idle | Attempting(fd: int) | RetryPending | Done

  datatype State = State(
    reConnMs: nat,
    status: Status,
    phase: Phase,
    attempts: nat,
    finishes: seq<int>   // error codes passed to the finish callback
  )

  datatype Action =
    | Start(fd: Option<int>, errno: int)     // doConnect, with what connectNonblock returned
    | Event(mask: Mask, socketError: int)    // an event on the descriptor of the attempt
    | Timer(fd: Option<int>, errno: int)     // the retry timer, and connectNonblock again

  function Initial(): State {
    State(0, Unknown, Idle, 0, [])
  }

  predicate Enabled(s: State, a: Action) {
    match a
    case Start(_, _) => s.phase == Idle
    case Event(_, _) => s.phase.Attempting?
    case Timer(_, _) => s.phase == RetryPending
  }

  function BeforeConnect(s: State, fd: Option<int>, errno: int): State {
    var t := s.(attempts := s.attempts + 1);
    match fd
    case None => t.(status := Unknown, finishes := t.finishes + [errno], phase := Done)
    case Some(d) => t.(status := Connecting, phase := Attempting(d))
  }

  function ConnectOnError(s: State): State {
    var t := s.(status := Disconnected);
    if s.reConnMs < RECONNECT_MAX_MS then t.(phase := RetryPending)
    else t.(finishes := t.finishes + [GAVE_UP], phase := Done)
  }

  function ConnectOnSucc(s: State, h: Handover): State {
    s.(status := Connected, finishes := s.finishes + [0], phase := if h == KeepsOnly then s.phase else Done)
  }

  predicate Fails(s: State, mask: Mask, socketError: int) {
    mask * XE_ERROR != {} || mask * XE_HUP != {} || s.status == Disconnected
    || (mask * XE_WRITABLE != {} && socketError != 0)
  }

  function Next(s: State, a: Action, h: Handover): State
    requires Enabled(s, a)
  {
    match a
    case Start(fd, errno) => BeforeConnect(s, fd, errno)
    case Timer(fd, errno) => BeforeConnect(s.(reConnMs := s.reConnMs + RECONNECT_INTERVAL_MS), fd, errno)
    case Event(mask, socketError) =>
      if Fails(s, mask, socketError) then ConnectOnError(s)
      else if mask * XE_WRITABLE != {} then ConnectOnSucc(s, h)
      else s
  }

  ghost predicate Possible(s: State, run: seq<Action>, h: Handover)
    decreases |run|
  {
    run != [] ==> Enabled(s, run[0]) && Possible(Next(s, run[0], h), run[1..], h)
  }

  ghost function Run(s: State, run: seq<Action>, h: Handover): State
    requires Possible(s, run, h)
    decreases |run|
  {
    if run == [] then s else Run(Next(s, run[0], h), run[1..], h)
  }

  /** Steps still possible at most, counting only steps that resolve something. */
  function Budget(s: State): int {
    var retries := (RECONNECT_MAX_MS - s.reConnMs) / RECONNECT_INTERVAL_MS;
    match s.phase
    case Idle => 2 * retries + 2
    case Attempting(_) => 2 * retries + 1
    case RetryPending => 2 * retries
    case Done => 0
  }

  predicate Inv(s: State) {
    && s.reConnMs <= RECONNECT_MAX_MS && s.reConnMs % RECONNECT_INTERVAL_MS == 0
    && (s.phase == Idle ==> s == Initial())
    && (s.phase != Idle ==> s.attempts == 1 + s.reConnMs / RECONNECT_INTERVAL_MS)
    && (s.phase == RetryPending ==> s.reConnMs < RECONNECT_MAX_MS)
    && (s.phase.Attempting? ==> s.status == Connecting || s.status == Connected)
    && (s.phase == Done ==> s.finishes != [])
  }

  /** The finish callback has been called exactly when everything is over. */
  predicate OnceInv(s: State) {
    |s.finishes| == if s.phase == Done then 1 else 0
  }

  lemma Step(s: State, a: Action, h: Handover)
    requires Inv(s) && Enabled(s, a)
    ensures Inv(Next(s, a, h))
    ensures h != KeepsOnly && OnceInv(s) ==> OnceInv(Next(s, a, h))
    ensures h != KeepsOnly && Next(s, a, h) != s ==> Budget(Next(s, a, h)) < Budget(s)
  {
  }

  /** Whatever the callback does, one doConnect makes at most 1 + 3000 / 500 = 7 attempts. */
  lemma {:induction false} AtMostSevenAttempts(s: State, run: seq<Action>, h: Handover)
    requires Inv(s) && Possible(s, run, h)
    ensures Inv(Run(s, run, h)) && Run(s, run, h).attempts <= 7
    decreases |run|
  {
    if run == [] {
    } else {
      Step(s, run[0], h);
      AtMostSevenAttempts(Next(s, run[0], h), run[1..], h);
    }
  }

  /** Seven are made when every attempt fails. */
  lemma SevenAttempts(h: Handover) returns (run: seq<Action>)
    ensures Possible(Initial(), run, h)
    ensures Run(Initial(), run, h).attempts == 7 && Run(Initial(), run, h).finishes == [GAVE_UP]
  {
    run := FailFrom(State(3000, Connecting, Attempting(3), 7, []), h);
    var ms := 3000;
    while ms > 0
      invariant ms % 500 == 0 && 0 <= ms <= 3000
      invariant var s := State(ms, Connecting, Attempting(3), 1 + ms / 500, []);
                Possible(s, run, h) && Run(s, run, h).attempts == 7 && Run(s, run, h).finishes == [GAVE_UP]
    {
      ms := ms - 500;
      run := RetryFrom(ms, run, h);
    }
    var start := Start(Some(3), 0);
    assert ([start] + run)[1..] == run;
    run := [start] + run;
  }

  lemma FailFrom(s: State, h: Handover) returns (run: seq<Action>)
    requires s == State(3000, Connecting, Attempting(3), 7, [])
    ensures Possible(s, run, h) && Run(s, run, h).attempts == 7 && Run(s, run, h).finishes == [GAVE_UP]
  {
    var e := Event(XE_HUP, 0);
    assert 4 in XE_HUP * XE_HUP;
    assert [e][1..] == [];
    assert Possible(Next(s, e, h), [], h);
    run := [e];
  }

  lemma RetryFrom(ms: nat, tail: seq<Action>, h: Handover) returns (run: seq<Action>)
    requires ms < 3000 && ms % 500 == 0
    requires var s := State(ms + 500, Connecting, Attempting(3), 1 + (ms + 500) / 500, []);
             Possible(s, tail, h) && Run(s, tail, h).attempts == 7 && Run(s, tail, h).finishes == [GAVE_UP]
    ensures var s := State(ms, Connecting, Attempting(3), 1 + ms / 500, []);
            Possible(s, run, h) && Run(s, run, h).attempts == 7 && Run(s, run, h).finishes == [GAVE_UP]
  {
    var s := State(ms, Connecting, Attempting(3), 1 + ms / 500, []);
    var e, t := Event(XE_HUP, 0), Timer(Some(3), 0);
    assert 4 in XE_HUP * XE_HUP;
    run := [e, t] + tail;
    assert run[1..] == [t] + tail && ([t] + tail)[1..] == tail;
    var s1 := Next(s, e, h);
    assert Possible(s1, [t] + tail, h);
  }

  /** In every run the finish callback is called at most once exactly when it leaves no handler registered. */
  lemma FinishedOnceIff(h: Handover)
    ensures (forall run :: Possible(Initial(), run, h) ==> |Run(Initial(), run, h).finishes| <= 1) <==> h != KeepsOnly
  {
    if h == KeepsOnly {
      var run := FinishedTwice();
      assert !(|Run(Initial(), run, h).finishes| <= 1);
    } else {
      forall run | Possible(Initial(), run, h)
        ensures |Run(Initial(), run, h).finishes| <= 1
      {
        OnceRun(Initial(), run, h);
      }
    }
  }

  /** A descriptor left registered stays writable, and every such event reports success again. */
  lemma FinishedTwice() returns (run: seq<Action>)
    ensures Possible(Initial(), run, KeepsOnly)
    ensures Run(Initial(), run, KeepsOnly).finishes == [0, 0]
  {
    var s, h := Initial(), KeepsOnly;
    var a, e := Start(Some(3), 0), Event(XE_WRITABLE, 0);
    assert 1 in XE_WRITABLE * XE_WRITABLE;
    run := [a, e, e];
    var s1 := Next(s, a, h);
    var s2 := Next(s1, e, h);
    var s3 := Next(s2, e, h);
    assert s3.finishes == [0, 0];
    assert run[1..] == [e, e] && [e, e][1..] == [e] && [e][1..] == [];
    assert Possible(s3, [], h) && Possible(s2, [e], h) && Possible(s1, [e, e], h);
    assert Run(s2, [e], h) == s3 && Run(s1, [e, e], h) == s3;
  }

  lemma {:induction false} OnceRun(s: State, run: seq<Action>, h: Handover)
    requires Inv(s) && OnceInv(s) && Possible(s, run, h) && h != KeepsOnly
    ensures OnceInv(Run(s, run, h))
    decreases |run|
  {
    if run == [] {
    } else {
      Step(s, run[0], h);
      OnceRun(Next(s, run[0], h), run[1..], h);
    }
  }

  // ---------- what is reported

  /** An error, a hang-up, or a descriptor that is writable because connecting failed. */
  predicate Refused(a: Action) {
    a.Event? && (3 in a.mask || 4 in a.mask || (1 in a.mask && a.socketError != 0))
  }

  /** Writable, with no sign of an error. */
  predicate Established(a: Action) {
    a.Event? && 1 in a.mask && 3 !in a.mask && 4 !in a.mask && a.socketError == 0
  }

  /** connectNonblock returned no descriptor. */
  predicate Impossible(a: Action) {
    !a.Event? && a.fd == None
  }

  /**
   What one event does to a running attempt, by its mask and the socket's error
   alone: success is reported for a descriptor that is writable without any error;
   anything that shows an error is followed by a retry as long as less than 3000 ms
   were spent waiting, and by -7 afterwards; every other event changes nothing.
   */
  lemma EventDecides(s: State, mask: Mask, socketError: int, h: Handover)
    requires Inv(s) && s.phase.Attempting?
    ensures var t := Next(s, Event(mask, socketError), h);
            if 3 in mask || 4 in mask || (1 in mask && socketError != 0) then
              && t.status == Disconnected
              && (s.reConnMs < 3000 ==> t.phase == RetryPending && t.finishes == s.finishes)
              && (s.reConnMs >= 3000 ==> t.phase == Done && t.finishes == s.finishes + [-7])
            else if 1 in mask then t.status == Connected && t.finishes == s.finishes + [0]
            else t == s
  {
    Bits(mask);
  }

  /**
   What starting and the retry timer do: they count as an attempt, the timer after
   adding 500 ms; the attempt runs on the descriptor connectNonblock returned, or
   all is over at once and the callback is told why.
   */
  lemma AttemptDecides(s: State, a: Action, h: Handover)
    requires Inv(s) && Enabled(s, a) && !a.Event?
    ensures var t := Next(s, a, h);
            && t.attempts == s.attempts + 1 && t.reConnMs == 500 * (t.attempts - 1)
            && match a.fd
               case Some(d) => t.phase == Attempting(d) && t.status == Connecting && t.finishes == s.finishes
               case None => t.phase == Done && t.status == Unknown && t.finishes == s.finishes + [a.errno]
  {
  }

  /** How many of these events ended an attempt. */
  function Refusals(run: seq<Action>): nat {
    if run == [] then 0 else Refusals(run[..|run| - 1]) + if Refused(run[|run| - 1]) then 1 else 0
  }

  /**
   What the finish callback is told, read off the actions: 0 for each attempt that
   was established, the errno of an attempt that could not be made, and -7 for the
   seventh refusal.
   */
  function Reports(run: seq<Action>): seq<int> {
    if run == [] then [] else Reports(run[..|run| - 1]) + Report(run[|run| - 1], Refusals(run))
  }

  /** What one action leads to, `refusals` counting those up to it. */
  function Report(a: Action, refusals: nat): seq<int> {
    if Established(a) then [0]
    else if Impossible(a) then [a.errno]
    else if Refused(a) && refusals == 7 then [-7]
    else []
  }

  lemma {:induction false} PossiblePrefix(s: State, run: seq<Action>, n: nat, h: Handover)
    requires Possible(s, run, h) && n < |run|
    ensures Possible(s, run[..n], h) && Enabled(Run(s, run[..n], h), run[n])
    ensures Possible(s, run[..n + 1], h) && Run(s, run[..n + 1], h) == Next(Run(s, run[..n], h), run[n], h)
    decreases n
  {
    var t := Next(s, run[0], h);
    if n == 0 {
      assert run[..1][1..] == [];
      assert Possible(t, [], h);
    } else {
      PossiblePrefix(t, run[1..], n - 1, h);
      assert run[..n][1..] == run[1..][..n - 1] && run[..n + 1][1..] == run[1..][..n];
    }
  }

  /** The refusals so far are the attempts that are over. */
  predicate Tally(s: State, refusals: nat) {
    match s.phase
    case Idle => refusals == 0
    case Attempting(_) => refusals == s.attempts - 1
    case RetryPending => refusals == s.attempts
    case Done => true
  }

  lemma StepReports(s: State, a: Action, h: Handover, before: nat)
    requires Inv(s) && Enabled(s, a) && Tally(s, before)
    ensures var after := before + if Refused(a) then 1 else 0;
            && Next(s, a, h).finishes == s.finishes + Report(a, after)
            && Inv(Next(s, a, h)) && Tally(Next(s, a, h), after)
  {
    Step(s, a, h);
    if a.Event? {
      EventDecides(s, a.mask, a.socketError, h);
    }
    assert s.finishes + [] == s.finishes;
  }

  lemma ReportsLast(run: seq<Action>)
    requires run != []
    ensures var n := |run| - 1;
            && Refusals(run) == Refusals(run[..n]) + (if Refused(run[n]) then 1 else 0)
            && Reports(run) == Reports(run[..n]) + Report(run[n], Refusals(run))
  {
  }

  /** In every run, with any callback: exactly these codes are reported, in this order. */
  lemma {:induction false} ReportsAre(run: seq<Action>, h: Handover)
    requires Possible(Initial(), run, h)
    ensures Run(Initial(), run, h).finishes == Reports(run)
    ensures Inv(Run(Initial(), run, h)) && Tally(Run(Initial(), run, h), Refusals(run))
    decreases |run|
  {
    if run == [] {
    } else {
      hide Next, Enabled, Possible, Run, Inv, Tally, Report, Refused, Reports, Refusals;
      var n := |run| - 1;
      PossiblePrefix(Initial(), run, n, h);
      ReportsAre(run[..n], h);
      assert run[..n + 1] == run;
      ReportsLast(run);
      StepReports(Run(Initial(), run[..n], h), run[n], h, Refusals(run[..n]));
    }
  }

  /** Success is reported exactly when an attempt was established, if no errno is zero. */
  lemma ConnectedIff(run: seq<Action>, h: Handover)
    requires Possible(Initial(), run, h) && forall a :: a in run && Impossible(a) ==> a.errno != 0
    ensures 0 in Run(Initial(), run, h).finishes <==> exists a :: a in run && Established(a)
  {
    ReportsAre(run, h);
    ZeroReported(run);
  }

  lemma {:induction false} ZeroReported(run: seq<Action>)
    requires forall a :: a in run && Impossible(a) ==> a.errno != 0
    ensures 0 in Reports(run) <==> exists a :: a in run && Established(a)
    decreases |run|
  {
    if run == [] {
    } else {
      var n := |run| - 1;
      assert run == run[..n] + [run[n]];
      ZeroReported(run[..n]);
    }
  }

  /** Every step resolves something: the attempt, the wait, or the start. */
  ghost predicate Resolving(s: State, run: seq<Action>, h: Handover)
    requires Possible(s, run, h)
    decreases |run|
  {
    run != [] ==> Next(s, run[0], h) != s && Resolving(Next(s, run[0], h), run[1..], h)
  }

  /** When every attempt resolves, all is over within fourteen steps, with exactly one call of the finish callback. */
  lemma FinishedExactlyOnce(run: seq<Action>, h: Handover)
    requires h != KeepsOnly && Possible(Initial(), run, h) && Resolving(Initial(), run, h)
    ensures |run| <= 14
    ensures var s := Run(Initial(), run, h);
            (s.phase == Done <==> |s.finishes| == 1) && (|run| == 14 ==> s.phase == Done)
  {
    BudgetSpent(Initial(), run, h);
    OnceRun(Initial(), run, h);
  }

  lemma {:induction false} BudgetSpent(s: State, run: seq<Action>, h: Handover)
    requires h != KeepsOnly && Inv(s) && Possible(s, run, h) && Resolving(s, run, h)
    ensures 0 <= Budget(Run(s, run, h)) <= Budget(s) - |run|
    ensures Inv(Run(s, run, h)) && (Budget(Run(s, run, h)) == 0 ==> Run(s, run, h).phase == Done)
    decreases |run|
  {
    if run == [] {
    } else {
      Step(s, run[0], h);
      BudgetSpent(Next(s, run[0], h), run[1..], h);
    }
  }
}
