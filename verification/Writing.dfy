/**
 The write side of a connection over whole runs (net/connection.cpp,
 base/file_api.cpp): what reaches the kernel, when the write event is armed, and
 that an armed write event gets the buffer out.
 */
module Writing {
  import opened Bytes
  import opened Kernel
  import opened Framing
  import opened EventLoop
  import opened Statuses
  import opened Session

  // ---------- conservation

  /** Started from `s`, with everything appended so far accounted for unless some write call failed part way. */
  predicate Accounted(s: State, torn: nat) {
    if s.torn == torn then s.accepted + s.outbound == s.appended
    else s.torn > torn && |s.accepted| + |s.outbound| > |s.appended|
  }

  lemma AccountedKept(torn: nat, repaired: bool)
    ensures Kept(s => Accounted(s, torn), repaired)
  {
    forall s: State, e: Effect | Accounted(s, torn)
      ensures Accounted(Do(s, e, repaired), torn)
    {
      match e {
        case Appends(data) => Associate(s.accepted, s.outbound, data);
        case Writes => WriteAccounts(s, torn);
        case _ =>
      }
    }
  }

  lemma WriteAccounts(s: State, torn: nat)
    requires Accounted(s, torn)
    ensures Accounted(Write(s), torn)
  {
    var w := WriteAll(s.departures, |s.outbound|);
    Associate(s.accepted, s.outbound[..w.taken], s.outbound[w.taken..]);
    assert s.outbound == s.outbound[..w.taken] + s.outbound[w.taken..];
  }

  /**
   What the kernel took followed by what is still buffered is everything that
   was ever appended, in order, exactly when no write call failed part way;
   sends made from inside the sent-bytes callback are included.
   */
  lemma WriteConservationIff(app: Callbacks, s: State, steps: seq<Step>, repaired: bool)
    requires Progressing(app) && s.accepted + s.outbound == s.appended
    ensures var t := Session.Run(app, s, steps, repaired);
            t.accepted + t.outbound == t.appended <==> t.torn == s.torn
  {
    var p := (t: State) => Accounted(t, s.torn);
    AccountedKept(s.torn, repaired);
    forall t: State | p(t) ensures p(Session.ReadMsg(app, t).1) {
      ReadOutcome(app, t);
    }
    RunKeeps(p, app, s, steps, repaired);
    var t := Session.Run(app, s, steps, repaired);
    assert |t.accepted + t.outbound| == |t.accepted| + |t.outbound|;
  }

  // ---------- what the sent-bytes callback is told

  function Sum(reports: seq<int>): int {
    if reports == [] then 0 else Sum(reports[..|reports| - 1]) + reports[|reports| - 1]
  }

  /** From `s` to `t` the callback was told of every octet the kernel took, unless a write call failed part way. */
  predicate Told(s: State, t: State) {
    var told, took := Sum(t.reports) - Sum(s.reports), |t.accepted| - |s.accepted|;
    t.torn >= s.torn && if t.torn == s.torn then told == took else told < took
  }

  lemma WriteTold(s: State)
    ensures var n := WriteAll(s.departures, |s.outbound|).ret;
            if n >= 0 then Told(s, Write(s).(reports := s.reports + [n])) else Told(s, Write(s))
    ensures Write(s).reports == s.reports
  {
    var w := WriteAll(s.departures, |s.outbound|);
    assert (s.reports + [w.ret])[..|s.reports|] == s.reports;
  }

  lemma SettleTold(s: State, repaired: bool)
    ensures Told(s, Settle(s, repaired))
  {
  }

  lemma {:induction false} FlushTold(s: State, reaction: Reaction, repaired: bool)
    ensures Told(s, SendMsg(s, reaction, repaired).1)
    decreases reaction, 1
  {
    hide Write, WriteAll, Settle, Perform, Sum;
    if s.status == Connected {
      if s.outbound == [] {
        SettleTold(s, repaired);
      } else {
        WriteTold(s);
        var n := WriteAll(s.departures, |s.outbound|).ret;
        if n >= 0 {
          var u := Write(s).(reports := s.reports + [n]);
          PerformTold(u, reaction, repaired);
          SettleTold(Perform(u, reaction, repaired), repaired);
        }
      }
    }
  }

  lemma {:induction false} PerformTold(s: State, reaction: Reaction, repaired: bool)
    ensures Told(s, Perform(s, reaction, repaired))
    decreases reaction, 0
  {
    hide SendMsg, Sum;
    match reaction {
      case Quiet =>
      case Throws =>
      case Closes(next) => PerformTold(CloseConn(s), next, repaired);
      case Sends(msg, inner, next) =>
        if s.status == Connected {
          FlushTold(Put(s, msg), inner, repaired);
        }
        PerformTold(Session.Send(s, msg, inner, repaired), next, repaired);
    }
  }

  /**
   In every run the sizes the callback was told add up to what the kernel took,
   exactly when no write call failed part way; they never add up to more.
   */
  lemma {:induction false} ToldOverRuns(app: Callbacks, s: State, steps: seq<Step>, repaired: bool)
    requires Progressing(app)
    ensures var t := Session.Run(app, s, steps, repaired);
            var told, took := Sum(t.reports) - Sum(s.reports), |t.accepted| - |s.accepted|;
            told <= took && (told == took <==> t.torn == s.torn)
    ensures Told(s, Session.Run(app, s, steps, repaired))
    decreases |steps|
  {
    hide SendMsg, Session.ReadMsg, Sum;
    if steps == [] {
    } else {
      match steps[0] {
        case Append(_) =>
        case Flush(reaction) => FlushTold(s, reaction, repaired);
        case Read => ReadOutcome(app, s);
        case Close =>
      }
      ToldOverRuns(app, Next(app, s, steps[0], repaired), steps[1..], repaired);
    }
  }

  // ---------- what is appended

  /** What the caller appends in a run. */
  function Appended(steps: seq<Step>): Bytes {
    if steps == [] then []
    else (if steps[0].Append? then steps[0].data else []) + Appended(steps[1..])
  }

  /** A callback that sends nothing. */
  predicate Silent(reaction: Reaction) {
    match reaction
    case Closes(next) => Silent(next)
    case Sends(_, _, _) => false
    case _ => true
  }

  lemma {:induction false} SilentPerform(s: State, reaction: Reaction, repaired: bool)
    requires Silent(reaction)
    ensures var t := Perform(s, reaction, repaired);
            t == s.(status := t.status, watched := t.watched, closeNotices := t.closeNotices)
    decreases reaction
  {
    match reaction {
      case Closes(next) => SilentPerform(CloseConn(s), next, repaired);
      case _ =>
    }
  }

  /** Without such sends, what was appended is what the caller appended. */
  lemma {:induction false} AppendedByCaller(app: Callbacks, s: State, steps: seq<Step>, repaired: bool)
    requires Progressing(app) && forall i :: 0 <= i < |steps| && steps[i].Flush? ==> Silent(steps[i].reaction)
    ensures Session.Run(app, s, steps, repaired).appended == s.appended + Appended(steps)
    decreases |steps|
  {
    hide Write, Session.ReadMsg;
    if steps == [] {
      assert s.appended + [] == s.appended;
    } else {
      var data := if steps[0].Append? then steps[0].data else [];
      match steps[0] {
        case Append(_) =>
        case Flush(reaction) => SilentFlush(s, reaction, repaired);
        case Read => ReadOutcome(app, s);
        case Close =>
      }
      assert Next(app, s, steps[0], repaired).appended == s.appended + data;
      assert forall i :: 0 <= i < |steps[1..]| ==> steps[1..][i] == steps[i + 1];
      AppendedByCaller(app, Next(app, s, steps[0], repaired), steps[1..], repaired);
      Associate(s.appended, data, Appended(steps[1..]));
    }
  }

  lemma SilentFlush(s: State, reaction: Reaction, repaired: bool)
    requires Silent(reaction)
    ensures SendMsg(s, reaction, repaired).1.appended == s.appended
  {
    if s.status == Connected && s.outbound != [] {
      var n := WriteAll(s.departures, |s.outbound|).ret;
      SilentPerform(Write(s).(reports := s.reports + [n]), reaction, repaired);
    }
  }

  ghost const QUIET_APP := Callbacks((k, b) => Returned(DECODE_NOT_ENOUGH), k => false)

  function Fresh(departures: seq<Departure>): State {
    Opened([], departures)
  }

  /** The state after one write call, for a script whose outcome is known. */
  lemma WriteIs(s: State, w: Written)
    requires WriteAll(s.departures, |s.outbound|) == w
    ensures Write(s) == s.(departures := w.rest, accepted := s.accepted + s.outbound[..w.taken],
                           outbound := if w.ret < 0 then s.outbound else s.outbound[w.ret..],
                           torn := s.torn + if w.ret < 0 < w.taken then 1 else 0)
  {
  }

  /** Two octets go out, the write then blocks, and the next flush sends all three again. */
  lemma ResendWitness()
    ensures Progressing(QUIET_APP)
    ensures var s := Fresh([Took(2), WriteFailed(WouldBlock), Took(3)]);
            var steps := [Step.Append([1, 2, 3]), Flush(Quiet), Flush(Quiet)];
            Session.Run(QUIET_APP, s, steps, false).accepted == [1, 2, 1, 2, 3]
  {
    hide WriteAll, Write, Settle;
    var s := Fresh([Took(2), WriteFailed(WouldBlock), Took(3)]);
    var s1 := Put(s, [1, 2, 3]);
    assert s1.outbound == [1, 2, 3];
    ResendScript();
    WriteIs(s1, Written(-1, WouldBlock, 2, [Took(3)]));
    var s2 := Write(s1);
    assert s2.accepted == [1, 2];
    WriteIs(s2, Written(3, NoError, 3, []));
    var s3 := SendMsg(s2, Quiet, false).1;
    assert s3.accepted == [1, 2] + [1, 2, 3] by {
      SettleKeeps(Write(s2).(reports := s2.reports + [3]));
    }
    var steps := [Step.Append([1, 2, 3]), Flush(Quiet), Flush(Quiet)];
    assert steps[1..] == [Flush(Quiet), Flush(Quiet)];
    Run2(QUIET_APP, s1, Flush(Quiet), Flush(Quiet), false);
  }

  lemma SettleKeeps(s: State)
    ensures Settle(s, false).accepted == s.accepted
  {
  }

  lemma ResendScript()
    ensures WriteAll([Took(2), WriteFailed(WouldBlock), Took(3)], 3) == Written(-1, WouldBlock, 2, [Took(3)])
    ensures WriteAll([Took(3)], 3) == Written(3, NoError, 3, [])
  {
    var script := [Took(2), WriteFailed(WouldBlock), Took(3)];
    assert script[1..] == [WriteFailed(WouldBlock), Took(3)] && script[1..][1..] == [Took(3)];
    assert WriteAll(script[1..], 1) == Written(-1, WouldBlock, 0, [Took(3)]);
    assert [Took(3)][1..] == [];
  }

  // ---------- write interest

  /** While connected the descriptor is watched for reading, and `writeEnabled` is never ahead of the loop. */
  predicate Interest(s: State) {
    s.status == Connected ==> Watches(s, XE_READABLE) && (s.writeEnabled ==> Watches(s, XE_WRITABLE))
  }

  /** With a removeEvent that clears bits the two also agree the other way round. */
  predicate ExactInterest(s: State) {
    s.status == Connected ==>
      Watches(s, XE_READABLE) && (s.writeEnabled <==> Watches(s, XE_WRITABLE))
  }

  predicate InterestFor(s: State, repaired: bool) {
    if repaired then ExactInterest(s) else Interest(s)
  }

  lemma InterestRun(app: Callbacks, s: State, steps: seq<Step>, repaired: bool)
    requires Progressing(app) && InterestFor(s, repaired)
    ensures InterestFor(Session.Run(app, s, steps, repaired), repaired)
  {
    var p := (t: State) => InterestFor(t, repaired);
    InterestKept(repaired);
    forall t: State | p(t) ensures p(Session.ReadMsg(app, t).1) {
      ReadOutcome(app, t);
    }
    RunKeeps(p, app, s, steps, repaired);
  }

  lemma InterestKept(repaired: bool)
    ensures Kept(s => InterestFor(s, repaired), repaired)
  {
    forall s: State, e: Effect | InterestFor(s, repaired)
      ensures InterestFor(Do(s, e, repaired), repaired)
    {
      hide Write;
      if s.watched.Some? {
        MaskBits(s.watched.value);
      }
    }
  }

  lemma MaskBits(mask: Mask)
    ensures (mask + XE_WRITABLE) * XE_WRITABLE != {}
    ensures mask * XE_READABLE != {} ==> (mask + XE_WRITABLE) * XE_READABLE != {}
    ensures mask * XE_WRITABLE != {} ==>
              && 0 in Cleared(mask, XE_WRITABLE, false) * XE_READABLE
              && 1 in Cleared(mask, XE_WRITABLE, false) * XE_WRITABLE
    ensures mask * XE_READABLE != {} ==> 0 in Cleared(mask, XE_WRITABLE, true) * XE_READABLE
    ensures Cleared(mask, XE_WRITABLE, true) * XE_WRITABLE == {}
  {
    assert 1 in (mask + XE_WRITABLE) * XE_WRITABLE;
    if mask * XE_READABLE != {} {
      assert 0 in (mask + XE_WRITABLE) * XE_READABLE;
    }
    if mask * XE_WRITABLE != {} {
      assert 1 in mask;
      assert IsBit(0);
    }
  }

  /** As written, once the write event was armed it stays armed while the connection lives. */
  lemma NeverDisarmed(app: Callbacks, s: State, steps: seq<Step>)
    requires Progressing(app) && Watches(s, XE_WRITABLE)
    ensures var t := Session.Run(app, s, steps, false); t.watched == None || Watches(t, XE_WRITABLE)
  {
    var p := (t: State) => t.watched == None || Watches(t, XE_WRITABLE);
    forall t: State, e: Effect | p(t) ensures p(Do(t, e, false)) {
      hide Write;
      if t.watched.Some? {
        MaskBits(t.watched.value);
      }
    }
    forall t: State | p(t) ensures p(Session.ReadMsg(app, t).1) {
      ReadOutcome(app, t);
    }
    RunKeeps(p, app, s, steps, false);
  }

  /**
   A flush that leaves octets behind on a live connection leaves the write event
   armed exactly when it was armed before or the write call did not fail.
   */
  lemma ArmedAfterFlushIff(s: State, reaction: Reaction)
    requires Interest(s) && s.status == Connected && s.outbound != []
    ensures var t := SendMsg(s, reaction, false).1;
            t.status == Connected && t.outbound != [] ==>
              (Watches(t, XE_WRITABLE) <==>
               Watches(s, XE_WRITABLE) || WriteAll(s.departures, |s.outbound|).ret >= 0)
  {
    hide Perform;
    var n := WriteAll(s.departures, |s.outbound|).ret;
    if n >= 0 {
      var u := Write(s).(reports := s.reports + [n]);
      var p := (t: State) => InterestFor(t, false);
      InterestKept(false);
      PerformKeeps(p, u, reaction, false);
      var v := Perform(u, reaction, false);
      assert InterestFor(v, false);
      if v.watched.Some? {
        MaskBits(v.watched.value);
      }
    }
  }

  /** A first write that would block leaves its octets waiting with no event that could wake them. */
  lemma StrandedWitness()
    ensures Progressing(QUIET_APP)
    ensures var t := Session.Run(QUIET_APP, Fresh([]), [Step.Append([1]), Flush(Quiet)], false);
            t.status == Connected && t.outbound == [1] && !Watches(t, XE_WRITABLE)
  {
    var s1 := Put(Fresh([]), [1]);
    assert s1.outbound == [1];
    assert WriteAll([], 1) == Written(-1, WouldBlock, 0, []);
    Run2(QUIET_APP, Fresh([]), Step.Append([1]), Flush(Quiet), false);
  }

  // ---------- progress

  /** A kernel that takes octets, is interrupted, or asks to wait, and nothing else. */
  predicate Willing(script: seq<Departure>) {
    forall d :: d in script ==>
      (d.Took? && d.count > 0) || d == WriteFailed(WouldBlock) || d == WriteFailed(Interrupted)
  }

  /** How much it takes before it first asks to wait. */
  function Offer(script: seq<Departure>): nat {
    if script == [] || script[0] == WriteFailed(WouldBlock) then 0
    else (if script[0].Took? then script[0].count else 0) + Offer(script[1..])
  }

  /** The script behind the first time it asks to wait. */
  function Behind(script: seq<Departure>): (rest: seq<Departure>)
    ensures script != [] ==> |rest| < |script|
    ensures script == [] ==> rest == []
  {
    if script == [] then []
    else if script[0] == WriteFailed(WouldBlock) then script[1..]
    else Behind(script[1..])
  }

  lemma {:induction false} WillingBehind(script: seq<Departure>)
    requires Willing(script)
    ensures Willing(Behind(script))
  {
    if script == [] || script[0] == WriteFailed(WouldBlock) {
    } else {
      WillingBehind(script[1..]);
    }
  }

  /** One write call succeeds, with everything, exactly when the kernel takes that much before it asks to wait. */
  lemma {:induction false} WriteCallIff(script: seq<Departure>, count: nat)
    requires Willing(script) && count > 0
    ensures var w := WriteAll(script, count);
            if Offer(script) >= count then w.ret == w.taken == count
            else w.ret == -1 && w.errno == WouldBlock && w.taken == Offer(script) && w.rest == Behind(script)
    ensures Willing(WriteAll(script, count).rest)
  {
    hide WriteAll;
    WriteAllStep(script, count);
    if script != [] {
      assert script[0] in script;
      assert Willing(script[1..]);
      AfterAll(script[1..], count);
      if script[0].Took? && script[0].count < count {
        WriteCallIff(script[1..], count - script[0].count);
      } else if script[0] == WriteFailed(Interrupted) {
        WriteCallIff(script[1..], count);
      }
    }
  }

  /** Some stretch between two waits takes `count` octets. */
  predicate Reaches(script: seq<Departure>, count: nat)
    decreases |script|
  {
    Offer(script) >= count || (script != [] && Reaches(Behind(script), count))
  }

  /** No earlier stretch takes anything. */
  predicate AllOrNothing(script: seq<Departure>, count: nat)
    decreases |script|
  {
    Offer(script) >= count || (Offer(script) == 0 && script != [] && AllOrNothing(Behind(script), count))
  }

  predicate KeepsOpen(reaction: Reaction) {
    reaction == Quiet || reaction == Throws
  }
}
