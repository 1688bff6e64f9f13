/**
 The way back: responses from any number of handler threads, handed to the loop
 thread (base/xloop.cpp) and appended to the connection then under their uid
 (net/xserver.cpp), down to what the kernel takes from it.
 */
module Responses {
  import opened Bytes
  import opened Kernel
  import opened Framing
  import opened EventLoop
  import opened Statuses
  import opened Schedule
  import Session
  import Reading
  import Writing

  /** What sendResponse hands over, and what the sent-bytes callback will do when it is flushed. */
  datatype Job = Job(uid: int, msg: Bytes, reaction: Session.Reaction)

  datatype Server = Server(
    work: Schedule.State,                // functors by number: the n-th one scheduled is jobs[n]
    jobs: seq<Job>,
    sessions: map<int, Session.State>,   // the connection now under each descriptor
    since: map<int, nat>,                // how many functors had run when it was accepted
    answers: map<int, seq<nat>>          // the responses that found it connected
  )

  datatype Event =
    | Schedules(job: Job)                                          // a handler thread
    | Works(a: Schedule.Action)                                    // a turn of process()
    | Accepts(fd: int, arrivals: seq<Arrival>, departures: seq<Departure>)
    | Handles(fd: int, mask: Mask, reaction: Session.Reaction)
    | Closes(fd: int)

  predicate Live(s: Server, fd: int) {
    fd in s.sessions && s.sessions[fd].status == Connected
  }

  /** The sent-bytes callback sends nothing itself. */
  predicate CanHappen(s: Server, e: Event) {
    match e
    case Schedules(job) => Writing.Silent(job.reaction)
    case Works(a) => a != Push && Schedule.Enabled(s.work, a)
    case Accepts(fd, _, _) => !Live(s, fd)
    case Handles(fd, _, reaction) => Live(s, fd) && Writing.Silent(reaction)
    case Closes(fd) => fd in s.sessions
  }

  /** doSendResponse. */
  function Answer(s: Server, n: nat, job: Job): Server {
    if !Live(s, job.uid) || job.uid !in s.answers then s
    else
      s.(sessions := s.sessions[job.uid := Session.Send(s.sessions[job.uid], job.msg, job.reaction, false)],
         answers := s.answers[job.uid := s.answers[job.uid] + [n]])
  }

  ghost function After(app: Callbacks, s: Server, e: Event): Server
    requires Progressing(app) && CanHappen(s, e)
  {
    match e
    case Schedules(job) => s.(work := Schedule.Next(s.work, Push), jobs := s.jobs + [job])
    case Works(a) =>
      var t := s.(work := Schedule.Next(s.work, a));
      if a == RunNext then
        var n := s.work.list[s.work.phase.next];
        if n < |s.jobs| then Answer(t, n, s.jobs[n]) else t
      else t
    case Accepts(fd, arrivals, departures) =>
      s.(sessions := s.sessions[fd := Session.Opened(arrivals, departures)],
         since := s.since[fd := |s.work.ran|], answers := s.answers[fd := []])
    case Handles(fd, mask, reaction) =>
      s.(sessions := s.sessions[fd := Session.HandleEvent(app, s.sessions[fd], mask, reaction, false)])
    case Closes(fd) => s.(sessions := s.sessions[fd := Session.CloseConn(s.sessions[fd])])
  }

  function Started(): Server {
    Server(Schedule.Initial(), [], map[], map[], map[])
  }

  ghost predicate Possible(app: Callbacks, s: Server, run: seq<Event>)
    requires Progressing(app)
    decreases |run|
  {
    run != [] ==> CanHappen(s, run[0]) && Possible(app, After(app, s, run[0]), run[1..])
  }

  ghost function Run(app: Callbacks, s: Server, run: seq<Event>): Server
    requires Progressing(app) && Possible(app, s, run)
    decreases |run|
  {
    if run == [] then s else Run(app, After(app, s, run[0]), run[1..])
  }

  // ---------- which responses a connection is due

  /** Those of these functors that are responses for the descriptor, in order. */
  function For(ids: seq<nat>, jobs: seq<Job>, fd: int): seq<nat> {
    if ids == [] then []
    else
      var n := ids[|ids| - 1];
      For(ids[..|ids| - 1], jobs, fd) + if n < |jobs| && jobs[n].uid == fd then [n] else []
  }

  function Octets(ids: seq<nat>, jobs: seq<Job>): Bytes {
    if ids == [] then []
    else
      var n := ids[|ids| - 1];
      Octets(ids[..|ids| - 1], jobs) + if n < |jobs| then jobs[n].msg else []
  }

  lemma ForSnoc(ids: seq<nat>, n: nat, jobs: seq<Job>, fd: int)
    ensures For(ids + [n], jobs, fd) == For(ids, jobs, fd) + if n < |jobs| && jobs[n].uid == fd then [n] else []
  {
    assert (ids + [n])[..|ids|] == ids;
  }

  lemma OctetsSnoc(ids: seq<nat>, n: nat, jobs: seq<Job>)
    ensures Octets(ids + [n], jobs) == Octets(ids, jobs) + if n < |jobs| then jobs[n].msg else []
  {
    assert (ids + [n])[..|ids|] == ids;
  }

  predicate Known(ids: seq<nat>, jobs: seq<Job>) {
    forall n :: n in ids ==> n < |jobs|
  }

  lemma {:induction false} MoreJobs(ids: seq<nat>, jobs: seq<Job>, job: Job, fd: int)
    requires Known(ids, jobs)
    ensures For(ids, jobs + [job], fd) == For(ids, jobs, fd) && Octets(ids, jobs + [job]) == Octets(ids, jobs)
    decreases |ids|
  {
    if ids == [] {
    } else {
      assert ids[|ids| - 1] in ids;
      var init := ids[..|ids| - 1];
      forall n | n in init ensures n < |jobs| {
        assert n in ids;
      }
      MoreJobs(init, jobs, job, fd);
    }
  }

  lemma {:induction false} ForIsPart(ids: seq<nat>, jobs: seq<Job>, fd: int)
    ensures forall n :: n in For(ids, jobs, fd) ==> n in ids && n < |jobs| && jobs[n].uid == fd
    decreases |ids|
  {
    if ids == [] {
    } else {
      ForIsPart(ids[..|ids| - 1], jobs, fd);
    }
  }

  /** In schedule order, each at most once. */
  lemma {:induction false} ForIncreasing(ids: seq<nat>, jobs: seq<Job>, fd: int)
    requires Increasing(ids)
    ensures Increasing(For(ids, jobs, fd))
    decreases |ids|
  {
    if ids == [] {
    } else {
      var init, n := ids[..|ids| - 1], ids[|ids| - 1];
      ForIncreasing(init, jobs, fd);
      ForIsPart(init, jobs, fd);
      if n < |jobs| && jobs[n].uid == fd {
        forall m | m in For(init, jobs, fd) ensures m < n {
          var i :| 0 <= i < |init| && init[i] == m;
          assert ids[i] == m;
        }
        IncreasingSnoc(For(init, jobs, fd), n);
      }
    }
  }

  // ---------- what one connection keeps

  lemma SendAppends(c: Session.State, msg: Bytes, reaction: Session.Reaction)
    requires Writing.Silent(reaction) && c.status == Connected && Writing.Accounted(c, 0)
    ensures var d := Session.Send(c, msg, reaction, false);
            d.appended == c.appended + msg && Writing.Accounted(d, 0)
  {
    hide Session.Write, Session.SendMsg;
    var put := Session.Put(c, msg);
    var p := (t: Session.State) => Writing.Accounted(t, 0);
    Writing.AccountedKept(0, false);
    assert p(Session.Do(c, Session.Appends(msg), false));
    Session.FlushKeeps(p, put, reaction, false);
    Writing.SilentFlush(put, reaction, false);
  }

  lemma EventKeepsAppended(app: Callbacks, c: Session.State, mask: Mask, reaction: Session.Reaction)
    requires Progressing(app) && Writing.Silent(reaction) && Writing.Accounted(c, 0)
    ensures var d := Session.HandleEvent(app, c, mask, reaction, false);
            && d.appended == c.appended && Writing.Accounted(d, 0)
            && (d.status == Connected ==> c.status == Connected)
  {
    hide Session.ReadMsg, Session.SendMsg;
    var c1 := if mask * XE_READABLE != {} then Session.ReadMsg(app, c).1 else c;
    Session.ReadOutcome(app, c);
    var p := (t: Session.State) => Writing.Accounted(t, 0);
    assert p(c1);
    Writing.AccountedKept(0, false);
    Session.FlushKeeps(p, c1, reaction, false);
    Writing.SilentFlush(c1, reaction, false);
    Session.FlushIsStable(c1, reaction);
  }

  // ---------- what every step keeps

  /** The functors that ran since the connection under the descriptor was accepted. */
  function RanSince(s: Server, fd: int): seq<nat> {
    if fd in s.since && s.since[fd] <= |s.work.ran| then s.work.ran[s.since[fd]..] else []
  }

  /**
   A live connection was appended exactly the responses for its descriptor that ran
   since it was accepted; a closed one the first of them.
   */
  ghost predicate Answered(s: Server, fd: int)
    requires fd in s.sessions
  {
    && fd in s.since && s.since[fd] <= |s.work.ran| && fd in s.answers
    && s.answers[fd] <= For(RanSince(s, fd), s.jobs, fd)
    && (Live(s, fd) ==> s.answers[fd] == For(RanSince(s, fd), s.jobs, fd))
    && s.sessions[fd].appended == Octets(s.answers[fd], s.jobs)
    && Writing.Accounted(s.sessions[fd], 0)
  }

  ghost predicate Inv(s: Server) {
    && Schedule.Inv(s.work) && s.work.scheduled == |s.jobs|
    && (forall fd :: fd in s.sessions ==> Answered(s, fd))
  }

  lemma RanKnown(s: Server)
    requires Schedule.Inv(s.work) && s.work.scheduled == |s.jobs|
    ensures Known(s.work.ran, s.jobs)
  {
  }

  lemma SchedulesStep(s: Server, job: Job, fd: int)
    requires Inv(s) && fd in s.sessions
    ensures Answered(s.(work := Schedule.Next(s.work, Push), jobs := s.jobs + [job]), fd)
  {
    hide Schedule.Inv, For, Octets;
    RanKnown(s);
    assert Answered(s, fd);
    var ids := RanSince(s, fd);
    assert forall n :: n in ids ==> n in s.work.ran;
    MoreJobs(ids, s.jobs, job, fd);
    ForIsPart(ids, s.jobs, fd);
    assert forall n :: n in s.answers[fd] ==> n in For(ids, s.jobs, fd);
    MoreJobs(s.answers[fd], s.jobs, job, fd);
  }

  lemma RunNextStep(s: Server, fd: int)
    requires Inv(s) && fd in s.sessions && Schedule.Enabled(s.work, RunNext)
    requires forall n: nat :: n < |s.jobs| ==> Writing.Silent(s.jobs[n].reaction)
    ensures var n := s.work.list[s.work.phase.next];
            && n < |s.jobs|
            && Answered(Answer(s.(work := Schedule.Next(s.work, RunNext)), n, s.jobs[n]), fd)
  {
    hide For, Octets, Session.Send, Writing.Accounted, Writing.Silent;
    var n := s.work.list[s.work.phase.next];
    NextKnown(s);
    var t := s.(work := Schedule.Next(s.work, RunNext));
    assert Answered(s, fd);
    assert RanSince(t, fd) == RanSince(s, fd) + [n];
    ForSnoc(RanSince(s, fd), n, s.jobs, fd);
    if Live(s, fd) && s.jobs[n].uid == fd {
      SendAppends(s.sessions[fd], s.jobs[n].msg, s.jobs[n].reaction);
      OctetsSnoc(s.answers[fd], n, s.jobs);
    }
  }

  lemma NextKnown(s: Server)
    requires Schedule.Inv(s.work) && s.work.scheduled == |s.jobs| && Schedule.Enabled(s.work, RunNext)
    ensures s.work.list[s.work.phase.next] < |s.jobs|
  {
    var n := s.work.list[s.work.phase.next];
    assert Schedule.Pending(s.work)[0] == n && n in Schedule.Pending(s.work);
  }

  lemma HandlesStep(app: Callbacks, s: Server, at: int, mask: Mask, reaction: Session.Reaction, fd: int)
    requires Progressing(app) && Inv(s) && CanHappen(s, Handles(at, mask, reaction)) && fd in s.sessions
    ensures Answered(After(app, s, Handles(at, mask, reaction)), fd)
  {
    hide For, Octets, Schedule.Inv, Session.HandleEvent, Writing.Accounted, Writing.Silent;
    assert Answered(s, fd) && Answered(s, at);
    EventKeepsAppended(app, s.sessions[at], mask, reaction);
  }

  lemma ClosesStep(app: Callbacks, s: Server, at: int, fd: int)
    requires Progressing(app) && Inv(s) && CanHappen(s, Closes(at)) && fd in s.sessions
    ensures Answered(After(app, s, Closes(at)), fd)
  {
    hide For, Octets, Schedule.Inv;
    assert Answered(s, fd) && Answered(s, at);
  }

  lemma AcceptsStep(app: Callbacks, s: Server, e: Event, fd: int)
    requires Progressing(app) && Inv(s) && e.Accepts? && CanHappen(s, e) && (fd in s.sessions || fd == e.fd)
    ensures Answered(After(app, s, e), fd)
  {
    hide Schedule.Inv;
    if fd != e.fd {
      assert Answered(s, fd);
    }
  }

  ghost predicate AllSilent(s: Server) {
    forall n: nat :: n < |s.jobs| ==> Writing.Silent(s.jobs[n].reaction)
  }

  lemma InvStep(app: Callbacks, s: Server, e: Event)
    requires Progressing(app) && Inv(s) && AllSilent(s) && CanHappen(s, e)
    ensures Inv(After(app, s, e)) && AllSilent(After(app, s, e))
  {
    hide Progressing, Schedule.Inv, Answered, Answer, Session.HandleEvent, Session.CloseConn, Writing.Silent;
    var t := After(app, s, e);
    match e {
      case Schedules(job) =>
        Schedule.InvStep(s.work, Push);
        forall fd | fd in t.sessions ensures Answered(t, fd) {
          SchedulesStep(s, job, fd);
        }
      case Works(a) =>
        Schedule.InvStep(s.work, a);
        WorksStep(app, s, a);
      case Accepts(at, _, _) =>
        forall fd | fd in t.sessions ensures Answered(t, fd) {
          AcceptsStep(app, s, e, fd);
        }
      case Handles(at, mask, reaction) =>
        forall fd | fd in t.sessions ensures Answered(t, fd) {
          HandlesStep(app, s, at, mask, reaction, fd);
        }
      case Closes(at) =>
        forall fd | fd in t.sessions ensures Answered(t, fd) {
          ClosesStep(app, s, at, fd);
        }
    }
  }

  lemma WorksStep(app: Callbacks, s: Server, a: Schedule.Action)
    requires Progressing(app) && Inv(s) && AllSilent(s) && CanHappen(s, Works(a))
    requires Schedule.Inv(Schedule.Next(s.work, a))
    ensures Inv(After(app, s, Works(a))) && AllSilent(After(app, s, Works(a)))
  {
    hide Progressing, Schedule.Inv, For, Octets, Session.Send, Writing.Silent, Writing.Accounted;
    var t := After(app, s, Works(a));
    if a == RunNext {
      NextKnown(s);
      forall fd | fd in t.sessions ensures Answered(t, fd) {
        RunNextStep(s, fd);
      }
    } else {
      forall fd | fd in t.sessions ensures Answered(t, fd) {
        assert Answered(s, fd);
        assert RanSince(t, fd) == RanSince(s, fd);
      }
    }
  }

  lemma {:induction false} InvRun(app: Callbacks, s: Server, run: seq<Event>)
    requires Progressing(app) && Inv(s) && AllSilent(s) && Possible(app, s, run)
    ensures Inv(Run(app, s, run))
    decreases |run|
  {
    hide Progressing, Inv, AllSilent, After, CanHappen;
    if run == [] {
    } else {
      InvStep(app, s, run[0]);
      InvRun(app, After(app, s, run[0]), run[1..]);
    }
  }

  /**
   In every state of every run, for the connection under a descriptor: the octets
   ever appended to it are the responses for that descriptor which ran since it was
   accepted, each once and in the order in which they were scheduled, whole and
   unchanged; if it has closed, the first of them. What the kernel took from it,
   followed by what is still buffered, is exactly that, if and only if no write call
   failed part way.
   */
  lemma ResponsesReachKernel(app: Callbacks, run: seq<Event>, fd: int)
    requires Progressing(app) && Possible(app, Started(), run) && fd in Run(app, Started(), run).sessions
    ensures var s := Run(app, Started(), run);
            var c := s.sessions[fd];
            && fd in s.answers && Increasing(s.answers[fd]) && c.appended == Octets(s.answers[fd], s.jobs)
            && s.answers[fd] <= For(RanSince(s, fd), s.jobs, fd)
            && (Live(s, fd) ==> s.answers[fd] == For(RanSince(s, fd), s.jobs, fd))
            && (c.accepted + c.outbound == Octets(s.answers[fd], s.jobs) <==> c.torn == 0)
  {
    hide Progressing, Run, Possible, For, Octets, Schedule.Inv;
    InvInitially();
    InvRun(app, Started(), run);
    var s := Run(app, Started(), run);
    assert Answered(s, fd);
    RanIncreasing(s.work);
    var ids := RanSince(s, fd);
    assert Increasing(ids);
    ForIncreasing(ids, s.jobs, fd);
    IncreasingPart(s.answers[fd], For(ids, s.jobs, fd));
    var c := s.sessions[fd];
    assert |c.accepted + c.outbound| == |c.accepted| + |c.outbound|;
  }

  lemma RanIncreasing(work: Schedule.State)
    requires Schedule.Inv(work)
    ensures Increasing(work.ran)
  {
    IncreasingPrefix(work.ran, Pending(work));
  }

  lemma IncreasingPart(a: seq<nat>, b: seq<nat>)
    requires a <= b && Increasing(b)
    ensures Increasing(a)
  {
    forall i, j | 0 <= i < j < |a| ensures a[i] < a[j] {
      assert b[i] < b[j];
    }
  }

  lemma InvInitially()
    ensures Inv(Started()) && AllSilent(Started())
  {
  }
}
