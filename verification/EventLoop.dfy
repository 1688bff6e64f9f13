/**
 The two views of which descriptors the loop watches: `register_` in xLoop
 (base/xloop.cpp) and the interest set inside the kernel (base/epoller.cpp).
 */
module EventLoop {

  /** A 32-bit word, as the set of the positions of its one bits: `&` is `*`, `|` is `+`, `~m` is `Not(m)`. */
  type Mask = m: set<nat> | forall b :: b in m ==> IsBit(b)

  predicate IsBit(b: nat) {
    b < 32
  }

  function Not(m: Mask): Mask {
    (set b: nat | b < 32 && IsBit(b)) - m
  }

  const XE_NONE: Mask := {}
  const XE_READABLE: Mask := {0}
  const XE_WRITABLE: Mask := {1}
  const XE_ERROR: Mask := {3}
  const XE_HUP: Mask := {4}
  const EPOLLIN: Mask := {0}
  const EPOLLOUT: Mask := {2}

  lemma Bits(mask: Mask)
    ensures (mask * XE_READABLE != {} <==> 0 in mask) && (mask * XE_WRITABLE != {} <==> 1 in mask)
    ensures (mask * XE_ERROR != {} <==> 3 in mask) && (mask * XE_HUP != {} <==> 4 in mask)
  {
    if 0 in mask { assert 0 in mask * XE_READABLE; }
    if 1 in mask { assert 1 in mask * XE_WRITABLE; }
    if 3 in mask { assert 3 in mask * XE_ERROR; }
    if 4 in mask { assert 4 in mask * XE_HUP; }
  }

  /** Whose callback an entry of `register_` holds. */
  datatype Handler = Wakeup | Listener | OfConnection(id: nat) | OfConnector(id: nat)

  datatype EventState = EventState(mask: Mask, data: int, callback: Handler)

  datatype Option<T> = None | Some(value: T)

  datatype CtlOp = Add | Modify | Delete

  /** The interest bits the kernel is told about; the other bits of a stored mask stay in user space. */
  function KernelMask(mask: Mask): Mask {
    (if mask * XE_READABLE != {} then EPOLLIN else {}) + (if mask * XE_WRITABLE != {} then EPOLLOUT else {})
  }

  /** epoll_ctl(2): None is a non-zero return. A closed descriptor is refused whatever the operation. */
  function Ctl(interest: map<int, Mask>, open: set<int>, op: CtlOp, fd: int, mask: Mask): Option<map<int, Mask>> {
    if fd !in open then None
    else
      match op
      case Add => if fd in interest then None else Some(interest[fd := mask])
      case Modify => if fd !in interest then None else Some(interest[fd := mask])
      case Delete => if fd !in interest then None else Some(interest - {fd})
  }

  /** EPOLLIN exactly for READABLE, EPOLLOUT exactly for WRITABLE, and no other bit. */
  predicate Matches(mask: Mask, kernel: Mask) {
    && (0 in kernel <==> 0 in mask)
    && (2 in kernel <==> 1 in mask)
    && kernel <= {0, 2}
  }

  /** User space, kernel interest set, and the descriptors the process has open. */
  datatype View = View(register: map<int, EventState>, interest: map<int, Mask>, open: set<int>) {

    ghost predicate Agree() {
      && register.Keys == interest.Keys
      && register.Keys <= open
      && forall fd :: fd in register ==> Matches(register[fd].mask, interest[fd])
    }

    function WithCtl(register': map<int, EventState>, op: CtlOp, fd: int, mask: Mask): Option<View> {
      match Ctl(interest, open, op, fd, mask)
      case None => None
      case Some(i) => Some(View(register', i, open))
    }
  }

  datatype Op =
    | Reg(fd: int, mask: Mask, data: int, callback: Handler)
    | Remove(fd: int)
    | AddEvent(fd: int, mask: Mask)
    | RemoveEvent(fd: int, mask: Mask)
    | OpenFd(fd: int)
    | CloseFd(fd: int)

  /** removeEvent stores `mask | ~m`; the repaired variant clears the bits instead. */
  function Cleared(mask: Mask, m: Mask, repaired: bool): Mask {
    if repaired then mask - m else mask + Not(m)
  }

  /** The effect of one call; None is a failing rc == 0 assertion in xEpoller::ctrl. */
  function Apply(v: View, op: Op, repaired: bool): Option<View> {
    match op
    case Reg(fd, mask, data, callback) =>
      v.WithCtl(v.register[fd := EventState(mask, data, callback)],
                if fd in v.register then Modify else Add, fd, KernelMask(mask))
    case Remove(fd) =>
      if fd !in v.register then Some(v) else v.WithCtl(v.register - {fd}, Delete, fd, {})
    case AddEvent(fd, m) =>
      if fd !in v.register || v.register[fd].mask * m != {} then Some(v)
      else
        var mask := v.register[fd].mask + m;
        v.WithCtl(v.register[fd := v.register[fd].(mask := mask)], Modify, fd, KernelMask(mask))
    case RemoveEvent(fd, m) =>
      if fd !in v.register || v.register[fd].mask * m == {} then Some(v)
      else
        var mask := Cleared(v.register[fd].mask, m, repaired);
        if mask == XE_NONE then v.WithCtl(v.register - {fd}, Delete, fd, {})
        else v.WithCtl(v.register[fd := v.register[fd].(mask := mask)], Modify, fd, KernelMask(mask))
    case OpenFd(fd) => Some(v.(open := v.open + {fd}))
    case CloseFd(fd) => Some(v.(open := v.open - {fd}, interest := v.interest - {fd}))
  }

  /** What a caller has to respect: registered descriptors are open when registered and while registered. */
  predicate Careful(v: View, op: Op) {
    (op.Reg? ==> op.fd in v.open) && (op.CloseFd? ==> op.fd !in v.register)
  }

  lemma KernelMatches(mask: Mask)
    ensures Matches(mask, KernelMask(mask))
  {
    Bits(mask);
  }

  /** From agreement, a careful call passes the kernel's assertion and keeps agreement, and no other call does. */
  lemma AgreementStep(v: View, op: Op, repaired: bool)
    requires v.Agree()
    ensures (var w := Apply(v, op, repaired); w.Some? && w.value.Agree()) <==> Careful(v, op)
  {
    hide KernelMask, Matches;
    forall mask: Mask ensures Matches(mask, KernelMask(mask)) {
      KernelMatches(mask);
    }
    if op.CloseFd? && op.fd in v.register {
      var w := Apply(v, op, repaired).value;
      assert op.fd in w.register && op.fd !in w.interest;
    }
  }

  predicate CarefulRun(v: View, ops: seq<Op>, repaired: bool)
    decreases |ops|
  {
    ops != [] ==>
      Careful(v, ops[0]) &&
      (Apply(v, ops[0], repaired).Some? ==> CarefulRun(Apply(v, ops[0], repaired).value, ops[1..], repaired))
  }

  function Run(v: View, ops: seq<Op>, repaired: bool): Option<View>
    decreases |ops|
  {
    if ops == [] then Some(v)
    else
      match Apply(v, ops[0], repaired)
      case None => None
      case Some(w) => Run(w, ops[1..], repaired)
  }

  /** Over every run of careful calls no assertion in ctrl fails and the two views agree throughout. */
  lemma {:induction false} AgreementRun(v: View, ops: seq<Op>, repaired: bool)
    requires v.Agree() && CarefulRun(v, ops, repaired)
    ensures Run(v, ops, repaired).Some? && Run(v, ops, repaired).value.Agree()
    decreases |ops|
  {
    if ops == [] {
    } else {
      AgreementStep(v, ops[0], repaired);
      AgreementRun(Apply(v, ops[0], repaired).value, ops[1..], repaired);
    }
  }

  /**
   So whatever a loop is asked to do, a descriptor is in the kernel's set exactly
   while it is registered, and the kernel then watches it for reading exactly when
   bit 0 of the stored mask is set, for writing exactly when bit 1 is, and for
   nothing else.
   */
  lemma WatchedInEveryState(open: set<int>, ops: seq<Op>, repaired: bool, fd: int)
    requires CarefulRun(View(map[], map[], open), ops, repaired)
    ensures var w := Run(View(map[], map[], open), ops, repaired);
            && w.Some?
            && (fd in w.value.interest <==> fd in w.value.register)
            && (fd in w.value.register ==>
                  && fd in w.value.open
                  && (0 in w.value.interest[fd] <==> 0 in w.value.register[fd].mask)
                  && (2 in w.value.interest[fd] <==> 1 in w.value.register[fd].mask)
                  && forall b :: b in w.value.interest[fd] ==> b == 0 || b == 2)
  {
    AgreementRun(View(map[], map[], open), ops, repaired);
  }

  /**
   removeEvent as written sets every bit outside `m` and keeps the bits of `m`
   that are there, so the events it names stop being watched exactly when none
   of them was. It never reaches the branch that removes the entry.
   */
  lemma RemoveEventClearsIff(v: View, fd: int, m: Mask)
    requires v.Agree() && fd in v.register
    ensures var w := Apply(v, RemoveEvent(fd, m), false).value;
            && fd in w.register
            && (w.register[fd].mask * m == {} <==> v.register[fd].mask * m == {})
            && (v.register[fd].mask * m != {} ==> w.register[fd].mask == v.register[fd].mask + Not(m) != XE_NONE)
  {
    var mask := v.register[fd].mask;
    if mask * m != {} {
      var b :| b in mask * m;
      assert b in Cleared(mask, m, false);
    }
  }

  /** The repaired variant clears the bits, keeps the others, and drops the entry when nothing is left. */
  lemma RepairedRemoveEventClears(v: View, fd: int, m: Mask)
    requires v.Agree() && fd in v.register && v.register[fd].mask * m != {}
    ensures var w := Apply(v, RemoveEvent(fd, m), true).value;
            if fd in w.register then w.register[fd].mask == v.register[fd].mask - m != {}
            else v.register[fd].mask <= m
  {
    var mask := v.register[fd].mask;
    if exists b :: b in mask && b !in m {
      var b :| b in mask && b !in m;
      assert b in mask - m;
    }
  }

  // ---------- the entry of one descriptor, and the rest

  function MaskOf(v: View, fd: int): Option<Mask> {
    if fd in v.register then Some(v.register[fd].mask) else None
  }

  function OwnerOf(v: View, fd: int): Option<(Handler, int)> {
    if fd in v.register then Some((v.register[fd].callback, v.register[fd].data)) else None
  }

  function RestOf(v: View, fd: int): (set<int>, map<int, EventState>) {
    (v.open, v.register - {fd})
  }

  /** At most the mask of this entry differs, or the entry is gone. */
  predicate OnlyMask(v: View, w: View, fd: int) {
    RestOf(w, fd) == RestOf(v, fd) && (OwnerOf(w, fd) == None || OwnerOf(w, fd) == OwnerOf(v, fd))
  }

  /** Registering stores what it is given, whatever was stored before, and touches no other entry. */
  lemma RegEntry(v: View, fd: int, mask: Mask, data: int, callback: Handler)
    requires v.Agree() && fd in v.open
    ensures var w := Apply(v, Reg(fd, mask, data, callback), false);
            && w.Some?
            && MaskOf(w.value, fd) == Some(mask) && OwnerOf(w.value, fd) == Some((callback, data))
            && RestOf(w.value, fd) == RestOf(v, fd)
            && w.value.interest - {fd} == v.interest - {fd}
            && fd in w.value.interest && (0 in w.value.interest[fd] <==> 0 in mask)
            && (2 in w.value.interest[fd] <==> 1 in mask) && w.value.interest[fd] <= {0, 2}
  {
    AgreementStep(v, Reg(fd, mask, data, callback), false);
    var w := Apply(v, Reg(fd, mask, data, callback), false).value;
    assert w.register - {fd} == v.register - {fd};
    assert w.interest - {fd} == v.interest - {fd};
    assert Matches(mask, w.interest[fd]);
  }

  /** What removing, arming and disarming do to the entry of their descriptor; they touch no other. */
  lemma OneEntry(v: View, op: Op, repaired: bool)
    requires op.Remove? || op.AddEvent? || op.RemoveEvent?
    requires Apply(v, op, repaired).Some?
    ensures var w := Apply(v, op, repaired).value;
            && OnlyMask(v, w, op.fd)
            && (op.Remove? ==> w.register == v.register - {op.fd})
            && var m := MaskOf(v, op.fd);
               MaskOf(w, op.fd) ==
                 if op.Remove? || m == None then None
                 else if op.AddEvent? then (if m.value * op.mask != {} then m else Some(m.value + op.mask))
                 else if m.value * op.mask == {} then m
                 else if Cleared(m.value, op.mask, repaired) == XE_NONE then None
                 else Some(Cleared(m.value, op.mask, repaired))
  {
    var w := Apply(v, op, repaired).value;
    assert w.register - {op.fd} == v.register - {op.fd};
  }

  /** base/epoller.cpp, together with the part of the kernel it talks to. */
  class Poller {
    var interest: map<int, Mask>
    var open: set<int>

    constructor ()
      ensures interest == map[] && open == {}
    {
      interest, open := map[], {};
    }

    /** ctrl: the assertion is the caller's obligation. */
    method Ctrl(fd: int, mask: Mask, op: CtlOp)
      requires Ctl(interest, open, op, fd, mask).Some?
      modifies this`interest
      ensures Some(interest) == Ctl(old(interest), open, op, fd, mask)
    {
      match op {
        case Add => interest := interest[fd := mask];
        case Modify => interest := interest[fd := mask];
        case Delete => interest := interest - {fd};
      }
    }

    method OpenDescriptor(fd: int)
      modifies this`open
      ensures open == old(open) + {fd}
    {
      open := open + {fd};
    }

    /** close(2) on the last reference also leaves the interest set. */
    method CloseDescriptor(fd: int)
      modifies this
      ensures open == old(open) - {fd} && interest == old(interest) - {fd}
    {
      open, interest := open - {fd}, interest - {fd};
    }
  }

  /** base/xloop.cpp. */
  class Loop {
    const poller: Poller
    var register: map<int, EventState>

    ghost function Snapshot(): View
      reads this, poller
    {
      View(register, poller.interest, poller.open)
    }

    ghost predicate Valid()
      reads this, poller
    {
      Snapshot().Agree()
    }

    constructor (wakeupFd: int)
      ensures Valid() && fresh(poller)
      ensures register == map[wakeupFd := EventState(XE_READABLE, 0, Wakeup)]
      ensures poller.open == {wakeupFd}
    {
      poller := new Poller();
      register := map[];
      new;
      poller.OpenDescriptor(wakeupFd);
      Reg(wakeupFd, 0, XE_READABLE, Wakeup);
    }

    method Reg(fd: int, data: int, mask: Mask, callback: Handler)
      requires Valid() && fd in poller.open
      modifies this`register, poller`interest
      ensures Valid()
      ensures Some(Snapshot()) == Apply(old(Snapshot()), Op.Reg(fd, mask, data, callback), false)
    {
      ghost var v := Snapshot();
      AgreementStep(v, Op.Reg(fd, mask, data, callback), false);
      var mod := fd in register;
      register := register[fd := EventState(mask, data, callback)];
      poller.Ctrl(fd, KernelMask(mask), if mod then Modify else Add);
    }

    method Remove(fd: int)
      requires Valid()
      modifies this`register, poller`interest
      ensures Valid()
      ensures Some(Snapshot()) == Apply(old(Snapshot()), Op.Remove(fd), false)
    {
      AgreementStep(Snapshot(), Op.Remove(fd), false);
      if fd !in register {
        return;
      }
      poller.Ctrl(fd, {}, Delete);
      register := register - {fd};
    }

    method AddEvent(fd: int, mask: Mask)
      requires Valid()
      modifies this`register, poller`interest
      ensures Valid()
      ensures Some(Snapshot()) == Apply(old(Snapshot()), Op.AddEvent(fd, mask), false)
    {
      AgreementStep(Snapshot(), Op.AddEvent(fd, mask), false);
      if fd !in register || register[fd].mask * mask != {} {
        return;
      }
      var state := register[fd].(mask := register[fd].mask + mask);
      register := register[fd := state];
      poller.Ctrl(fd, KernelMask(state.mask), Modify);
    }

    method RemoveEvent(fd: int, mask: Mask)
      requires Valid()
      modifies this`register, poller`interest
      ensures Valid()
      ensures Some(Snapshot()) == Apply(old(Snapshot()), Op.RemoveEvent(fd, mask), false)
    {
      AgreementStep(Snapshot(), Op.RemoveEvent(fd, mask), false);
      if fd !in register || register[fd].mask * mask == {} {
        return;
      }
      RemoveEventClearsIff(Snapshot(), fd, mask);
      var state := register[fd].(mask := register[fd].mask + Not(mask));
      if state.mask == XE_NONE {
        assert false;  // remove(fd) here cannot be reached
      }
      register := register[fd := state];
      poller.Ctrl(fd, KernelMask(state.mask), Modify);
    }
  }
}
