/** xConnector (net/connector.cpp, net/include/connector.h), specified by the functions of `Reconnect`. */
module Connector {
  import opened EventLoop
  import opened Statuses
  import opened Reconnect

  class Connector {
    const id: nat
    const loop: Loop
    var reConnMs: nat
    var status: Status
    ghost var phase: Phase
    ghost var attempts: nat
    ghost var finishes: seq<int>

    ghost function Snapshot(): State
      reads this
    {
      State(reConnMs, status, phase, attempts, finishes)
    }

    /** While an attempt runs its descriptor is open and registered with this connector's handler. */
    ghost predicate Valid()
      reads this, loop, loop.poller
    {
      && loop.Valid()
      && (phase.Attempting? ==>
            phase.fd in loop.register && loop.register[phase.fd].callback == OfConnector(id))
    }

    constructor (id: nat, loop: Loop)
      requires loop.Valid()
      ensures Valid() && Snapshot() == Initial() && this.loop == loop && this.id == id
    {
      this.id, this.loop := id, loop;
      reConnMs, status := 0, Unknown;
      phase, attempts, finishes := Idle, 0, [];
    }

    /** beforeConnect: `fd` is what connectNonblock returned, a descriptor the kernel had free. */
    method BeforeConnect(fd: Option<int>, errno: int)
      requires Valid() && !phase.Attempting?
      requires fd.Some? ==> fd.value !in loop.poller.open
      modifies this, loop`register, loop.poller
      ensures Valid() && Snapshot() == Reconnect.BeforeConnect(old(Snapshot()), fd, errno)
      ensures match fd
              case None => loop.register == old(loop.register) && loop.poller.open == old(loop.poller.open)
              case Some(d) =>
                && loop.register == old(loop.register)[d := EventState(XE_WRITABLE, 0, OfConnector(id))]
                && loop.poller.open == old(loop.poller.open) + {d}
    {
      attempts := attempts + 1;
      match fd {
        case None =>
          status := Unknown;
          finishes, phase := finishes + [errno], Done;
        case Some(d) =>
          loop.poller.OpenDescriptor(d);
          status := Connecting;
          phase := Attempting(d);
          loop.Reg(d, 0, XE_WRITABLE, OfConnector(id));
      }
    }

    method OnReConnect(fd: Option<int>, errno: int)
      requires Valid() && phase == RetryPending
      requires fd.Some? ==> fd.value !in loop.poller.open
      modifies this, loop`register, loop.poller
      ensures Valid()
      ensures Snapshot() == Next(old(Snapshot()), Timer(fd, errno), Drops)
    {
      reConnMs := reConnMs + RECONNECT_INTERVAL_MS;
      BeforeConnect(fd, errno);
    }

    /** Removing the descriptor from the loop before closing it keeps the loop and the kernel in agreement. */
    method ConnectOnError(fd: int)
      requires Valid() && phase == Attempting(fd)
      modifies this, loop`register, loop.poller
      ensures Valid() && Snapshot() == Reconnect.ConnectOnError(old(Snapshot()))
      ensures loop.register == old(loop.register) - {fd} && loop.poller.open == old(loop.poller.open) - {fd}
    {
      status := Disconnected;
      loop.Remove(fd);
      loop.poller.CloseDescriptor(fd);
      if reConnMs < RECONNECT_MAX_MS {
        phase := RetryPending;
      } else {
        finishes, phase := finishes + [GAVE_UP], Done;
      }
    }

    /** A callback that does not take the socket leaves a closed descriptor registered. */
    method ConnectOnSucc(fd: int, handover: Handover)
      requires Valid() && phase == Attempting(fd)
      modifies this, loop`register, loop.poller
      ensures loop.Valid() <==> handover != Drops
      ensures handover != Drops ==> Valid()
      ensures Snapshot() == Reconnect.ConnectOnSucc(old(Snapshot()), handover)
      ensures loop.register == if handover.TakesOver?
                               then old(loop.register)[fd := EventState(XE_READABLE, 0, OfConnection(handover.id))]
                               else old(loop.register)
      ensures loop.poller.open == old(loop.poller.open) - if handover == Drops then {fd} else {}
    {
      status := Connected;
      finishes := finishes + [0];
      match handover {
        case TakesOver(owner) =>
          phase := Done;
          loop.Reg(fd, 0, XE_READABLE, OfConnection(owner));
        case KeepsOnly =>
        case Drops =>
          phase := Done;
          ghost var v := loop.Snapshot();
          AgreementStep(v, CloseFd(fd), false);
          loop.poller.CloseDescriptor(fd);
          assert Some(loop.Snapshot()) == Apply(v, CloseFd(fd), false);
      }
    }

    method OnEventHandle(fd: int, mask: Mask, socketError: int, handover: Handover)
      requires Valid() && phase == Attempting(fd)
      modifies this, loop`register, loop.poller
      ensures var refused := old(status) == Disconnected || 3 in mask || 4 in mask || (1 in mask && socketError != 0);
              var succeeded := 1 in mask && !refused;
              && (loop.Valid() <==> !(succeeded && handover == Drops))
              && (!(succeeded && handover == Drops) ==> Valid())
              && (succeeded ==> status == Connected && finishes == old(finishes) + [0])
              && (refused ==>
                    && status == Disconnected && fd !in loop.register && fd !in loop.poller.open
                    && if old(reConnMs) < 3000 then phase == RetryPending && finishes == old(finishes)
                       else phase == Done && finishes == old(finishes) + [-7])
              && (!refused && !succeeded ==> Snapshot() == old(Snapshot()) && loop.register == old(loop.register))
      ensures Snapshot() == Next(old(Snapshot()), Event(mask, socketError), handover)
    {
      Bits(mask);
      if mask * XE_ERROR != {} || mask * XE_HUP != {} || status == Disconnected {
        ConnectOnError(fd);
        return;
      }
      if mask * XE_WRITABLE != {} {
        if socketError != 0 {
          ConnectOnError(fd);
        } else {
          ConnectOnSucc(fd, handover);
        }
      }
    }
  }
}
