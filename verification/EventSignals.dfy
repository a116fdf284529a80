/** The event data of a libusb context: everything guarded by event_data_lock, together
    with the event pipe that tells the event handler about it. Each function is one
    critical section of the library; the class below performs the same sections in place. */
module EventSignals {
  type TransferId = nat

  datatype Message = Message(device: nat, left: bool)

  datatype Signals = Signals(
    deviceClose: nat,
    pollfdsModified: bool,
    hotplug: seq<Message>,
    completed: seq<TransferId>,
    pipe: nat)
  {
    predicate Pending() {
      deviceClose != 0 || pollfdsModified || hotplug != [] || completed != []
    }

    /** Whatever is pending has made the pipe readable. */
    predicate Signalled() {
      Pending() ==> pipe >= 1
    }

    /** The pipe holds one byte when something is pending and none otherwise. */
    predicate Exact() {
      pipe == if Pending() then 1 else 0
    }

    /** A section that ends by clearing an idle pipe would block: the read end is blocking. */
    predicate ClearBlocks() {
      !Pending() && pipe == 0
    }

    function Signal(wasPending: bool): Signals {
      if wasPending then this else this.(pipe := pipe + 1)
    }

    function ClearIfIdle(): Signals
      requires !ClearBlocks()
    {
      if Pending() then this else this.(pipe := pipe - 1)
    }

    function AddCompletion(t: TransferId): Signals {
      this.(completed := completed + [t]).Signal(Pending())
    }

    function AddMessage(m: Message): Signals {
      this.(hotplug := hotplug + [m]).Signal(Pending())
    }

    function NotifyFd(): Signals {
      this.(pollfdsModified := true).Signal(Pending())
    }

    function BeginClose(): Signals {
      this.(deviceClose := deviceClose + 1).Signal(Pending())
    }

    /** The close is over; the pipe has not been looked at yet. */
    function DropClose(): Signals
      requires deviceClose > 0
    {
      this.(deviceClose := deviceClose - 1)
    }

    function DropModified(): Signals {
      this.(pollfdsModified := false)
    }

    function TakeMessage(): Signals {
      if hotplug == [] then this else this.(hotplug := hotplug[1..])
    }

    function TakeCompletion(): Signals
      requires completed != []
    {
      this.(completed := completed[1..])
    }
  }

  datatype Pollfd = Pollfd(fd: int, events: int)

  /** Position of the first entry for a descriptor, or the length when there is none. */
  function FirstFd(fds: seq<Pollfd>, fd: int): (i: nat)
    ensures i <= |fds|
    ensures i < |fds| ==> fds[i].fd == fd
    ensures forall j :: 0 <= j < i ==> fds[j].fd != fd
  {
    if fds == [] || fds[0].fd == fd then 0 else 1 + FirstFd(fds[1..], fd)
  }

  class EventContext {
    var deviceClose: nat
    var pollfdsModified: bool
    var hotplugMsgs: seq<Message>
    var completedTransfers: seq<TransferId>
    var pipeBytes: nat
    var ipollfds: seq<Pollfd>
    var pollfds: array<Pollfd>

    function Data(): Signals
      reads this
    {
      Signals(deviceClose, pollfdsModified, hotplugMsgs, completedTransfers, pipeBytes)
    }

    ghost predicate Valid()
      reads this
    {
      Data().Signalled()
    }

    /** usbi_io_init: the pipe exists first, then registering its read end signals it. */
    constructor (eventFd: int)
      ensures Valid() && Data() == Signals(0, true, [], [], 1)
      ensures ipollfds == [Pollfd(eventFd, 1)]
    {
      deviceClose, pollfdsModified, pipeBytes := 0, false, 0;
      hotplugMsgs, completedTransfers, ipollfds := [], [], [];
      pollfds := new Pollfd[0];
      new;
      AddPollfd(Pollfd(eventFd, 1));
    }

    predicate PendingEvents()
      reads this
    {
      Data().Pending()
    }

    method SignalEvent()
      modifies this`pipeBytes
      ensures pipeBytes == old(pipeBytes) + 1
    {
      pipeBytes := pipeBytes + 1;
    }

    method ClearEvent()
      requires pipeBytes > 0
      modifies this`pipeBytes
      ensures pipeBytes == old(pipeBytes) - 1
    {
      pipeBytes := pipeBytes - 1;
    }

    method SignalTransferCompletion(t: TransferId)
      requires Valid()
      modifies this`completedTransfers, this`pipeBytes
      ensures Valid() && Data() == old(Data()).AddCompletion(t)
      ensures completedTransfers == old(completedTransfers) + [t]
    {
      var pendingEvents := PendingEvents();
      completedTransfers := completedTransfers + [t];
      if !pendingEvents {
        SignalEvent();
      }
    }

    method HotplugNotification(m: Message)
      requires Valid()
      modifies this`hotplugMsgs, this`pipeBytes
      ensures Valid() && Data() == old(Data()).AddMessage(m)
      ensures hotplugMsgs == old(hotplugMsgs) + [m]
    {
      var pendingEvents := PendingEvents();
      hotplugMsgs := hotplugMsgs + [m];
      if !pendingEvents {
        SignalEvent();
      }
    }

    method FdNotification()
      requires Valid()
      modifies this`pollfdsModified, this`pipeBytes
      ensures Valid() && Data() == old(Data()).NotifyFd()
    {
      var pendingEvents := PendingEvents();
      pollfdsModified := true;
      if !pendingEvents {
        SignalEvent();
      }
    }

    method AddPollfd(p: Pollfd)
      requires Valid()
      modifies this`ipollfds, this`pollfdsModified, this`pipeBytes
      ensures Valid() && Data() == old(Data()).NotifyFd()
      ensures ipollfds == old(ipollfds) + [p]
    {
      ipollfds := ipollfds + [p];
      FdNotification();
    }

    /** Only the first entry for the descriptor goes, and only then is anyone notified. */
    method RemovePollfd(fd: int)
      requires Valid()
      modifies this`ipollfds, this`pollfdsModified, this`pipeBytes
      ensures Valid()
      ensures var i := FirstFd(old(ipollfds), fd);
        if i == |old(ipollfds)| then ipollfds == old(ipollfds) && Data() == old(Data())
        else ipollfds == old(ipollfds)[..i] + old(ipollfds)[i + 1..] && Data() == old(Data()).NotifyFd()
    {
      var i := 0;
      while i < |ipollfds| && ipollfds[i].fd != fd
        invariant 0 <= i <= |ipollfds|
        invariant forall j :: 0 <= j < i ==> ipollfds[j].fd != fd
      {
        i := i + 1;
      }
      if i == |ipollfds| {
        return;
      }
      ipollfds := ipollfds[..i] + ipollfds[i + 1..];
      FdNotification();
    }

    /** The start of handle_events: rebuild the poll array when the list has changed. */
    method RefreshPollfds()
      requires Valid()
      modifies this
      ensures Valid()
      ensures !old(pollfdsModified) ==> Data() == old(Data()) && pollfds == old(pollfds)
      ensures old(pollfdsModified) ==>
        !old(Data()).DropModified().ClearBlocks() &&
        Data() == old(Data()).DropModified().ClearIfIdle() && pollfds[..] == ipollfds
      ensures ipollfds == old(ipollfds)
    {
      if pollfdsModified {
        pollfds := new Pollfd[|ipollfds|];
        var i := 0;
        while i < |ipollfds|
          invariant 0 <= i <= |ipollfds| == pollfds.Length
          invariant fresh(pollfds) && ipollfds == old(ipollfds) && Data() == old(Data())
          invariant pollfds[..i] == ipollfds[..i]
          modifies pollfds
        {
          pollfds[i] := ipollfds[i];
          i := i + 1;
        }
        pollfdsModified := false;
        if !PendingEvents() {
          ClearEvent();
        }
      }
    }

    /** The first section of libusb_close. */
    method BeginClose()
      requires Valid()
      modifies this`deviceClose, this`pipeBytes
      ensures Valid() && Data() == old(Data()).BeginClose()
    {
      var pendingEvents := PendingEvents();
      deviceClose := deviceClose + 1;
      if !pendingEvents {
        SignalEvent();
      }
    }

    /** The last section of libusb_close: an open close guarantees a byte to read. */
    method EndClose()
      requires Valid() && deviceClose > 0
      modifies this`deviceClose, this`pipeBytes
      ensures Valid()
      ensures !old(Data()).DropClose().ClearBlocks()
      ensures Data() == old(Data()).DropClose().ClearIfIdle()
    {
      deviceClose := deviceClose - 1;
      if !PendingEvents() {
        ClearEvent();
      }
    }
  }
}
