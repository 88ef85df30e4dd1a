/** The interrupt handler `dcd_isr`, which turns the controller's status
    registers into events for the device stack.

    The stack's callbacks (`dcd_event_bus_signal`, `dcd_event_setup_received`,
    `dcd_event_xfer_complete`) are modelled by the sequence of events the handler
    would pass to them, in call order. `IsrEvents` specifies that sequence from
    the registers and the descriptor table as the handler finds them; the method
    `Isr` follows the handler statement by statement and is proved to produce it.
    The controller's side (finishing a transfer, latching a setup packet,
    signalling a bus reset) is not an operation here: it is the register and
    descriptor state the handler finds, which callers describe. */
module Interrupts {
  import opened Usb
  import opened Registers
  import opened Descriptors
  import Driver

  /** `XFER_RESULT_*`: how a transfer ended. */
  datatype XferResult = Success | Failed | Stalled

  /** One callback made by the handler. `bytes` is the value of
      `expected_bytes - total_bytes`. */
  datatype Event =
    | BusResetSignal
    | SuspendSignal
    | SofSignal
    | SetupReceived(request: SetupPacket)
    | XferComplete(epAddr: U8, bytes: int, result: XferResult)

  /** The result of a finished transfer descriptor: a halted descriptor stalled,
      whatever its error bits; otherwise either error bit means failure. */
  function Classify(q: Qtd): (res: XferResult)
    ensures res == Stalled <==> q.halted
    ensures res == Failed <==> !q.halted && (q.xactErr || q.bufferErr)
    ensures res == Success <==> !q.halted && !q.xactErr && !q.bufferErr
  {
    if q.halted then Stalled
    else if q.xactErr || q.bufferErr then Failed
    else Success
  }

  /** The transfer-complete event for slot `i`, whose descriptor is `q`. */
  function XferEvent(i: nat, q: Qtd): Event
    requires i < QHD_MAX
  {
    XferComplete(SlotAddress(i), q.expectedBytes - q.totalBytes, Classify(q))
  }

  /** `tu_bit_test(c, ep_idx2bit(i))`: slot `i`'s bit is set in the completion snapshot `c`. */
  predicate SlotComplete(c: bv32, i: nat)
    requires i < QHD_MAX
  {
    c & Bit(EpIdx2Bit(i)) != 0
  }

  /** The completion snapshot read slot by slot: entry `i` tells whether slot `i`
      completed. */
  function CompletionMask(c: bv32): (m: seq<bool>)
    ensures |m| == QHD_MAX
  {
    seq(QHD_MAX, i requires 0 <= i < QHD_MAX => SlotComplete(c, i))
  }

  /** Entry `i` of the mask is slot `i`'s bit of the snapshot; with no bit set, no
      slot completed. */
  lemma CompletionMaskBits(c: bv32)
    ensures forall i :: 0 <= i < QHD_MAX ==> (CompletionMask(c)[i] <==> SlotComplete(c, i))
    ensures c == 0 ==> forall i :: 0 <= i < QHD_MAX ==> !CompletionMask(c)[i]
  {
  }

  /** The slots marked completed in `m` (entry `i` for slot `i`), in ascending order. */
  function CompletedSlots(m: seq<bool>): (slots: seq<nat>)
    ensures forall k :: 0 <= k < |slots| ==> slots[k] < |m|
  {
    if m == [] then []
    else CompletedSlots(m[..|m| - 1]) + (if m[|m| - 1] then [|m| - 1] else [])
  }

  /** The transfer-complete events the handler's loop emits for the slots covered
      by mask `m` (entry `i` for slot `i`), reading descriptor `qs[i]` for slot `i`. */
  function Completions(m: seq<bool>, qs: seq<Qtd>): seq<Event>
    requires |m| <= QHD_MAX && |m| <= |qs|
  {
    if m == [] then []
    else Completions(m[..|m| - 1], qs) + (if m[|m| - 1] then [XferEvent(|m| - 1, qs[|m| - 1])] else [])
  }

  /** The completed slots are strictly ascending, and a slot is listed exactly when
      it is marked. */
  lemma {:induction false} CompletedSlotsExact(m: seq<bool>)
    ensures forall j, k :: 0 <= j < k < |CompletedSlots(m)| ==> CompletedSlots(m)[j] < CompletedSlots(m)[k]
    ensures forall i :: 0 <= i < |m| ==> (i in CompletedSlots(m) <==> m[i])
  {
    if m != [] {
      CompletedSlotsExact(m[..|m| - 1]);
    }
  }

  /** The loop emits one event per completed slot, in slot order: event `k`
      reports the `k`-th completed slot with that slot's descriptor. */
  lemma {:induction false} CompletionsPerSlot(m: seq<bool>, qs: seq<Qtd>)
    requires |m| <= QHD_MAX && |m| <= |qs|
    ensures |Completions(m, qs)| == |CompletedSlots(m)|
    ensures forall k :: 0 <= k < |Completions(m, qs)| ==>
      Completions(m, qs)[k] == XferEvent(CompletedSlots(m)[k], qs[CompletedSlots(m)[k]])
  {
    if m != [] {
      CompletionsPerSlot(m[..|m| - 1], qs);
    }
  }

  /** A mask with no slot marked yields no events. */
  lemma {:induction false} NoCompletions(m: seq<bool>, qs: seq<Qtd>)
    requires |m| <= QHD_MAX && |m| <= |qs|
    requires forall i :: 0 <= i < |m| ==> !m[i]
    ensures Completions(m, qs) == []
  {
    if m != [] {
      NoCompletions(m[..|m| - 1], qs);
    }
  }

  /** An empty completion snapshot yields no events. */
  lemma NothingCompleted(qs: seq<Qtd>)
    requires |qs| == QHD_MAX
    ensures Completions(CompletionMask(0), qs) == []
  {
    CompletionMaskBits(0);
    NoCompletions(CompletionMask(0), qs);
  }

  /** The loop reports nothing but transfer completions. */
  lemma {:induction false} CompletionsAreTransfers(m: seq<bool>, qs: seq<Qtd>)
    requires |m| <= QHD_MAX && |m| <= |qs|
    ensures forall e :: e in Completions(m, qs) ==> e.XferComplete?
  {
    if m != [] {
      CompletionsAreTransfers(m[..|m| - 1], qs);
    }
  }

  /** The transfer events of one call: each one reports a completed slot, with
      that slot's address and its descriptor's outcome; the slot's address selects
      the slot again; and they come in strictly ascending slot order. */
  lemma CompletionsReportSlots(m: seq<bool>, qs: seq<Qtd>)
    requires |m| == QHD_MAX && |qs| == QHD_MAX
    ensures forall e :: e in Completions(m, qs) ==>
      e.XferComplete? && EpIdx(e.epAddr) < QHD_MAX && m[EpIdx(e.epAddr)]
      && e == XferEvent(EpIdx(e.epAddr), qs[EpIdx(e.epAddr)])
    ensures forall i :: 0 <= i < QHD_MAX && m[i] ==> XferEvent(i, qs[i]) in Completions(m, qs)
    ensures forall j, k :: 0 <= j < k < |Completions(m, qs)| ==>
      EpIdx(Completions(m, qs)[j].epAddr) < EpIdx(Completions(m, qs)[k].epAddr)
  {
    var es := Completions(m, qs);
    var slots := CompletedSlots(m);
    CompletionsPerSlot(m, qs);
    CompletedSlotsExact(m);
    forall k | 0 <= k < |es|
      ensures es[k].XferComplete? && EpIdx(es[k].epAddr) == slots[k]
    {
      SlotAddressInverse(slots[k]);
    }
    forall i | 0 <= i < QHD_MAX && m[i]
      ensures XferEvent(i, qs[i]) in es
    {
      var k :| 0 <= k < |slots| && slots[k] == i;
      assert es[k] == XferEvent(i, qs[i]);
    }
  }

  /** The enabled pending sources of USBSTS, read bit by bit. */
  datatype Status = Status(pending: bool, reset: bool, suspend: bool, usb: bool, sof: bool)

  /** `USBSTS & USBINTR` decoded: whether any enabled source is pending, and the
      four sources the handler serves. */
  function DecodeStatus(st: bv32): Status
  {
    Status(st != 0, st & INTR_RESET != 0, st & INTR_SUSPEND != 0, st & INTR_USB != 0, st & INTR_SOF != 0)
  }

  /** What the handler reads, decoded: the served sources, the port's suspend bit,
      whether the device has an address (the handler's four-bit test), whether a
      setup packet is latched, the latched packet, the completed slots and the
      descriptors. */
  datatype IsrInput = IsrInput(
    status: Status,
    portSuspended: bool,
    addressed: bool,
    setupLatched: bool,
    setupRequest: SetupPacket,
    completed: seq<bool>,
    qtds: seq<Qtd>)

  /** The input of a handler call that serves the sources `status`, on `r` and
      `d` in their current state. */
  ghost function Capture(d: DcdData, r: Registers, status: Status): (inp: IsrInput)
    requires d.Valid()
    reads r`portsc1, r`deviceaddr, r`endptsetupstat, r`endptcomplete, d.qhd, d.qtd
    ensures inp.status == status
    ensures |inp.completed| == QHD_MAX && |inp.qtds| == QHD_MAX
  {
    IsrInput(status, r.portsc1 & PORTSC1_SUSPEND != 0, Addressed(r.deviceaddr),
             r.endptsetupstat != 0, d.qhd[0].setupRequest, CompletionMask(r.endptcomplete), d.qtd[..])
  }

  /** The enabled pending sources, `USBSTS & USBINTR`, decoded. */
  function Pending(r: Registers): Status
    reads r`usbsts, r`usbintr
  {
    DecodeStatus(r.usbsts & r.usbintr)
  }

  /** `[e]` if `b`, else nothing. */
  function Signal(b: bool, e: Event): seq<Event>
  {
    if b then [e] else []
  }

  /** The events of the USB interrupt when no bus reset precedes it in the same
      call: a setup packet if one is latched, then the completed slots. */
  function UsbEvents(inp: IsrInput): seq<Event>
    requires |inp.completed| == QHD_MAX && |inp.qtds| == QHD_MAX
  {
    Signal(inp.setupLatched, SetupReceived(inp.setupRequest)) + Completions(inp.completed, inp.qtds)
  }

  /** The whole event sequence of one handler call. Nothing when no enabled source
      is pending. Otherwise: a bus reset; a suspend, when the port is suspended
      and the device has an address; the setup and transfer events of the USB
      interrupt, of which a bus reset in the same call leaves none (it clears the
      setup and completion status before they are read); then a start of frame. */
  function IsrEvents(inp: IsrInput): seq<Event>
    requires |inp.completed| == QHD_MAX && |inp.qtds| == QHD_MAX
  {
    var f := inp.status;
    if !f.pending then []
    else
      Signal(f.reset, BusResetSignal)
      + Signal(f.suspend && inp.portSuspended && inp.addressed, SuspendSignal)
      + (if f.usb && !f.reset then UsbEvents(inp) else [])
      + Signal(f.sof, SofSignal)
  }

  /** Position of an event kind in the handler's fixed order. */
  function Rank(e: Event): nat
  {
    match e
    case BusResetSignal => 0
    case SuspendSignal => 1
    case SetupReceived(_) => 2
    case XferComplete(_, _, _) => 3
    case SofSignal => 4
  }

  /** `es` lists event kinds in the handler's order, transfer events by strictly
      ascending slot, every other kind at most once. */
  predicate InHandlerOrder(es: seq<Event>)
  {
    forall j, k :: 0 <= j < k < |es| ==>
      if es[j].XferComplete? && es[k].XferComplete? then EpIdx(es[j].epAddr) < EpIdx(es[k].epAddr)
      else Rank(es[j]) < Rank(es[k])
  }

  /** Two ordered runs whose kinds do not interleave make an ordered run. */
  lemma OrderAppend(a: seq<Event>, b: seq<Event>, bound: nat)
    requires InHandlerOrder(a) && InHandlerOrder(b)
    requires forall x :: x in a ==> Rank(x) < bound
    requires forall y :: y in b ==> bound <= Rank(y)
    ensures InHandlerOrder(a + b)
  {
    forall j, k | 0 <= j < k < |a + b|
      ensures if (a + b)[j].XferComplete? && (a + b)[k].XferComplete?
        then EpIdx((a + b)[j].epAddr) < EpIdx((a + b)[k].epAddr)
        else Rank((a + b)[j]) < Rank((a + b)[k])
    {
      if k < |a| {
        assert (a + b)[j] == a[j] && (a + b)[k] == a[k];
      } else if j >= |a| {
        assert (a + b)[j] == b[j - |a|] && (a + b)[k] == b[k - |a|];
      } else {
        assert (a + b)[j] == a[j] && (a + b)[k] == b[k - |a|];
        assert a[j] in a && b[k - |a|] in b;
      }
    }
  }

  /** The signals that precede the USB interrupt's events: a bus reset, then a suspend. */
  lemma EarlySignalsOrdered(reset: bool, suspend: bool)
    ensures InHandlerOrder(Signal(reset, BusResetSignal) + Signal(suspend, SuspendSignal))
    ensures forall x :: x in Signal(reset, BusResetSignal) + Signal(suspend, SuspendSignal) ==> Rank(x) < 2
  {
  }

  /** The USB interrupt's events: a setup, then transfers by ascending slot. */
  lemma UsbEventsOrdered(inp: IsrInput)
    requires |inp.completed| == QHD_MAX && |inp.qtds| == QHD_MAX
    ensures InHandlerOrder(UsbEvents(inp))
    ensures forall x :: x in UsbEvents(inp) ==> 2 <= Rank(x) < 4
  {
    var setup := Signal(inp.setupLatched, SetupReceived(inp.setupRequest));
    var xfers := Completions(inp.completed, inp.qtds);
    CompletionsReportSlots(inp.completed, inp.qtds);
    assert forall x :: x in xfers ==> Rank(x) == 3;
    OrderAppend(setup, xfers, 3);
  }

  /** The handler's events come in the fixed order bus reset, suspend, setup,
      transfers by strictly ascending slot, start of frame; no kind repeats and no
      slot is reported twice. */
  lemma IsrEventsOrdered(inp: IsrInput)
    requires |inp.completed| == QHD_MAX && |inp.qtds| == QHD_MAX
    ensures InHandlerOrder(IsrEvents(inp))
  {
    var f := inp.status;
    if f.pending {
      var suspend := f.suspend && inp.portSuspended && inp.addressed;
      var early := Signal(f.reset, BusResetSignal) + Signal(suspend, SuspendSignal);
      var usb := if f.usb && !f.reset then UsbEvents(inp) else [];
      var sof := Signal(f.sof, SofSignal);
      assert IsrEvents(inp) == early + usb + sof;
      EarlySignalsOrdered(f.reset, suspend);
      UsbEventsOrdered(inp);
      OrderAppend(early, usb, 2);
      forall x | x in early + usb
        ensures Rank(x) < 4
      {
        assert x in early || x in usb;
      }
      OrderAppend(early + usb, sof, 4);
    }
  }

  /** The handler reports slot `i`'s transfer exactly when an enabled USB
      interrupt is pending without a bus reset and slot `i` completed; every
      transfer report is of that kind, for a completed slot, with that slot's
      address and its descriptor's bytes and outcome. */
  lemma XferReportedIff(inp: IsrInput, i: nat)
    requires |inp.completed| == QHD_MAX && |inp.qtds| == QHD_MAX && i < QHD_MAX
    ensures XferEvent(i, inp.qtds[i]) in IsrEvents(inp)
      <==> inp.status.pending && inp.status.usb && !inp.status.reset && inp.completed[i]
    ensures forall e :: e in IsrEvents(inp) && e.XferComplete? ==>
      inp.status.usb && !inp.status.reset && EpIdx(e.epAddr) < QHD_MAX && inp.completed[EpIdx(e.epAddr)]
      && e == XferEvent(EpIdx(e.epAddr), inp.qtds[EpIdx(e.epAddr)])
  {
    var xfers := Completions(inp.completed, inp.qtds);
    CompletionsReportSlots(inp.completed, inp.qtds);
    var e := XferEvent(i, inp.qtds[i]);
    if e in IsrEvents(inp) {
      assert e in xfers;
      SlotAddressInverse(i);
    }
  }

  /** End to end: a transfer submitted by `dcd_edpt_xfer` on `epAddr`, which the
      controller then retires (clearing `active`, counting its byte counter down to
      `remaining`, possibly halting or flagging a transaction error), is reported
      with the address it was submitted on, the bytes moved and its outcome, once
      its slot's completion bit is served without a bus reset. */
  lemma SubmittedTransferReported(inp: IsrInput, epAddr: U8, dataPtr: U32, totalBytes: U16,
                                  remaining: U15, halted: bool, xactErr: bool)
    requires |inp.completed| == QHD_MAX && |inp.qtds| == QHD_MAX
    requires EpIdx(epAddr) < QHD_MAX
    requires inp.qtds[EpIdx(epAddr)] == Driver.SubmittedQtd(dataPtr, totalBytes).(
      totalBytes := remaining, active := false, halted := halted, xactErr := xactErr)
    requires inp.status.pending && inp.status.usb && !inp.status.reset && inp.completed[EpIdx(epAddr)]
    ensures XferComplete(epAddr, totalBytes - remaining,
      if halted then Stalled else if xactErr then Failed else Success) in IsrEvents(inp)
  {
    var i := EpIdx(epAddr);
    var q := inp.qtds[i];
    assert q.expectedBytes == totalBytes && q.totalBytes == remaining;
    assert Classify(q) == if halted then Stalled else if xactErr then Failed else Success;
    AddressSlotInverse(epAddr);
    assert XferEvent(i, q) == XferComplete(epAddr, totalBytes - remaining, Classify(q));
    XferReportedIff(inp, i);
  }

  /** The enabled sources the handler does not serve: a status word whose only set
      bits are PORT_CHANGE, ERROR or NAK passes the early return when it is not
      zero, yet the call reports nothing. */
  lemma UnservedSourcesReportNothing(st: bv32, inp: IsrInput)
    requires st & !(INTR_PORT_CHANGE | INTR_ERROR | INTR_NAK) == 0
    requires inp.status == DecodeStatus(st)
    requires |inp.completed| == QHD_MAX && |inp.qtds| == QHD_MAX
    ensures inp.status.pending <==> st != 0
    ensures IsrEvents(inp) == []
  {
    var f := inp.status;
    assert !f.reset && !f.suspend && !f.usb && !f.sof;
  }

  /** A bus reset in the same call suppresses every setup and transfer report. */
  lemma ResetSuppressesTransfers(inp: IsrInput)
    requires |inp.completed| == QHD_MAX && |inp.qtds| == QHD_MAX
    requires inp.status.pending && inp.status.reset
    ensures IsrEvents(inp) == [BusResetSignal]
      + Signal(inp.status.suspend && inp.portSuspended && inp.addressed, SuspendSignal)
      + Signal(inp.status.sof, SofSignal)
    ensures forall e :: e in IsrEvents(inp) ==> !e.SetupReceived? && !e.XferComplete?
  {
  }

  /** The bus-reset, suspend and start-of-frame reports each appear exactly under
      their conditions. */
  lemma SignalsReportedIff(inp: IsrInput)
    requires |inp.completed| == QHD_MAX && |inp.qtds| == QHD_MAX
    ensures BusResetSignal in IsrEvents(inp) <==> inp.status.pending && inp.status.reset
    ensures SofSignal in IsrEvents(inp) <==> inp.status.pending && inp.status.sof
    ensures SuspendSignal in IsrEvents(inp) <==>
      inp.status.pending && inp.status.suspend && inp.portSuspended && inp.addressed
  {
    CompletionsAreTransfers(inp.completed, inp.qtds);
  }

  /** A setup report appears exactly when an enabled USB interrupt is served
      without a bus reset and a setup packet is latched, and it carries the
      latched packet. */
  lemma SetupReportedIff(inp: IsrInput)
    requires |inp.completed| == QHD_MAX && |inp.qtds| == QHD_MAX
    ensures (exists e :: e in IsrEvents(inp) && e.SetupReceived?) <==>
      inp.status.pending && inp.status.usb && !inp.status.reset && inp.setupLatched
    ensures forall e :: e in IsrEvents(inp) && e.SetupReceived? ==> e.request == inp.setupRequest
  {
    var f := inp.status;
    var es := IsrEvents(inp);
    CompletionsAreTransfers(inp.completed, inp.qtds);
    forall e | e in es && e.SetupReceived?
      ensures f.pending && f.usb && !f.reset && inp.setupLatched && e.request == inp.setupRequest
    {
      assert e in UsbEvents(inp);
    }
    if f.pending && f.usb && !f.reset && inp.setupLatched {
      assert SetupReceived(inp.setupRequest) in es;
    }
  }

  /** An address that is a multiple of 16 is never reported suspended, because the
      handler's test sees only four address bits. */
  lemma SuspendMissedAtAddressSixteen(inp: IsrInput)
    requires |inp.completed| == QHD_MAX && |inp.qtds| == QHD_MAX
    requires inp.addressed == Addressed(DeviceAddrWord(16))
    ensures SuspendSignal !in IsrEvents(inp)
  {
    AddressSixteenLooksUnaddressed();
    SignalsReportedIff(inp);
  }

  /** `IsrEvents` assembled from the reports of the handler's four branches, each
      given by its own condition. */
  lemma IsrEventsParts(inp: IsrInput, a: seq<Event>, b: seq<Event>, c: seq<Event>, e: seq<Event>)
    requires |inp.completed| == QHD_MAX && |inp.qtds| == QHD_MAX
    requires inp.status.pending
    requires a == Signal(inp.status.reset, BusResetSignal)
    requires b == Signal(inp.status.suspend && inp.portSuspended && inp.addressed, SuspendSignal)
    requires c == (if inp.status.usb && !inp.status.reset then UsbEvents(inp) else [])
    requires e == a + b + c + Signal(inp.status.sof, SofSignal)
    ensures e == IsrEvents(inp)
  {
  }

  /** The loop of `dcd_isr` over the twelve slots: for every slot whose bit is set
      in the completion snapshot, classify its descriptor and report the slot's
      address, the bytes done and the result, in ascending slot order. The
      reports are returned in the order the handler makes them. */
  method ScanCompletions(d: DcdData, edptComplete: bv32) returns (reported: seq<Event>)
    requires d.Valid()
    ensures reported == Completions(CompletionMask(edptComplete), d.qtd[..])
  {
    ghost var mask := CompletionMask(edptComplete);
    CompletionMaskBits(edptComplete);
    reported := [];
    var epIdx := 0;
    while epIdx < QHD_MAX
      invariant 0 <= epIdx <= QHD_MAX
      invariant reported == Completions(mask[..epIdx], d.qtd[..])
    {
      assert mask[..epIdx + 1][..epIdx] == mask[..epIdx];
      assert Completions(mask[..epIdx + 1], d.qtd[..]) == Completions(mask[..epIdx], d.qtd[..])
        + (if mask[epIdx] then [XferEvent(epIdx, d.qtd[epIdx])] else []);
      if SlotComplete(edptComplete, epIdx) {
        var q := d.qtd[epIdx];
        var result := Classify(q);
        var epAddr := SlotAddress(epIdx);
        reported := reported + [XferComplete(epAddr, q.expectedBytes - q.totalBytes, result)];
      }
      epIdx := epIdx + 1;
    }
    assert mask[..QHD_MAX] == mask;
  }

  /** The bus-reset branch of `dcd_isr`: when the reset source is served, run
      `bus_reset` and report it. The reset clears the setup and completion status,
      so the input left for the rest of the handler has no setup latched and no
      slot completed; without a reset nothing changes. */
  method ServiceReset(d: DcdData, r: Registers, rhport: nat, f: Status) returns (reported: seq<Event>)
    requires d.Valid() && r.Valid() && rhport < 2
    requires f.reset ==> r.endptprime == 0
    modifies r`endptnak, r`endptnaken, r`usbsts, r`endptsetupstat, r`endptcomplete, r`endptflush
    modifies r.endptctrl, d.qhd, d.qtd
    ensures reported == Signal(f.reset, BusResetSignal)
    ensures f.reset ==>
      && r.usbsts == 0 && r.endptnak == 0 && r.endptnaken == 0 && r.endptflush == 0
      && r.endptsetupstat == 0 && r.endptcomplete == 0
      && Driver.BusResetDone(d, r, rhport, old(r.endptctrl[..]))
    ensures f.reset ==> UsbEvents(Capture(d, r, f)) == []
    ensures Capture(d, r, f).portSuspended == old(Capture(d, r, f)).portSuspended
    ensures Capture(d, r, f).addressed == old(Capture(d, r, f)).addressed
    ensures !f.reset ==>
      && r.usbsts == old(r.usbsts) && r.endptnak == old(r.endptnak)
      && r.endptnaken == old(r.endptnaken) && r.endptflush == old(r.endptflush)
      && r.endptsetupstat == old(r.endptsetupstat) && r.endptcomplete == old(r.endptcomplete)
      && unchanged(d.qhd, d.qtd, r.endptctrl)
    ensures !f.reset ==> Capture(d, r, f) == old(Capture(d, r, f))
  {
    reported := [];
    if f.reset {
      Driver.BusReset(d, r, rhport);
      reported := [BusResetSignal];
      NothingCompleted(d.qtd[..]);
    }
  }

  /** The suspend branch of `dcd_isr`: a suspend is reported only when the port
      is suspended and the device has an address. Nothing changes. */
  method ServiceSuspend(d: DcdData, r: Registers, f: Status) returns (reported: seq<Event>)
    requires d.Valid()
    ensures reported == Signal(f.suspend && Capture(d, r, f).portSuspended && Capture(d, r, f).addressed, SuspendSignal)
  {
    reported := [];
    if f.suspend {
      if r.portsc1 & PORTSC1_SUSPEND != 0 {
        if Addressed(r.deviceaddr) {
          reported := [SuspendSignal];
        }
      }
    }
  }

  /** The USB-interrupt branch of `dcd_isr`: acknowledge the completion snapshot
      it reads, acknowledge and report a latched setup packet, then report the
      completed slots. Without the source nothing happens. */
  method ServiceUsb(d: DcdData, r: Registers, f: Status) returns (reported: seq<Event>)
    requires d.Valid()
    modifies r`endptcomplete, r`endptsetupstat
    ensures reported == if f.usb then UsbEvents(old(Capture(d, r, f))) else []
    ensures f.usb ==> r.endptcomplete == 0 && r.endptsetupstat == 0
    ensures !f.usb ==> r.endptcomplete == old(r.endptcomplete) && r.endptsetupstat == old(r.endptsetupstat)
  {
    reported := [];
    if f.usb {
      var edptComplete := AckCompletions(r);
      var setup := ServiceSetup(d, r);
      var xfers: seq<Event> := [];
      if edptComplete != 0 {
        xfers := ScanCompletions(d, edptComplete);
      } else {
        NothingCompleted(d.qtd[..]);
      }
      reported := setup + xfers;
    }
  }

  /** Read the completion status and write it back, which clears it. */
  method AckCompletions(r: Registers) returns (edptComplete: bv32)
    modifies r`endptcomplete
    ensures edptComplete == old(r.endptcomplete) && r.endptcomplete == 0
  {
    edptComplete := r.endptcomplete;
    r.endptcomplete := Ack(r.endptcomplete, edptComplete);
  }

  /** A latched setup packet: acknowledge ENDPTSETUPSTAT and report the packet
      stored in queue head 0. */
  method ServiceSetup(d: DcdData, r: Registers) returns (reported: seq<Event>)
    requires d.Valid()
    modifies r`endptsetupstat
    ensures reported == Signal(old(r.endptsetupstat) != 0, SetupReceived(d.qhd[0].setupRequest))
    ensures r.endptsetupstat == 0
  {
    reported := [];
    if r.endptsetupstat != 0 {
      r.endptsetupstat := Ack(r.endptsetupstat, r.endptsetupstat);
      reported := [SetupReceived(d.qhd[0].setupRequest)];
    }
  }

  /** The first step of `dcd_isr`: read the enabled pending sources and write
      them back to USBSTS, which clears exactly those. */
  method AckStatus(r: Registers) returns (f: Status)
    modifies r`usbsts
    ensures f == old(Pending(r))
    ensures r.usbsts == Ack(old(r.usbsts), old(r.usbsts & r.usbintr))
  {
    var intEnable := r.usbintr;
    var intStatus := r.usbsts & intEnable;
    r.usbsts := Ack(r.usbsts, intStatus);
    f := DecodeStatus(intStatus);
  }

  /** The sources served by one call of `dcd_isr`, once USBSTS is acknowledged:
      bus reset, suspend, the USB interrupt, start of frame, in that order. */
  method Dispatch(d: DcdData, r: Registers, rhport: nat, f: Status) returns (events: seq<Event>)
    requires d.Valid() && r.Valid() && rhport < 2
    requires f.pending
    requires f.reset ==> r.endptprime == 0
    modifies r`endptnak, r`endptnaken, r`usbsts, r`endptsetupstat, r`endptcomplete, r`endptflush
    modifies r.endptctrl, d.qhd, d.qtd
    ensures events == IsrEvents(old(Capture(d, r, f)))
    ensures f.reset ==>
      && r.usbsts == 0 && r.endptnak == 0 && r.endptnaken == 0 && r.endptflush == 0
      && r.endptsetupstat == 0 && r.endptcomplete == 0
      && Driver.BusResetDone(d, r, rhport, old(r.endptctrl[..]))
    ensures !f.reset ==>
      && r.usbsts == old(r.usbsts) && r.endptnak == old(r.endptnak)
      && r.endptnaken == old(r.endptnaken) && r.endptflush == old(r.endptflush)
      && unchanged(d.qhd, d.qtd, r.endptctrl)
    ensures f.usb ==> r.endptcomplete == 0 && r.endptsetupstat == 0
    ensures !f.usb && !f.reset ==>
      r.endptcomplete == old(r.endptcomplete) && r.endptsetupstat == old(r.endptsetupstat)
  {
    ghost var inp := Capture(d, r, f);
    var reset := ServiceReset(d, r, rhport, f);
    var suspend := ServiceSuspend(d, r, f);
    var usb := ServiceUsb(d, r, f);
    var sof := if f.sof then [SofSignal] else [];
    events := reset + suspend + usb + sof;
    IsrEventsParts(inp, reset, suspend, usb, events);
  }

  /** `dcd_isr`. Acknowledges exactly the enabled pending sources in USBSTS; a
      bus reset runs `bus_reset`; the USB interrupt acknowledges the completions
      it reads and any latched setup. The events are those of `IsrEvents` on the
      state found at entry. While the controller holds ENDPTPRIME non-zero the
      reset path's spin-wait would not finish, so a pending reset requires it clear. */
  method Isr(d: DcdData, r: Registers, rhport: nat) returns (events: seq<Event>)
    requires d.Valid() && r.Valid() && rhport < 2
    requires Pending(r).reset ==> r.endptprime == 0
    modifies r`endptnak, r`endptnaken, r`usbsts, r`endptsetupstat, r`endptcomplete, r`endptflush
    modifies r.endptctrl, d.qhd, d.qtd
    ensures events == IsrEvents(old(Capture(d, r, Pending(r))))
    ensures !old(Pending(r)).reset ==>
      && r.usbsts == Ack(old(r.usbsts), old(r.usbsts & r.usbintr))
      && r.endptnak == old(r.endptnak) && r.endptnaken == old(r.endptnaken)
      && r.endptflush == old(r.endptflush)
      && unchanged(d.qhd, d.qtd, r.endptctrl)
    ensures old(Pending(r)).reset ==>
      && r.usbsts == 0 && r.endptnak == 0 && r.endptnaken == 0 && r.endptflush == 0
      && r.endptsetupstat == 0 && r.endptcomplete == 0
      && Driver.BusResetDone(d, r, rhport, old(r.endptctrl[..]))
    ensures old(Pending(r)).usb ==> r.endptcomplete == 0 && r.endptsetupstat == 0
    ensures !old(Pending(r)).usb && !old(Pending(r)).reset ==>
      r.endptcomplete == old(r.endptcomplete) && r.endptsetupstat == old(r.endptsetupstat)
  {
    var f := AckStatus(r);
    if !f.pending {
      return [];
    }
    events := Dispatch(d, r, rhport, f);
  }
}
