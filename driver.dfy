/** The controller API of the driver: initialisation, bus reset, endpoint open,
    stall and clear-stall, transfer submission and setting the device address.

    Each operation works on the shared descriptor table `d` (`_dcd_data`) and on
    the register block `r` of its port (`DCD_REGS[rhport]`); `rhport` itself is
    passed only where it changes behaviour (the endpoint limits). The driver's
    spin-waits on bits the controller clears become either preconditions (the
    caller must not call until the bit is clear) or a write of the value the
    controller leaves behind. */
module Driver {
  import opened Usb
  import opened Registers
  import opened Descriptors

  /** The fields of an endpoint descriptor that `dcd_edpt_open` reads:
      bEndpointAddress, the transfer type of bmAttributes, wMaxPacketSize. */
  datatype EndpointDescriptor = EndpointDescriptor(address: U8, xfer: XferType, maxPacketSize: U11)

  /** Highest endpoint number `dcd_edpt_open` accepts: 5 on port 0, 3 on port 1. */
  function OpenLimit(rhport: nat): nat
  {
    if rhport != 0 then 3 else 5
  }

  /** Exclusive bound of `bus_reset`'s loop over ENDPTCTRL, as written: 4 on port 0,
      6 on port 1. */
  function ResetLoopBound(rhport: nat): nat
  {
    if rhport != 0 then 6 else 4
  }

  /** Endpoint number `n` is one that `dcd_edpt_open` accepts on `rhport`. */
  predicate OpenAccepts(rhport: nat, n: nat)
  {
    n <= OpenLimit(rhport)
  }

  /** Endpoint number `n` has its control word rewritten by `bus_reset` on `rhport`. */
  predicate ResetRetypes(rhport: nat, n: nat)
  {
    1 <= n < ResetLoopBound(rhport)
  }

  /** The two bounds disagree. On port 0, endpoints 4 and 5 are accepted by open
      but keep their control words across a bus reset; on port 1, every
      non-control endpoint open accepts is re-typed, and so are endpoints 4 and 5,
      which open rejects. */
  lemma ResetBoundAgainstOpenLimit()
    ensures OpenAccepts(0, 4) && !ResetRetypes(0, 4)
    ensures OpenAccepts(0, 5) && !ResetRetypes(0, 5)
    ensures forall n :: 1 <= n && OpenAccepts(1, n) ==> ResetRetypes(1, n)
    ensures ResetRetypes(1, 4) && !OpenAccepts(1, 4)
    ensures ResetRetypes(1, 5) && !OpenAccepts(1, 5)
  {
  }

  /** The transfer descriptor `dcd_edpt_xfer` builds: a fresh one that interrupts on completion. */
  function SubmittedQtd(dataPtr: U32, totalBytes: U16): Qtd
  {
    FreshQtd(dataPtr, totalBytes).(intOnComplete := true)
  }

  /** A queue head whose overlay links to the transfer descriptor at `qtdAddress`. */
  function LinkedQhd(q: Qhd, qtdAddress: U32): Qhd
  {
    q.(qtdOverlay := q.qtdOverlay.(next := qtdAddress))
  }

  /** A submitted descriptor is ready for the controller: active, linked nowhere
      further, interrupting on completion, with no status bit set; the queue head
      links to an address with the terminate bit clear when the table is 32-byte
      aligned, and everything else in the queue head is kept. */
  lemma SubmittedIsReady(dataPtr: U32, totalBytes: U16, q: Qhd, base: U32, i: nat)
    requires base % 32 == 0 && i < QHD_MAX
    ensures SubmittedQtd(dataPtr, totalBytes).active && SubmittedQtd(dataPtr, totalBytes).intOnComplete
    ensures !SubmittedQtd(dataPtr, totalBytes).halted
    ensures SubmittedQtd(dataPtr, totalBytes).expectedBytes == totalBytes
    ensures SubmittedQtd(dataPtr, totalBytes).buffer == Pages(dataPtr)
    ensures Add32(base, QTD_TABLE_OFFSET + 32 * i) % 32 == 0
    ensures LinkedQhd(q, Add32(base, QTD_TABLE_OFFSET + 32 * i)).qtdOverlay.next != QTD_NEXT_INVALID
    ensures LinkedQhd(q, Add32(base, QTD_TABLE_OFFSET + 32 * i)).(qtdOverlay := q.qtdOverlay) == q
  {
  }

  /** The table and control words as `bus_reset` leaves them, given the control
      words `ctrl` it found: endpoints 1 up to the loop bound re-typed bulk and
      disabled, the others untouched; every queue head as `ResetQhd` gives it and
      every transfer descriptor cleared. */
  ghost predicate BusResetDone(d: DcdData, r: Registers, rhport: nat, ctrl: seq<bv32>)
    requires d.Valid() && r.Valid()
    reads r.endptctrl, d.qhd, d.qtd
  {
    && |ctrl| == 8
    && (forall n :: 0 <= n < 8 ==>
         r.endptctrl[n] == if 1 <= n < ResetLoopBound(rhport) then BUS_RESET_CTRL else ctrl[n])
    && (forall i :: 0 <= i < QHD_MAX ==> d.qhd[i] == ResetQhd(i) && d.qtd[i] == ZERO_QTD)
  }

  /** The first step of `bus_reset`: endpoints 1 up to the loop bound get the
      word that types both directions bulk and leaves them disabled. */
  method RetypeEndpoints(r: Registers, rhport: nat)
    requires r.Valid() && rhport < 2
    modifies r.endptctrl
    ensures forall n :: 0 <= n < 8 ==>
      r.endptctrl[n] == if 1 <= n < ResetLoopBound(rhport) then BUS_RESET_CTRL else old(r.endptctrl[n])
  {
    for n := 1 to ResetLoopBound(rhport)
      invariant forall m :: 0 <= m < 8 ==>
        r.endptctrl[m] == if 1 <= m < n then BUS_RESET_CTRL else old(r.endptctrl[m])
    {
      r.endptctrl[n] := (XFER_BULK << 2) | (XFER_BULK << 18);
    }
  }

  /** The status step of `bus_reset`: acknowledge every pending NAK, status,
      setup and completion bit by writing each register's own value back, disable
      NAK interrupts, and flush every endpoint (the controller clears ENDPTFLUSH
      once all are flushed). */
  method ClearStatus(r: Registers)
    modifies r`endptnak, r`endptnaken, r`usbsts, r`endptsetupstat, r`endptcomplete, r`endptflush
    ensures r.endptnak == 0 && r.endptnaken == 0 && r.usbsts == 0
    ensures r.endptsetupstat == 0 && r.endptcomplete == 0 && r.endptflush == 0
  {
    r.endptnak := Ack(r.endptnak, r.endptnak);
    r.endptnaken := 0;
    r.usbsts := Ack(r.usbsts, r.usbsts);
    r.endptsetupstat := Ack(r.endptsetupstat, r.endptsetupstat);
    r.endptcomplete := Ack(r.endptcomplete, r.endptcomplete);

    r.endptflush := 0xFFFF_FFFF;
    r.endptflush := 0;
  }

  /** The table step of `bus_reset`: clear every queue head and transfer
      descriptor, then configure the two control queue heads field by field. */
  method ResetTable(d: DcdData)
    requires d.Valid()
    modifies d.qhd, d.qtd
    ensures forall i :: 0 <= i < QHD_MAX ==> d.qhd[i] == ResetQhd(i) && d.qtd[i] == ZERO_QTD
  {
    forall i | 0 <= i < QHD_MAX {
      d.qhd[i] := ZERO_QHD;
    }
    forall i | 0 <= i < QHD_MAX {
      d.qtd[i] := ZERO_QTD;
    }

    d.qhd[0] := d.qhd[0].(zeroLengthTermination := true);
    d.qhd[1] := d.qhd[1].(zeroLengthTermination := true);
    d.qhd[0] := d.qhd[0].(maxPacketSize := ENDPOINT0_SIZE);
    d.qhd[1] := d.qhd[1].(maxPacketSize := ENDPOINT0_SIZE);
    d.qhd[0] := d.qhd[0].(qtdOverlay := d.qhd[0].qtdOverlay.(next := QTD_NEXT_INVALID));
    d.qhd[1] := d.qhd[1].(qtdOverlay := d.qhd[1].qtdOverlay.(next := QTD_NEXT_INVALID));
    d.qhd[0] := d.qhd[0].(intOnSetup := true);
  }

  /** `bus_reset`: retype the non-control endpoints as bulk, acknowledge every
      pending status, flush all endpoints, clear the table and set up the two
      control queue heads. */
  method BusReset(d: DcdData, r: Registers, rhport: nat)
    requires d.Valid() && r.Valid() && rhport < 2
    requires r.endptprime == 0  // the spin-wait on ENDPTPRIME
    modifies r`endptnak, r`endptnaken, r`usbsts, r`endptsetupstat, r`endptcomplete, r`endptflush
    modifies r.endptctrl, d.qhd, d.qtd
    ensures r.endptnak == 0 && r.endptnaken == 0 && r.usbsts == 0
    ensures r.endptsetupstat == 0 && r.endptcomplete == 0 && r.endptflush == 0
    ensures BusResetDone(d, r, rhport, old(r.endptctrl[..]))
  {
    RetypeEndpoints(r, rhport);
    ClearStatus(r);
    ResetTable(d);
  }

  /** `dcd_init`: clear the table, reset the controller, select device mode,
      program the table address, acknowledge status, enable the interrupt
      sources and set run. */
  method DcdInit(d: DcdData, r: Registers)
    requires d.Valid() && r.Valid()
    modifies d.qhd, d.qtd, r`usbcmd, r`usbmode, r`otgsc, r`endptlistaddr, r`usbsts, r`usbintr
    ensures forall i :: 0 <= i < QHD_MAX ==> d.qhd[i] == ZERO_QHD && d.qtd[i] == ZERO_QTD
    ensures r.usbmode == USBMODE_CM_DEVICE
    ensures r.otgsc == OTGSC_VBUS_DISCHARGE | OTGSC_OTG_TERMINATION
    ensures r.endptlistaddr == d.base as bv32
    ensures r.usbsts == 0 && r.usbintr == USBINTR_ENABLED
    ensures r.usbcmd == (old(r.usbcmd) & !USBCMD_RESET & !USBCMD_ITC) | USBCMD_RUN_STOP
  {
    forall i | 0 <= i < QHD_MAX {
      d.qhd[i] := ZERO_QHD;
    }
    forall i | 0 <= i < QHD_MAX {
      d.qtd[i] := ZERO_QTD;
    }

    r.usbcmd := r.usbcmd | USBCMD_RESET;
    // The controller completes its reset and clears the bit the driver spins on.
    r.usbcmd := r.usbcmd & !USBCMD_RESET;

    r.usbmode := USBMODE_CM_DEVICE;
    r.otgsc := OTGSC_VBUS_DISCHARGE | OTGSC_OTG_TERMINATION;
    r.endptlistaddr := d.base as bv32;
    r.usbsts := Ack(r.usbsts, r.usbsts);
    r.usbintr := INTR_USB | INTR_ERROR | INTR_PORT_CHANGE | INTR_RESET | INTR_SUSPEND | INTR_SOF;

    r.usbcmd := r.usbcmd & !USBCMD_ITC;
    r.usbcmd := r.usbcmd | USBCMD_RUN_STOP;
  }

  /** `dcd_edpt_open`: reject isochronous endpoints and endpoint numbers beyond the
      port's limit without touching anything; otherwise reconfigure the slot's
      queue head and enable the direction in the endpoint's control word. */
  method EdptOpen(d: DcdData, r: Registers, rhport: nat, desc: EndpointDescriptor) returns (ok: bool)
    requires d.Valid() && r.Valid() && rhport < 2
    modifies d.qhd, r.endptctrl
    ensures ok <==> desc.xfer != XFER_ISOCHRONOUS && EpNumber(desc.address) <= OpenLimit(rhport)
    ensures !ok ==> d.qhd[..] == old(d.qhd[..]) && r.endptctrl[..] == old(r.endptctrl[..])
    ensures ok ==> EpIdx(desc.address) < QHD_MAX
    ensures ok ==> d.qhd[..] == old(d.qhd[..])[EpIdx(desc.address) := OpenedQhd(desc.maxPacketSize)]
    ensures ok ==> r.endptctrl[..] == old(r.endptctrl[..])[EpNumber(desc.address) :=
      OpenWord(old(r.endptctrl[EpNumber(desc.address)]), desc.xfer, EpDir(desc.address))]
  {
    if desc.xfer == XFER_ISOCHRONOUS {
      return false;
    }

    var epnum := EpNumber(desc.address);
    var dir := EpDir(desc.address);
    var epIdx := 2 * epnum + dir;

    if !(epnum <= OpenLimit(rhport)) {
      return false;
    }

    d.qhd[epIdx] := ZERO_QHD;
    d.qhd[epIdx] := d.qhd[epIdx].(zeroLengthTermination := true);
    d.qhd[epIdx] := d.qhd[epIdx].(maxPacketSize := desc.maxPacketSize);
    d.qhd[epIdx] := d.qhd[epIdx].(qtdOverlay := d.qhd[epIdx].qtdOverlay.(next := QTD_NEXT_INVALID));

    r.endptctrl[epnum] := OpenWord(r.endptctrl[epnum], desc.xfer, dir);

    return true;
  }

  /** `dcd_edpt_stall`: set the stall bit of the endpoint's direction. */
  method EdptStall(r: Registers, epAddr: U8)
    requires r.Valid() && EpNumber(epAddr) < 8
    modifies r.endptctrl
    ensures r.endptctrl[..] == old(r.endptctrl[..])[EpNumber(epAddr) :=
      StallWord(old(r.endptctrl[EpNumber(epAddr)]), EpDir(epAddr))]
  {
    var epnum := EpNumber(epAddr);
    var dir := EpDir(epAddr);
    r.endptctrl[epnum] := StallWord(r.endptctrl[epnum], dir);
  }

  /** `dcd_edpt_clear_stall`: reset the data toggle, then clear the stall bit, in
      the endpoint's direction. */
  method EdptClearStall(r: Registers, epAddr: U8)
    requires r.Valid() && EpNumber(epAddr) < 8
    modifies r.endptctrl
    ensures r.endptctrl[..] == old(r.endptctrl[..])[EpNumber(epAddr) :=
      ClearStallWord(old(r.endptctrl[EpNumber(epAddr)]), EpDir(epAddr))]
  {
    var epnum := EpNumber(epAddr);
    var dir := EpDir(epAddr);
    r.endptctrl[epnum] := ClearStallWord(r.endptctrl[epnum], dir);
  }

  /** `dcd_edpt_xfer`: build the slot's transfer descriptor, link it into the
      slot's queue head and prime the slot. Only that slot's descriptor, that
      queue head's overlay link and ENDPTPRIME change. For endpoint 0 the driver
      first spins until no setup packet is latched; here that is required. */
  method EdptXfer(d: DcdData, r: Registers, epAddr: U8, buffer: U32, totalBytes: U16) returns (ok: bool)
    requires d.Valid() && r.Valid()
    requires EpIdx(epAddr) < QHD_MAX
    requires EpNumber(epAddr) == 0 ==> r.endptsetupstat & 1 == 0
    modifies d.qtd, d.qhd, r`endptprime
    ensures ok
    ensures d.qtd[..] == old(d.qtd[..])[EpIdx(epAddr) := SubmittedQtd(buffer, totalBytes)]
    ensures d.qhd[..] == old(d.qhd[..])[EpIdx(epAddr) :=
      LinkedQhd(old(d.qhd[EpIdx(epAddr)]), d.QtdAddress(EpIdx(epAddr)))]
    ensures r.endptprime == Bit(EpIdx2Bit(EpIdx(epAddr)))
  {
    var epnum := EpNumber(epAddr);
    var dir := EpDir(epAddr);
    var epIdx := 2 * epnum + dir;

    var qtd := QtdInit(buffer, totalBytes);
    qtd := qtd.(intOnComplete := true);
    d.qtd[epIdx] := qtd;
    d.qhd[epIdx] := d.qhd[epIdx].(qtdOverlay := d.qhd[epIdx].qtdOverlay.(next := d.QtdAddress(epIdx)));

    r.endptprime := Bit(EpIdx2Bit(epIdx));
    ok := true;
  }

  /** `dcd_set_address`: send the zero-length IN status stage on endpoint 0, then
      program the new address (taking effect after that status stage). */
  method SetAddress(d: DcdData, r: Registers, devAddr: bv8)
    requires d.Valid() && r.Valid()
    requires r.endptsetupstat & 1 == 0
    modifies d.qtd, d.qhd, r`endptprime, r`deviceaddr
    ensures d.qtd[..] == old(d.qtd[..])[1 := SubmittedQtd(0, 0)]
    ensures d.qhd[..] == old(d.qhd[..])[1 := LinkedQhd(old(d.qhd[1]), d.QtdAddress(1))]
    ensures r.endptprime == Bit(16)
    ensures r.deviceaddr == DeviceAddrWord(devAddr)
  {
    var statusAddr := EpAddr(0, DIR_IN);
    var _ := EdptXfer(d, r, statusAddr, 0, 0);
    r.deviceaddr := DeviceAddrWord(devAddr);
  }
}
