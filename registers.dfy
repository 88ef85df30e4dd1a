/** The register block of one controller port, the bit masks the driver uses,
    and the endpoint-control word.

    Each `ENDPTCTRL[n]` word controls endpoint number `n`: its OUT direction in
    bits 0..15 and its IN direction in bits 16..31, with the same layout in each
    half (stall bit 0, type bits 3..2, toggle reset bit 6, enable bit 7). The
    functions below compute the word the driver writes back after each
    read-modify-write; each is specified by what happens to the two halves. */
module Registers {
  import opened Usb

  // USBSTS / USBINTR
  const INTR_USB: bv32 := 0x1
  const INTR_ERROR: bv32 := 0x2
  const INTR_PORT_CHANGE: bv32 := 0x4
  const INTR_RESET: bv32 := 0x40
  const INTR_SOF: bv32 := 0x80
  const INTR_SUSPEND: bv32 := 0x100
  const INTR_NAK: bv32 := 0x1_0000

  // USBCMD
  const USBCMD_RUN_STOP: bv32 := 0x1
  const USBCMD_RESET: bv32 := 0x2
  /** Interrupt threshold field, bits 23..16. */
  const USBCMD_ITC: bv32 := 0x00FF_0000

  // PORTSC1, OTGSC, USBMODE, DEVICEADDR
  const PORTSC1_SUSPEND: bv32 := 0x80
  const OTGSC_VBUS_DISCHARGE: bv32 := 0x1
  const OTGSC_OTG_TERMINATION: bv32 := 0x8
  const USBMODE_CM_DEVICE: bv32 := 2
  /** DEVICEADDR bit 24: the new address takes effect after the next IN status stage. */
  const DEVICEADDR_ADVANCE: bv32 := 0x100_0000

  // ENDPTCTRL, within one 16-bit half
  const CTRL_STALL: bv32 := 0x01
  const CTRL_TOGGLE_RESET: bv32 := 0x40
  const CTRL_ENABLE: bv32 := 0x80

  /** An endpoint transfer type, bits 1..0 of bmAttributes (USB 2.0 section 9.6.6). */
  type XferType = t: bv32 | t < 4

  const XFER_CONTROL: XferType := 0
  const XFER_ISOCHRONOUS: XferType := 1
  const XFER_BULK: XferType := 2
  const XFER_INTERRUPT: XferType := 3

  /** The interrupt sources `dcd_init` enables. */
  const USBINTR_ENABLED: bv32 :=
    INTR_USB | INTR_ERROR | INTR_PORT_CHANGE | INTR_RESET | INTR_SUSPEND | INTR_SOF

  /** The word `bus_reset` writes to ENDPTCTRL[1..]: both halves typed bulk, disabled. */
  const BUS_RESET_CTRL: bv32 := (XFER_BULK << 2) | (XFER_BULK << 18)

  /** Bit `n` of a register (`TU_BIT(n)`). */
  function Bit(n: nat): bv32
    requires n < 32
  {
    (1 as bv32) << n
  }

  /** The effect of writing `written` to a write-one-to-clear status register:
      every 1 written clears that bit, every 0 written leaves it alone. */
  function Ack(reg: bv32, written: bv32): bv32
  {
    reg & !written
  }

  /** Writing back the value just read clears the whole register. */
  lemma AckOwnValue(reg: bv32)
    ensures Ack(reg, reg) == 0
  {
  }

  /** The OUT half (bits 0..15) and the IN half (bits 16..31) of a control word. */
  function Half(w: bv32, dir: Dir): (h: bv32)
    ensures h < 0x1_0000
  {
    if dir == DIR_OUT then w & 0xFFFF else w >> 16
  }

  /** The other direction. */
  function Opposite(dir: Dir): Dir
  {
    1 - dir
  }

  /** Two control words with the same two halves are equal. */
  lemma HalvesDetermineWord(a: bv32, b: bv32)
    requires Half(a, DIR_OUT) == Half(b, DIR_OUT)
    requires Half(a, DIR_IN) == Half(b, DIR_IN)
    ensures a == b
  {
  }

  /** `dcd_edpt_stall`: `ENDPTCTRL |= STALL << (dir ? 16 : 0)`. */
  function StallWord(w: bv32, dir: Dir): (r: bv32)
    ensures Half(r, dir) == Half(w, dir) | CTRL_STALL
    ensures Half(r, Opposite(dir)) == Half(w, Opposite(dir))
  {
    if dir == DIR_IN then w | (CTRL_STALL << 16) else w | CTRL_STALL
  }

  /** `dcd_edpt_clear_stall`: first `|= TOGGLE_RESET << shift`, then
      `&= ~(STALL << shift)`, with `shift = dir ? 16 : 0`. */
  function ClearStallWord(w: bv32, dir: Dir): (r: bv32)
    ensures Half(r, dir) == (Half(w, dir) | CTRL_TOGGLE_RESET) & !CTRL_STALL
    ensures Half(r, Opposite(dir)) == Half(w, Opposite(dir))
  {
    if dir == DIR_IN then (w | (CTRL_TOGGLE_RESET << 16)) & !(CTRL_STALL << 16)
    else (w | CTRL_TOGGLE_RESET) & !CTRL_STALL
  }

  /** The half-word `dcd_edpt_open` ors in: type, enable and toggle reset. */
  function OpenBits(xfer: XferType): (m: bv32)
    ensures m < 0x1_0000
  {
    (xfer << 2) | CTRL_ENABLE | CTRL_TOGGLE_RESET
  }

  /** `dcd_edpt_open`: `ENDPTCTRL |= OpenBits(type) << (dir ? 16 : 0)`. */
  function OpenWord(w: bv32, xfer: XferType, dir: Dir): (r: bv32)
    ensures Half(r, dir) == Half(w, dir) | OpenBits(xfer)
    ensures Half(r, Opposite(dir)) == Half(w, Opposite(dir))
  {
    if dir == DIR_IN then w | (OpenBits(xfer) << 16) else w | OpenBits(xfer)
  }

  /** The type field (bits 3..2) of a half. */
  function TypeField(h: bv32): bv32
  {
    (h >> 2) & 3
  }

  /** The half of an opened endpoint is enabled with its toggle reset; because the
      type is or-ed in, the resulting type is the old type field or-ed with the
      requested one: a direction that bus reset typed bulk keeps bulk or becomes
      interrupt, and stays bulk if control is requested. */
  lemma OpenedHalf(w: bv32, xfer: XferType, dir: Dir)
    ensures Half(OpenWord(w, xfer, dir), dir) & CTRL_ENABLE != 0
    ensures Half(OpenWord(w, xfer, dir), dir) & CTRL_TOGGLE_RESET != 0
    ensures TypeField(Half(OpenWord(w, xfer, dir), dir)) == TypeField(Half(w, dir)) | xfer
  {
  }

  /** After bus reset the word of a non-control endpoint has both halves typed bulk,
      disabled, not stalled; opening one direction as bulk or interrupt then gives
      it exactly the requested type and leaves the other direction bulk. */
  lemma BusResetWordThenOpen(xfer: XferType, dir: Dir)
    requires xfer == XFER_BULK || xfer == XFER_INTERRUPT
    ensures forall d: Dir :: TypeField(Half(BUS_RESET_CTRL, d)) == XFER_BULK
    ensures forall d: Dir :: Half(BUS_RESET_CTRL, d) & (CTRL_ENABLE | CTRL_STALL) == 0
    ensures TypeField(Half(OpenWord(BUS_RESET_CTRL, xfer, dir), dir)) == xfer
    ensures TypeField(Half(OpenWord(BUS_RESET_CTRL, xfer, dir), Opposite(dir))) == XFER_BULK
  {
    OpenedHalf(BUS_RESET_CTRL, xfer, dir);
  }

  /** `DEVICEADDR` as `dcd_set_address` writes it: `(dev_addr << 25) | BIT(24)`. */
  function DeviceAddrWord(devAddr: bv8): bv32
  {
    ((devAddr as bv32) << 25) | DEVICEADDR_ADVANCE
  }

  /** The interrupt handler's test for "the device has an address":
      `(DEVICEADDR >> 25) & 0x0f`, a 4-bit mask over the 7-bit address field. */
  predicate Addressed(deviceAddr: bv32)
  {
    (deviceAddr >> 25) & 0x0f != 0
  }

  /** A USB address (below 128) is stored in bits 31..25 and read back unchanged;
      the handler's test sees only its low four bits. */
  lemma DeviceAddrField(devAddr: bv8)
    requires devAddr < 128
    ensures (DeviceAddrWord(devAddr) >> 25) & 0x7F == devAddr as bv32
    ensures Addressed(DeviceAddrWord(devAddr)) <==> devAddr & 0x0f != 0
  {
  }

  /** Consequently a device given address 16 (or any multiple of 16) is treated as
      not yet addressed by the suspend test, although its address is not zero. */
  lemma AddressSixteenLooksUnaddressed()
    ensures (DeviceAddrWord(16) >> 25) & 0x7F != 0
    ensures !Addressed(DeviceAddrWord(16))
  {
  }

  /** The register block of one port (`DCD_REGS[rhport]`). Registers are plain
      fields; the status registers USBSTS, ENDPTNAK, ENDPTSETUPSTAT and
      ENDPTCOMPLETE are written through `Ack` because the controller clears the
      bits written as 1. */
  class Registers {
    var usbcmd: bv32
    var usbsts: bv32
    var usbintr: bv32
    var deviceaddr: bv32
    var endptlistaddr: bv32
    var endptnak: bv32
    var endptnaken: bv32
    var portsc1: bv32
    var otgsc: bv32
    var usbmode: bv32
    var endptsetupstat: bv32
    var endptprime: bv32
    var endptflush: bv32
    var endptcomplete: bv32
    const endptctrl: array<bv32>

    ghost predicate Valid()
    {
      endptctrl.Length == 8
    }

    /** A register block with every register reading zero. */
    constructor ()
      ensures Valid() && fresh(endptctrl)
      ensures usbcmd == usbsts == usbintr == deviceaddr == endptlistaddr == 0
      ensures endptnak == endptnaken == portsc1 == otgsc == usbmode == 0
      ensures endptsetupstat == endptprime == endptflush == endptcomplete == 0
      ensures forall n :: 0 <= n < 8 ==> endptctrl[n] == 0
    {
      usbcmd, usbsts, usbintr, deviceaddr, endptlistaddr := 0, 0, 0, 0, 0;
      endptnak, endptnaken, portsc1, otgsc, usbmode := 0, 0, 0, 0, 0;
      endptsetupstat, endptprime, endptflush, endptcomplete := 0, 0, 0, 0;
      endptctrl := new bv32[8](_ => 0);
    }
  }
}
