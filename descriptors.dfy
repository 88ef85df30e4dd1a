/** Queue heads, transfer descriptors and the descriptor table shared with the
    controller's DMA engine.

    Both records are values; the table holds them in two fixed arrays of
    `QHD_MAX` entries that the driver updates entry by entry. Pointers and bus
    addresses are opaque 32-bit numbers; the data pointer 0 stands for NULL. */
module Descriptors {
  import opened Usb
  import opened Registers

  /** Widths of the bit fields the driver writes. */
  type U11 = x: int | 0 <= x < 0x800
  type U15 = x: int | 0 <= x < 0x8000
  type U16 = x: int | 0 <= x < 0x1_0000

  /** A 32-bit bus address or pointer value. */
  type U32 = x: int | 0 <= x < 0x1_0000_0000

  /** `uint32_t` addition, wrapping modulo 2^32. */
  function Add32(a: U32, b: U32): U32
  {
    (a + b) % 0x1_0000_0000
  }

  /** The five buffer page pointers of a transfer descriptor. */
  type PageList = s: seq<U32> | |s| == 5 witness [0, 0, 0, 0, 0]

  /** The eight bytes of a setup packet as the controller stores them in queue head 0. */
  type SetupPacket = s: seq<bv8> | |s| == 8 witness [0, 0, 0, 0, 0, 0, 0, 0]

  /** The "terminate" link value: no next transfer descriptor. */
  const QTD_NEXT_INVALID: U32 := 0x01

  /** Size of a page, the stride between buffer pointers. */
  const PAGE_SIZE: U32 := 0x1000

  /** `CFG_TUD_ENDPOINT0_SIZE`, the control endpoint's packet size (the stack's default). */
  const ENDPOINT0_SIZE: U11 := 64

  /** A transfer descriptor (dTD). `expectedBytes` is the driver's own field: the
      length requested; the controller counts `totalBytes` down as bytes move. */
  datatype Qtd = Qtd(
    next: U32,
    xactErr: bool,
    bufferErr: bool,
    halted: bool,
    active: bool,
    isoMultOverride: nat,
    intOnComplete: bool,
    totalBytes: U15,
    buffer: PageList,
    expectedBytes: U16)

  /** A queue head (dQH), with the controller's working copy of the current
      transfer descriptor (`qtdOverlay`) and the latched setup packet. */
  datatype Qhd = Qhd(
    intOnSetup: bool,
    maxPacketSize: U11,
    zeroLengthTermination: bool,
    isoMult: nat,
    qtdAddr: U32,
    qtdOverlay: Qtd,
    setupRequest: SetupPacket)

  /** The all-zero records that `tu_memclr` leaves behind. */
  const ZERO_PAGES: PageList := [0, 0, 0, 0, 0]
  const ZERO_QTD: Qtd := Qtd(0, false, false, false, false, 0, false, 0, ZERO_PAGES, 0)
  const ZERO_QHD: Qhd := Qhd(false, 0, false, 0, 0, ZERO_QTD, [0, 0, 0, 0, 0, 0, 0, 0])

  /** `tu_align4k`: the start of the 4 KiB page holding `addr` (`addr & 0xFFFFF000`). */
  function Align4k(addr: U32): U32
  {
    addr - addr % PAGE_SIZE
  }

  /** One step of `qtd_init`'s page loop: the page boundary above `addr`. */
  function NextPage(addr: U32): U32
  {
    Add32(Align4k(addr), PAGE_SIZE)
  }

  /** The page pointers of a transfer from `dataPtr`: the pointer itself, then the
      four page boundaries above it (modulo 2^32). NULL leaves all zero. */
  function Pages(dataPtr: U32): PageList
  {
    if dataPtr == 0 then ZERO_PAGES
    else
      var base := Align4k(dataPtr);
      [dataPtr, Add32(base, 0x1000), Add32(base, 0x2000), Add32(base, 0x3000), Add32(base, 0x4000)]
  }

  /** A transfer descriptor as `qtd_init` leaves it: cleared, terminated, active,
      with the requested length in both byte counters (the hardware counter keeps
      its low 15 bits) and the page pointers of the buffer. */
  function FreshQtd(dataPtr: U32, totalBytes: U16): Qtd
  {
    ZERO_QTD.(next := QTD_NEXT_INVALID, active := true,
              totalBytes := totalBytes % 0x8000, expectedBytes := totalBytes,
              buffer := Pages(dataPtr))
  }

  /** A page step lands on a page boundary, and from a boundary it adds one page. */
  lemma NextPageAligned(addr: U32)
    ensures NextPage(addr) % PAGE_SIZE == 0
    ensures Align4k(NextPage(addr)) == NextPage(addr)
    ensures addr % PAGE_SIZE == 0 ==> NextPage(addr) == Add32(addr, PAGE_SIZE)
  {
  }

  /** Adding pages one at a time is adding them together, modulo 2^32. */
  lemma AddPages(base: U32, k: nat)
    requires k < 5
    ensures Add32(Add32(base, k * PAGE_SIZE), PAGE_SIZE) == Add32(base, (k + 1) * PAGE_SIZE)
  {
  }

  /** The page list is what `qtd_init`'s loop computes: the first pointer is the
      buffer and each later one is the page boundary above its predecessor, so
      every later one is page aligned. */
  lemma {:induction false} PagesFollowBoundaries(dataPtr: U32)
    requires dataPtr != 0
    ensures Pages(dataPtr)[0] == dataPtr
    ensures forall i :: 1 <= i < 5 ==> Pages(dataPtr)[i] == NextPage(Pages(dataPtr)[i - 1])
    ensures forall i :: 1 <= i < 5 ==> Pages(dataPtr)[i] % PAGE_SIZE == 0
  {
    var p := Pages(dataPtr);
    var base := Align4k(dataPtr);
    NextPageAligned(dataPtr);
    assert p[1] == NextPage(dataPtr);
    AddPages(base, 1);
    AddPages(base, 2);
    AddPages(base, 3);
    NextPageAligned(p[1]);
    NextPageAligned(p[2]);
    NextPageAligned(p[3]);
  }

  /** Nothing but the requested length, the buffer, the link and `active` of a
      fresh descriptor differs from zero: no status bit is set, and a transfer
      below 32 KiB starts with nothing transferred; a longer one loses bit 15 of
      its length in the hardware counter. */
  lemma FreshQtdState(dataPtr: U32, totalBytes: U16)
    ensures FreshQtd(dataPtr, totalBytes).next == QTD_NEXT_INVALID
    ensures FreshQtd(dataPtr, totalBytes).active
    ensures !FreshQtd(dataPtr, totalBytes).halted
    ensures !FreshQtd(dataPtr, totalBytes).xactErr && !FreshQtd(dataPtr, totalBytes).bufferErr
    ensures !FreshQtd(dataPtr, totalBytes).intOnComplete
    ensures FreshQtd(dataPtr, totalBytes).expectedBytes == totalBytes
    ensures totalBytes < 0x8000 ==> FreshQtd(dataPtr, totalBytes).totalBytes == totalBytes
    ensures totalBytes >= 0x8000 ==> FreshQtd(dataPtr, totalBytes).totalBytes == totalBytes - 0x8000
    ensures dataPtr == 0 ==> FreshQtd(dataPtr, totalBytes).buffer == ZERO_PAGES
  {
  }

  /** `qtd_init`: clear the record, then fill it in field by field; the page
      pointers after the first are or-ed into the cleared slots one by one
      (or-ing into zero is assignment). */
  method QtdInit(dataPtr: U32, totalBytes: U16) returns (q: Qtd)
    ensures q == FreshQtd(dataPtr, totalBytes)
  {
    q := ZERO_QTD;
    q := q.(next := QTD_NEXT_INVALID);
    q := q.(active := true);
    q := q.(expectedBytes := totalBytes);
    q := q.(totalBytes := q.expectedBytes % 0x8000);
    if dataPtr != 0 {
      var buffer: seq<U32> := q.buffer[0 := dataPtr];
      ghost var pages := Pages(dataPtr);
      PagesFollowBoundaries(dataPtr);
      var i := 1;
      while i < 5
        invariant 1 <= i <= 5 && |buffer| == 5
        invariant buffer[..i] == pages[..i]
        invariant forall k :: i <= k < 5 ==> buffer[k] == 0
      {
        assert buffer[i] == 0;
        buffer := buffer[i := NextPage(buffer[i - 1])];
        i := i + 1;
      }
      assert buffer == pages[..5];
      q := q.(buffer := buffer);
    }
  }

  /** A queue head as `dcd_edpt_open` configures it: cleared, with the packet size,
      zero-length termination, and a terminated overlay. */
  function OpenedQhd(maxPacketSize: U11): Qhd
  {
    ZERO_QHD.(zeroLengthTermination := true, maxPacketSize := maxPacketSize,
              qtdOverlay := ZERO_QTD.(next := QTD_NEXT_INVALID))
  }

  /** The queue head of slot `i` right after bus reset: the two control slots are
      configured for endpoint 0 (the OUT one also interrupts on setup), every other
      slot is cleared. */
  function ResetQhd(i: nat): Qhd
  {
    if i == 0 then OpenedQhd(ENDPOINT0_SIZE).(intOnSetup := true)
    else if i == 1 then OpenedQhd(ENDPOINT0_SIZE)
    else ZERO_QHD
  }

  /** The two control queue heads are exactly what opening endpoint 0 with its
      packet size would produce, except that only control OUT interrupts on setup. */
  lemma ControlQhdsAreOpened(i: nat)
    requires i < 2
    ensures ResetQhd(i).(intOnSetup := false) == OpenedQhd(ENDPOINT0_SIZE)
    ensures ResetQhd(i).intOnSetup <==> i == 0
    ensures ResetQhd(i).qtdOverlay.next == QTD_NEXT_INVALID
  {
  }

  /** Size in bytes of the queue-head array that precedes the transfer descriptors. */
  const QTD_TABLE_OFFSET: nat := 12 * 64

  /** `_dcd_data`: the queue heads and transfer descriptors, one of each per slot.
      `base` is the table's bus address, the value programmed into ENDPTLISTADDR. */
  class DcdData {
    const base: U32
    const qhd: array<Qhd>
    const qtd: array<Qtd>

    ghost predicate Valid()
    {
      qhd.Length == QHD_MAX && qtd.Length == QHD_MAX
    }

    /** A statically allocated, all-zero table at `base`. */
    constructor (base: U32)
      ensures Valid() && this.base == base && fresh(qhd) && fresh(qtd)
      ensures forall i :: 0 <= i < QHD_MAX ==> qhd[i] == ZERO_QHD && qtd[i] == ZERO_QTD
    {
      this.base := base;
      qhd := new Qhd[QHD_MAX](_ => ZERO_QHD);
      qtd := new Qtd[QHD_MAX](_ => ZERO_QTD);
    }

    /** The bus address of `qtd[i]` (32-byte records after the 64-byte queue heads). */
    function QtdAddress(i: nat): U32
      requires i < QHD_MAX
    {
      Add32(base, QTD_TABLE_OFFSET + 32 * i)
    }
  }
}
