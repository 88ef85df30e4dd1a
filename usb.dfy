/** Endpoint addresses, descriptor-table slots and the register bit of each slot.

    An endpoint address is one byte: the low bits hold the endpoint number
    (bits 3..0 in section 9.6.6 of the USB 2.0 specification; the driver masks
    with 0x7F, so bits 6..0 here) and bit 7 is set for the IN direction. The driver keeps one queue
    head and one transfer descriptor per (number, direction) pair, in slot
    `2 * number + direction`; the prime and complete registers have one bit per
    slot, OUT endpoints in bits 0..15 and IN endpoints in bits 16..31.

    Byte-sized values are kept as bounded integers: for a byte `a`, `a & 0x7F`
    is `a % 128` and `a & 0x80 != 0` is `a >= 128`, so the bit operations of the
    driver are written with that arithmetic. */
module Usb {

  /** An unsigned byte. */
  type U8 = x: int | 0 <= x < 0x100

  /** A transfer direction as the driver's `tu_edpt_dir` returns it: 0 = OUT, 1 = IN. */
  type Dir = d: nat | d < 2

  const DIR_OUT: Dir := 0
  const DIR_IN: Dir := 1

  /** Bit 7 of an endpoint address: set for IN endpoints. */
  const DIR_IN_MASK: U8 := 0x80

  /** Number of queue heads and of transfer descriptors in the table. */
  const QHD_MAX: nat := 12

  /** `tu_edpt_number`: the address with the direction bit masked off (`addr & 0x7F`). */
  function EpNumber(addr: U8): (n: nat)
    ensures n < 128
  {
    addr % 128
  }

  /** `tu_edpt_dir`: 1 when bit 7 of the address is set. */
  function EpDir(addr: U8): Dir
  {
    if addr >= DIR_IN_MASK then DIR_IN else DIR_OUT
  }

  /** `tu_edpt_addr`: the address of endpoint `num` in direction `dir` (`num | 0x80` for IN). */
  function EpAddr(num: nat, dir: Dir): U8
    requires num < 128
  {
    num + (if dir == DIR_IN then DIR_IN_MASK else 0)
  }

  /** The slot of an endpoint, `2 * epnum + dir`, as open and xfer compute it. */
  function EpIdx(addr: U8): nat
  {
    2 * EpNumber(addr) + EpDir(addr)
  }

  /** `ep_idx2bit`: the register bit of a slot. */
  function EpIdx2Bit(epIdx: nat): nat
  {
    epIdx / 2 + (if epIdx % 2 != 0 then 16 else 0)
  }

  /** The endpoint address the interrupt handler recovers from a slot:
      `(ep_idx / 2) | ((ep_idx & 1) ? 0x80 : 0)`; since `ep_idx / 2 < 128` the
      or is an addition. */
  function SlotAddress(epIdx: nat): U8
    requires epIdx < 0x100
  {
    epIdx / 2 + (if epIdx % 2 != 0 then DIR_IN_MASK else 0)
  }

  /** The address built by `tu_edpt_addr` decodes back to its number and direction. */
  lemma EpAddrDecodes(num: nat, dir: Dir)
    requires num < 128
    ensures EpNumber(EpAddr(num, dir)) == num
    ensures EpDir(EpAddr(num, dir)) == dir
  {
  }

  /** The slot of an address is the slot `2 * number + direction`, and its bit is
      `number + 16 * direction`: the OUT half and the IN half of the register. */
  lemma SlotBitOfAddress(addr: U8)
    ensures EpIdx(addr) == 2 * EpNumber(addr) + EpDir(addr)
    ensures EpIdx2Bit(EpIdx(addr)) == EpNumber(addr) + 16 * EpDir(addr)
  {
  }

  /** Every slot of the table has a bit in a 32-bit register, and distinct slots
      below 32 have distinct bits, so no two endpoints share a prime or complete bit. */
  lemma SlotBitInjective(i: nat, j: nat)
    requires i < 32 && j < 32
    ensures EpIdx2Bit(i) < 32
    ensures EpIdx2Bit(i) == EpIdx2Bit(j) ==> i == j
  {
  }

  /** The table's slots use bits 0..5 (OUT) and 16..21 (IN) only. */
  lemma TableSlotBits(i: nat)
    requires i < QHD_MAX
    ensures EpIdx2Bit(i) < 6 || 16 <= EpIdx2Bit(i) < 22
  {
  }

  /** Recovering the address from a slot inverts `2 * epnum + dir`: the address the
      interrupt handler reports for slot `i` is the address that selects slot `i`. */
  lemma SlotAddressInverse(i: nat)
    requires i < 0x100
    ensures EpIdx(SlotAddress(i)) == i
    ensures EpNumber(SlotAddress(i)) == i / 2
    ensures EpDir(SlotAddress(i)) == i % 2
  {
  }

  /** Conversely every address is the address recovered from its own slot. */
  lemma AddressSlotInverse(addr: U8)
    ensures EpIdx(addr) < 0x100
    ensures SlotAddress(EpIdx(addr)) == addr
  {
    var n: nat, dir: nat := EpNumber(addr), EpDir(addr);
    assert addr == n + 128 * dir;
    assert EpIdx(addr) / 2 == n && EpIdx(addr) % 2 == dir;
  }

  /** Hence the recovered address tells slots apart. */
  lemma SlotAddressInjective(i: nat, j: nat)
    requires i < 0x100 && j < 0x100
    requires SlotAddress(i) == SlotAddress(j)
    ensures i == j
  {
    SlotAddressInverse(i);
    SlotAddressInverse(j);
  }
}
