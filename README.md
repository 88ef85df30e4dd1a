# ChipIdea / TransDimension USB device controller driver, modelled in Dafny

This project models tinyusb's device-controller driver for the ChipIdea
(TransDimension) high-speed USB core found in the NXP LPC18xx/43xx and
i.MX RT10xx parts: `src/portable/nxp/transdimension/dcd_transdimension.c`.

The driver talks to the controller through two things:

- A register block per port (`DCD_REGS[rhport]`). USBSTS, ENDPTNAK,
  ENDPTSETUPSTAT and ENDPTCOMPLETE are write-one-to-clear; each ENDPTCTRL
  word controls one endpoint number, OUT in bits 0..15 and IN in bits 16..31.
- A statically allocated descriptor table (`_dcd_data`): twelve queue heads
  and twelve transfer descriptors. Slot `2 * epnum + dir` belongs to one
  endpoint direction.

The model is split into five modules:

- `Usb` (usb.dfy): endpoint addresses, slots, and the register bit of each
  slot (`ep_idx2bit`).
- `Registers` (registers.dfy): the register block as a class with one `bv32`
  field per register the driver touches and an `endptctrl` array. It also holds the bit masks,
  and the control words written by stall, clear-stall and open, each
  specified by what happens to its two 16-bit halves.
- `Descriptors` (descriptors.dfy): queue heads and transfer descriptors as
  values, the table as a class over two arrays, and `qtd_init` with its page
  loop.
- `Driver` (driver.dfy): `bus_reset`, `dcd_init`, `dcd_edpt_open`,
  `dcd_edpt_stall`, `dcd_edpt_clear_stall`, `dcd_edpt_xfer` and
  `dcd_set_address`, as methods that update the registers and the table in
  place.
- `Interrupts` (isr.dfy): `dcd_isr`.
  - The callbacks it makes to the device stack are modelled as the sequence
    of events it emits.
  - `IsrEvents` specifies that sequence from what the handler reads.
  - The method `Isr` follows the handler statement by statement and is
    proved to emit exactly `IsrEvents` of the state it found, and to leave
    the registers and the table as stated.

Two behaviours of the code are stated as lemmas rather than corrected.

- **Bus reset and open use opposite endpoint limits.** The reset loop
  re-types endpoints `1 .. (rhport ? 6 : 4) - 1`, while `dcd_edpt_open`
  accepts endpoint numbers up to `rhport ? 3 : 5`. So on port 0,
  endpoints 4 and 5 keep whatever control word they had across a bus
  reset. On port 1, the loop writes endpoints 4 and 5, which open never
  accepts (`Driver.ResetBoundAgainstOpenLimit`).
- **The suspend test misses some addresses.** The handler decides whether
  the device has an address with `(DEVICEADDR >> 25) & 0x0f`, but the
  address field is seven bits wide. A device at address 16, or any multiple
  of 16, is never reported suspended (`Registers.AddressSixteenLooksUnaddressed`,
  `Interrupts.SuspendMissedAtAddressSixteen`).

The model keeps both behaviours as written.

## Model

All source cells refer to `src/portable/nxp/transdimension/dcd_transdimension.c`.

| member | source | states |
|---|---|---|
| Usb.EpNumber | src/portable/nxp/transdimension/dcd_transdimension.c:377 | the endpoint number taken from an address (`& 0x7F`) is below 128 |
| Usb.EpIdx | src/portable/nxp/transdimension/dcd_transdimension.c:400 | the slot `2 * epnum + dir` of an address, as open and xfer compute it; `Usb.SlotBitOfAddress`, `Usb.SlotAddressInverse` and `Usb.AddressSlotInverse` state its properties |
| Usb.EpIdx2Bit | src/portable/nxp/transdimension/dcd_transdimension.c:349-352 | `ep_idx2bit`; `Usb.SlotBitOfAddress`, `Usb.SlotBitInjective` and `Usb.TableSlotBits` state its properties |
| Usb.SlotAddress | src/portable/nxp/transdimension/dcd_transdimension.c:514 | the address the handler rebuilds from a slot; `Usb.SlotAddressInverse`, `Usb.AddressSlotInverse` and `Usb.SlotAddressInjective` state its properties |
| Usb.EpAddrDecodes | src/portable/nxp/transdimension/dcd_transdimension.c:328 | the address built by `tu_edpt_addr(num, dir)` decodes back to `num` and `dir` |
| Usb.SlotBitOfAddress | src/portable/nxp/transdimension/dcd_transdimension.c:349-352 | an address's slot is `2 * number + dir` and its register bit is `number + 16 * dir` (OUT half, IN half) |
| Usb.SlotBitInjective | src/portable/nxp/transdimension/dcd_transdimension.c:349-352 | `ep_idx2bit` maps slots below 32 to distinct bits below 32 |
| Usb.TableSlotBits | src/portable/nxp/transdimension/dcd_transdimension.c:349-352 | the twelve table slots use bits 0..5 and 16..21 only |
| Usb.SlotAddressInverse | src/portable/nxp/transdimension/dcd_transdimension.c:514 | the address the handler rebuilds from slot `i` has number `i / 2`, direction `i % 2`, and selects slot `i` again |
| Usb.AddressSlotInverse | src/portable/nxp/transdimension/dcd_transdimension.c:514 | conversely, rebuilding the address from an address's own slot gives back that address |
| Usb.SlotAddressInjective | src/portable/nxp/transdimension/dcd_transdimension.c:514 | distinct slots are reported with distinct addresses |
| Registers.AckOwnValue | src/portable/nxp/transdimension/dcd_transdimension.c:267-271 | writing a write-one-to-clear register's own value back clears it |
| Registers.Ack | src/portable/nxp/transdimension/dcd_transdimension.c:267-271 | a write to a write-one-to-clear register (also 455, 491, 497); `Registers.AckOwnValue` states that writing the value read clears it, and `Interrupts.AckStatus` that writing `USBSTS & USBINTR` clears exactly those bits |
| Registers.Half | src/portable/nxp/transdimension/dcd_transdimension.c:380 | each direction's half of a control word is a 16-bit value |
| Registers.HalvesDetermineWord | src/portable/nxp/transdimension/dcd_transdimension.c:380 | a control word is determined by its OUT and IN halves |
| Registers.StallWord | src/portable/nxp/transdimension/dcd_transdimension.c:380 | stall sets the stall bit in the endpoint direction's half and leaves the other half unchanged |
| Registers.ClearStallWord | src/portable/nxp/transdimension/dcd_transdimension.c:389-390 | clear-stall sets toggle reset and clears stall in that direction's half; the other half is unchanged |
| Registers.OpenBits | src/portable/nxp/transdimension/dcd_transdimension.c:414 | the bits open ors in (type, enable, toggle reset) fit in one half |
| Registers.OpenWord | src/portable/nxp/transdimension/dcd_transdimension.c:414 | open ors type, enable and toggle reset into the direction's half; the other half is unchanged |
| Registers.OpenedHalf | src/portable/nxp/transdimension/dcd_transdimension.c:414 | after open the half is enabled with toggle reset, and its type field is the old type or-ed with the requested one |
| Registers.BusResetWordThenOpen | src/portable/nxp/transdimension/dcd_transdimension.c:261-264 | the reset word types both halves bulk, disabled and not stalled; opening one direction as bulk or interrupt then yields exactly that type, and the other direction stays bulk |
| Registers.DeviceAddrField | src/portable/nxp/transdimension/dcd_transdimension.c:330 | an address below 128 written as `addr << 25` with BIT(24) set reads back from bits 31..25; the handler's test holds exactly when its low four bits are not zero |
| Registers.DeviceAddrWord | src/portable/nxp/transdimension/dcd_transdimension.c:330 | the DEVICEADDR word `dcd_set_address` writes; `Registers.DeviceAddrField` states that it keeps the address in bits 31..25 |
| Registers.Addressed | src/portable/nxp/transdimension/dcd_transdimension.c:471 | the handler's four-bit "has an address" test; `Registers.DeviceAddrField` and `Registers.AddressSixteenLooksUnaddressed` state what it sees |
| Registers.AddressSixteenLooksUnaddressed | src/portable/nxp/transdimension/dcd_transdimension.c:471 | address 16 is non-zero, but the handler's `& 0x0f` test treats it as unaddressed |
| Descriptors.NextPageAligned | src/portable/nxp/transdimension/dcd_transdimension.c:367 | one page step lands on a 4 KiB boundary; from a boundary it adds exactly one page (mod 2^32) |
| Descriptors.AddPages | src/portable/nxp/transdimension/dcd_transdimension.c:367 | adding pages one at a time equals adding them together, modulo 2^32 |
| Descriptors.PagesFollowBoundaries | src/portable/nxp/transdimension/dcd_transdimension.c:362-369 | the first page pointer is the buffer; each later one is the page boundary above its predecessor, so it is page aligned |
| Descriptors.Pages | src/portable/nxp/transdimension/dcd_transdimension.c:362-369 | the page pointers `qtd_init` fills in; `Descriptors.PagesFollowBoundaries` states the loop recurrence they satisfy |
| Descriptors.FreshQtd | src/portable/nxp/transdimension/dcd_transdimension.c:354-370 | the descriptor `qtd_init` leaves; `Descriptors.FreshQtdState` states its fields and `Descriptors.QtdInit` is proved to build it |
| Descriptors.FreshQtdState | src/portable/nxp/transdimension/dcd_transdimension.c:354-370 | a fresh descriptor is terminated and active, with no status bits and no interrupt-on-complete; it expects the requested length; the hardware counter keeps the length's low 15 bits; a NULL buffer leaves all page pointers zero |
| Descriptors.QtdInit | src/portable/nxp/transdimension/dcd_transdimension.c:354-370 | the loop over the page pointers builds exactly the descriptor `FreshQtd` describes |
| Descriptors.ControlQhdsAreOpened | src/portable/nxp/transdimension/dcd_transdimension.c:283-287 | after bus reset the two control queue heads equal what opening endpoint 0 with its packet size gives, except that only control OUT interrupts on setup; both overlays are terminated |
| Descriptors.OpenedQhd | src/portable/nxp/transdimension/dcd_transdimension.c:405-411 | the queue head `dcd_edpt_open` configures; `Driver.EdptOpen` writes it and `Descriptors.ControlQhdsAreOpened` relates it to the reset control heads |
| Descriptors.ResetQhd | src/portable/nxp/transdimension/dcd_transdimension.c:279-287 | the queue head of each slot after `bus_reset`; `Driver.ResetTable` is proved to leave it and `Descriptors.ControlQhdsAreOpened` states its control slots |
| Descriptors.DcdData.constructor | src/portable/nxp/transdimension/dcd_transdimension.c:236-242 | the static table starts with every queue head and transfer descriptor zero |
| Driver.ResetBoundAgainstOpenLimit | src/portable/nxp/transdimension/dcd_transdimension.c:260-264 | on port 0, endpoints 4 and 5 are accepted by open but not re-typed by reset; on port 1, every endpoint open accepts is re-typed, and so are 4 and 5, which open rejects |
| Driver.SubmittedIsReady | src/portable/nxp/transdimension/dcd_transdimension.c:436-438 | a submitted descriptor is active, interrupts on completion, is not halted, expects the requested length and covers the buffer's pages; with an aligned table the queue head links to it with the terminate bit clear, and nothing else in the queue head changes |
| Driver.SubmittedQtd | src/portable/nxp/transdimension/dcd_transdimension.c:436-437 | the descriptor `dcd_edpt_xfer` builds; `Driver.SubmittedIsReady` states its fields and `Interrupts.SubmittedTransferReported` how it is reported |
| Driver.LinkedQhd | src/portable/nxp/transdimension/dcd_transdimension.c:438 | the queue head with its overlay linked to the new descriptor; `Driver.SubmittedIsReady` states that the link is live and nothing else changes |
| Driver.RetypeEndpoints | src/portable/nxp/transdimension/dcd_transdimension.c:261-264 | endpoints 1 up to the port's loop bound get the bulk/bulk disabled word; every other control word is unchanged |
| Driver.ClearStatus | src/portable/nxp/transdimension/dcd_transdimension.c:266-275 | NAK, NAK enable, status, setup status, completion and flush all read zero afterwards |
| Driver.ResetTable | src/portable/nxp/transdimension/dcd_transdimension.c:279-287 | every queue head is `ResetQhd` of its slot (control heads set up, the rest cleared) and every transfer descriptor is cleared |
| Driver.BusReset | src/portable/nxp/transdimension/dcd_transdimension.c:250-288 | the status registers are zero, the control words are re-typed as above, and the table is reset, given the control words found at entry |
| Driver.DcdInit | src/portable/nxp/transdimension/dcd_transdimension.c:290-313 | the table is cleared; the controller is in device mode with OTG termination; the list address is the table's; status is cleared; the six sources are enabled; run is set and the reset bit and interrupt threshold are clear |
| Driver.EdptOpen | src/portable/nxp/transdimension/dcd_transdimension.c:393-417 | succeeds exactly for a non-isochronous endpoint within the port's limit; on failure nothing changes; on success only the slot's queue head (opened) and the endpoint's control word (`OpenWord`) change |
| Driver.EdptStall | src/portable/nxp/transdimension/dcd_transdimension.c:375-381 | only the endpoint's control word changes, to `StallWord` of its old value |
| Driver.EdptClearStall | src/portable/nxp/transdimension/dcd_transdimension.c:383-391 | only the endpoint's control word changes, to `ClearStallWord` of its old value |
| Driver.EdptXfer | src/portable/nxp/transdimension/dcd_transdimension.c:419-444 | always succeeds; only the slot's descriptor (submitted), the slot's queue-head link (to that descriptor's address) and ENDPTPRIME (the slot's bit alone) change |
| Driver.SetAddress | src/portable/nxp/transdimension/dcd_transdimension.c:325-331 | a zero-length IN status stage is submitted on slot 1 and primed on bit 16, then DEVICEADDR holds the new address with the advance bit |
| Interrupts.Classify | src/portable/nxp/transdimension/dcd_transdimension.c:511-512 | stalled exactly when halted; failed exactly when not halted and an error bit is set; success exactly otherwise |
| Interrupts.XferEvent | src/portable/nxp/transdimension/dcd_transdimension.c:509-515 | the transfer-complete report of one slot; `Interrupts.CompletionsReportSlots` and `Interrupts.SubmittedTransferReported` state its address, bytes and result |
| Interrupts.SlotComplete | src/portable/nxp/transdimension/dcd_transdimension.c:506 | `tu_bit_test(edpt_complete, ep_idx2bit(i))`; `Interrupts.CompletionMaskBits` ties it to the mask |
| Interrupts.CompletionMask | src/portable/nxp/transdimension/dcd_transdimension.c:506 | the completion snapshot read slot by slot has one entry per table slot |
| Interrupts.CompletionMaskBits | src/portable/nxp/transdimension/dcd_transdimension.c:506 | entry `i` is slot `i`'s bit of the snapshot; a zero snapshot marks no slot |
| Interrupts.CompletedSlots | src/portable/nxp/transdimension/dcd_transdimension.c:504-506 | the marked slots are valid slot numbers |
| Interrupts.CompletedSlotsExact | src/portable/nxp/transdimension/dcd_transdimension.c:504-506 | the marked slots are strictly ascending, and a slot is listed exactly when it is marked |
| Interrupts.Completions | src/portable/nxp/transdimension/dcd_transdimension.c:504-517 | the reports of the loop over the slots; `Interrupts.CompletionsPerSlot`, `Interrupts.CompletionsReportSlots` and `Interrupts.ScanCompletions` state and connect them |
| Interrupts.CompletionsPerSlot | src/portable/nxp/transdimension/dcd_transdimension.c:504-517 | the loop emits one event per marked slot, in order; event `k` reports the `k`-th marked slot with that slot's descriptor |
| Interrupts.NoCompletions | src/portable/nxp/transdimension/dcd_transdimension.c:502-518 | a mask with nothing marked yields no events |
| Interrupts.NothingCompleted | src/portable/nxp/transdimension/dcd_transdimension.c:502 | a zero completion snapshot yields no events, so skipping the loop for it changes nothing |
| Interrupts.CompletionsAreTransfers | src/portable/nxp/transdimension/dcd_transdimension.c:504-517 | the loop reports only transfer completions |
| Interrupts.CompletionsReportSlots | src/portable/nxp/transdimension/dcd_transdimension.c:504-517 | each transfer event is for a marked slot, carrying its address, bytes and result; every marked slot is reported; reports come in strictly ascending slot order |
| Interrupts.DecodeStatus | src/portable/nxp/transdimension/dcd_transdimension.c:453-458 | `USBSTS & USBINTR` decoded into "anything pending" and the four served sources; `Interrupts.UnservedSourcesReportNothing` and the other handler lemmas state what each decoded source leads to |
| Interrupts.UnservedSourcesReportNothing | src/portable/nxp/transdimension/dcd_transdimension.c:478-527 | a status word whose only bits are PORT_CHANGE, ERROR or NAK passes the early return exactly when it is non-zero, yet the call reports no event: the commented-out port-change code, the empty NAK branch and the ERROR assertion emit nothing |
| Interrupts.IsrEvents | src/portable/nxp/transdimension/dcd_transdimension.c:449-528 | the events of one handler call; `Interrupts.Isr` is proved to emit them, and `Interrupts.IsrEventsOrdered`, `Interrupts.XferReportedIff`, `Interrupts.SignalsReportedIff`, `Interrupts.SetupReportedIff` and `Interrupts.ResetSuppressesTransfers` state their properties |
| Interrupts.UsbEventsOrdered | src/portable/nxp/transdimension/dcd_transdimension.c:488-518 | the USB interrupt reports a setup first, then transfers by ascending slot |
| Interrupts.IsrEventsOrdered | src/portable/nxp/transdimension/dcd_transdimension.c:449-528 | one handler call reports bus reset, suspend, setup, transfers by strictly ascending slot, then SOF; no kind repeats and no slot is reported twice |
| Interrupts.XferReportedIff | src/portable/nxp/transdimension/dcd_transdimension.c:488-519 | slot `i`'s transfer is reported exactly when a USB interrupt is served without a bus reset and slot `i` completed; every transfer report has that form |
| Interrupts.SubmittedTransferReported | src/portable/nxp/transdimension/dcd_transdimension.c:504-515 | a transfer submitted on an address and then retired by the controller is reported with that address, the bytes moved (`expected - remaining`) and its outcome |
| Interrupts.ResetSuppressesTransfers | src/portable/nxp/transdimension/dcd_transdimension.c:460-491 | with a bus reset in the same call, the events are reset, then possibly suspend, then possibly SOF; there is no setup or transfer report, because the reset cleared both status registers first |
| Interrupts.SignalsReportedIff | src/portable/nxp/transdimension/dcd_transdimension.c:460-524 | bus reset, SOF and suspend are each reported exactly under their conditions; suspend also requires a suspended port and a non-zero four-bit address |
| Interrupts.SetupReportedIff | src/portable/nxp/transdimension/dcd_transdimension.c:488-500 | a setup is reported exactly when a USB interrupt is served without a bus reset and a setup is latched, and it carries queue head 0's packet |
| Interrupts.SuspendMissedAtAddressSixteen | src/portable/nxp/transdimension/dcd_transdimension.c:466-476 | at address 16, no suspend is ever reported |
| Interrupts.ScanCompletions | src/portable/nxp/transdimension/dcd_transdimension.c:502-518 | the loop over the twelve slots emits `Completions` of the snapshot's mask and the descriptors |
| Interrupts.ServiceReset | src/portable/nxp/transdimension/dcd_transdimension.c:460-464 | a served reset runs bus reset and reports it, leaving no setup or completion to report; without one, nothing changes |
| Interrupts.ServiceSuspend | src/portable/nxp/transdimension/dcd_transdimension.c:466-476 | suspend is reported exactly when it is served, the port is suspended and the four-bit address test holds |
| Interrupts.ServiceUsb | src/portable/nxp/transdimension/dcd_transdimension.c:488-519 | a served USB interrupt reports `UsbEvents` of the state it found and clears the setup and completion status; otherwise nothing happens |
| Interrupts.AckCompletions | src/portable/nxp/transdimension/dcd_transdimension.c:490-491 | returns the completion snapshot and clears ENDPTCOMPLETE |
| Interrupts.ServiceSetup | src/portable/nxp/transdimension/dcd_transdimension.c:493-500 | a latched setup is acknowledged and reported with queue head 0's packet; otherwise nothing is reported |
| Interrupts.AckStatus | src/portable/nxp/transdimension/dcd_transdimension.c:453-455 | returns the decoded enabled pending sources, and clears exactly those bits of USBSTS |
| Interrupts.Dispatch | src/portable/nxp/transdimension/dcd_transdimension.c:460-524 | the events are `IsrEvents` of the state found; a reset leaves the reset state; a USB interrupt clears setup and completion status; unserved registers are unchanged |
| Interrupts.Isr | src/portable/nxp/transdimension/dcd_transdimension.c:449-528 | the handler emits exactly `IsrEvents` of the registers and table it found, acknowledges only the enabled pending sources, and leaves the table and control words alone unless a reset is served |

## Left out

- `dcd_int_enable` and `dcd_int_disable` (lines 315-323) only enable or disable the interrupt in the NVIC, outside the controller model.
- `dcd_set_config` and `dcd_remote_wakeup` are empty in the source.
- The NAK branch of `dcd_isr` (line 526) does nothing, and the ERROR branch (line 527) only raises a debug assertion; neither affects the events or the state (`Interrupts.UnservedSourcesReportNothing`). The debug assertion itself is not modelled.
- The disconnection code under the port-change source (lines 478-486) is commented out. The port-change source is enabled, but no event is ever emitted for it.
- Driver.DcdInit: the controller reset requested at line 297 is modelled only as the reset bit being set and then cleared. Its effect on the other registers (USBCMD's other bits, DEVICEADDR, PORTSC1, ENDPTCTRL and the rest return to their reset values) is not modelled; those registers keep their values across the call.
- The callbacks' `rhport` and `in_isr` arguments are not part of the events.
- Register block layout, reserved words, bit-field packing and the 2 KiB/64-byte/32-byte alignment attributes are not modelled. Registers are plain fields, and the table's bus address is a parameter.
- Spin-waits on bits the controller clears are not modelled as loops:
  - the USBCMD reset bit in `dcd_init` and ENDPTFLUSH in `bus_reset` are modelled as the controller clearing the bit;
  - ENDPTPRIME in `bus_reset` and ENDPTSETUPSTAT bit 0 in `dcd_edpt_xfer` become preconditions.
- The controller's own activity (DMA into the table, retiring descriptors, latching setup packets, raising status bits) runs concurrently with the driver in the real system. It is not modelled as steps; the handler is proved correct for whatever state it finds.
- `CFG_TUD_ENDPOINT0_SIZE` is taken as 64, the stack's default.
- The isochronous multiplier fields are kept as zero by every operation modelled and are never read.
- Interrupts.Isr: the byte count in a transfer event is `expected_bytes - total_bytes` as an unbounded integer. It is not converted to the callback's unsigned parameter, which matters only if the controller reported more bytes remaining than were requested.
- Driver.EdptXfer: requires the endpoint's slot to be one of the twelve in the table. The source does not check this, and indexes past the arrays for a larger endpoint number.
- Driver.EdptStall: requires the endpoint number to be below 8, the size of ENDPTCTRL. The source does not check this.
- Driver.EdptClearStall: requires the endpoint number to be below 8, as for stall.
- Driver.SetAddress: requires ENDPTSETUPSTAT bit 0 to be clear, the condition the status stage's spin-wait on endpoint 0 waits for.
- Driver.BusReset: requires ENDPTPRIME to be zero, the condition its spin-wait waits for. `Interrupts.Isr` passes this requirement on for a pending reset.
