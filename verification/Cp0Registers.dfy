/** How programs and the debugger see the coprocessor's registers. */
module Cp0Registers {
  import opened Exceptions
  import opened Tlb
  import opened Cp0

  // w with the bits of the mask taken from data.
  function Overlay(w: bv32, data: bv32, mask: bv32): bv32 { (w & !mask) | (data & mask) }

  lemma WriteMaskReadable(r: int)
    ensures WriteMask(r) & ReadMask(r) == WriteMask(r)
  {
    if r == CONTEXT {
    } else if r == CAUSE {
    } else if r == RANDOM || r == BAD_VADDR || r == EPC || r == PRID {
    } else {
      ReadableIsWritable(r);
    }
  }

  lemma ReadableIsWritable(r: int)
    requires r !in {CONTEXT, CAUSE, RANDOM, BAD_VADDR, EPC, PRID}
    ensures WriteMask(r) & ReadMask(r) == WriteMask(r)
  {
    assert WriteMask(r) == ReadMask(r);
    hide ReadMask, WriteMask;
  }

  lemma OverlayBits(w: bv32, data: bv32, readable: bv32, writable: bv32)
    requires writable & readable == writable
    ensures ((w & (readable & !writable)) | (data & writable)) & readable == Overlay(w & readable, data, writable)
  {
  }

  lemma ReadOfWritten(w: bv32, r: int, data: bv32)
    ensures Readable(Written(w, r, data), r) == Overlay(Readable(w, r), data, WriteMask(r))
  {
    WriteMaskReadable(r);
    OverlayBits(w, data, ReadMask(r), WriteMask(r));
    hide ReadMask, WriteMask, Overlay;
  }

  // After mtc0, mfc0 finds the writable bits as written and the others as they read before.
  lemma WriteThenRead(s: State, r: int, data: bv32, lines: bv32)
    requires s.Valid() && 0 <= r < REGISTERS && r != CAUSE
    ensures ReadReg(WriteReg(s, r, data), r, lines).0 == Overlay(ReadReg(s, r, lines).0, data, WriteMask(r))
  {
    ReadOfWritten(s.reg[r], r, data);
    hide Readable, Written, Overlay, WriteMask;
  }

  // An exception drops the software interrupt requests: what Cause holds of them
  // afterwards is what the interrupt controller asserts.
  lemma SoftwareInterruptsDropped(cause: bv32, code: Code, ce: bv32, delaySlot: bool, lines: bv32)
    requires lines & !IP_MASK == 0
    ensures CauseOf(cause, code, ce, delaySlot, lines) & SOFTWARE_IP_MASK == lines & SOFTWARE_IP_MASK
  {
    CodeIsSmall(code);
    hide Number;
  }

  // So, as the controller's lines are hardware, the requests survive exactly if there are none.
  lemma SoftwareInterruptsSurvive(cause: bv32, code: Code, ce: bv32, delaySlot: bool, lines: bv32)
    requires lines & !IP_MASK == 0 && lines & SOFTWARE_IP_MASK == 0
    ensures CauseOf(cause, code, ce, delaySlot, lines) & SOFTWARE_IP_MASK == cause & SOFTWARE_IP_MASK
       <==> cause & SOFTWARE_IP_MASK == 0
  {
    SoftwareInterruptsDropped(cause, code, ce, delaySlot, lines);
    hide CauseOf;
  }

  // For instance: a request that interrupts is gone when the handler reads Cause.
  lemma RequestIsGone()
    ensures InterruptPending(0x101, 0x100, 0) && !InterruptPending(0x101, CauseOf(0x100, Int, 0, false, 0), 0)
  {
  }

  lemma CodeIsSmall(code: Code)
    ensures Number(code) < 16
  {
  }

  // What the handler finds in Cause.
  lemma CauseTellsTheCode(cause: bv32, code: Code, ce: bv32, delaySlot: bool, lines: bv32)
    requires lines & !IP_MASK == 0
    ensures (CauseOf(cause, code, ce, delaySlot, lines) & 0x7c) >> 2 == Number(code)
  {
    CodeIsSmall(code);
    hide Number;
  }

  lemma CauseTellsTheSlot(cause: bv32, code: Code, ce: bv32, delaySlot: bool, lines: bv32)
    requires lines & !IP_MASK == 0
    ensures CauseOf(cause, code, ce, delaySlot, lines) & 0x8000_0000 != 0 <==> delaySlot
  {
    CodeIsSmall(code);
    hide Number;
  }

  // The debugger translates as a load does, without the faults.
  lemma DebugTranslatesAsLoad(s: State, va: bv32)
    requires s.Valid()
    ensures var t := AddressTrans(s, va, DataLoad).0;
            DebugTlbTranslate(s, va) == if t.Mapped? then (true, t.address) else (false, 0xffff_ffff)
  {
    UserSegment(va);
    hide Page, SpaceOf, WithPage, WithBadVpn, KernelMode, UserAddress, SegmentOf, Physical, FindMatching;
  }

}
