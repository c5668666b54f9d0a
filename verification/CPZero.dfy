/** The coprocessor as the program keeps it: arrays of register words and of buffer entries. */
module CPZeros {
  import opened Exceptions
  import opened Tlb
  import opened Cp0

  // A buffer entry in its two words, and its fields.
  datatype TlbEntry = TlbEntry(entryHi: bv32, entryLo: bv32) {
    function Vpn(): bv32 { Page(entryHi) }
    function Asid(): bv32 { SpaceOf(entryHi) }
    function Pfn(): bv32 { Page(entryLo) }
    predicate Noncacheable() { NoncacheableBit(entryLo) }
    predicate Dirty() { DirtyBit(entryLo) }
    predicate Valid() { ValidBit(entryLo) }
    predicate Global() { GlobalBit(entryLo) }

    function Meaning(): TlbPage { EntryOf(entryHi, entryLo) }
  }

  ghost function Meanings(es: seq<TlbEntry>): (r: seq<TlbPage>)
    ensures |r| == |es|
    ensures forall i :: 0 <= i < |r| ==> r[i] == es[i].Meaning()
  {
    seq(|es|, i requires 0 <= i < |es| => es[i].Meaning())
  }

  lemma HiMaskMeansNothing(hi: bv32, lo: bv32)
    ensures EntryOf(Readable(hi, ENTRY_HI), lo) == EntryOf(hi, lo)
  {
    assert hi & 0xffff_ffc0 & 0xffff_f000 == hi & 0xffff_f000;
    assert hi & 0xffff_ffc0 & 0xfc0 == hi & 0xfc0;
  }

  lemma LoMaskMeansNothing(hi: bv32, lo: bv32)
    ensures EntryOf(hi, Readable(lo, ENTRY_LO)) == EntryOf(hi, lo)
  {
    assert lo & 0xffff_ff00 & 0xffff_f000 == lo & 0xffff_f000;
    assert lo & 0xffff_ff00 & 0x800 == lo & 0x800;
    assert lo & 0xffff_ff00 & 0x400 == lo & 0x400;
    assert lo & 0xffff_ff00 & 0x200 == lo & 0x200;
    assert lo & 0xffff_ff00 & 0x100 == lo & 0x100;
  }

  lemma HiOfEntry(hi: bv32, lo: bv32)
    ensures HiOf(EntryOf(hi, lo)) == Writable(hi, ENTRY_HI)
  {
  }

  lemma LoOfEntry(hi: bv32, lo: bv32)
    ensures LoOf(EntryOf(hi, lo)) == Writable(lo, ENTRY_LO)
  {
  }

  lemma MeaningsUpdate(es: seq<TlbEntry>, i: int, e: TlbEntry)
    requires 0 <= i < |es|
    ensures Meanings(es[i := e]) == Meanings(es)[i := e.Meaning()]
  {
    hide TlbEntry.Meaning;
  }

  class CPZero {
    const reg: array<bv32>
    const tlb: array<TlbEntry>
    var tlbMissUser: bool

    ghost predicate Valid()
      reads this
    {
      reg.Length == REGISTERS && tlb.Length == TLB_ENTRIES
    }

    ghost function View(): (s: State)
      requires Valid()
      reads this, reg, tlb
      ensures s.Valid()
    {
      State(reg[..], Meanings(tlb[..]), tlbMissUser)
    }

    constructor ()
      ensures Valid() && fresh(reg) && fresh(tlb)
    {
      reg := new bv32[REGISTERS];
      tlb := new TlbEntry[TLB_ENTRIES];
      tlbMissUser := false;
    }

    method Reset()
      requires Valid()
      modifies reg
      ensures View() == Cp0.Reset(old(View()))
    {
      hide NothingPending, ResetStatus;
      reg[CAUSE] := NothingPending(reg[CAUSE]);
      reg[RANDOM] := 63 << 8;
      reg[STATUS] := ResetStatus(reg[STATUS]);
      reg[PRID] := 0x230;
    }

    predicate KernelMode()
      requires Valid()
      reads this, reg
    {
      Cp0.KernelMode(reg[STATUS])
    }

    method FindMatchingTlbEntry(vpn: bv32, asid: bv32) returns (index: int)
      requires Valid()
      ensures index == FindMatching(Meanings(tlb[..]), vpn, asid)
    {
      ghost var es := Meanings(tlb[..]);
      for x := 0 to TLB_ENTRIES
        invariant forall j :: 0 <= j < x ==> !Matches(es[j], vpn, asid)
      {
        assert es[x] == tlb[x].Meaning();
        if tlb[x].Vpn() == vpn && (tlb[x].Global() || tlb[x].Asid() == asid) {
          FirstMatch(es, vpn, asid, x);
          return x;
        }
      }
      NoMatch(es, vpn, asid);
      return -1;
    }

    method LoadAddrTransExcpInfo(va: bv32)
      requires Valid()
      modifies reg
      ensures View() == BadAddress(old(View()), va)
    {
      hide WithBadVpn, WithPage, Meanings;
      reg[BAD_VADDR] := va;
      reg[CONTEXT] := WithBadVpn(reg[CONTEXT], va);
      reg[ENTRY_HI] := WithPage(reg[ENTRY_HI], va);
    }

    method TlbTranslate(user: bool, va: bv32, mode: Mode) returns (t: Translation)
      requires Valid()
      modifies this`tlbMissUser, reg
      ensures (t, View()) == Cp0.TlbTranslate(old(View()), user, va, mode)
    {
      hide BadAddress, FindMatching, Page, SpaceOf, Physical, NoncacheableBit, DirtyBit, ValidBit, GlobalBit;
      var index := FindMatchingTlbEntry(Page(va), SpaceOf(reg[ENTRY_HI]));
      tlbMissUser := false;
      if index >= 0 && tlb[index].Valid() {
        if mode.DataStore? && !tlb[index].Dirty() {
          LoadAddrTransExcpInfo(va);
          return Fault(Mod, DataStore);
        }
        return Mapped(Physical(tlb[index].Pfn(), va), !tlb[index].Noncacheable());
      }
      tlbMissUser := user && index < 0;
      assert View() == old(View()).(missUser := tlbMissUser);
      LoadAddrTransExcpInfo(va);
      return Fault(if mode.DataStore? then TLBS else TLBL, mode);
    }

    method AddressTrans(va: bv32, mode: Mode) returns (t: Translation)
      requires Valid()
      modifies this`tlbMissUser, reg
      ensures (t, View()) == Cp0.AddressTrans(old(View()), va, mode)
    {
      if KernelMode() {
        match SegmentOf(va)
        case Kseg0 => t := Mapped(va - 0x8000_0000, true);
        case Kseg1 => t := Mapped(va - 0xa000_0000, false);
        case Kseg2 => t := TlbTranslate(false, va, mode);
        case Kuseg => t := TlbTranslate(true, va, mode);
      } else if !UserAddress(va) {
        t := Fault(if mode.DataStore? then AdES else AdEL, mode);
      } else {
        t := TlbTranslate(true, va, mode);
      }
    }

    predicate InterruptPending(lines: bv32)
      requires Valid()
      reads this, reg
    {
      Cp0.InterruptPending(reg[STATUS], reg[CAUSE], lines)
    }

    method ReadReg(r: int, lines: bv32) returns (data: bv32)
      requires Valid() && 0 <= r < REGISTERS
      modifies reg
      ensures (data, View()) == Cp0.ReadReg(old(View()), r, lines)
    {
      if r == CAUSE {
        reg[CAUSE] := CauseWithPending(reg[CAUSE], lines);
      }
      data := Readable(reg[r], r);
    }

    method WriteReg(r: int, data: bv32)
      requires Valid() && 0 <= r < REGISTERS
      modifies reg
      ensures View() == Cp0.WriteReg(old(View()), r, data)
    {
      reg[r] := Written(reg[r], r, data);
    }

    method TlbrEmulate()
      requires Valid()
      modifies reg
      ensures View() == TlbRead(old(View()))
    {
      var e := tlb[Selected(reg[INDEX])];
      HiOfEntry(e.entryHi, e.entryLo);
      LoOfEntry(e.entryHi, e.entryLo);
      hide EntryOf, HiOf, LoOf, Writable, Selected;
      reg[ENTRY_HI] := Writable(e.entryHi, ENTRY_HI);
      reg[ENTRY_LO] := Writable(e.entryLo, ENTRY_LO);
    }

    method TlbWrite(index: int)
      requires Valid() && 0 <= index < TLB_ENTRIES
      modifies tlb
      ensures View() == Cp0.TlbWrite(old(View()), index)
    {
      ghost var es := tlb[..];
      var hi, lo := reg[ENTRY_HI], reg[ENTRY_LO];
      tlb[index] := TlbEntry(Readable(hi, ENTRY_HI), Readable(lo, ENTRY_LO));
      HiMaskMeansNothing(hi, Readable(lo, ENTRY_LO));
      LoMaskMeansNothing(hi, lo);
      hide EntryOf, Readable;
      MeaningsUpdate(es, index, tlb[index]);
      assert tlb[..] == es[index := tlb[index]];
    }

    method TlbwiEmulate()
      requires Valid()
      modifies tlb
      ensures View() == Cp0.TlbWrite(old(View()), Selected(old(reg[INDEX])))
    {
      TlbWrite(Selected(reg[INDEX]));
    }

    method TlbwrEmulate()
      requires Valid()
      modifies tlb
      ensures View() == Cp0.TlbWrite(old(View()), Selected(old(reg[RANDOM])))
    {
      TlbWrite(Selected(reg[RANDOM]));
    }

    method TlbpEmulate()
      requires Valid()
      modifies reg
      ensures View() == TlbProbe(old(View()))
    {
      var index := FindMatchingTlbEntry(Page(reg[ENTRY_HI]), SpaceOf(reg[ENTRY_HI]));
      reg[INDEX] := ProbeResult(index);
    }

    method RfeEmulate()
      requires Valid()
      modifies reg
      ensures View() == ReturnFromException(old(View()))
    {
      reg[STATUS] := PopModes(reg[STATUS]);
    }

    method AdjustRandom()
      requires Valid()
      modifies reg
      ensures View() == Cp0.AdjustRandom(old(View()))
    {
      reg[RANDOM] := NextRandomWord(reg[RANDOM]);
    }

    method EnterException(pc: bv32, code: Code, ce: bv32, delaySlot: bool, lines: bv32)
      requires Valid()
      modifies reg
      ensures View() == Cp0.EnterException(old(View()), pc, code, ce, delaySlot, lines)
    {
      reg[EPC] := pc;
      reg[STATUS] := PushModes(reg[STATUS]);
      reg[CAUSE] := CauseOf(reg[CAUSE], code, ce, delaySlot, lines);
    }
  }
}
