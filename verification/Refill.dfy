/** Translation faults and their repair: which handler runs, and when the access can be
    retried. */
module Refill {
  import opened Exceptions
  import opened Tlb
  import opened Cp0

  predicate TlbFault(t: Translation) {
    t.Fault? && (t.code == TLBL || t.code == TLBS || t.code == Mod)
  }

  // A fault of the buffer is one of its translation; in the user segment all are.
  lemma ByTheBuffer(s: State, va: bv32, mode: Mode)
    requires s.Valid()
    ensures TlbFault(AddressTrans(s, va, mode).0) || UserAddress(va)
            ==> AddressTrans(s, va, mode) == TlbTranslate(s, UserAddress(va), va, mode)
  {
    UserSegment(va);
  }

  // The special refill vector is asked for exactly by addresses of the user segment
  // that no entry matches.
  lemma RefillVectorExactly(s: State, va: bv32, mode: Mode)
    requires s.Valid() && AddressTrans(s, va, mode).0.Fault?
    requires AddressTrans(s, va, mode).0.code == TLBL || AddressTrans(s, va, mode).0.code == TLBS
    ensures AddressTrans(s, va, mode).1.missUser <==> UserAddress(va) && FindMatching(s.tlb, Page(va), s.Asid()) < 0
  {
    hide Page, SpaceOf, Physical, WithPage, WithBadVpn, KernelMode, UserAddress, SegmentOf;
    ByTheBuffer(s, va, mode);
  }

  lemma PageIsSet(hi: bv32, va: bv32)
    ensures Page(WithPage(hi, va)) == Page(va)
  {
  }

  lemma SpaceIsKept(hi: bv32, va: bv32)
    ensures SpaceOf(WithPage(hi, va)) == SpaceOf(hi)
  {
  }

  lemma BufferFaultNamesThePage(s: State, user: bool, va: bv32, mode: Mode)
    requires s.Valid() && TlbTranslate(s, user, va, mode).0.Fault?
    ensures var t := TlbTranslate(s, user, va, mode).1;
            t.Valid() && t == BadAddress(s.(missUser := t.missUser), va)
  {
    hide Page, SpaceOf, Physical, WithPage, WithBadVpn, KernelMode, UserAddress, SegmentOf;
  }

  // After a fault EntryHi names the page of the faulting address in the current
  // address space, BadVAddr and Context the address; nothing else has changed.
  lemma FaultNamesThePage(s: State, va: bv32, mode: Mode)
    requires s.Valid() && TlbFault(AddressTrans(s, va, mode).0)
    ensures var t := AddressTrans(s, va, mode).1;
            && t.Valid() && t.tlb == s.tlb
            && Page(t.reg[ENTRY_HI]) == Page(va) && t.Asid() == s.Asid()
            && t.reg[BAD_VADDR] == va && t.reg[CONTEXT] == WithBadVpn(s.reg[CONTEXT], va)
            && (forall r :: 0 <= r < REGISTERS && r !in {BAD_VADDR, CONTEXT, ENTRY_HI} ==> t.reg[r] == s.reg[r])
  {
    hide Page, SpaceOf, Physical, WithPage, WithBadVpn, KernelMode, UserAddress, SegmentOf;
    ByTheBuffer(s, va, mode);
    BufferFaultNamesThePage(s, UserAddress(va), va, mode);
    PageIsSet(s.reg[ENTRY_HI], va);
    SpaceIsKept(s.reg[ENTRY_HI], va);
  }

  // Context holds the page number above two zero bits, under the page table's base.
  lemma ContextHoldsThePage(context: bv32, va: bv32)
    ensures WithBadVpn(context, va) & 0x1f_ffff == (((va & 0x7fff_f000) >> 12) << 2) | (context & 3)
  {
  }

  // What a handler may have done since the fault, as far as translation is concerned.
  ghost predicate SameSpace(s: State, t: State)
    requires s.Valid() && t.Valid()
  {
    s.tlb == t.tlb && Page(s.reg[ENTRY_HI]) == Page(t.reg[ENTRY_HI]) && s.Asid() == t.Asid()
  }

  lemma EntryNamesThePage(hi: bv32, lo: bv32)
    ensures EntryOf(hi, lo).vpn == Page(hi) && EntryOf(hi, lo).asid == SpaceOf(hi)
  {
  }

  // After a fault on a user address, a handler that writes an entry serving the access,
  // at any index and with the EntryHi that the fault left, makes the retry succeed, in
  // whatever mode it runs - exactly unless an entry before that index matches, as it may
  // after a fault on an invalid or a clean entry; then the same fault comes back.
  lemma RetryAfterRefill(s: State, va: bv32, mode: Mode, handler: State, i: int, retry: State)
    requires s.Valid() && handler.Valid() && retry.Valid() && 0 <= i < TLB_ENTRIES
    requires UserAddress(va) && TlbFault(AddressTrans(s, va, mode).0)
    requires SameSpace(AddressTrans(s, va, mode).1, handler)
    requires Serves(EntryOf(handler.reg[ENTRY_HI], handler.reg[ENTRY_LO]), mode.DataStore?)
    requires retry.tlb == TlbWrite(handler, i).tlb && retry.Asid() == s.Asid()
    ensures var e := EntryOf(handler.reg[ENTRY_HI], handler.reg[ENTRY_LO]);
            var m := FindMatching(s.tlb, Page(va), s.Asid());
            if m < 0 || i <= m then AddressTrans(retry, va, mode).0 == Mapped(Physical(e.frame, va), !e.noncacheable)
            else AddressTrans(retry, va, mode).0 == AddressTrans(s, va, mode).0
  {
    hide Page, SpaceOf, Physical, WithPage, WithBadVpn, KernelMode, UserAddress, SegmentOf, EntryOf;
    EntryNamesThePage(handler.reg[ENTRY_HI], handler.reg[ENTRY_LO]);
    FaultNamesThePage(s, va, mode);
    ByTheBuffer(s, va, mode);
    ByTheBuffer(retry, va, mode);
    LookUpAfterWrite(s.tlb, i, EntryOf(handler.reg[ENTRY_HI], handler.reg[ENTRY_LO]), Page(va), s.Asid(),
        mode.DataStore?);
  }

  // A handler's write after a fault that no entry matched is careful exactly when, if the
  // entry is global, no entry has the page.
  lemma MissIsCareful(s: State, va: bv32, mode: Mode, handler: State, i: int)
    requires s.Valid() && handler.Valid() && 0 <= i < TLB_ENTRIES
    requires TlbFault(AddressTrans(s, va, mode).0) && FindMatching(s.tlb, Page(va), s.Asid()) < 0
    requires SameSpace(AddressTrans(s, va, mode).1, handler)
    ensures var e := EntryOf(handler.reg[ENTRY_HI], handler.reg[ENTRY_LO]);
            (Careful(handler.tlb, Write(i, e))
             <==> (e.global ==> forall j :: 0 <= j < TLB_ENTRIES ==> handler.tlb[j].vpn != e.vpn))
  {
    hide AddressTrans, Page, SpaceOf, EntryOf, FindMatching, WithBadVpn;
    EntryNamesThePage(handler.reg[ENTRY_HI], handler.reg[ENTRY_LO]);
    FaultNamesThePage(s, va, mode);
  }

  lemma IndexOfProbe(b: bv32)
    requires b < 64
    ensures ((b << 8) & INDEX_MASK) >> 8 == b && (b << 8) & 0x8000_0000 == 0
  {
  }

  // A word as a number.
  function Value(w: bv32): (x: int)
    ensures 0 <= x < 0x1_0000_0000
  {
    w as int
  }

  lemma ValueOfIndex(i: int)
    requires 0 <= i < 0x1_0000_0000
    ensures Value(WordOfIndex(i)) == i
  {
  }

  lemma ValueBelow(b: bv32)
    requires Value(b) < 64
    ensures b < 64
  {
  }

  lemma ProbeResultSelects(i: int)
    requires 0 <= i < TLB_ENTRIES
    ensures Selected(ProbeResult(i)) == i && !NotFound(ProbeResult(i))
  {
    hide Selected, NotFound, IndexWord, WordOfIndex, Value;
    ValueOfIndex(i);
    ValueBelow(WordOfIndex(i));
    SelectedOf(WordOfIndex(i));
  }

  lemma SelectedOf(b: bv32)
    requires b < 64
    ensures Selected(IndexWord(b)) == Value(b) && !NotFound(IndexWord(b))
  {
    IndexOfProbe(b);
  }

  predicate NotFound(index: bv32) { index & 0x8000_0000 != 0 }

  // tlbp: Index has its top bit set if nothing matches; under uniqueness it selects the
  // one entry that does.
  lemma ProbeFindsTheOne(s: State, i: int)
    requires s.Valid() && Unique(s.tlb)
    requires 0 <= i < TLB_ENTRIES && Matches(s.tlb[i], Page(s.reg[ENTRY_HI]), s.Asid())
    ensures Selected(TlbProbe(s).reg[INDEX]) == i && !NotFound(TlbProbe(s).reg[INDEX])
  {
    hide Page, SpaceOf, FindMatching, Selected, ProbeResult, NotFound;
    TheOneMatch(s.tlb, i, Page(s.reg[ENTRY_HI]), s.Asid());
    ProbeResultSelects(i);
  }

  lemma ProbeFindsNone(s: State)
    requires s.Valid()
    ensures NotFound(TlbProbe(s).reg[INDEX])
       <==> forall i :: 0 <= i < TLB_ENTRIES ==> !Matches(s.tlb[i], Page(s.reg[ENTRY_HI]), s.Asid())
  {
    hide Page, SpaceOf, FindMatching, Selected;
    var i := FindMatching(s.tlb, Page(s.reg[ENTRY_HI]), s.Asid());
    if i >= 0 {
      ProbeResultSelects(i);
    }
  }
}
