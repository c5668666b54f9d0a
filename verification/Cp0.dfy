/** The system control coprocessor as a value: its registers, the translation
    lookaside buffer, and what each operation does to them. */
module Cp0 {
  import opened Exceptions
  import opened Tlb

  // Register numbers.
  const INDEX := 0
  const RANDOM := 1
  const ENTRY_LO := 2
  const CONTEXT := 4
  const BAD_VADDR := 8
  const ENTRY_HI := 10
  const STATUS := 12
  const CAUSE := 13
  const EPC := 14
  const PRID := 15

  const REGISTERS := 32
  const TLB_ENTRIES := 64

  const VPN_MASK: bv32 := 0xffff_f000
  const ASID_MASK: bv32 := 0x0000_0fc0
  const INDEX_MASK: bv32 := 0x0000_3f00
  const BAD_VPN_MASK: bv32 := 0x001f_fffc
  const KU_IE_MASK: bv32 := 0x3f
  const IP_MASK: bv32 := 0xff00
  const SOFTWARE_IP_MASK: bv32 := 0x0300

  // The bits of register r that a program can read, and those it can write.
  function ReadMask(r: int): bv32 {
    if r == INDEX then 0x8000_3f00 else if r == RANDOM then 0x3f00 else if r == ENTRY_LO then 0xffff_ff00
    else if r == CONTEXT then 0xffff_fffc else if r == BAD_VADDR then 0xffff_ffff else if r == ENTRY_HI then 0xffff_ffc0
    else if r == STATUS then 0xf27f_ff3f else if r == CAUSE then 0xb000_ff7c else if r == EPC then 0xffff_ffff
    else if r == PRID then 0xffff else 0
  }

  function WriteMask(r: int): bv32 {
    if r == RANDOM || r == BAD_VADDR || r == EPC || r == PRID then 0
    else if r == CONTEXT then 0xffe0_0000
    else if r == CAUSE then 0xb000_037c
    else ReadMask(r)
  }

  // The page and the offset of an address, the address space in EntryHi.
  function Page(va: bv32): bv32 { va & VPN_MASK }
  function Physical(frame: bv32, va: bv32): bv32 { frame | (va & !VPN_MASK) }
  function SpaceOf(hi: bv32): bv32 { hi & ASID_MASK }

  // An entry of the buffer, from and to its two words.
  type TlbPage = Entry<bv32, bv32, bv32>

  predicate NoncacheableBit(lo: bv32) { lo & 0x800 != 0 }
  predicate DirtyBit(lo: bv32) { lo & 0x400 != 0 }
  predicate ValidBit(lo: bv32) { lo & 0x200 != 0 }
  predicate GlobalBit(lo: bv32) { lo & 0x100 != 0 }

  function EntryOf(hi: bv32, lo: bv32): TlbPage {
    Entry(Page(hi), SpaceOf(hi), Page(lo), NoncacheableBit(lo), DirtyBit(lo), ValidBit(lo), GlobalBit(lo))
  }

  function HiOf(e: TlbPage): bv32 { e.vpn | e.asid }

  function Flag(on: bool, mask: bv32): bv32 { if on then mask else 0 }

  function LoOf(e: TlbPage): bv32 {
    e.frame | Flag(e.noncacheable, 0x800) | Flag(e.dirty, 0x400) | Flag(e.valid, 0x200) | Flag(e.global, 0x100)
  }

  datatype State = State(reg: seq<bv32>, tlb: seq<TlbPage>, missUser: bool) {
    ghost predicate Valid() { |reg| == REGISTERS && |tlb| == TLB_ENTRIES }

    function Asid(): bv32
      requires |reg| == REGISTERS
    {
      SpaceOf(reg[ENTRY_HI])
    }
  }

  predicate CachesIsolated(status: bv32) { status & 0x1_0000 != 0 }
  predicate CachesSwapped(status: bv32) { status & 0x2_0000 != 0 }
  predicate CopOneUsable(status: bv32) { status & 0x2000_0000 != 0 }
  predicate InterruptsEnabled(status: bv32) { status & 1 != 0 }

  // An interrupt is pending that the mask lets through.
  predicate InterruptPending(status: bv32, cause: bv32, lines: bv32) {
    InterruptsEnabled(status) && Pending(cause, lines) & (status & IP_MASK) != 0
  }

  predicate KernelMode(status: bv32) { status & 2 == 0 }

  datatype Translation = Mapped(address: bv32, cacheable: bool) | Fault(code: Code, mode: Mode)

  // EntryHi with the page of an address, and Context with its number.
  function WithPage(hi: bv32, va: bv32): bv32 { (va & VPN_MASK) | (hi & !VPN_MASK) }
  function WithBadVpn(context: bv32, va: bv32): bv32 { (context & !BAD_VPN_MASK) | ((va & 0x7fff_f000) >> 10) }

  // What a translation fault leaves for its handler.
  function BadAddress(s: State, va: bv32): State
    requires s.Valid()
  {
    s.(reg := s.reg[BAD_VADDR := va]
                   [CONTEXT := WithBadVpn(s.reg[CONTEXT], va)]
                   [ENTRY_HI := WithPage(s.reg[ENTRY_HI], va)])
  }

  // Translation by the buffer; user tells whether va is in the user segment.
  ghost function TlbTranslate(s: State, user: bool, va: bv32, mode: Mode): (r: (Translation, State))
    requires s.Valid()
    ensures r.1.Valid()
  {
    match LookUp(s.tlb, Page(va), s.Asid(), mode.DataStore?)
    case Hit(frame, cacheable) => (Mapped(Physical(frame, va), cacheable), s.(missUser := false))
    case Modified => (Fault(Mod, DataStore), BadAddress(s.(missUser := false), va))
    case Invalid => (Fault(MissCode(mode), mode), BadAddress(s.(missUser := false), va))
    case Missing => (Fault(MissCode(mode), mode), BadAddress(s.(missUser := user), va))
  }

  function MissCode(mode: Mode): Code { if mode.DataStore? then TLBS else TLBL }

  // The user segment: addresses with the top bit clear.
  predicate UserAddress(va: bv32) { va & 0x8000_0000 == 0 }

  datatype Segment = Kuseg | Kseg0 | Kseg1 | Kseg2

  function SegmentOf(va: bv32): Segment {
    var top := va & 0xe000_0000;
    if top == 0x8000_0000 then Kseg0 else if top == 0xa000_0000 then Kseg1
    else if top == 0xc000_0000 || top == 0xe000_0000 then Kseg2 else Kuseg
  }

  lemma UserSegment(va: bv32)
    ensures UserAddress(va) <==> SegmentOf(va) == Kuseg
  {
  }

  ghost function AddressTrans(s: State, va: bv32, mode: Mode): (r: (Translation, State))
    requires s.Valid()
    ensures r.1.Valid()
  {
    if KernelMode(s.reg[STATUS]) then
      match SegmentOf(va)
      case Kseg0 => (Mapped(va - 0x8000_0000, true), s)
      case Kseg1 => (Mapped(va - 0xa000_0000, false), s)
      case Kseg2 => TlbTranslate(s, false, va, mode)
      case Kuseg => TlbTranslate(s, true, va, mode)
    else if !UserAddress(va) then (Fault(if mode.DataStore? then AdES else AdEL, mode), s)
    else TlbTranslate(s, true, va, mode)
  }

  function Pending(cause: bv32, lines: bv32): bv32 { (cause & SOFTWARE_IP_MASK) | lines }

  // The three pairs of mode and interrupt enable bits, pushed and popped.
  function PushModes(status: bv32): bv32 { (status & !KU_IE_MASK) | ((status & KU_IE_MASK) << 2) }
  function PopModes(status: bv32): bv32 { (status & 0xffff_fff0) | ((status >> 2) & 0xf) }

  // The Cause register after an exception: the interrupt bits are cleared before the
  // pending ones are read back.
  function CauseOf(cause: bv32, code: Code, ce: bv32, delaySlot: bool, lines: bv32): bv32 {
    var cleared := cause & !0xb000_007c;
    var cop := (if code == CpU then cleared | ((ce & 3) << 28) else cleared) & !IP_MASK;
    cop | Pending(cop, lines) | (if delaySlot then 0x8000_0000 else 0) | (Number(code) << 2)
  }

  function CauseWithPending(cause: bv32, lines: bv32): bv32 { (cause & !IP_MASK) | Pending(cause, lines) }

  // CPZero::debug_tlb_translate: whether va is mapped, and where.
  ghost function DebugTlbTranslate(s: State, va: bv32): (bool, bv32)
    requires s.Valid()
  {
    var kernel := KernelMode(s.reg[STATUS]);
    if !kernel && !UserAddress(va) then (false, 0xffff_ffff)
    else if kernel && SegmentOf(va) == Kseg0 then (true, va - 0x8000_0000)
    else if kernel && SegmentOf(va) == Kseg1 then (true, va - 0xa000_0000)
    else
      var i := FindMatching(s.tlb, Page(va), s.Asid());
      if i < 0 || !s.tlb[i].valid then (false, 0xffff_ffff) else (true, Physical(s.tlb[i].frame, va))
  }

  // CPZero::enter_exception; lines is what the interrupt controller asserts.
  function EnterException(s: State, pc: bv32, code: Code, ce: bv32, delaySlot: bool, lines: bv32): State
    requires s.Valid()
  {
    s.(reg := s.reg[EPC := pc][STATUS := PushModes(s.reg[STATUS])]
                   [CAUSE := CauseOf(s.reg[CAUSE], code, ce, delaySlot, lines)])
  }

  function ReturnFromException(s: State): State
    requires s.Valid()
  {
    s.(reg := s.reg[STATUS := PopModes(s.reg[STATUS])])
  }

  // The part of a word that register r can be written with.
  function Writable(w: bv32, r: int): bv32 { w & WriteMask(r) }

  // The part of a register that can be read, and a register after a write.
  function Readable(w: bv32, r: int): bv32 { w & ReadMask(r) }
  function Written(w: bv32, r: int, data: bv32): bv32 { (w & (ReadMask(r) & !WriteMask(r))) | (data & WriteMask(r)) }

  function ReadReg(s: State, r: int, lines: bv32): (bv32, State)
    requires s.Valid() && 0 <= r < REGISTERS
  {
    var t := if r == CAUSE then s.(reg := s.reg[CAUSE := CauseWithPending(s.reg[CAUSE], lines)]) else s;
    (Readable(t.reg[r], r), t)
  }

  function WriteReg(s: State, r: int, data: bv32): State
    requires s.Valid() && 0 <= r < REGISTERS
  {
    s.(reg := s.reg[r := Written(s.reg[r], r, data)])
  }

  // The buffer index held in bits 13 to 8 of register w.
  function Selected(w: bv32): (i: int)
    ensures 0 <= i < TLB_ENTRIES
  {
    ((w & INDEX_MASK) >> 8) as int
  }

  function TlbWrite(s: State, i: int): State
    requires s.Valid() && 0 <= i < TLB_ENTRIES
  {
    s.(tlb := s.tlb[i := EntryOf(s.reg[ENTRY_HI], s.reg[ENTRY_LO])])
  }

  function TlbRead(s: State): State
    requires s.Valid()
  {
    var e := s.tlb[Selected(s.reg[INDEX])];
    s.(reg := s.reg[ENTRY_HI := HiOf(e)][ENTRY_LO := LoOf(e)])
  }

  function ProbeResult(i: int): bv32
    requires i < TLB_ENTRIES
  {
    if i < 0 then 0x8000_0000 else IndexWord(WordOfIndex(i))
  }

  function WordOfIndex(i: int): bv32 { (i % 0x1_0000_0000) as bv32 }

  function IndexWord(b: bv32): bv32 { b << 8 }

  ghost function TlbProbe(s: State): State
    requires s.Valid()
  {
    var i := FindMatching(s.tlb, Page(s.reg[ENTRY_HI]), s.Asid());
    s.(reg := s.reg[INDEX := ProbeResult(i)])
  }

  // The next value of the random register's field; C's remainder keeps the sign of the dividend.
  function Remainder(a: int, b: int): int
    requires b > 0
  {
    if a >= 0 then a % b else -(-a % b)
  }

  function NextRandom(r: int): (n: int)
    ensures 0 < n < 0x80
  {
    -(Remainder(63 - r + 1, 63 - 8 + 1) - 63)
  }

  function NextRandomWord(w: bv32): bv32 { (NextRandom((w >> 8) as int) as bv32) << 8 }

  function AdjustRandom(s: State): State
    requires s.Valid()
  {
    s.(reg := s.reg[RANDOM := NextRandomWord(s.reg[RANDOM])])
  }

  function NothingPending(cause: bv32): bv32 { cause & !IP_MASK }

  // Boot vectors in effect; kernel mode, interrupts off, caches not swapped, no shutdown.
  function ResetStatus(status: bv32): bv32 { (status | 0x0040_0000) & !0x0022_0003 }

  function Reset(s: State): State
    requires s.Valid()
  {
    s.(reg := s.reg[CAUSE := NothingPending(s.reg[CAUSE])]
                   [RANDOM := 63 << 8]
                   [STATUS := ResetStatus(s.reg[STATUS])]
                   [PRID := 0x230])
  }
}
