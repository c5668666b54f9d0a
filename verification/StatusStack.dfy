/** The three-deep stack of processor modes in the Status register. */
module StatusStack {
  import opened Cp0

  // A mode: user or kernel, interrupts enabled or not.
  datatype Level = Level(user: bool, interrupts: bool)

  datatype Stack<L> = Stack(current: L, previous: L, oldest: L)

  function StackOf(status: bv32): Stack<Level> {
    Stack(Level(status & 2 != 0, status & 1 != 0), Level(status & 8 != 0, status & 4 != 0),
          Level(status & 0x20 != 0, status & 0x10 != 0))
  }

  const KERNEL := Level(false, false)

  function Push<L>(s: Stack<L>, l: L): Stack<L> { Stack(l, s.current, s.previous) }
  function Pop<L>(s: Stack<L>): Stack<L> { Stack(s.previous, s.oldest, s.oldest) }

  // What the hardware bits do; an entry spills its oldest mode into two bits that
  // cannot be read and are never shifted back.
  lemma EnterPushes(status: bv32)
    ensures StackOf(PushModes(status)) == Push(StackOf(status), KERNEL)
  {
  }

  lemma RfePops(status: bv32)
    ensures StackOf(PopModes(status)) == Pop(StackOf(status))
  {
  }

  lemma EntersKernel(status: bv32)
    ensures KernelMode(PushModes(status)) && PushModes(status) & 1 == 0
  {
  }

  // Exceptions that happen in sequence, each with those that interrupt its handler.
  datatype Handlers = None | Handler(inner: Handlers, next: Handlers)

  function Depth(hs: Handlers): nat {
    match hs
    case None => 0
    case Handler(inner, next) => if 1 + Depth(inner) > Depth(next) then 1 + Depth(inner) else Depth(next)
  }

  // Every handler is entered and ends with rfe.
  function After<L>(s: Stack<L>, hs: Handlers, kernel: L): Stack<L>
    decreases hs
  {
    if hs.None? then s else After(Pop(After(Push(s, kernel), hs.inner, kernel)), hs.next, kernel)
  }

  function Effect<L>(s: Stack<L>, depth: nat, kernel: L): Stack<L> {
    if depth == 0 then s
    else if depth == 1 then Stack(s.current, s.previous, s.previous)
    else if depth == 2 then Stack(s.current, s.current, s.current)
    else Stack(kernel, kernel, kernel)
  }

  // The whole effect depends on the depth alone.
  lemma {:induction false} NestingByDepth<L>(s: Stack<L>, hs: Handlers, kernel: L)
    ensures After(s, hs, kernel) == Effect(s, Depth(hs), kernel)
    decreases hs
  {
    if hs.Handler? {
      NestingByDepth(Push(s, kernel), hs.inner, kernel);
      NestingByDepth(Pop(After(Push(s, kernel), hs.inner, kernel)), hs.next, kernel);
    }
  }

  // Mode and interrupts come back exactly up to depth two (unless they were the
  // kernel's anyway), the previous pair too exactly up to depth one or where nothing shows.
  lemma RestoredByDepth(s: Stack<Level>, hs: Handlers)
    ensures After(s, hs, KERNEL).current == s.current <==> Depth(hs) <= 2 || s.current == KERNEL
    ensures After(s, hs, KERNEL).previous == s.previous
       <==> Depth(hs) <= 1 || (Depth(hs) == 2 && s.previous == s.current) || (Depth(hs) > 2 && s.previous == KERNEL)
  {
    NestingByDepth(s, hs, KERNEL);
  }

  // For instance: a user program's mode after three nested handlers.
  lemma UserModeIsLost()
    ensures var user, three := Level(true, true), Handler(Handler(Handler(None, None), None), None);
            Depth(three) == 3 && After(Stack(user, user, user), three, KERNEL).current == KERNEL
  {
    NestingByDepth(Stack(Level(true, true), Level(true, true), Level(true, true)),
                   Handler(Handler(Handler(None, None), None), None), KERNEL);
  }

  // The same for the Status register itself.
  function AfterStatus(status: bv32, hs: Handlers): bv32
    decreases hs
  {
    if hs.None? then status else AfterStatus(PopModes(AfterStatus(PushModes(status), hs.inner)), hs.next)
  }

  lemma {:induction false} StatusFollows(status: bv32, hs: Handlers)
    ensures StackOf(AfterStatus(status, hs)) == After(StackOf(status), hs, KERNEL)
    decreases hs
  {
    hide StackOf, PushModes, PopModes;
    if hs.Handler? {
      var inner := AfterStatus(PushModes(status), hs.inner);
      EnterPushes(status);
      StatusFollows(PushModes(status), hs.inner);
      RfePops(inner);
      StatusFollows(PopModes(inner), hs.next);
    }
  }
}
