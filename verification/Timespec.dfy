/** Seconds and nanoseconds, and the two macros that add and subtract them. */
module Timespecs {

  const SECOND := 1_000_000_000

  datatype Timespec = Timespec(sec: int, nsec: int) {
    function Nanoseconds(): int {
      sec * SECOND + nsec
    }

    predicate Normal() {
      0 <= nsec < SECOND
    }
  }

  // The value is kept exactly whatever the operands; one carry is enough to
  // normalise only when both operands are normal.
  function TimespecAdd(v: Timespec, u: Timespec): (r: Timespec)
    ensures r.Nanoseconds() == v.Nanoseconds() + u.Nanoseconds()
    ensures v.Normal() && u.Normal() ==> r.Normal()
  {
    var sec, nsec := v.sec + u.sec, v.nsec + u.nsec;
    if nsec >= SECOND then Timespec(sec + 1, nsec - SECOND) else Timespec(sec, nsec)
  }

  function TimespecSub(v: Timespec, u: Timespec): (r: Timespec)
    ensures r.Nanoseconds() == v.Nanoseconds() - u.Nanoseconds()
    ensures v.Normal() && u.Normal() ==> r.Normal()
  {
    var sec, nsec := v.sec - u.sec, v.nsec - u.nsec;
    if nsec < 0 then Timespec(sec - 1, nsec + SECOND) else Timespec(sec, nsec)
  }
}
