/** The translation lookaside buffer, over any types of page numbers V, address space
    numbers A and page frames F. */
module Tlb {

  datatype Entry<V, A, F> = Entry(vpn: V, asid: A, frame: F, noncacheable: bool, dirty: bool, valid: bool, global: bool)

  predicate Matches<V(==), A(==), F>(e: Entry<V, A, F>, vpn: V, asid: A) {
    e.vpn == vpn && (e.global || e.asid == asid)
  }

  // The first entry that matches, or -1.
  ghost function FindMatching<V, A, F>(tlb: seq<Entry<V, A, F>>, vpn: V, asid: A): (i: int)
    ensures -1 <= i < |tlb|
    ensures i >= 0 ==> Matches(tlb[i], vpn, asid)
    ensures forall j :: 0 <= j < |tlb| && (i < 0 || j < i) ==> !Matches(tlb[j], vpn, asid)
  {
    if tlb == [] then -1
    else if Matches(tlb[0], vpn, asid) then 0
    else
      var i := FindMatching(tlb[1..], vpn, asid);
      assert tlb == [tlb[0]] + tlb[1..];
      if i < 0 then -1 else i + 1
  }

  datatype Lookup<F> = Hit(frame: F, cacheable: bool) | Modified | Invalid | Missing

  ghost function LookUp<V, A, F>(tlb: seq<Entry<V, A, F>>, vpn: V, asid: A, store: bool): Lookup<F> {
    var i := FindMatching(tlb, vpn, asid);
    if i < 0 then Missing
    else if !tlb[i].valid then Invalid
    else if store && !tlb[i].dirty then Modified
    else Hit(tlb[i].frame, !tlb[i].noncacheable)
  }

  lemma FirstMatch<V, A, F>(tlb: seq<Entry<V, A, F>>, vpn: V, asid: A, i: int)
    requires 0 <= i < |tlb| && Matches(tlb[i], vpn, asid)
    requires forall j :: 0 <= j < i ==> !Matches(tlb[j], vpn, asid)
    ensures FindMatching(tlb, vpn, asid) == i
  {
  }

  lemma NoMatch<V, A, F>(tlb: seq<Entry<V, A, F>>, vpn: V, asid: A)
    requires forall j :: 0 <= j < |tlb| ==> !Matches(tlb[j], vpn, asid)
    ensures FindMatching(tlb, vpn, asid) == -1
  {
  }

  lemma FindAfterWrite<V, A, F>(tlb: seq<Entry<V, A, F>>, i: int, e: Entry<V, A, F>, vpn: V, asid: A)
    requires 0 <= i < |tlb| && Matches(e, vpn, asid)
    ensures var m := FindMatching(tlb, vpn, asid);
            FindMatching(tlb[i := e], vpn, asid) == if m < 0 || i <= m then i else m
  {
    var m, n := FindMatching(tlb, vpn, asid), FindMatching(tlb[i := e], vpn, asid);
    assert Matches(tlb[i := e][i], vpn, asid);
    if 0 <= n < i { assert Matches(tlb[n], vpn, asid); }
    if 0 <= m < i { assert Matches(tlb[i := e][m], vpn, asid); }
  }

  // The entry allows this kind of access.
  predicate Serves<V, A, F>(e: Entry<V, A, F>, store: bool) {
    e.valid && (store ==> e.dirty)
  }

  // After a failed lookup, writing an entry that serves the access makes the lookup
  // succeed exactly unless an entry before it matches, as after an invalid or a
  // modified page it may; then the lookup fails as before.
  lemma LookUpAfterWrite<V, A, F>(tlb: seq<Entry<V, A, F>>, i: int, e: Entry<V, A, F>, vpn: V, asid: A, store: bool)
    requires 0 <= i < |tlb| && Matches(e, vpn, asid) && Serves(e, store)
    ensures var m := FindMatching(tlb, vpn, asid);
            LookUp(tlb[i := e], vpn, asid, store) == (if m < 0 || i <= m then Hit(e.frame, !e.noncacheable)
                                                      else LookUp(tlb, vpn, asid, store))
  {
    FindAfterWrite(tlb, i, e, vpn, asid);
  }

  // Some page in some address space would match both entries.
  predicate Clash<V(==), A(==), F>(e: Entry<V, A, F>, f: Entry<V, A, F>) {
    e.vpn == f.vpn && (e.global || f.global || e.asid == f.asid)
  }

  lemma ClashMeansBothMatch<V(!new), A(!new), F>(e: Entry<V, A, F>, f: Entry<V, A, F>)
    ensures Clash(e, f) <==> exists vpn: V, asid: A :: Matches(e, vpn, asid) && Matches(f, vpn, asid)
  {
    if Clash(e, f) {
      assert Matches(e, e.vpn, if e.global then f.asid else e.asid);
      assert Matches(f, e.vpn, if e.global then f.asid else e.asid);
    }
  }

  ghost predicate Unique<V, A, F>(tlb: seq<Entry<V, A, F>>) {
    forall i, j :: 0 <= i < j < |tlb| ==> !Clash(tlb[i], tlb[j])
  }

  // Under uniqueness the first match is the only one.
  lemma TheOneMatch<V, A, F>(tlb: seq<Entry<V, A, F>>, i: int, vpn: V, asid: A)
    requires Unique(tlb) && 0 <= i < |tlb| && Matches(tlb[i], vpn, asid)
    ensures FindMatching(tlb, vpn, asid) == i
  {
    var m := FindMatching(tlb, vpn, asid);
    if m < i { assert Clash(tlb[m], tlb[i]); }
  }

  // An entry written after a miss keeps the buffer unique exactly when, if it is
  // global, no other entry has its page.
  lemma WriteKeepsUnique<V, A, F>(tlb: seq<Entry<V, A, F>>, i: int, e: Entry<V, A, F>)
    requires Unique(tlb) && 0 <= i < |tlb| && FindMatching(tlb, e.vpn, e.asid) < 0
    ensures Unique(tlb[i := e])
       <==> (e.global ==> forall j :: 0 <= j < |tlb| && j != i ==> tlb[j].vpn != e.vpn)
  {
    var t := tlb[i := e];
    forall j | 0 <= j < |tlb| ensures Clash(e, tlb[j]) <==> e.global && tlb[j].vpn == e.vpn {
      assert !Matches(tlb[j], e.vpn, e.asid);
    }
    if e.global && !(forall j :: 0 <= j < |tlb| && j != i ==> tlb[j].vpn != e.vpn) {
      var j :| 0 <= j < |tlb| && j != i && tlb[j].vpn == e.vpn;
      assert Clash(t[if i < j then i else j], t[if i < j then j else i]);
    }
  }

  datatype Write<V, A, F> = Write(i: int, e: Entry<V, A, F>)

  // Done on a miss only, and globally only where no entry has the page.
  ghost predicate Careful<V, A, F>(tlb: seq<Entry<V, A, F>>, w: Write<V, A, F>) {
    && 0 <= w.i < |tlb| && FindMatching(tlb, w.e.vpn, w.e.asid) < 0
    && (w.e.global ==> forall j :: 0 <= j < |tlb| ==> tlb[j].vpn != w.e.vpn)
  }
}
