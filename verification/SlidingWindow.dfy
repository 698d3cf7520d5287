/** Sequence numbers as they travel on the wire: 31 bits, wrapping from 0x7fffffff to 0. */
module SequenceNumbers {
  const MODULUS: nat := 0x8000_0000
  const MAX_SEQUENCE_NUMBER: nat := 0x7fff_ffff
  const DEFAULT_WINDOW_SIZE: nat := 64
  const MAXIMUM_WINDOW_SIZE: nat := 512

  type SeqNum = n: nat | n <= MAX_SEQUENCE_NUMBER

  /** The wire number of the packet with unbounded index i. */
  function Wire(i: nat): SeqNum {
    if i < MODULUS then i else Wire(i - MODULUS)
  }

  /** How many steps of Next lead from `begin` to `n`: the cyclic distance. */
  function Offset(begin: SeqNum, n: SeqNum): (k: nat)
    ensures k < MODULUS
    ensures Wire(begin + k) == n
  {
    if begin <= n then n - begin else MODULUS - begin + n
  }

  function Next(n: SeqNum): (m: SeqNum)
    ensures m == Wire(n + 1)
  {
    if n == MAX_SEQUENCE_NUMBER then 0 else n + 1
  }

  /** The half-open cyclic range test: it holds exactly when n is reached from begin before end is. */
  predicate IsInRange(begin: SeqNum, end: SeqNum, n: SeqNum)
    ensures IsInRange(begin, end, n) <==> Offset(begin, n) < Offset(begin, end)
  {
    if begin <= end then begin <= n && n < end
    else n < end || (n >= begin && n <= MAX_SEQUENCE_NUMBER)
  }

  lemma {:induction false} WireIsModulo(i: nat)
    ensures Wire(i) == i % MODULUS
  {
    if i >= MODULUS {
      WireIsModulo(i - MODULUS);
    }
  }

  lemma {:induction false} WireAdd(i: nat, k: nat)
    ensures Wire(Wire(i) + k) == Wire(i + k)
  {
    if i >= MODULUS {
      WireAdd(i - MODULUS, k);
    }
  }

  lemma OffsetUnique(begin: SeqNum, k: nat)
    requires k < MODULUS
    ensures Offset(begin, Wire(begin + k)) == k
  {
    if begin + k >= MODULUS {
      assert Wire(begin + k) == begin + k - MODULUS;
    }
  }

  /** The k-th index after lo is k steps of Next away from it on the wire, too. */
  lemma OffsetAhead(lo: nat, k: nat)
    requires k < MODULUS
    ensures Offset(Wire(lo), Wire(lo + k)) == k
  {
    var begin, n := Wire(lo), Wire(lo + k);
    assert n == Wire(begin + k) by { WireAdd(lo, k); }
    OffsetUnique(begin, k);
  }

  /** Distances between wire numbers are distances between indices, as long as those stay under 2^31. */
  lemma OffsetOfWires(lo: nat, i: nat)
    requires lo <= i < lo + MODULUS
    ensures Offset(Wire(lo), Wire(i)) == i - lo
  {
    OffsetAhead(lo, i - lo);
  }

  lemma WireCycle(i: nat)
    ensures Wire(i + MODULUS) == Wire(i)
  {
  }

  /** An index behind `hi` is almost a whole cycle ahead of it on the wire. */
  lemma OffsetBackwards(hi: nat, i: nat)
    requires i < hi < i + MODULUS
    ensures Offset(Wire(hi), Wire(i)) == MODULUS - (hi - i)
  {
    var j := i + MODULUS;
    WireCycle(i);
    assert Offset(Wire(hi), Wire(j)) == j - hi by { OffsetOfWires(hi, j); }
  }

  /** n is the k-th number from `begin` on. */
  predicate IsAhead(begin: SeqNum, k: nat, n: SeqNum) { n == Wire(begin + k) }

  /** A number is at a distance below m exactly when it is one of the m numbers from `begin` on. */
  lemma StepsAhead(begin: SeqNum, m: nat, n: SeqNum)
    requires m <= MODULUS
    ensures Offset(begin, n) < m <==> exists k :: 0 <= k < m && IsAhead(begin, k, n)
  {
    if k: nat :| k < m && IsAhead(begin, k, n) {
      OffsetUnique(begin, k);
    }
    if Offset(begin, n) < m {
      assert IsAhead(begin, Offset(begin, n), n);
    }
  }

  /** Two indices less than 2^31 apart with the same wire number are the same index. */
  lemma WireInjective(i: nat, j: nat)
    requires Wire(i) == Wire(j)
    requires i < j + 0x8000_0000 && j < i + 0x8000_0000
    ensures i == j
  {
    if i <= j {
      OffsetOfWires(i, j);
    } else {
      OffsetOfWires(j, i);
    }
  }
}

/** A deque whose items are addressed by wrapping sequence numbers. */
module SlidingWindows {
  import opened SequenceNumbers

  /** The abstract window: a plain sequence whose first item carries the number `begin`. */
  datatype Window<T> = Window(begin: SeqNum, items: seq<T>, maximumSize: nat) {
    predicate Valid() {
      |items| <= MAXIMUM_WINDOW_SIZE && maximumSize <= MAXIMUM_WINDOW_SIZE
    }

    function End(): SeqNum { Wire(begin + |items|) }

    /** The number of the k-th item. */
    function NumberAt(k: nat): SeqNum { Wire(begin + k) }

    predicate Contains(n: SeqNum) { Offset(begin, n) < |items| }

    predicate IsComingSoon(n: SeqNum) { Offset(End(), n) < MAXIMUM_WINDOW_SIZE }

    predicate IsFull() { |items| >= maximumSize }

    function WithMaximumSize(size: nat): Window<T> {
      this.(maximumSize := if size < MAXIMUM_WINDOW_SIZE then size else MAXIMUM_WINDOW_SIZE)
    }

    function Append(item: T): Window<T> { this.(items := items + [item]) }

    function RemoveFront(k: nat): Window<T>
      requires k <= |items|
    {
      this.(begin := NumberAt(k), items := items[k..])
    }
  }

  /** Membership is by position: n is in the window exactly when it is the number of one position. */
  lemma {:induction false} ContainsIsPosition<T>(w: Window<T>, n: SeqNum)
    requires w.Valid()
    ensures w.Contains(n) <==> exists k :: 0 <= k < |w.items| && w.NumberAt(k) == n
    ensures forall k :: 0 <= k < |w.items| && w.NumberAt(k) == n ==> k == Offset(w.begin, n)
  {
    forall k | 0 <= k < |w.items| ensures Offset(w.begin, w.NumberAt(k)) == k {
      OffsetUnique(w.begin, k);
    }
    if w.Contains(n) {
      assert w.NumberAt(Offset(w.begin, n)) == n;
    }
  }

  class SlidingWindow<T> {
    var items: seq<T>
    var maximumSize: nat
    var begin: SeqNum
    var end: SeqNum

    ghost predicate Valid()
      reads this
    {
      View().Valid() && end == View().End()
    }

    ghost function View(): Window<T>
      reads this
    {
      Window(begin, items, maximumSize)
    }

    constructor (initial: SeqNum)
      ensures Valid()
      ensures View() == Window(initial, [], DEFAULT_WINDOW_SIZE)
    {
      items := [];
      maximumSize := DEFAULT_WINDOW_SIZE;
      begin := initial;
      end := initial;
    }

    method Reset(initial: SeqNum)
      modifies this
      ensures Valid()
      ensures View() == Window(initial, [], DEFAULT_WINDOW_SIZE)
    {
      maximumSize := DEFAULT_WINDOW_SIZE;
      begin := initial;
      end := initial;
      items := [];
    }

    /** Comparing n with begin and end, wrapped around or not, decides membership by position. */
    predicate Contains(n: SeqNum)
      requires Valid()
      reads this
      ensures Contains(n) <==> View().Contains(n)
    {
      OffsetUnique(begin, |items|);
      IsInRange(begin, end, n)
    }

    predicate IsComingSoon(n: SeqNum)
      requires Valid()
      reads this
      ensures IsComingSoon(n) <==> View().IsComingSoon(n)
      ensures IsComingSoon(n) <==> exists k :: 0 <= k < 512 && IsAhead(end, k, n)
    {
      OffsetUnique(end, MAXIMUM_WINDOW_SIZE);
      WireIsModulo(end + MAXIMUM_WINDOW_SIZE);
      StepsAhead(end, 512, n);
      IsInRange(end, (end + MAXIMUM_WINDOW_SIZE) % (MAX_SEQUENCE_NUMBER + 1), n)
    }

    method SetMaximumSize(size: nat)
      requires Valid()
      modifies this`maximumSize
      ensures Valid()
      ensures View() == old(View()).WithMaximumSize(size)
    {
      maximumSize := if size < MAXIMUM_WINDOW_SIZE then size else MAXIMUM_WINDOW_SIZE;
    }

    function Size(): nat
      requires Valid()
      reads this
      ensures Size() == Offset(begin, end) <= 512
    {
      OffsetUnique(begin, |items|);
      |items|
    }

    predicate IsEmpty()
      requires Valid()
      reads this
      ensures IsEmpty() <==> begin == end
    {
      OffsetUnique(begin, |items|);
      |items| == 0
    }

    predicate IsFull()
      requires Valid()
      reads this
    {
      |items| >= maximumSize
    }

    method Append(item: T) returns (n: SeqNum)
      requires Valid() && !IsFull()
      modifies this
      ensures Valid()
      ensures View() == old(View()).Append(item)
      ensures n == old(end) && View().NumberAt(|items| - 1) == n
    {
      WireAdd(begin + |items|, 1);
      items := items + [item];
      n := end;
      end := Next(end);
    }

    method Remove()
      requires Valid() && !IsEmpty()
      modifies this
      ensures Valid()
      ensures View() == old(View()).RemoveFront(1)
    {
      WireAdd(begin + 1, |items| - 1);
      items := items[1..];
      begin := Next(begin);
    }

    function SequenceNumberToIndex(n: SeqNum): (k: nat)
      requires Valid() && Contains(n)
      reads this
      ensures k < |items| && k == Offset(begin, n) && View().NumberAt(k) == n
    {
      if begin <= end then n - begin
      else if n < end then MAX_SEQUENCE_NUMBER - begin + n + 1
      else n - begin
    }

    /** A loop that starts at begin, stops at end and advances with Next visits the items in order. */
    lemma Cursor(n: SeqNum, k: nat)
      requires Valid() && k <= |items| && n == View().NumberAt(k)
      ensures n == end <==> k == |items|
      ensures k < |items| ==> Contains(n) && Offset(begin, n) == k && Next(n) == View().NumberAt(k + 1)
    {
      OffsetUnique(begin, k);
      OffsetUnique(begin, |items|);
      WireAdd(begin + k, 1);
    }

    function Get(n: SeqNum): (item: T)
      requires Valid() && Contains(n)
      reads this
      ensures item == items[Offset(begin, n)]
    {
      items[SequenceNumberToIndex(n)]
    }

    /** Assignment through the reference that operator[] returns. */
    method Put(n: SeqNum, item: T)
      requires Valid() && Contains(n)
      modifies this`items
      ensures Valid()
      ensures View() == old(View()).(items := old(items)[Offset(begin, n) := item])
    {
      items := items[SequenceNumberToIndex(n) := item];
    }
  }
}
