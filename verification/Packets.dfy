/** The packets that the two ends exchange, and the sets of sequence numbers that acks carry. */
module Packets {
  import opened SequenceNumbers

  datatype Option<+T> = None | Some(value: T)

  type Byte = b: nat | b < 0x100
  type Uint32 = n: nat | n < 0x1_0000_0000

  datatype DataPacket = DataPacket(
    sequenceNumber: SeqNum,
    firstInMessage: bool,
    lastInMessage: bool,
    inOrder: bool,
    messageNumber: nat,
    timeStamp: Uint32,
    destination: Uint32,
    data: seq<Byte>)

  /** An inclusive range of sequence numbers. */
  datatype Range = Range(first: nat, last: nat)

  datatype AckInfo = AckInfo(
    roundTripTime: Uint32,
    roundTripTimeVariance: Uint32,
    availableBufferSize: Uint32,
    packetsReceivingRate: Uint32,
    estimatedLinkCapacity: Uint32)

  datatype AckPacket = AckPacket(
    ackSequenceNumber: Uint32,
    timeStamp: Uint32,
    destination: Uint32,
    ranges: seq<Range>,
    info: Option<AckInfo>)
  {
    /** The space that Encode asks for. */
    function RequiredBytes(): nat {
      20 + (if info.Some? then 20 else 0) + |ranges| * 2 * 4
    }
  }

  /** Parameters::max_size, the size of every send buffer. */
  const MAX_PACKET_SIZE: nat := 8192

  /** Whether one of the ranges lists n. */
  predicate Covers(ranges: seq<Range>, n: nat) {
    exists i :: 0 <= i < |ranges| && ranges[i].first <= n <= ranges[i].last
  }

  /** A negative ack keeps its numbers as words; a word with its top bit set opens a range that the
      next word closes. */
  datatype NegativeAckPacket = NegativeAckPacket(
    additionalInfo: Uint32, timeStamp: Uint32, destination: Uint32, words: seq<Uint32>)
  {
    /** What the word at position i stands for when the scan reaches it. */
    predicate Matches(i: nat, n: SeqNum)
      requires i < |words|
    {
      if words[i] >= MODULUS && i + 1 < |words|
      then InCyclicRange(words[i] % MODULUS, words[i + 1] % MODULUS, n)
      else words[i] % MODULUS == n
    }

    predicate Lists(n: SeqNum) {
      exists i :: 0 <= i < |words| && Matches(i, n)
    }
  }

  /** The inclusive range from first forward to last, wrapping past the greatest number if need be. */
  predicate InCyclicRange(first: SeqNum, last: SeqNum, n: SeqNum) {
    Offset(first, n) <= Offset(first, last)
  }
}

/** Run-length compression of a set of numbers into the ranges that an ack carries. */
module AckRanges {
  import opened SequenceNumbers
  import opened Packets

  ghost predicate StrictlyIncreasing(q: seq<nat>) {
    forall i, j :: 0 <= i < j < |q| ==> q[i] < q[j]
  }

  function Elements(q: seq<nat>): set<nat> { set x | x in q }

  ghost predicate IsGreatest(s: set<nat>, m: nat) {
    m in s && forall x :: x in s ==> x <= m
  }

  lemma {:induction false} HasGreatest(s: set<nat>)
    requires s != {}
    ensures exists m :: IsGreatest(s, m)
    decreases s
  {
    var y :| y in s;
    if IsGreatest(s, y) {
    } else {
      var above := set x | x in s && x > y;
      assert y !in above && above < s;
      var z :| z in s && z > y;
      assert z in above;
      HasGreatest(above);
      var m :| IsGreatest(above, m);
      forall x | x in s ensures x <= m {
        assert x > y ==> x in above;
      }
      assert m in s && IsGreatest(s, m);
    }
  }

  function Greatest(s: set<nat>): (m: nat)
    requires s != {}
    ensures m in s && forall x :: x in s ==> x <= m
  {
    HasGreatest(s);
    assert exists m :: m in s && forall x :: x in s ==> x <= m by {
      var g :| IsGreatest(s, g);
    }
    var m :| m in s && forall x :: x in s ==> x <= m;
    m
  }

  /** The order in which iteration over a std::set visits its elements. */
  function Ascending(s: set<nat>): (q: seq<nat>)
    ensures StrictlyIncreasing(q)
    ensures Elements(q) == s
    decreases s
  {
    if s == {} then []
    else
      var m := Greatest(s);
      var q := Ascending(s - {m});
      AppendAbove(q, s, m);
      q + [m]
  }

  lemma AppendAbove(q: seq<nat>, s: set<nat>, m: nat)
    requires m in s && StrictlyIncreasing(q) && Elements(q) == s - {m}
    requires forall x :: x in s ==> x <= m
    ensures StrictlyIncreasing(q + [m]) && Elements(q + [m]) == s
  {
    forall i | 0 <= i < |q| ensures q[i] < m {
      assert q[i] in Elements(q);
    }
    forall x ensures x in Elements(q + [m]) <==> x in s {
      assert x in q + [m] <==> x in q || x == m;
      assert x in q <==> x in Elements(q);
    }
  }

  /** The run-length form: ascending ranges with a gap between any two, listing exactly s. */
  ghost predicate IsRunLength(ranges: seq<Range>, s: set<nat>) {
    && (forall i :: 0 <= i < |ranges| ==> ranges[i].first <= ranges[i].last)
    && (forall i, j :: 0 <= i < j < |ranges| ==> ranges[i].last + 1 < ranges[j].first)
    && (forall n: nat :: Covers(ranges, n) <==> n in s)
  }

  /** Whether n begins a maximal run of s. */
  predicate IsStart(s: set<nat>, n: nat) {
    n in s && (n == 0 || n - 1 !in s)
  }

  function Starts(s: set<nat>): set<nat> {
    set n | n in s && IsStart(s, n)
  }

  /** Extends the runs of a set by a number above all of its elements. */
  function PushRun(runs: seq<Range>, n: nat): seq<Range> {
    if runs != [] && runs[|runs| - 1].last + 1 == n
    then runs[..|runs| - 1] + [Range(runs[|runs| - 1].first, n)]
    else runs + [Range(n, n)]
  }

  /** The runs of the first k numbers of an ascending sequence. */
  function RunsOf(q: seq<nat>, k: nat): seq<Range>
    requires k <= |q|
  {
    if k == 0 then [] else PushRun(RunsOf(q, k - 1), q[k - 1])
  }

  function Runs(s: set<nat>): seq<Range> {
    var q := Ascending(s);
    RunsOf(q, |q|)
  }

  lemma LastRunEndsAtGreatest(runs: seq<Range>, s: set<nat>)
    requires IsRunLength(runs, s) && runs != []
    ensures runs[|runs| - 1].last in s
    ensures forall x :: x in s ==> x <= runs[|runs| - 1].last
  {
    assert Covers(runs, runs[|runs| - 1].last);
    forall x | x in s ensures x <= runs[|runs| - 1].last {
      assert Covers(runs, x);
    }
  }

  lemma PushRunCovers(runs: seq<Range>, n: nat, x: nat)
    requires forall i :: 0 <= i < |runs| ==> runs[i].first <= runs[i].last
    ensures Covers(PushRun(runs, n), x) <==>
      Covers(runs, x) || x == n || (runs != [] && runs[|runs| - 1].last + 1 == n && runs[|runs| - 1].first <= x <= n)
  {
    var runs' := PushRun(runs, n);
    var k := |runs'| - 1;
    assert forall i :: 0 <= i < k ==> runs'[i] == runs[i];
    if Covers(runs, x) {
      var i :| 0 <= i < |runs| && runs[i].first <= x <= runs[i].last;
      assert runs'[i].first <= x <= runs'[i].last;
    }
    if x == n || (runs != [] && runs[|runs| - 1].last + 1 == n && runs[|runs| - 1].first <= x <= n) {
      assert runs'[k].first <= x <= runs'[k].last;
    }
  }

  lemma PushRunListsBoth(runs: seq<Range>, s: set<nat>, n: nat, x: nat)
    requires IsRunLength(runs, s)
    ensures Covers(PushRun(runs, n), x) <==> x in s + {n}
  {
    PushRunCovers(runs, n, x);
    if runs != [] && runs[|runs| - 1].first <= x <= runs[|runs| - 1].last {
      assert Covers(runs, x);
    }
  }

  /** A number above all others goes behind the runs, or prolongs the last one. */
  lemma PushRunOrdered(runs: seq<Range>, n: nat)
    requires forall i :: 0 <= i < |runs| ==> runs[i].first <= runs[i].last
    requires forall i, j :: 0 <= i < j < |runs| ==> runs[i].last + 1 < runs[j].first
    requires runs != [] ==> runs[|runs| - 1].last < n
    ensures var runs' := PushRun(runs, n);
      && (forall i :: 0 <= i < |runs'| ==> runs'[i].first <= runs'[i].last)
      && (forall i, j :: 0 <= i < j < |runs'| ==> runs'[i].last + 1 < runs'[j].first)
  {
    if runs != [] {
      assert forall i :: 0 <= i < |runs| ==> runs[i].last <= runs[|runs| - 1].last;
    }
  }

  lemma PushRunCount(runs: seq<Range>, s: set<nat>, n: nat)
    requires IsRunLength(runs, s)
    requires forall x :: x in s ==> x < n
    ensures |PushRun(runs, n)| == |runs| + if IsStart(s + {n}, n) then 1 else 0
  {
    if runs != [] {
      LastRunEndsAtGreatest(runs, s);
    } else {
      assert forall x: nat :: !Covers(runs, x);
    }
  }

  lemma PushRunKeepsRunLength(runs: seq<Range>, s: set<nat>, n: nat)
    requires IsRunLength(runs, s)
    requires forall x :: x in s ==> x < n
    ensures IsRunLength(PushRun(runs, n), s + {n})
    ensures |PushRun(runs, n)| == |runs| + if IsStart(s + {n}, n) then 1 else 0
  {
    PushRunCount(runs, s, n);
    if runs != [] {
      LastRunEndsAtGreatest(runs, s);
    }
    PushRunOrdered(runs, n);
    forall x: nat ensures Covers(PushRun(runs, n), x) <==> x in s + {n} {
      PushRunListsBoth(runs, s, n, x);
    }
  }

  lemma StartsOfInsert(s: set<nat>, n: nat)
    requires forall x :: x in s ==> x < n
    ensures |Starts(s + {n})| == |Starts(s)| + if IsStart(s + {n}, n) then 1 else 0
  {
    forall x | x in s ensures IsStart(s, x) <==> IsStart(s + {n}, x) {
    }
    if IsStart(s + {n}, n) {
      assert Starts(s + {n}) == Starts(s) + {n};
    } else {
      assert Starts(s + {n}) == Starts(s);
    }
  }

  lemma {:induction false} RunsOfIsRunLength(q: seq<nat>, k: nat)
    requires StrictlyIncreasing(q) && k <= |q|
    ensures IsRunLength(RunsOf(q, k), Elements(q[..k]))
    ensures |RunsOf(q, k)| == |Starts(Elements(q[..k]))|
  {
    if k == 0 {
      assert Starts(Elements(q[..k])) == {};
    } else {
      var n, s := q[k - 1], Elements(q[..k - 1]);
      RunsOfIsRunLength(q, k - 1);
      assert q[..k] == q[..k - 1] + [n];
      assert Elements(q[..k]) == s + {n};
      PushRunKeepsRunLength(RunsOf(q, k - 1), s, n);
      StartsOfInsert(s, n);
    }
  }

  /** What an ack lists is exactly the set it was built from, one range per maximal run. */
  lemma RunsAreExact(s: set<nat>)
    ensures IsRunLength(Runs(s), s)
    ensures |Runs(s)| == |Starts(s)|
    ensures Runs(s) == [] <==> s == {}
  {
    var q := Ascending(s);
    RunsOfIsRunLength(q, |q|);
    assert q[..|q|] == q;
    if s == {} {
      assert Starts(s) == {};
    } else {
      var x :| x in s;
      assert Covers(Runs(s), x);
    }
  }

  /** The run-length form of a set is unique, so no other ack could list the same numbers this way. */
  lemma {:induction false} RunLengthUnique(a: seq<Range>, b: seq<Range>, s: set<nat>)
    requires IsRunLength(a, s) && IsRunLength(b, s)
    ensures a == b
    decreases |a|
  {
    assert a != [] ==> Covers(a, a[0].first);
    assert b != [] ==> Covers(b, b[0].first);
    if a != [] {
      assert b != [];
      FirstRunAgrees(a, b, s);
      FirstRunAgrees(b, a, s);
      var t := set n | n in s && n > a[0].last;
      TailIsRunLength(a, s, t);
      TailIsRunLength(b, s, t);
      RunLengthUnique(a[1..], b[1..], t);
      assert a == [a[0]] + a[1..] && b == [b[0]] + b[1..];
    }
  }

  /** No number next to a range is listed, and the first range is the lowest. */
  lemma RunBoundaries(a: seq<Range>, s: set<nat>)
    requires IsRunLength(a, s) && a != []
    ensures a[0].first in s && a[0].last in s
    ensures forall n :: n in s ==> a[0].first <= n
    ensures a[0].last + 1 !in s
    ensures forall n: nat :: a[0].first <= n <= a[0].last ==> n in s
  {
    assert Covers(a, a[0].first) && Covers(a, a[0].last);
    forall n | n in s ensures a[0].first <= n && n != a[0].last + 1 {
      assert Covers(a, n);
      var i :| 0 <= i < |a| && a[i].first <= n <= a[i].last;
      if i > 0 {
        assert a[0].last + 1 < a[i].first;
      }
    }
    forall n: nat | a[0].first <= n <= a[0].last ensures n in s {
      assert Covers(a, n);
    }
  }

  lemma FirstRunAgrees(a: seq<Range>, b: seq<Range>, s: set<nat>)
    requires IsRunLength(a, s) && IsRunLength(b, s) && a != [] && b != []
    ensures a[0] == b[0]
  {
    RunBoundaries(a, s);
    RunBoundaries(b, s);
  }

  lemma TailIsRunLength(a: seq<Range>, s: set<nat>, t: set<nat>)
    requires IsRunLength(a, s) && a != []
    requires t == set n | n in s && n > a[0].last
    ensures IsRunLength(a[1..], t)
  {
    var tail := a[1..];
    forall n: nat ensures Covers(tail, n) <==> n in t {
      if Covers(tail, n) {
        var i :| 0 <= i < |tail| && tail[i].first <= n <= tail[i].last;
        assert a[i + 1].first <= n <= a[i + 1].last;
        assert Covers(a, n);
      }
      if n in t {
        assert Covers(a, n);
        var i :| 0 <= i < |a| && a[i].first <= n <= a[i].last;
        assert tail[i - 1].first <= n <= tail[i - 1].last;
      }
    }
  }
}
