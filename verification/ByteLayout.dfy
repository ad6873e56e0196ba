/** Writing disjoint segments into a zeroed buffer.  Packed structs and kernel parameter buffers
    are both built this way. */
module ByteLayout {
  import opened Bytes
  import opened Permutation

  datatype Segment = Segment(offset: nat, raw: seq<Byte>) {
    function End(): nat {
      offset + |raw|
    }

    predicate Covers(j: int) {
      offset <= j < End()
    }
  }

  predicate Fits(segments: seq<Segment>, size: nat) {
    forall s :: s in segments ==> s.End() <= size
  }

  predicate Disjoint(segments: seq<Segment>) {
    forall i, k :: 0 <= i < k < |segments| ==> Apart(segments[i], segments[k])
  }

  predicate Apart(s: Segment, t: Segment) {
    s.End() <= t.offset || t.End() <= s.offset || s.raw == [] || t.raw == []
  }

  function Zeros(size: nat): seq<Byte> {
    seq(size, _ => 0)
  }

  function Write(buffer: seq<Byte>, s: Segment): seq<Byte>
    requires s.End() <= |buffer|
  {
    buffer[..s.offset] + s.raw + buffer[s.End()..]
  }

  /** The buffer after writing the segments in order. */
  function WriteAll(segments: seq<Segment>, size: nat): (buffer: seq<Byte>)
    requires Fits(segments, size)
    ensures |buffer| == size
  {
    if segments == [] then Zeros(size)
    else
      assert segments[|segments| - 1] in segments;
      Write(WriteAll(segments[..|segments| - 1], size), segments[|segments| - 1])
  }

  /** The same loop in place. */
  method WriteInPlace(buffer: array<Byte>, s: Segment)
    requires s.End() <= buffer.Length
    modifies buffer
    ensures buffer[..] == Write(old(buffer[..]), s)
  {
    for k := 0 to |s.raw|
      invariant buffer[..s.offset] == old(buffer[..s.offset])
      invariant buffer[s.offset..s.offset + k] == s.raw[..k]
      invariant buffer[s.offset + k..] == old(buffer[s.offset + k..])
    {
      assert old(buffer[s.offset + k..])[1..] == old(buffer[s.offset + k + 1..]);
      buffer[s.offset + k] := s.raw[k];
    }
    assert s.raw[..|s.raw|] == s.raw;
    assert buffer[..] == buffer[..s.offset] + buffer[s.offset..s.End()] + buffer[s.End()..];
  }

  /** One write decides the bytes it covers and keeps the others. */
  lemma LastWrite(front: seq<Segment>, last: Segment, size: nat, j: nat)
    requires Fits(front, size) && last.End() <= size && j < size
    ensures Fits(front + [last], size)
    ensures WriteAll(front + [last], size)[j] ==
            if last.Covers(j) then last.raw[j - last.offset] else WriteAll(front, size)[j]
  {
    assert (front + [last])[..|front|] == front;
  }

  /** Byte `j` belongs to the segment that covers it, or is still zero. */
  lemma {:induction false} ByteOf(segments: seq<Segment>, size: nat, j: nat)
    requires Fits(segments, size) && Disjoint(segments) && j < size
    ensures forall i :: 0 <= i < |segments| && segments[i].Covers(j) ==>
              WriteAll(segments, size)[j] == segments[i].raw[j - segments[i].offset]
    ensures (forall i :: 0 <= i < |segments| ==> !segments[i].Covers(j)) ==> WriteAll(segments, size)[j] == 0
  {
    if segments != [] {
      hide WriteAll;
      var n := |segments| - 1;
      var front, last := segments[..n], segments[n];
      assert last in segments && segments == front + [last];
      LastWrite(front, last, size, j);
      ByteOf(front, size, j);
      forall i | 0 <= i < n && segments[i].Covers(j)
        ensures WriteAll(segments, size)[j] == segments[i].raw[j - segments[i].offset]
      {
        assert Apart(segments[i], last) && front[i] == segments[i];
      }
    }
  }

  /** Each segment reads back at its offset. */
  lemma ReadBack(segments: seq<Segment>, size: nat, i: nat)
    requires Fits(segments, size) && Disjoint(segments) && i < |segments|
    ensures segments[i].End() <= size
    ensures WriteAll(segments, size)[segments[i].offset..segments[i].End()] == segments[i].raw
  {
    var s, buffer := segments[i], WriteAll(segments, size);
    assert s in segments;
    forall k | 0 <= k < |s.raw|
      ensures buffer[s.offset + k] == s.raw[k]
    {
      ByteOf(segments, size, s.offset + k);
    }
  }

  /** Bytes no segment claims stay zero. */
  lemma GapsAreZero(segments: seq<Segment>, size: nat, j: nat)
    requires Fits(segments, size) && Disjoint(segments) && j < size
    requires forall s :: s in segments ==> !s.Covers(j)
    ensures WriteAll(segments, size)[j] == 0
  {
    ByteOf(segments, size, j);
  }

  /** The order of the segments does not matter. */
  lemma OrderIndependent(a: seq<Segment>, b: seq<Segment>, size: nat)
    requires Fits(a, size) && Disjoint(a) && multiset(a) == multiset(b)
    ensures Fits(b, size) && Disjoint(b) && WriteAll(a, size) == WriteAll(b, size)
  {
    SameMembers(a, b);
    DisjointPermutes(a, b);
    hide WriteAll, Disjoint;
    forall j | 0 <= j < size
      ensures WriteAll(a, size)[j] == WriteAll(b, size)[j]
    {
      SameByte(a, b, size, j);
    }
  }

  lemma SameByte(a: seq<Segment>, b: seq<Segment>, size: nat, j: nat)
    requires Fits(a, size) && Disjoint(a) && Fits(b, size) && Disjoint(b) && j < size
    requires forall s :: s in a <==> s in b
    ensures WriteAll(a, size)[j] == WriteAll(b, size)[j]
  {
    hide WriteAll, Disjoint;
    ByteOf(a, size, j);
    ByteOf(b, size, j);
    if i :| 0 <= i < |a| && a[i].Covers(j) {
      assert a[i] in b;
      var k :| 0 <= k < |b| && b[k] == a[i];
    } else {
      forall k | 0 <= k < |b|
        ensures !b[k].Covers(j)
      {
        assert b[k] in a;
      }
    }
  }

  /** Pairwise apartness is a property of the multiset. */
  lemma DisjointPermutes(a: seq<Segment>, b: seq<Segment>)
    requires Disjoint(a) && multiset(a) == multiset(b)
    ensures Disjoint(b)
  {
    forall i, k | 0 <= i < k < |b|
      ensures Apart(b[i], b[k])
    {
      var x, y := PairFrom(a, b, i, k);
      assert if x < y then Apart(a[x], a[y]) else Apart(a[y], a[x]);
    }
  }
}
