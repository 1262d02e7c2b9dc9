/** Reassembly of a segmented MAD: the receive window, the acknowledgements, and the buffer that
    grows with the window. */
module RmppReceive {
  import opened Options
  import opened RmppFormat

  const WINDOW := 16

  datatype Ack = Ack(seg: nat, newWindow: nat)

  /** A reassembly: the next segment to come, the last one there is room for, the data received so
      far, and whether the first segment was flagged as the last. */
  datatype Recv = Recv(expected: nat, limit: nat, got: seq<seq<Byte>>, headLast: bool)

  function NewRecv(headLast: bool): Recv {
    Recv(1, 1, [], headLast)
  }

  function AckOf(r: Recv): Ack
    requires r.expected >= 1
  {
    Ack(r.expected - 1, if r.limit == r.expected - 1 && !r.headLast then r.limit + 1 else r.limit)
  }

  /** The reassembly after its expected segment, and the acknowledgement to send. */
  function AcceptSegment(r: Recv, h: Header, data: seq<Byte>, resized: bool): (Recv, Option<Ack>)
  {
    var r1 := r.(expected := r.expected + 1, got := r.got + [data]);
    if h.last then (r1, Some(AckOf(r1)))
    else if h.seg == r.limit && resized then
      var r2 := r1.(limit := r1.limit + WINDOW);
      (r2, Some(AckOf(r2)))
    else (r1, None)
  }

  /** The window stays ahead of the segments exactly as long as the buffer can be grown. */
  lemma WindowKept(r: Recv, h: Header, data: seq<Byte>, resized: bool)
    requires 1 <= r.expected <= r.limit && h.seg == r.expected && !h.last
    ensures
      var r' := AcceptSegment(r, h, data, resized).0;
      1 <= r'.expected && (r'.expected <= r'.limit <==> h.seg < r.limit || resized)
  {
  }

  /** The size of the buffer after it was grown w times. */
  function BufferSize(w: nat): nat {
    BLOCK_SIZE + w * (WINDOW * RMPP_DATA_SIZE)
  }

  /** The data of the segment fits the buffer that goes with the window. */
  predicate Fits(sa: bool, seg: nat, limit: nat) {
    limit >= 1 && Hdr(sa) + DataSize(sa) * seg <= BufferSize((limit - 1) / WINDOW)
  }

  /** After w enlargements of the buffer, the data of every segment of the window fits. */
  lemma SegmentFits(sa: bool, seg: nat, w: nat)
    requires seg <= 1 + WINDOW * w
    ensures Hdr(sa) + DataSize(sa) * seg <= BufferSize(w) && Fits(sa, seg, 1 + WINDOW * w)
  {
    assert (1 + WINDOW * w - 1) / WINDOW == w;
  }

  /** Of the segments past the window, none fits for the other classes.  For the SA class, whose
      segments are shorter than what the buffer grows by, some do once it has grown: the next one
      exactly from the first enlargement on. */
  lemma PastTheWindow(sa: bool, seg: nat, w: nat)
    requires seg >= 1
    ensures Fits(sa, seg, 1 + WINDOW * w) <==> if sa then 5 * (seg - 1) <= 88 * w else seg <= 1 + WINDOW * w
    ensures seg == 2 + WINDOW * w ==> (Fits(sa, seg, 1 + WINDOW * w) <==> sa && w >= 1)
  {
    assert (1 + WINDOW * w - 1) / WINDOW == w;
  }

  class Reassembly {
    const sa: bool
    const headLast: bool
    var expected: nat
    var limit: nat
    var buf: array<Byte>
    var size: int
    ghost var got: seq<seq<Byte>>
    ghost var growths: nat

    ghost function Model(): Recv
      reads this
    {
      Recv(expected, limit, got, headLast)
    }

    ghost predicate Valid()
      reads this, buf
    {
      && expected == |got| + 1 && limit == 1 + WINDOW * growths
      && buf.Length == size == BufferSize(growths)
      && Stored()
    }

    /** The data received so far is in the buffer, in order, after the header. */
    ghost predicate Stored()
      reads `got, `buf, buf
    {
      && Hdr(sa) + DataSize(sa) * |got| <= buf.Length
      && buf[Hdr(sa)..Hdr(sa) + DataSize(sa) * |got|] == Joined(got)
    }

    /** A reassembly starts in the buffer of the first segment. */
    constructor (sa: bool, headLast: bool, block: array<Byte>)
      requires block.Length == BLOCK_SIZE
      ensures Valid() && Model() == NewRecv(headLast) && buf == block && this.sa == sa
    {
      this.sa, this.headLast := sa, headLast;
      expected, limit, buf, size, got, growths := 1, 1, block, BLOCK_SIZE, [], 0;
      assert block[Hdr(sa)..Hdr(sa)] == [];
    }

    /** Moves the MAD into a larger buffer. */
    method Resize(newSize: nat)
      requires size == buf.Length <= newSize && Stored()
      modifies this`buf, this`size
      ensures fresh(buf) && buf.Length == newSize == size && Stored()
    {
      var larger := new Byte[newSize](_ => 0);
      Copy(larger, 0, buf, 0, buf.Length);
      SameSlice(larger, buf, Hdr(sa), Hdr(sa) + DataSize(sa) * |got|);
      buf, size := larger, newSize;
    }

    /** Copies the data of a segment behind that of the others; the first one is there already. */
    method Store(block: array<Byte>)
      requires Stored() && expected == |got| + 1 && block.Length == BLOCK_SIZE && (|got| == 0 <==> block == buf)
      requires Hdr(sa) + DataSize(sa) * (|got| + 1) <= buf.Length
      modifies this`got, buf
      ensures Stored() && got == old(got) + [old(block[Hdr(sa)..])]
    {
      ghost var data := block[Hdr(sa)..];
      JoinedMore(got, data);
      assert Hdr(sa) + DataSize(sa) * (|got| + 1) == Hdr(sa) + DataSize(sa) * |got| + DataSize(sa);
      if block != buf {
        CopyBehind(buf, Hdr(sa), Hdr(sa) + DataSize(sa) * (expected - 1), block, Hdr(sa), DataSize(sa));
        assert block[Hdr(sa)..Hdr(sa) + DataSize(sa)] == data;
      } else {
        assert got == [] && Joined(got) == [] && Joined([data]) == data && got + [data] == [data];
        assert block[Hdr(sa)..Hdr(sa) + DataSize(sa)] == data;
      }
      got := got + [data];
    }

    /** Takes in the expected segment.  allocates says whether the buffer can be grown if need be. */
    method ProcessSegment(h: Header, block: array<Byte>, allocates: bool) returns (done: bool, ack: Option<Ack>)
      requires Valid() && h.seg == expected && Fits(sa, h.seg, limit)
      requires block.Length == BLOCK_SIZE && (expected == 1 <==> block == buf)
      modifies this, buf
      ensures (Model(), ack) == AcceptSegment(old(Model()), h, old(block[Hdr(sa)..]), allocates)
      ensures expected == old(expected) + 1 && got == old(got) + [old(block[Hdr(sa)..])]
      ensures
        var grown := !h.last && h.seg == old(limit) && allocates;
        && limit == old(limit) + (if grown then WINDOW else 0) && (ack.Some? <==> h.last || grown)
        && (ack.Some? ==>
              && ack.value.seg == h.seg
              && ack.value.newWindow == if h.last && h.seg == limit && !headLast then limit + 1 else limit)
      ensures done == h.last && (!done ==> Valid()) && (buf == old(buf) || fresh(buf))
      ensures done ==> Stored() && size == ReassembledSize(sa, h)
    {
      hide Stored;
      done, ack := h.last, None;
      assert (limit - 1) / WINDOW == growths;
      Store(block);
      if done {
        size := ReassembledSize(sa, h);
      }
      expected := expected + 1;
      if !done && h.seg == limit {
        if allocates {
          Resize(size + WINDOW * RMPP_DATA_SIZE);
          limit := limit + WINDOW;
          growths := growths + 1;
          ack := Some(GetAck());
        }
      } else if done {
        ack := Some(GetAck());
      }
    }

    function GetAck(): (ack: Ack)
      requires expected >= 1
      reads this
      ensures ack == AckOf(Model())
    {
      Ack(expected - 1, if limit == expected - 1 && !headLast then limit + 1 else limit)
    }
  }

  lemma JoinedMore(got: seq<seq<Byte>>, data: seq<Byte>)
    ensures Joined(got + [data]) == Joined(got) + data
  {
    assert (got + [data])[..|got|] == got;
  }

  lemma SameSlice(a: array<Byte>, b: array<Byte>, from: nat, to: nat)
    requires from <= to <= b.Length <= a.Length && forall i | 0 <= i < b.Length :: a[i] == b[i]
    ensures a[from..to] == b[from..to]
  {
  }
}
