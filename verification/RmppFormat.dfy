/** How a MAD is cut into RMPP segments (section 13.6 of the InfiniBand Architecture Specification,
    Volume 1): the number of segments, the bytes and the header fields of each. */
module RmppFormat {

  type Byte = x: int | 0 <= x < 256

  const BLOCK_SIZE := 256
  const RMPP_HDR_SIZE := 36
  const RMPP_DATA_SIZE := 220
  const SA_HDR_SIZE := 56
  const SA_DATA_SIZE := 200

  /** Bytes before the data of each segment: SA MADs repeat the SA header. */
  function Hdr(sa: bool): nat {
    if sa then SA_HDR_SIZE else RMPP_HDR_SIZE
  }

  function DataSize(sa: bool): (n: nat)
    ensures n > 0 && Hdr(sa) + n == BLOCK_SIZE
  {
    if sa then SA_DATA_SIZE else RMPP_DATA_SIZE
  }

  /** A MAD has at least its header. */
  ghost predicate IsMad(msg: seq<Byte>, sa: bool) {
    |msg| >= Hdr(sa)
  }

  function TotalSegments(size: nat, sa: bool): (n: nat)
    requires size >= Hdr(sa)
    ensures n >= 1 && size - Hdr(sa) <= n * DataSize(sa)
    ensures n > 1 ==> (n - 1) * DataSize(sa) < size - Hdr(sa)
  {
    var n := (size - Hdr(sa) + DataSize(sa) - 1) / DataSize(sa);
    if n == 0 then 1 else n
  }

  datatype Header = Header(seg: nat, first: bool, last: bool, paylen: int)

  /** The payload length of segment seg of a MAD of the given size. */
  function PayLength(size: nat, sa: bool, seg: nat, total: nat): int {
    if seg == total then
      if sa then size - (seg - 1) * SA_DATA_SIZE - RMPP_HDR_SIZE else size - (seg - 1) * RMPP_DATA_SIZE
    else if seg == 1 then
      if sa then size - RMPP_HDR_SIZE + (total - 1) * (SA_HDR_SIZE - RMPP_HDR_SIZE) else size - RMPP_HDR_SIZE
    else 0
  }

  function SegmentHeader(size: nat, sa: bool, seg: nat): Header
    requires size >= Hdr(sa)
  {
    var total := TotalSegments(size, sa);
    Header(seg, seg == 1, seg == total, PayLength(size, sa, seg, total))
  }

  /** s cut or filled up with zeros to n bytes. */
  function Padded(s: seq<Byte>, n: nat): (r: seq<Byte>)
    ensures |r| == n && forall i | 0 <= i < n :: r[i] == if i < |s| then s[i] else 0
  {
    seq(n, i requires 0 <= i < n => if i < |s| then s[i] else 0)
  }

  function Offset(sa: bool, seg: nat): int {
    DataSize(sa) * (seg - 1)
  }

  /** The data bytes of segment seg. */
  function Payload(msg: seq<Byte>, sa: bool, seg: nat): (r: seq<Byte>)
    requires IsMad(msg, sa) && 1 <= seg <= TotalSegments(|msg|, sa)
    ensures |r| == DataSize(sa)
  {
    Padded(msg[Hdr(sa) + Offset(sa, seg)..], DataSize(sa))
  }

  /** All the data of consecutive segments. */
  function Joined(got: seq<seq<Byte>>): seq<Byte> {
    if got == [] then [] else Joined(got[..|got| - 1]) + got[|got| - 1]
  }

  ghost function Segments(msg: seq<Byte>, sa: bool, n: nat): (r: seq<seq<Byte>>)
    requires IsMad(msg, sa) && n <= TotalSegments(|msg|, sa)
    ensures |r| == n && forall i | 0 <= i < n :: r[i] == Payload(msg, sa, i + 1)
  {
    seq(n, i requires 0 <= i < n => Payload(msg, sa, i + 1))
  }

  lemma {:induction false} JoinedSegments(msg: seq<Byte>, sa: bool, n: nat)
    requires IsMad(msg, sa) && n <= TotalSegments(|msg|, sa)
    ensures Joined(Segments(msg, sa, n)) == Padded(msg[Hdr(sa)..], n * DataSize(sa))
  {
    if n > 0 {
      var d := DataSize(sa);
      JoinedSegments(msg, sa, n - 1);
      assert Segments(msg, sa, n)[..n - 1] == Segments(msg, sa, n - 1);
      PaddedSplit(msg[Hdr(sa)..], (n - 1) * d, d);
      assert (n - 1) * d + d == n * d;
      assert msg[Hdr(sa)..][(n - 1) * d..] == msg[Hdr(sa) + Offset(sa, n)..];
    }
  }

  lemma PaddedSplit(s: seq<Byte>, n: nat, d: nat)
    requires n <= |s|
    ensures Padded(s, n + d) == Padded(s, n) + Padded(s[n..], d)
  {
  }

  /** Joining the data of all segments gives back the data of the MAD. */
  lemma CutAndJoin(msg: seq<Byte>, sa: bool)
    requires IsMad(msg, sa)
    ensures
      var all := Joined(Segments(msg, sa, TotalSegments(|msg|, sa)));
      |all| >= |msg| - Hdr(sa) && all[..|msg| - Hdr(sa)] == msg[Hdr(sa)..]
  {
    JoinedSegments(msg, sa, TotalSegments(|msg|, sa));
  }

  /** The size that the receiver computes from the last segment. */
  function ReassembledSize(sa: bool, h: Header): int {
    RMPP_HDR_SIZE + DataSize(sa) * (h.seg - 1) + h.paylen
  }

  /** It is the size of the MAD that was sent exactly when the MAD is of the SA class; for the other
      classes it is too large by the size of the RMPP header. */
  lemma SizeRestored(size: nat, sa: bool)
    requires size >= Hdr(sa)
    ensures
      var r := ReassembledSize(sa, SegmentHeader(size, sa, TotalSegments(size, sa)));
      (r == size <==> sa) && (!sa ==> r == size + RMPP_HDR_SIZE)
  {
  }

  /** What a segment carries after its RMPP header: the rest of the header that every segment repeats, and
      its share of the data. */
  ghost function Carried(size: nat, sa: bool, seg: nat): int
    requires size >= Hdr(sa)
  {
    Hdr(sa) - RMPP_HDR_SIZE
    + if seg == TotalSegments(size, sa) then size - Hdr(sa) - Offset(sa, seg) else DataSize(sa)
  }

  ghost function AllCarried(size: nat, sa: bool, n: nat): int
    requires size >= Hdr(sa)
  {
    if n == 0 then 0 else AllCarried(size, sa, n - 1) + Carried(size, sa, n)
  }

  lemma {:induction false} AllCarriedBefore(size: nat, sa: bool, n: nat)
    requires size >= Hdr(sa) && n < TotalSegments(size, sa)
    ensures AllCarried(size, sa, n) == n * (BLOCK_SIZE - RMPP_HDR_SIZE)
  {
    if n > 0 {
      AllCarriedBefore(size, sa, n - 1);
    }
  }

  /** The flags and the payload length of a segment: the last one tells what it carries, for other classes
      than SA with the RMPP header counted in, and the first one of several what all of them carry. */
  lemma HeaderMeans(size: nat, sa: bool, seg: nat)
    requires size >= Hdr(sa) && 1 <= seg <= TotalSegments(size, sa)
    ensures
      var h, total := SegmentHeader(size, sa, seg), TotalSegments(size, sa);
      && h.seg == seg && (h.first <==> seg == 1) && (h.last <==> seg == total)
      && h.paylen ==
         (if seg == total then Carried(size, sa, seg) + (if sa then 0 else RMPP_HDR_SIZE)
          else if seg == 1 then AllCarried(size, sa, total) else 0)
  {
    var total := TotalSegments(size, sa);
    AllCarriedBefore(size, sa, total - 1);
    assert AllCarried(size, sa, total) == AllCarried(size, sa, total - 1) + Carried(size, sa, total);
  }

  // ---- Building a segment in the send buffer ----

  method Copy(dst: array<Byte>, at: nat, src: array<Byte>, from: nat, n: nat)
    requires at + n <= dst.Length && from + n <= src.Length && dst != src
    modifies dst
    ensures forall i | 0 <= i < dst.Length :: dst[i] == if at <= i < at + n then src[from + i - at] else old(dst[i])
  {
    forall i | at <= i < at + n {
      dst[i] := src[from + i - at];
    }
  }

  method Clear(dst: array<Byte>, at: nat, n: nat)
    requires at + n <= dst.Length
    modifies dst
    ensures forall i | 0 <= i < dst.Length :: dst[i] == if at <= i < at + n then 0 else old(dst[i])
  {
    forall i | at <= i < at + n {
      dst[i] := 0;
    }
  }

  /** Copies n bytes behind those that are at start already. */
  method CopyBehind(dst: array<Byte>, start: nat, at: nat, src: array<Byte>, from: nat, n: nat)
    requires start <= at && at + n <= dst.Length && from + n <= src.Length && dst != src
    modifies dst
    ensures dst[start..at + n] == old(dst[start..at]) + src[from..from + n]
  {
    Copy(dst, at, src, from, n);
    assert dst[start..at + n] == dst[start..at] + dst[at..at + n];
    assert dst[start..at] == old(dst[start..at]);
    assert dst[at..at + n] == src[from..from + n];
  }

  /** A segment begins where the MAD ends, which the source asserts not to happen, if and only if the MAD
      is just its header. */
  lemma NothingToSend(size: nat, sa: bool, seg: nat)
    requires size >= Hdr(sa) && 1 <= seg <= TotalSegments(size, sa)
    ensures size == Hdr(sa) + Offset(sa, seg) <==> size == Hdr(sa)
  {
    if seg > 1 {
      assert (seg - 1) * DataSize(sa) <= (TotalSegments(size, sa) - 1) * DataSize(sa);
    }
  }

  /** Puts the header of the MAD and the data of one segment into the send buffer. */
  method BuildSegment(msg: array<Byte>, sa: bool, seg: nat, block: array<Byte>)
    requires block.Length == BLOCK_SIZE && block != msg
    requires IsMad(msg[..], sa) && 1 <= seg <= TotalSegments(msg.Length, sa)
    modifies block
    ensures block[..Hdr(sa)] == msg[..Hdr(sa)] && block[Hdr(sa)..] == Payload(msg[..], sa, seg)
  {
    var hdrLen := Hdr(sa);
    var maxLen := BLOCK_SIZE - hdrLen;
    var offset := hdrLen + maxLen * (seg - 1);
    BeginsInside(msg.Length, sa, seg);
    hide TotalSegments, Padded;
    Copy(block, 0, msg, 0, hdrLen);
    if msg.Length - offset < maxLen {
      maxLen := msg.Length - offset;
      Clear(block, hdrLen + maxLen, BLOCK_SIZE - hdrLen - maxLen);
    }
    Copy(block, hdrLen, msg, offset, maxLen);
    IsPadded(msg[..][offset..], DataSize(sa), maxLen, block[hdrLen..]);
  }

  lemma BeginsInside(size: nat, sa: bool, seg: nat)
    requires size >= Hdr(sa) && 1 <= seg <= TotalSegments(size, sa)
    ensures Hdr(sa) + Offset(sa, seg) <= size
  {
    NothingToSend(size, sa, seg);
    assert (seg - 1) * DataSize(sa) <= (TotalSegments(size, sa) - 1) * DataSize(sa);
  }

  lemma IsPadded(s: seq<Byte>, n: nat, k: nat, r: seq<Byte>)
    requires |r| == n && k <= n && k <= |s| && (k < n ==> k == |s|)
    requires forall i | 0 <= i < n :: r[i] == if i < k then s[i] else 0
    ensures r == Padded(s, n)
  {
  }
}
