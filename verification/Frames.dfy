/** Values shared by every component: octets, frames, codecs, optional results. */
module Frames {

  datatype Option<+T> = None | Some(value: T)

  datatype Result<+T, +E> = Ok(value: T) | Err(error: E)

  newtype byte = x: int | 0 <= x < 256

  datatype VideoCodec = Unknown | H264 | H265 | MPEG4 | VP8 | VP9 | AV1 | MJPEG

  /** H.264 and H.265 are the codecs whose elementary stream is framed by start codes. */
  predicate UsesStartCodes(codec: VideoCodec): (r: bool)
    ensures codec in {H264, H265} ==> r
    ensures codec in {Unknown, MPEG4, VP8, VP9, AV1, MJPEG} ==> !r
  {
    codec == H264 || codec == H265
  }

  /** An owned copy of some payload octets together with its time stamp in nanoseconds. */
  datatype FrameData = FrameData(data: seq<byte>, stamp: int)

  /** The stamp in nanoseconds that a presentation time stands for. */
  function PresentationStamp(seconds: int, microseconds: int): int {
    1_000_000_000 * seconds + 1000 * microseconds
  }

  function Payloads(frames: seq<FrameData>): (r: seq<seq<byte>>)
    ensures |r| == |frames|
    ensures forall k :: 0 <= k < |r| ==> r[k] == frames[k].data
  {
    seq(|frames|, k requires 0 <= k < |frames| => frames[k].data)
  }

  function Concat(parts: seq<seq<byte>>): seq<byte> {
    if parts == [] then [] else parts[0] + Concat(parts[1..])
  }

  lemma {:induction false} ConcatAppend(a: seq<seq<byte>>, b: seq<seq<byte>>)
    ensures Concat(a + b) == Concat(a) + Concat(b)
  {
    if a == [] {
      assert a + b == b;
    } else {
      assert (a + b)[1..] == a[1..] + b;
      ConcatAppend(a[1..], b);
    }
  }

  lemma Assoc<T>(a: seq<T>, b: seq<T>, c: seq<T>)
    ensures (a + b) + c == a + (b + c)
  {
  }

  lemma EmptyLeft<T>(a: seq<T>)
    ensures [] + a == a
  {
  }

  /** `piece` stands in `d` at position `s`. */
  ghost predicate IsAt(d: seq<byte>, s: nat, piece: seq<byte>) {
    s + |piece| <= |d| && forall i :: 0 <= i < |piece| ==> d[s + i] == piece[i]
  }

  /** `d` from position `s` on is `piece`. */
  ghost predicate EndsIn(d: seq<byte>, s: nat, piece: seq<byte>) {
    s + |piece| == |d| && IsAt(d, s, piece)
  }

  lemma SliceOf(d: seq<byte>, s: nat, piece: seq<byte>)
    requires IsAt(d, s, piece)
    ensures d[s..s + |piece|] == piece
    ensures EndsIn(d, s, piece) ==> d[s..] == piece
  {
  }

  lemma Cut2(d: seq<byte>, s: nat, head: seq<byte>, tail: seq<byte>)
    requires EndsIn(d, s, head + tail)
    ensures IsAt(d, s, head) && EndsIn(d, s + |head|, tail)
  {
    forall i | 0 <= i < |head| ensures d[s + i] == head[i] {
      assert (head + tail)[i] == head[i];
    }
    forall i | 0 <= i < |tail| ensures d[s + |head| + i] == tail[i] {
      assert (head + tail)[|head| + i] == tail[i];
    }
  }

  /** Reading a tail of `d` off piece by piece. */
  lemma Cut(d: seq<byte>, s: nat, head: seq<byte>, mid: seq<byte>, tail: seq<byte>)
    requires EndsIn(d, s, head + (mid + tail))
    ensures IsAt(d, s, head) && IsAt(d, s + |head|, mid) && EndsIn(d, s + |head| + |mid|, tail)
  {
    hide *;
    Cut2(d, s, head, mid + tail);
    Cut2(d, s + |head|, mid, tail);
  }

  lemma Glue(d: seq<byte>, i: nat, j: nat, k: nat)
    requires i <= j <= k <= |d|
    ensures d[i..] == d[i..j] + (d[j..k] + d[k..])
  {
  }

  function Min(a: int, b: int): int {
    if a <= b then a else b
  }
}
