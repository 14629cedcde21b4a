/** The encoder object: opening on the first image, time stamping, and the queue of finished packets. */
module StreamEncoder {
  import opened Frames
  import opened NalSplitter
  import opened PtsClock

  /** `supported` says whether the pixel format has a conversion. */
  datatype Image = Image(stamp: int, width: nat, height: nat, supported: bool)

  /** What the codec library answers during one call: whether opening, buffer allocation and submission
      succeed, the packets it hands out, and whether it then asked for more input or failed. */
  datatype CodecReply = CodecReply(openOk: bool, bufferOk: bool, sendOk: bool, packets: seq<seq<byte>>, drained: bool)

  datatype EncodeError = OpenFailed | SizeChanged | UnsupportedFormat | NoFrameBuffer | SendFailed | ReceiveFailed

  datatype EncoderConfig = EncoderConfig(codec: VideoCodec, useHw: bool, bitrate: nat, framerate: nat, sizeHint: int)

  /** The payloads queued for a list of codec packets. */
  function Produced(codec: VideoCodec, packets: seq<seq<byte>>): (r: seq<seq<byte>>)
    ensures packets == [] ==> r == []
  {
    if packets == [] then []
    else (if UsesStartCodes(codec) then Split(packets[0]) else [packets[0]]) + Produced(codec, packets[1..])
  }

  lemma {:induction false} ProducedAppend(codec: VideoCodec, packets: seq<seq<byte>>, p: seq<byte>)
    ensures Produced(codec, packets + [p])
            == Produced(codec, packets) + (if UsesStartCodes(codec) then Split(p) else [p])
  {
    hide Split;
    if packets == [] {
      assert packets + [p] == [p];
    } else {
      assert (packets + [p])[1..] == packets[1..] + [p];
      ProducedAppend(codec, packets[1..], p);
    }
  }

  class StreamEncoder {
    const config: EncoderConfig
    var initialized: bool
    var width: nat
    var height: nat
    var firstTs: int
    var lastPts: int
    var packets: seq<FrameData>
    // History since the encoder was opened: stamps of the images offered to the codec, and their PTS.
    ghost var stamps: seq<int>
    ghost var sentPts: seq<int>

    ghost predicate Valid()
      reads this
    {
      && (!initialized ==> stamps == [] && sentPts == [] && packets == [])
      && sentPts == PtsRun(-1, RawFrom(firstTs, stamps))
      && (initialized ==> lastPts == LastPts(-1, RawFrom(firstTs, stamps)))
    }

    constructor (config: EncoderConfig)
      ensures Valid() && this.config == config && !initialized && packets == []
    {
      this.config := config;
      initialized, width, height, firstTs, lastPts := false, 0, 0, 0, -1;
      packets, stamps, sentPts := [], [], [];
    }

    method EncodeVideo(image: Image, lib: CodecReply) returns (r: Result<nat, EncodeError>)
      requires Valid()
      requires UsesStartCodes(config.codec) ==> forall p :: p in lib.packets ==> |p| >= 4
      modifies this
      ensures Valid()
      ensures r == Verdict(old(initialized), old(width), old(height), image, lib, config.codec)
      ensures initialized == (old(initialized) || lib.openOk)
      ensures old(initialized) ==> firstTs == old(firstTs) && width == old(width) && height == old(height)
      ensures !old(initialized) && lib.openOk ==>
                firstTs == image.stamp && width == image.width && height == image.height
      ensures stamps == old(stamps)
                        + (if r.Ok? || r == Err(SendFailed) || r == Err(ReceiveFailed) then [image.stamp] else [])
      ensures r.Ok? || r == Err(ReceiveFailed)
              ==> packets == old(packets) + FramesOf(Produced(config.codec, lib.packets), image.stamp)
      ensures r.Err? && r != Err(ReceiveFailed) ==> packets == old(packets)
    {
      hide FramesOf;
      hide Produced;
      if !initialized {
        if !lib.openOk {
          return Err(OpenFailed);
        }
        width, height := image.width, image.height;
        firstTs := image.stamp;
        lastPts := -1;
        packets := [];
        initialized := true;
        assert RawFrom(firstTs, []) == [];
      }
      if image.width != width || image.height != height {
        return Err(SizeChanged);
      }
      if !image.supported {
        return Err(UnsupportedFormat);
      }
      if !lib.bufferOk {
        return Err(NoFrameBuffer);
      }
      Stamp(image.stamp);
      if !lib.sendOk {
        return Err(SendFailed);
      }
      var count := Receive(lib.packets, image.stamp);
      if !lib.drained {
        return Err(ReceiveFailed);
      }
      return Ok(count);
    }

    /** The time stamp handed to the codec with the next frame. */
    method Stamp(stamp: int)
      requires Valid() && initialized
      modifies this`lastPts, this`stamps, this`sentPts
      ensures Valid() && stamps == old(stamps) + [stamp]
      ensures sentPts == old(sentPts) + [lastPts] && lastPts == NextPts(old(lastPts), Ticks(stamp - firstTs))
    {
      var pts := Ticks(stamp - firstTs);
      RawFromAppend(firstTs, stamps, stamp);
      PtsRunAppend(-1, RawFrom(firstTs, stamps), pts);
      if pts <= lastPts {
        pts := lastPts + 1;
      }
      lastPts := pts;
      stamps, sentPts := stamps + [stamp], sentPts + [pts];
    }

    /** The loop that takes every packet the codec hands out. */
    method Receive(received: seq<seq<byte>>, stamp: int) returns (count: nat)
      requires Valid() && initialized
      requires UsesStartCodes(config.codec) ==> forall p :: p in received ==> |p| >= 4
      modifies this`packets
      ensures Valid()
      ensures count == |Produced(config.codec, received)|
      ensures packets == old(packets) + FramesOf(Produced(config.codec, received), stamp)
    {
      hide FramesOf;
      hide PtsRun;
      count := 0;
      var i := 0;
      assert received[..0] == [];
      FramesOfNil(packets, stamp);
      while i < |received|
        invariant 0 <= i <= |received|
        invariant count == |Produced(config.codec, received[..i])|
        invariant packets == old(packets) + FramesOf(Produced(config.codec, received[..i]), stamp)
      {
        var n;
        packets, n := Enqueue(config.codec, packets, received[i], stamp);
        ghost var done := Produced(config.codec, received[..i]);
        ghost var units := if UsesStartCodes(config.codec) then Split(received[i]) else [received[i]];
        ProducedAppend(config.codec, received[..i], received[i]);
        assert received[..i + 1] == received[..i] + [received[i]];
        FramesOfConcat(done, units, stamp);
        Assoc(old(packets), FramesOf(done, stamp), FramesOf(units, stamp));
        count := count + n;
        i := i + 1;
      }
      assert received[..i] == received;
    }

    /** Whatever stamps the images carry, the values handed to the codec since it was opened are the least
        strictly increasing non-negative integers that never fall behind the elapsed ticks. */
    lemma SentPtsOptimal()
      requires Valid()
      ensures var raws := RawFrom(firstTs, stamps);
              && Measure(firstTs, stamps, raws)
              && Admissible(-1, raws, sentPts)
              && (forall s: seq<int>, k: nat :: Admissible(-1, raws, s) && k < |s| ==> sentPts[k] <= s[k])
    {
      var raws := RawFrom(firstTs, stamps);
      RawFromMeasures(firstTs, stamps);
      RunIsAdmissible(-1, raws);
      forall s: seq<int>, k: nat | Admissible(-1, raws, s) && k < |s| ensures sentPts[k] <= s[k] {
        RunIsLeast(-1, raws, s, k);
      }
    }

    method NextPacket() returns (data: Option<FrameData>)
      requires Valid()
      modifies this`packets
      ensures Valid()
      ensures old(packets) == [] ==> data == None && packets == []
      ensures old(packets) != [] ==> data == Some(old(packets)[0]) && packets == old(packets)[1..]
    {
      if packets == [] {
        return None;
      }
      data := Some(packets[0]);
      packets := packets[1..];
    }
  }

  lemma FramesOfConcat(a: seq<seq<byte>>, b: seq<seq<byte>>, stamp: int)
    ensures FramesOf(a + b, stamp) == FramesOf(a, stamp) + FramesOf(b, stamp)
  {
  }

  /** Which result a call has; the checks come in this order. */
  function Verdict(initialized: bool, width: nat, height: nat, image: Image, lib: CodecReply, codec: VideoCodec)
    : Result<nat, EncodeError>
  {
    if !initialized && !lib.openOk then Err(OpenFailed)
    else if initialized && (image.width != width || image.height != height) then Err(SizeChanged)
    else if !image.supported then Err(UnsupportedFormat)
    else if !lib.bufferOk then Err(NoFrameBuffer)
    else if !lib.sendOk then Err(SendFailed)
    else if !lib.drained then Err(ReceiveFailed)
    else Ok(|Produced(codec, lib.packets)|)
  }

  /** Each check stops the call before the later ones are made. */
  lemma VerdictOrder(initialized: bool, width: nat, height: nat, image: Image, lib: CodecReply, codec: VideoCodec)
    ensures var r := Verdict(initialized, width, height, image, lib, codec);
            var isOpen := initialized || lib.openOk;
            var fits := isOpen && (initialized ==> image.width == width && image.height == height);
            && (r == Err(OpenFailed) <==> !isOpen)
            && (r == Err(SizeChanged) <==> isOpen && !fits)
            && (r == Err(UnsupportedFormat) <==> fits && !image.supported)
            && (r == Err(NoFrameBuffer) <==> fits && image.supported && !lib.bufferOk)
            && (r == Err(SendFailed) <==> fits && image.supported && lib.bufferOk && !lib.sendOk)
            && (r == Err(ReceiveFailed) <==> fits && image.supported && lib.bufferOk && lib.sendOk && !lib.drained)
            && (r.Ok? <==> fits && image.supported && lib.bufferOk && lib.sendOk && lib.drained)
            && (r.Ok? ==> r.value == |Produced(codec, lib.packets)|)
  {
  }

  /** Appending one codec packet to the queue: cut into NAL units for H.264 and H.265, whole otherwise. */
  method Enqueue(codec: VideoCodec, queue: seq<FrameData>, packet: seq<byte>, stamp: int)
    returns (queue': seq<FrameData>, n: nat)
    requires UsesStartCodes(codec) ==> |packet| >= 4
    ensures var units := if UsesStartCodes(codec) then Split(packet) else [packet];
            n == |units| && queue' == queue + FramesOf(units, stamp)
  {
    hide Split;
    if UsesStartCodes(codec) {
      queue', n := SplitNALs(queue, packet, stamp);
    } else {
      queue', n := queue + [FrameData(packet, stamp)], 1;
    }
  }
}
