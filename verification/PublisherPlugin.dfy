/** The publisher: a server and an encoder that are built when needed, thrown away when the configuration
    changes, and have to agree with it in between. */
module PublisherPlugin {
  import opened Frames
  import opened NalSplitter
  import Encoders = StreamEncoder

  datatype Config = Config(codec: VideoCodec, bitrate: nat, framerate: nat, useHwEncoder: bool, udpPort: nat,
                           udpPacketSize: nat, useMulticast: bool)

  const DEFAULTS: Config := Config(Unknown, 1000000, 30, true, 0, 1396, false)

  /** The publisher's view of a server. */
  datatype Server = Server(codec: VideoCodec, port: nat, maxPacketSize: int, url: string)

  /** `published` are the URL messages, `sent` the frames handed to the server. */
  datatype Publisher = Publisher(config: Config, server: Option<Server>, encoder: Option<Encoders.EncoderConfig>,
                                 updateUrl: bool, failed: bool, published: seq<string>, sent: seq<FrameData>)

  const FRESH: Publisher := Publisher(DEFAULTS, None, None, false, false, [], [])

  datatype Action =
    | Update(config: Config, createOk: bool, startOk: bool, url: string)
    | Publish(active: bool, urlOk: bool, encoderOk: bool, produced: Option<seq<FrameData>>)
    | GraphChange(subscribers: nat)
    | ShutDown

  // The three levels of change.

  predicate ServerLevel(s: Publisher, c: Config) {
    // The source compares the packet size of the old configuration with itself.
    (s.server.None? && !s.failed) || s.config.udpPort != c.udpPort
  }

  predicate SessionLevel(s: Publisher, c: Config) {
    s.config.codec != c.codec || s.config.useMulticast != c.useMulticast
  }

  predicate CodecLevel(s: Publisher, c: Config) {
    s.config.bitrate != c.bitrate || s.config.framerate != c.framerate || s.config.useHwEncoder != c.useHwEncoder
  }

  /** The update would restart the session of a server that does not exist. */
  predicate NullCall(s: Publisher, c: Config) {
    SessionLevel(s, c) && !ServerLevel(s, c) && s.server.None?
  }

  function GivenUp(s: Publisher): Publisher {
    s.(server := None, encoder := None, updateUrl := false, failed := true)
  }

  function Updated(s: Publisher, c: Config, createOk: bool, startOk: bool, url: string): Publisher {
    if NullCall(s, c) then s
    else
      var t := s.(config := c);
      if ServerLevel(s, c) then
        if !createOk || !startOk then GivenUp(t)
        else
          var built := Server(c.codec, c.udpPort, c.udpPacketSize - 42, url);
          t.(server := Some(built), updateUrl := true, encoder := None)
      else if SessionLevel(s, c) then
        if !startOk then GivenUp(t)
        else t.(server := Some(s.server.value.(codec := c.codec, url := url)), updateUrl := true, encoder := None)
      else if CodecLevel(s, c) then t.(encoder := None)
      else t
  }

  function EncoderFor(s: Publisher): Encoders.EncoderConfig
    requires s.server.Some?
  {
    Encoders.EncoderConfig(s.config.codec, s.config.useHwEncoder, s.config.bitrate, s.config.framerate,
                           s.server.value.maxPacketSize - 24)
  }

  function Broken(s: Publisher): Publisher {
    s.(encoder := None, failed := true)
  }

  /** With no stream active, encoding stops and receivers are told the URL once more. */
  function Idle(s: Publisher, urlOk: bool): Publisher
    requires s.server.Some?
  {
    if s.encoder.None? then s
    else if urlOk then s.(encoder := None, published := s.published + [s.server.value.url])
    else Broken(s)
  }

  /** `produced` are the frames the encoder queues for the image, or nothing if it throws. */
  function Encoded(s: Publisher, encoderOk: bool, produced: Option<seq<FrameData>>): Publisher
    requires s.server.Some?
  {
    if (s.encoder.None? && !encoderOk) || produced.None? then Broken(s)
    else s.(encoder := if s.encoder.Some? then s.encoder else Some(EncoderFor(s)), sent := s.sent + produced.value)
  }

  function Published(s: Publisher, active: bool, urlOk: bool, encoderOk: bool, produced: Option<seq<FrameData>>)
    : Publisher
  {
    if s.server.None? || s.failed then s
    else if s.updateUrl && !urlOk then Broken(s)
    else
      var t := if s.updateUrl then s.(published := s.published + [s.server.value.url], updateUrl := false) else s;
      if active then Encoded(t, encoderOk, produced) else Idle(t, urlOk)
  }

  function Step(s: Publisher, a: Action): Publisher {
    match a
    case Update(c, createOk, startOk, url) => Updated(s, c, createOk, startOk, url)
    case Publish(active, urlOk, encoderOk, produced) => Published(s, active, urlOk, encoderOk, produced)
    case GraphChange(n) => if n == 0 && s.encoder.Some? && s.server.Some? then s.(encoder := None) else s
    case ShutDown => s.(server := None, encoder := None)
  }

  function Run(s: Publisher, acts: seq<Action>): Publisher
    decreases |acts|
  {
    if acts == [] then s else Run(Step(s, acts[0]), acts[1..])
  }

  /** What exists agrees with the configuration, and receivers either know the server's URL or are about to
      be told. */
  predicate Coherent(s: Publisher) {
    && (s.server.Some? ==> s.server.value.codec == s.config.codec && s.server.value.port == s.config.udpPort)
    && (s.encoder.Some? ==> s.server.Some? && s.encoder.value == EncoderFor(s))
    && (s.server.Some? ==> s.updateUrl || (s.published != [] && s.published[|s.published| - 1] == s.server.value.url))
  }

  lemma StepKeepsCoherent(s: Publisher, a: Action)
    requires Coherent(s)
    ensures Coherent(Step(s, a))
    ensures s.failed ==> Step(s, a).failed && Step(s, a).sent == s.sent && Step(s, a).published == s.published
  {
    if a.Publish? {
      PublishKeepsCoherent(s, a);
    } else if a.Update? {
      UpdateKeepsCoherent(s, a);
    } else {
      hide Published;
      hide Updated;
    }
  }

  lemma UpdateKeepsCoherent(s: Publisher, a: Action)
    requires Coherent(s) && a.Update?
    ensures Coherent(Step(s, a))
    ensures s.failed ==> Step(s, a).failed && Step(s, a).sent == s.sent && Step(s, a).published == s.published
  {
    hide Published;
  }

  lemma PublishKeepsCoherent(s: Publisher, a: Action)
    requires Coherent(s) && a.Publish?
    ensures Coherent(Step(s, a)) && (s.failed ==> Step(s, a) == s)
  {
  }

  /** Coherence and URL freshness in every reachable state. */
  lemma {:induction false} AlwaysCoherent(s: Publisher, acts: seq<Action>)
    requires Coherent(s)
    ensures Coherent(Run(s, acts))
    ensures s.failed ==> Run(s, acts).failed && Run(s, acts).sent == s.sent && Run(s, acts).published == s.published
    decreases |acts|
  {
    hide Step;
    hide Coherent;
    if acts != [] {
      StepKeepsCoherent(s, acts[0]);
      AlwaysCoherent(Step(s, acts[0]), acts[1..]);
    }
  }

  lemma CoherenceLaw(acts: seq<Action>)
    ensures var s := Run(FRESH, acts);
            && (s.encoder.Some? ==>
                  && s.server.Some?
                  && s.encoder.value.codec == s.server.value.codec == s.config.codec
                  && s.encoder.value.bitrate == s.config.bitrate && s.encoder.value.framerate == s.config.framerate
                  && s.encoder.value.useHw == s.config.useHwEncoder
                  && s.encoder.value.sizeHint == s.server.value.maxPacketSize - 24)
            && (s.server.Some? ==> s.server.value.codec == s.config.codec && s.server.value.port == s.config.udpPort)
            && (s.server.Some? && !s.updateUrl ==>
                  s.published != [] && s.published[|s.published| - 1] == s.server.value.url)
  {
    AlwaysCoherent(FRESH, acts);
  }

  /** A failure is final: nothing is sent and no URL is announced afterwards, whatever happens. */
  lemma FailureIsFinal(before: seq<Action>, after: seq<Action>)
    requires Run(FRESH, before).failed
    ensures var s, t := Run(FRESH, before), Run(FRESH, before + after);
            t.failed && t.sent == s.sent && t.published == s.published
  {
    AlwaysCoherent(FRESH, before);
    RunAppend(FRESH, before, after);
    AlwaysCoherent(Run(FRESH, before), after);
  }

  lemma {:induction false} RunAppend(s: Publisher, a: seq<Action>, b: seq<Action>)
    ensures Run(s, a + b) == Run(Run(s, a), b)
    decreases |a|
  {
    hide Step;
    if a == [] {
      EmptyLeft(b);
    } else {
      assert (a + b)[1..] == a[1..] + b;
      RunAppend(Step(s, a[0]), a[1..], b);
    }
  }

  /** Changing nothing but the packet size changes nothing but the configuration. */
  lemma PacketSizeIgnored()
    ensures var c := DEFAULTS.(codec := H264);
            var s := Run(FRESH, [Update(c, true, true, "rtsp://a")]);
            var t := Step(s, Update(c.(udpPacketSize := 9000), true, true, "rtsp://b"));
            t == s.(config := c.(udpPacketSize := 9000)) && t.server.Some? && t.server.value.maxPacketSize == 1354
  {
    var c := DEFAULTS.(codec := H264);
    var a := Update(c, true, true, "rtsp://a");
    assert Run(FRESH, [a]) == Step(FRESH, a);
  }

  // ----- what each operation does, said of the configurations and answers themselves

  /** A missing server is made unless something has failed, and a changed port makes a new one; a changed codec or
      multicast flag starts a new session; a changed bitrate, frame rate or hardware flag drops the encoder alone. */
  lemma UpdateDecides(s: Publisher, c: Config, createOk: bool, startOk: bool, url: string)
    ensures var t := Step(s, Update(c, createOk, startOk, url));
            var makes := (s.server.None? && !s.failed) || s.config.udpPort != c.udpPort;
            var starts := s.config.codec != c.codec || s.config.useMulticast != c.useMulticast;
            var drops := s.config.bitrate != c.bitrate || s.config.framerate != c.framerate
                         || s.config.useHwEncoder != c.useHwEncoder;
            && t.published == s.published && t.sent == s.sent
            && (makes && createOk && startOk ==>
                  && t.config == c && t.encoder == None && t.updateUrl && t.failed == s.failed
                  && t.server == Some(Server(c.codec, c.udpPort, c.udpPacketSize - 42, url)))
            && (!makes && starts && s.server.Some? && startOk ==>
                  && t.config == c && t.encoder == None && t.updateUrl && t.failed == s.failed
                  && t.server == Some(Server(c.codec, s.server.value.port, s.server.value.maxPacketSize, url)))
            && ((makes && !(createOk && startOk)) || (!makes && starts && s.server.Some? && !startOk) ==>
                  t.config == c && t.server == None && t.encoder == None && !t.updateUrl && t.failed)
            && (!makes && !starts ==>
                  && t.config == c && t.server == s.server && t.updateUrl == s.updateUrl && t.failed == s.failed
                  && t.encoder == (if drops then None else s.encoder))
  {
  }

  /** Nothing happens without a server or after a failure. Otherwise a pending URL is announced first; then, with a
      stream active, the image's frames are sent by an encoder that is there afterwards, and without one an encoder
      that is there is dropped and the URL announced. Whatever fails drops the encoder and fails the publisher. */
  lemma PublishDecides(s: Publisher, active: bool, urlOk: bool, encoderOk: bool, produced: Option<seq<FrameData>>)
    ensures var t := Step(s, Publish(active, urlOk, encoderOk, produced));
            var runs := s.server.Some? && !s.failed;
            var told := runs && s.updateUrl && urlOk;
            var stops := runs && !active && s.encoder.Some? && (s.updateUrl ==> urlOk);
            var sends := runs && active && (s.updateUrl ==> urlOk) && (s.encoder.Some? || encoderOk) && produced.Some?;
            && t.config == s.config && t.server == s.server
            && (!runs ==> t == s)
            && (runs ==> t.published == s.published + (if told then [s.server.value.url] else [])
                                        + (if stops && urlOk then [s.server.value.url] else []))
            && t.updateUrl == (s.updateUrl && !told)
            && t.sent == s.sent + (if sends then produced.value else [])
            && (sends ==> t.encoder.Some? && !t.failed && (s.encoder.Some? ==> t.encoder == s.encoder))
            && (stops ==> t.encoder == None)
            && (runs ==> (t.failed <==> (s.updateUrl && !urlOk) || (stops && !urlOk) || (active && !sends)))
            && (runs && t.failed ==> t.encoder == None)
  {
  }

  /** In every reachable state: when the subscribers are gone, so is the encoder, and nothing else changes. */
  lemma GraphChangeDecides(acts: seq<Action>, n: nat)
    ensures var s := Run(FRESH, acts); var t := Step(s, GraphChange(n));
            && t == s.(encoder := t.encoder)
            && (t.encoder.Some? <==> n != 0 && s.encoder.Some?) && (t.encoder.Some? ==> t.encoder == s.encoder)
  {
    AlwaysCoherent(FRESH, acts);
  }

  // ----- what reaches the server

  /** The publication hands frames to the server. */
  predicate Sends(s: Publisher, a: Action) {
    && a.Publish? && s.server.Some? && !s.failed && (s.updateUrl ==> a.urlOk)
    && a.active && (s.encoder.Some? || a.encoderOk) && a.produced.Some?
  }

  /** One step adds to the frames sent exactly what the encoder produced in it. */
  lemma StepSends(s: Publisher, a: Action)
    ensures Step(s, a).sent == s.sent + (if Sends(s, a) then a.produced.value else [])
  {
  }

  // ----- what a history of steps leaves behind

  /** The update makes a server and starts its session. */
  predicate Builds(s: Publisher, a: Action) {
    a.Update? && ServerLevel(s, a.config) && a.createOk && a.startOk
  }

  predicate UpdateFails(s: Publisher, a: Action) {
    && a.Update? && !NullCall(s, a.config)
    && if ServerLevel(s, a.config) then !a.createOk || !a.startOk else SessionLevel(s, a.config) && !a.startOk
  }

  /** Announcing the URL, making the encoder or encoding the image fails. */
  predicate PublishFails(s: Publisher, a: Action) {
    && a.Publish? && s.server.Some? && !s.failed
    && (|| (s.updateUrl && !a.urlOk)
        || (a.active && ((s.encoder.None? && !a.encoderOk) || a.produced.None?))
        || (!a.active && s.encoder.Some? && !a.urlOk))
  }

  /** The state in which the k-th step of a run is taken. */
  function At(acts: seq<Action>, k: nat): Publisher
    requires k <= |acts|
  {
    Run(FRESH, acts[..k])
  }

  predicate BuildsAt(acts: seq<Action>, k: nat)
    requires k < |acts|
  {
    Builds(At(acts, k), acts[k])
  }

  predicate LosesAt(acts: seq<Action>, k: nat)
    requires k < |acts|
  {
    acts[k].ShutDown? || UpdateFails(At(acts, k), acts[k])
  }

  predicate FailsAt(acts: seq<Action>, k: nat)
    requires k < |acts|
  {
    UpdateFails(At(acts, k), acts[k]) || PublishFails(At(acts, k), acts[k])
  }

  /** The k-th step built the server that is there now: nothing has built or lost one since. */
  ghost predicate BuiltBy(acts: seq<Action>, k: nat) {
    && k < |acts| && BuildsAt(acts, k)
    && forall l :: k < l < |acts| ==> !BuildsAt(acts, l) && !LosesAt(acts, l)
  }

  ghost predicate EverFailed(acts: seq<Action>) {
    exists k :: 0 <= k < |acts| && FailsAt(acts, k)
  }

  /** The last step taken alone. */
  lemma LastStep(acts: seq<Action>)
    requires acts != []
    ensures var before, n := acts[..|acts| - 1], |acts| - 1;
            && Run(FRESH, acts) == Step(Run(FRESH, before), acts[n]) && At(acts, n) == Run(FRESH, before)
            && (forall k {:trigger At(acts, k)} {:trigger At(before, k)} :: 0 <= k < n ==> At(before, k) == At(acts, k))
  {
    hide Step;
    var before, n := acts[..|acts| - 1], |acts| - 1;
    assert acts == before + [acts[n]];
    RunAppend(FRESH, before, [acts[n]]);
    assert [acts[n]][1..] == [];
    forall k | 0 <= k < n ensures before[..k] == acts[..k] {
    }
  }

  lemma OneStepBooks(s: Publisher, a: Action)
    ensures var t := Step(s, a);
            && (t.failed <==> s.failed || UpdateFails(s, a) || PublishFails(s, a))
            && (Builds(s, a) ==> t.server.Some? && t.server.value.maxPacketSize == a.config.udpPacketSize - 42)
            && (a.ShutDown? || UpdateFails(s, a) ==> t.server.None? && !Builds(s, a))
            && (!Builds(s, a) && !a.ShutDown? && !UpdateFails(s, a) ==>
                  && t.server.Some? == s.server.Some?
                  && (s.server.Some? ==> t.server.value.maxPacketSize == s.server.value.maxPacketSize))
  {
  }

  /** The failure flag tells whether any update or publication has failed in the whole history. */
  lemma {:induction false} FailedIff(acts: seq<Action>)
    ensures Run(FRESH, acts).failed <==> EverFailed(acts)
    decreases |acts|
  {
    hide Step;
    hide UpdateFails;
    hide PublishFails;
    if acts != [] {
      var before, n := acts[..|acts| - 1], |acts| - 1;
      FailedIff(before);
      LastStep(acts);
      OneStepBooks(At(acts, n), acts[n]);
      assert forall k :: 0 <= k < n ==> (FailsAt(acts, k) <==> FailsAt(before, k)) by {
        forall k | 0 <= k < n ensures FailsAt(acts, k) <==> FailsAt(before, k) {
          assert At(acts, k) == At(before, k) && acts[k] == before[k];
        }
      }
      assert Run(FRESH, acts).failed <==> EverFailed(before) || FailsAt(acts, n);
    }
  }

  lemma SameSteps(acts: seq<Action>, k: nat)
    requires k + 1 < |acts|
    ensures var before := acts[..|acts| - 1];
            (BuildsAt(acts, k) <==> BuildsAt(before, k)) && (LosesAt(acts, k) <==> LosesAt(before, k))
  {
    LastStep(acts);
    hide *;
    var before := acts[..|acts| - 1];
    assert At(acts, k) == At(before, k) && acts[k] == before[k];
    SameStep(acts, before, k);
  }

  lemma SameStep(a: seq<Action>, b: seq<Action>, k: nat)
    requires k < |a| && k < |b| && At(a, k) == At(b, k) && a[k] == b[k]
    ensures (BuildsAt(a, k) <==> BuildsAt(b, k)) && (LosesAt(a, k) <==> LosesAt(b, k))
  {
    hide Builds;
    hide UpdateFails;
    hide At;
  }

  lemma BuiltByLater(acts: seq<Action>, k: nat)
    requires acts != [] && k + 1 < |acts|
    ensures var n := |acts| - 1;
            BuiltBy(acts, k) <==> BuiltBy(acts[..n], k) && !BuildsAt(acts, n) && !LosesAt(acts, n)
  {
    hide BuildsAt;
    hide LosesAt;
    var before, n := acts[..|acts| - 1], |acts| - 1;
    forall l: nat | l < n
      ensures (BuildsAt(acts, l) <==> BuildsAt(before, l)) && (LosesAt(acts, l) <==> LosesAt(before, l))
    {
      SameSteps(acts, l);
    }
    if BuiltBy(before, k) && !BuildsAt(acts, n) && !LosesAt(acts, n) {
      forall l | k < l < |acts| ensures !BuildsAt(acts, l) && !LosesAt(acts, l) {
        if l < n {
          assert !BuildsAt(before, l) && !LosesAt(before, l);
        }
      }
    }
    if BuiltBy(acts, k) {
      forall l | k < l < n ensures !BuildsAt(before, l) && !LosesAt(before, l) {
        assert !BuildsAt(acts, l) && !LosesAt(acts, l);
      }
    }
  }

  /** Whatever the history: there is a server if and only if some update built one that nothing has lost since, and
      its packet size is that update's, whatever packet sizes later updates asked for. */
  lemma {:induction false} ServerIff(acts: seq<Action>)
    ensures Run(FRESH, acts).server.Some? <==> exists k: nat :: BuiltBy(acts, k)
    ensures forall k: nat :: BuiltBy(acts, k) ==>
              var s := Run(FRESH, acts);
              s.server.Some? && acts[k].Update? && s.server.value.maxPacketSize == acts[k].config.udpPacketSize - 42
    decreases |acts|
  {
    if acts != [] {
      hide *;
      ServerLast(acts);
    }
  }

  lemma {:induction false} ServerLast(acts: seq<Action>)
    requires acts != []
    ensures Run(FRESH, acts).server.Some? <==> exists k: nat :: BuiltBy(acts, k)
    ensures forall k: nat :: BuiltBy(acts, k) ==>
              var s := Run(FRESH, acts);
              s.server.Some? && acts[k].Update? && s.server.value.maxPacketSize == acts[k].config.udpPacketSize - 42
    decreases |acts|, 0
  {
    var before, n := acts[..|acts| - 1], |acts| - 1;
    assert BuildsAt(acts, n) <==> Builds(At(acts, n), acts[n]);
    assert LosesAt(acts, n) <==> acts[n].ShutDown? || UpdateFails(At(acts, n), acts[n]);
    assert BuiltBy(acts, n) <==> BuildsAt(acts, n);
    assert BuildsAt(acts, n) ==> acts[n].Update?;
    assert forall k: nat :: BuiltBy(acts, k) ==> k <= n;
    assert forall k: nat :: BuiltBy(before, k) ==> k < n;
    hide *;
    ServerIff(before);
    LastStep(acts);
    OneStepBooks(At(acts, n), acts[n]);
    var t := Run(FRESH, acts);
    forall k: nat | BuiltBy(acts, k)
      ensures t.server.Some? && acts[k].Update? && t.server.value.maxPacketSize == acts[k].config.udpPacketSize - 42
    {
      if k < n {
        BuiltByLater(acts, k);
        assert acts[k] == before[k];
      }
    }
    if t.server.Some? && !BuildsAt(acts, n) {
      var k: nat :| BuiltBy(before, k);
      BuiltByLater(acts, k);
    }
  }

  /** In any reachable state the server's packet size is that of the update that built it; so it is the configured
      one if and only if the configuration has come to ask for that size again or still does. */
  lemma PacketSizeFollowsIff(acts: seq<Action>) returns (k: nat)
    requires Run(FRESH, acts).server.Some?
    ensures BuiltBy(acts, k)
    ensures var s := Run(FRESH, acts);
            && s.server.value.maxPacketSize == acts[k].config.udpPacketSize - 42
            && (s.server.value.maxPacketSize == s.config.udpPacketSize - 42
                <==> s.config.udpPacketSize == acts[k].config.udpPacketSize)
  {
    ServerIff(acts);
    k :| BuiltBy(acts, k);
  }

  // ----- which URL is announced

  /** The update starts a session: a new server's first one, or another one of the same server. */
  predicate Starts(s: Publisher, a: Action) {
    && a.Update? && !NullCall(s, a.config)
    && (if ServerLevel(s, a.config) then a.createOk && a.startOk else SessionLevel(s, a.config) && a.startOk)
  }

  predicate StartsAt(acts: seq<Action>, k: nat)
    requires k < |acts|
  {
    Starts(At(acts, k), acts[k])
  }

  /** Of the first `n` steps, the k-th is the last that started a session. */
  ghost predicate LatestStart(acts: seq<Action>, n: nat, k: nat) {
    && k < n <= |acts| && StartsAt(acts, k)
    && forall l :: k < l < n ==> !StartsAt(acts, l)
  }

  lemma SameStart(acts: seq<Action>, k: nat)
    requires k + 1 < |acts|
    ensures StartsAt(acts, k) <==> StartsAt(acts[..|acts| - 1], k)
  {
    LastStep(acts);
    hide Starts;
    hide At;
    assert At(acts, k) == At(acts[..|acts| - 1], k) && acts[k] == acts[..|acts| - 1][k];
  }

  lemma LatestStartLater(acts: seq<Action>, n: nat, k: nat)
    requires acts != [] && n < |acts|
    ensures LatestStart(acts[..|acts| - 1], n, k) ==> LatestStart(acts, n, k)
    ensures n == |acts| - 1 && LatestStart(acts[..n], n, k) && !StartsAt(acts, n) ==> LatestStart(acts, |acts|, k)
  {
    hide StartsAt;
    var before := acts[..|acts| - 1];
    if LatestStart(before, n, k) {
      SameStart(acts, k);
      forall l | k < l < n ensures !StartsAt(acts, l) {
        assert !StartsAt(before, l);
        SameStart(acts, l);
      }
    }
  }

  lemma OneStepUrl(s: Publisher, a: Action)
    ensures var t := Step(s, a);
            && (Starts(s, a) ==> a.Update? && t.server.Some? && t.server.value.url == a.url)
            && (!Starts(s, a) && t.server.Some? ==> s.server.Some? && t.server.value.url == s.server.value.url)
            && (!a.Publish? ==> t.published == s.published)
            && (t.published != s.published ==> s.server.Some?)
            && s.published <= t.published
            && (forall p :: |s.published| <= p < |t.published| ==> t.published[p] == s.server.value.url)
  {
    if a.Update? {
      UpdateDecides(s, a.config, a.createOk, a.startOk, a.url);
    } else if a.Publish? {
      PublishDecides(s, a.active, a.urlOk, a.encoderOk, a.produced);
    }
  }

  /** Over any run: the server's URL is the address of the session started last, and every URL ever announced was, at
      the publication that announced it, the address of the session started last. */
  lemma {:induction false} UrlLaw(acts: seq<Action>)
    ensures var s := Run(FRESH, acts);
            && (s.server.Some? ==>
                  exists k: nat :: LatestStart(acts, |acts|, k) && acts[k].Update? && s.server.value.url == acts[k].url)
            && (forall p :: 0 <= p < |s.published| ==> AnnouncedAt(acts, s.published[p]))
    decreases |acts|
  {
    if acts != [] {
      hide *;
      UrlStep(acts);
    }
  }

  /** Some publication announced the address of the session started last before it. */
  ghost predicate AnnouncedAt(acts: seq<Action>, url: string) {
    exists j: nat, k: nat {:trigger LatestStart(acts, j, k)} ::
      k < j < |acts| && acts[j].Publish? && LatestStart(acts, j, k) && acts[k].Update? && acts[k].url == url
  }

  lemma {:induction false} UrlStep(acts: seq<Action>)
    requires acts != []
    ensures var s := Run(FRESH, acts);
            && (s.server.Some? ==>
                  exists k: nat :: LatestStart(acts, |acts|, k) && acts[k].Update? && s.server.value.url == acts[k].url)
            && (forall p :: 0 <= p < |s.published| ==> AnnouncedAt(acts, s.published[p]))
    decreases |acts|, 0
  {
    var before, n := acts[..|acts| - 1], |acts| - 1;
    assert StartsAt(acts, n) <==> Starts(At(acts, n), acts[n]);
    assert StartsAt(acts, n) ==> LatestStart(acts, |acts|, n);
    hide *;
    UrlLaw(before);
    LastStep(acts);
    var s, t := Run(FRESH, before), Run(FRESH, acts);
    OneStepUrl(s, acts[n]);
    if t.server.Some? && !StartsAt(acts, n) {
      var k: nat :| LatestStart(before, |before|, k) && before[k].Update? && s.server.value.url == before[k].url;
      LatestStartLater(acts, n, k);
      LatestBounds(before, |before|, k);
    }
    forall p | 0 <= p < |t.published| ensures AnnouncedAt(acts, t.published[p]) {
      if p < |s.published| {
        assert t.published[p] == s.published[p];
        AnnouncedBefore(acts, t.published[p]);
      } else {
        var k: nat :| LatestStart(before, |before|, k) && before[k].Update? && s.server.value.url == before[k].url;
        LatestStartLater(acts, n, k);
        LatestBounds(before, |before|, k);
        AnnouncedNow(acts, n, k);
      }
    }
  }

  lemma LatestBounds(acts: seq<Action>, n: nat, k: nat)
    requires LatestStart(acts, n, k)
    ensures k < n <= |acts|
  {
  }

  lemma AnnouncedBefore(acts: seq<Action>, url: string)
    requires acts != [] && AnnouncedAt(acts[..|acts| - 1], url)
    ensures AnnouncedAt(acts, url)
  {
    hide LatestStart;
    var before := acts[..|acts| - 1];
    var j: nat, k: nat :| k < j < |before| && before[j].Publish? && LatestStart(before, j, k) && before[k].Update?
                          && before[k].url == url;
    LatestStartLater(acts, j, k);
  }

  lemma AnnouncedNow(acts: seq<Action>, n: nat, k: nat)
    requires n < |acts| && k < n && acts[n].Publish? && LatestStart(acts, n, k) && acts[k].Update?
    ensures AnnouncedAt(acts, acts[k].url)
  {
    hide LatestStart;
  }

  /** Which histories make an update reach for a missing server: those in which an update or a publication has
      failed and no server is left, with the port unchanged and the codec or the multicast flag changed. */
  lemma NullCallHistories(acts: seq<Action>, c: Config)
    ensures var s := Run(FRESH, acts);
            NullCall(s, c) <==>
              && EverFailed(acts) && (forall k: nat :: !BuiltBy(acts, k))
              && s.config.udpPort == c.udpPort && SessionLevel(s, c)
  {
    FailedIff(acts);
    ServerIff(acts);
  }

  /** Two such histories: an update that fails, and a publication that fails before a shutdown. */
  lemma NullCallIsReachable()
    ensures var c := DEFAULTS.(codec := H264);
            && NullCall(Run(FRESH, [Update(c, false, true, "")]), c.(codec := H265))
            && NullCall(Run(FRESH, [Update(c, true, true, "rtsp://a"), Publish(true, false, true, None), ShutDown]),
                        c.(codec := H265))
  {
    var c := DEFAULTS.(codec := H264);
    var u, p := Update(c, true, true, "rtsp://a"), Publish(true, false, true, None);
    assert Run(FRESH, [Update(c, false, true, "")]) == Step(FRESH, Update(c, false, true, ""));
    var s := Step(Step(FRESH, u), p);
    assert s.failed && s.server.Some? && s.config == c;
    assert [u, p, ShutDown][1..] == [p, ShutDown] && [p, ShutDown][1..] == [ShutDown] && [ShutDown][1..] == [];
    assert Run(FRESH, [u, p, ShutDown]) == Run(Step(FRESH, u), [p, ShutDown]) == Run(s, [ShutDown])
           == Run(Step(s, ShutDown), []) == Step(s, ShutDown);
  }

  // ----- the plugin itself

  class PublisherPlugin {
    var config: Config
    var server: Option<Server>
    var encoder: Encoders.StreamEncoder?
    var updateUrl: bool
    var failed: bool
    var published: seq<string>
    var sent: seq<FrameData>

    ghost function State(): Publisher
      reads this, encoder
    {
      Publisher(config, server, if encoder == null then None else Some(encoder.config), updateUrl, failed,
                published, sent)
    }

    ghost predicate Valid()
      reads this, encoder
    {
      && Coherent(State())
      && (encoder != null ==> encoder.Valid() && encoder.packets == [])
    }

    constructor ()
      ensures Valid() && State() == FRESH
      ensures config == Config(Unknown, 1000000, 30, true, 0, 1396, false)
      ensures server == None && encoder == null && !updateUrl && !failed && published == [] && sent == []
    {
      config, server, encoder, updateUrl, failed := DEFAULTS, None, null, false, false;
      published, sent := [], [];
    }

    method GiveUp()
      modifies this`server, this`encoder, this`updateUrl, this`failed
      ensures State() == GivenUp(old(State())) && encoder == null
      ensures server == None && !updateUrl && failed
    {
      server := None;
      encoder := null;
      updateUrl := false;
      failed := true;
    }

    method ChangeLevel(newConfig: Config) returns (changelevel: nat)
      ensures changelevel >= 4 <==> ServerLevel(State(), newConfig)
      ensures changelevel >= 2 <==> ServerLevel(State(), newConfig) || SessionLevel(State(), newConfig)
      ensures changelevel >= 1 <==>
                ServerLevel(State(), newConfig) || SessionLevel(State(), newConfig) || CodecLevel(State(), newConfig)
      ensures changelevel
              == (if (server.None? && !failed) || config.udpPort != newConfig.udpPort then 4 else 0)
                 + (if config.codec != newConfig.codec || config.useMulticast != newConfig.useMulticast then 2 else 0)
                 + (if config.bitrate != newConfig.bitrate || config.framerate != newConfig.framerate
                       || config.useHwEncoder != newConfig.useHwEncoder then 1 else 0)
    {
      changelevel := 0;
      if (server.None? && !failed) || config.udpPort != newConfig.udpPort
         || config.udpPacketSize != config.udpPacketSize {
        changelevel := changelevel + 4;
      }
      if config.codec != newConfig.codec || config.useMulticast != newConfig.useMulticast {
        changelevel := changelevel + 2;
      }
      if config.bitrate != newConfig.bitrate || config.framerate != newConfig.framerate
         || config.useHwEncoder != newConfig.useHwEncoder {
        changelevel := changelevel + 1;
      }
    }

    /** `createOk` and `startOk` say whether the server can be made and its session started; `url` is the
        session's address. */
    method UpdateParameters(newConfig: Config, createOk: bool, startOk: bool, url: string)
      requires Valid() && !NullCall(State(), newConfig)
      modifies this
      ensures Valid() && State() == Step(old(State()), Update(newConfig, createOk, startOk, url))
      ensures encoder == null || encoder == old(encoder)
    {
      StepKeepsCoherent(State(), Update(newConfig, createOk, startOk, url));
      hide Coherent;
      hide EncoderFor;
      var changelevel := ChangeLevel(newConfig);
      hide ServerLevel;
      hide SessionLevel;
      hide CodecLevel;
      config := newConfig;
      if changelevel >= 4 {
        server := None;
        if !createOk {
          GiveUp();
          return;
        }
        server := Some(Server(Unknown, config.udpPort, config.udpPacketSize - 42, ""));
      }
      if changelevel >= 2 {
        if !startOk {
          GiveUp();
          return;
        }
        server := Some(server.value.(codec := config.codec, url := url));
        updateUrl := true;
      }
      if changelevel >= 1 {
        encoder := null;
      }
    }

    /** What the encoder will queue for an image, read off its state and the codec's answers. */
    ghost function Expected(image: Encoders.Image, lib: Encoders.CodecReply): Option<seq<FrameData>>
      reads this, encoder
    {
      var r := if encoder == null then Encoders.Verdict(false, 0, 0, image, lib, config.codec)
               else Encoders.Verdict(encoder.initialized, encoder.width, encoder.height, image, lib, config.codec);
      if r.Ok? then Some(FramesOf(Encoders.Produced(config.codec, lib.packets), image.stamp)) else None
    }

    /** Something is expected of an image exactly if no step of encoding it fails, and then it is the units of all
        packets with the image's stamp. */
    lemma ExpectedMeans(image: Encoders.Image, lib: Encoders.CodecReply)
      ensures var isOpen := if encoder == null then lib.openOk else encoder.initialized || lib.openOk;
              var fits := encoder != null && encoder.initialized ==>
                            image.width == encoder.width && image.height == encoder.height;
              Expected(image, lib)
              == if isOpen && fits && image.supported && lib.bufferOk && lib.sendOk && lib.drained
                 then Some(FramesOf(Encoders.Produced(config.codec, lib.packets), image.stamp)) else None
    {
      if encoder == null {
        Encoders.VerdictOrder(false, 0, 0, image, lib, config.codec);
      } else {
        Encoders.VerdictOrder(encoder.initialized, encoder.width, encoder.height, image, lib, config.codec);
      }
    }

    /** `active` says whether the server has streams, `urlOk` whether a URL message can be published and
        `encoderOk` whether an encoder can be made. */
    method PublishImage(image: Encoders.Image, active: bool, urlOk: bool, encoderOk: bool, lib: Encoders.CodecReply)
      requires Valid()
      requires UsesStartCodes(config.codec) ==> forall p :: p in lib.packets ==> |p| >= 4
      modifies this, if encoder == null then {} else {encoder}
      ensures Valid()
      ensures State() == Step(old(State()), Publish(active, urlOk, encoderOk, old(Expected(image, lib))))
    {
      StepKeepsCoherent(State(), Publish(active, urlOk, encoderOk, Expected(image, lib)));
      assert encoder != null ==> encoder.config.codec == config.codec;
      hide Coherent;
      hide Encoded;
      hide Idle;
      if server.None? || failed {
        return;
      }
      if updateUrl {
        if !urlOk {
          encoder, failed := null, true;
          return;
        }
        published := published + [server.value.url];
        updateUrl := false;
      }
      if !active {
        StopEncoding(urlOk);
      } else {
        Encode(image, encoderOk, lib);
      }
    }

    method StopEncoding(urlOk: bool)
      requires server.Some?
      modifies this`encoder, this`published, this`failed
      ensures State() == Idle(old(State()), urlOk) && encoder == null
      ensures published == old(published) + (if old(encoder) != null && urlOk then [server.value.url] else [])
      ensures failed == (old(failed) || (old(encoder) != null && !urlOk))
    {
      if encoder != null {
        encoder := null;
        if !urlOk {
          failed := true;
          return;
        }
        published := published + [server.value.url];
      }
    }

    method Encode(image: Encoders.Image, encoderOk: bool, lib: Encoders.CodecReply)
      requires server.Some?
      requires encoder != null ==> encoder.Valid() && encoder.packets == [] && encoder.config.codec == config.codec
      requires UsesStartCodes(config.codec) ==> forall p :: p in lib.packets ==> |p| >= 4
      modifies this`encoder, this`failed, this`sent, if encoder == null then {} else {encoder}
      ensures State() == Encoded(old(State()), encoderOk, old(Expected(image, lib)))
      ensures encoder != null ==> encoder.Valid() && encoder.packets == []
    {
      hide Encoders.Produced;
      hide FramesOf;
      if encoder == null {
        if !encoderOk {
          failed := true;
          return;
        }
        encoder := new Encoders.StreamEncoder(
          Encoders.EncoderConfig(config.codec, config.useHwEncoder, config.bitrate, config.framerate,
                                 server.value.maxPacketSize - 24));
      }
      var ok := EncodeAndSend(image, lib);
      if !ok {
        encoder, failed := null, true;
      }
    }

    /** Encoding one image and draining the encoder's queue into the server. */
    method EncodeAndSend(image: Encoders.Image, lib: Encoders.CodecReply) returns (ok: bool)
      requires encoder != null && encoder.Valid() && encoder.packets == [] && encoder.config.codec == config.codec
      requires UsesStartCodes(config.codec) ==> forall p :: p in lib.packets ==> |p| >= 4
      modifies this`sent, encoder
      ensures ok <==> old(Expected(image, lib)).Some?
      ensures ok ==> sent == old(sent) + old(Expected(image, lib)).value && encoder.Valid() && encoder.packets == []
      ensures !ok ==> sent == old(sent)
    {
      var r := encoder.EncodeVideo(image, lib);
      if r.Err? {
        return false;
      }
      ghost var all := encoder.packets;
      EmptyLeft(FramesOf(Encoders.Produced(config.codec, lib.packets), image.stamp));
      if r.value > 0 {
        SendQueued();
      }
      return true;
    }

    /** The loop that hands every queued packet to the server. */
    method SendQueued()
      requires encoder != null && encoder.Valid()
      modifies this`sent, encoder`packets
      ensures encoder.Valid() && encoder.packets == [] && sent == old(sent) + old(encoder.packets)
    {
      hide Encoders.StreamEncoder.Valid;
      ghost var all := encoder.packets;
      EmptyLeft(all);
      var data := encoder.NextPacket();
      ghost var done: seq<FrameData> := [];
      while data.Some?
        invariant encoder.Valid()
        invariant data.Some? ==> all == done + ([data.value] + encoder.packets)
        invariant data.None? ==> all == done && encoder.packets == []
        invariant sent == old(sent) + done
        decreases |encoder.packets| + (if data.Some? then 1 else 0)
      {
        sent := sent + [data.value];
        Assoc(done, [data.value], encoder.packets);
        Assoc(old(sent), done, [data.value]);
        done := done + [data.value];
        data := encoder.NextPacket();
      }
    }

    method OnGraphChange(subscribers: nat)
      requires Valid()
      modifies this`encoder
      ensures Valid() && State() == Step(old(State()), GraphChange(subscribers))
      ensures subscribers == 0 ==> encoder == null
      ensures subscribers != 0 ==> encoder == old(encoder)
    {
      if subscribers == 0 && encoder != null && server.Some? {
        encoder := null;
      }
    }

    method Stop()
      requires Valid()
      modifies this`server, this`encoder
      ensures Valid() && State() == Step(old(State()), ShutDown)
      ensures server == None && encoder == null
    {
      server := None;
      encoder := null;
    }
  }
}
