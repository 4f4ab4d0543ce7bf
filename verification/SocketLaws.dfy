// What a peer holding the agent socket can and cannot make the hook conclude.
module SocketLaws {
  import opened Prelude
  import opened Socket

  // ---- frames on the wire ----

  ghost predicate OnTime(s: seq<Arrival>, deadline: int) {
    forall i :: 0 <= i < |s| ==> s[i].at < deadline
  }

  /** Exactly one frame: four bytes, most significant first, that count the at most 3 MiB after them. */
  ghost predicate Framed(f: seq<Arrival>) {
    && 4 <= |f| <= 4 + 3145728
    && 16777216 * f[0].byte + 65536 * f[1].byte + 256 * f[2].byte + f[3].byte == |f| - 4
  }

  ghost function Body(f: seq<Arrival>): seq<Octet> {
    if |f| < 4 then [] else Values(f[4..])
  }

  ghost function Joined(frames: seq<seq<Arrival>>): seq<Arrival> {
    if frames == [] then [] else frames[0] + Joined(frames[1..])
  }

  lemma {:induction false} ExactlyPast(a: seq<Arrival>, b: seq<Arrival>, end: End, deadline: int, n: nat)
    requires OnTime(a, deadline)
    ensures Exactly(a + b, end, deadline, |a| + n) == Exactly(b, end, deadline, n)
  {
    if a == [] {
      assert a + b == b;
    } else {
      assert (a + b)[1..] == a[1..] + b;
      ExactlyPast(a[1..], b, end, deadline, n);
    }
  }

  lemma {:induction false} ExactlyOnTime(rest: seq<Arrival>, end: End, deadline: int, n: nat)
    requires Exactly(rest, end, deadline, n) == Byte
    ensures OnTime(rest[..n], deadline)
  {
    if n > 0 {
      ExactlyOnTime(rest[1..], end, deadline, n - 1);
      assert forall i :: 0 < i < n ==> rest[i] == rest[1..][..n - 1][i - 1];
    }
  }

  lemma LengthRoundTrip(p: seq<Octet>)
    requires |p| == 4
    ensures Length(p) <= U32_MAX && Prefix(Length(p)) == p
  {
    var n := Length(p);
    assert n / 256 == ((p[0] as int) * 256 + p[1]) * 256 + p[2];
    assert n / 65536 == (p[0] as int) * 256 + p[1];
    assert n / 16777216 == p[0];
  }

  lemma FramedLength(f: seq<Arrival>)
    requires |f| >= 4
    ensures Framed(f) <==> Length(Values(f[..4])) == |f| - 4 <= MAX_FRAME_BYTES
  {
    var v := Values(f[..4]);
    assert v[0] == f[0].byte && v[1] == f[1].byte && v[2] == f[2].byte && v[3] == f[3].byte;
  }

  /** What `encode_frame` writes is one frame, and every frame is what it writes for its body. */
  lemma EncodedIff(f: seq<Arrival>)
    requires |f| >= 4
    ensures Framed(f) <==> Encoded(Body(f)) == Some(Values(f))
  {
    var n := |f| - 4;
    assert f == f[..4] + f[4..];
    ValuesConcat(f[..4], f[4..]);
    FramedLength(f);
    LengthRoundTrip(Values(f[..4]));
    if n <= MAX_FRAME_BYTES {
      PrefixRoundTrip(n);
      assert Values(f)[..4] == Values(f[..4]);
      if Encoded(Body(f)) == Some(Values(f)) {
        assert Values(f)[..4] == Prefix(n);
      }
    }
  }

  /** A frame written whole before the deadline is read back whole, whatever follows it. */
  lemma FrameRoundTrip(f: seq<Arrival>, tail: seq<Arrival>, end: End, deadline: int)
    requires Framed(f) && OnTime(f, deadline)
    ensures FrameOf(f + tail, end, deadline) == Payload(Body(f), tail)
  {
    var head, body, rest := f[..4], f[4..], f + tail;
    FramedLength(f);
    assert rest[..4] == head && rest[4..] == body + tail;
    assert Exactly(rest, end, deadline, 4) == Byte by {
      assert rest == head + (body + tail);
      ExactlyPast(head, body + tail, end, deadline, 0);
    }
    assert Exactly(rest[4..], end, deadline, |body|) == Byte by {
      ExactlyPast(body, tail, end, deadline, 0);
    }
    assert rest[4..][..|body|] == body && rest[4..][|body|..] == tail;
  }

  /** The converse: a payload read is one whole frame, on time, at the front of the wire. */
  lemma FrameSplit(rest: seq<Arrival>, end: End, deadline: int) returns (f: seq<Arrival>)
    requires FrameOf(rest, end, deadline).Payload?
    ensures rest == f + FrameOf(rest, end, deadline).rest
    ensures Framed(f) && OnTime(f, deadline) && Body(f) == FrameOf(rest, end, deadline).bytes
  {
    var head := rest[..4];
    var len := Length(Values(head));
    ExactlyOnTime(rest, end, deadline, 4);
    ExactlyOnTime(rest[4..], end, deadline, len);
    var body := rest[4..][..len];
    assert rest[4..] == body + rest[4..][len..];
    f := head + body;
    assert f[4..] == body;
    assert f[..4] == head;
    FramedLength(f);
  }

  // ---- noise ----

  /** A decision of either lane. */
  predicate Decides(c: Control) {
    c == Decision || c == AuthDecision
  }

  /** Neither a decision nor garbage: a receipt, any acknowledgement, or a kind from another version. */
  predicate TellsNothing(c: Control) {
    c != Decision && c != AuthDecision && c != Undecodable
  }

  ghost predicate Skipped(f: seq<Arrival>, deadline: int, decode: Codec) {
    Framed(f) && OnTime(f, deadline) && TellsNothing(decode(Body(f)))
  }

  ghost predicate Unrecognised(f: seq<Arrival>, deadline: int, decode: Codec) {
    Framed(f) && OnTime(f, deadline) && decode(Body(f)).Unknown?
  }

  lemma JoinedHead(frames: seq<seq<Arrival>>, tail: seq<Arrival>)
    requires frames != []
    ensures Joined(frames) + tail == frames[0] + (Joined(frames[1..]) + tail)
  {
  }

  lemma VerdictSkips(f: seq<Arrival>, others: seq<Arrival>, end: End, deadline: int, decode: Codec)
    requires Skipped(f, deadline, decode)
    ensures VerdictPhase(f + others, end, deadline, decode) == VerdictPhase(others, end, deadline, decode)
  {
    FrameRoundTrip(f, others, end, deadline);
  }

  lemma AckSkips(f: seq<Arrival>, others: seq<Arrival>, end: End, deadline: int, decode: Codec, requestId: string)
    requires Unrecognised(f, deadline, decode)
    ensures AckPhase(f + others, end, deadline, decode, requestId) == AckPhase(others, end, deadline, decode, requestId)
  {
    FrameRoundTrip(f, others, end, deadline);
  }

  /** Informational frames before the verdict change nothing, however many there are. */
  lemma {:induction false} NoiseBeforeVerdict(frames: seq<seq<Arrival>>, tail: seq<Arrival>, end: End, deadline: int, decode: Codec)
    requires forall i :: 0 <= i < |frames| ==> Skipped(frames[i], deadline, decode)
    ensures VerdictPhase(Joined(frames) + tail, end, deadline, decode) == VerdictPhase(tail, end, deadline, decode)
  {
    if frames == [] {
      assert Joined(frames) + tail == tail;
    } else {
      JoinedHead(frames, tail);
      VerdictSkips(frames[0], Joined(frames[1..]) + tail, end, deadline, decode);
      NoiseBeforeVerdict(frames[1..], tail, end, deadline, decode);
    }
  }

  lemma {:induction false} NoiseBeforeAck(frames: seq<seq<Arrival>>, tail: seq<Arrival>, end: End, deadline: int, decode: Codec, requestId: string)
    requires forall i :: 0 <= i < |frames| ==> Unrecognised(frames[i], deadline, decode)
    ensures AckPhase(Joined(frames) + tail, end, deadline, decode, requestId)
         == AckPhase(tail, end, deadline, decode, requestId)
  {
    if frames == [] {
      assert Joined(frames) + tail == tail;
    } else {
      JoinedHead(frames, tail);
      AckSkips(frames[0], Joined(frames[1..]) + tail, end, deadline, decode, requestId);
      NoiseBeforeAck(frames[1..], tail, end, deadline, decode, requestId);
    }
  }

  /**
    Unrecognised frames before the acknowledgement and informational ones after it leave
    the outcome of the whole conversation exactly as it would have been without them.
   */
  lemma NoiseChangesNothing(before: seq<seq<Arrival>>, ack: seq<Arrival>, after: seq<seq<Arrival>>, tail: seq<Arrival>,
                            end: End, start: int, deadline: int, decode: Codec, requestId: string)
    requires var ackDeadline := Min(deadline, start + ACK_TIMEOUT);
             && (forall i :: 0 <= i < |before| ==> Unrecognised(before[i], ackDeadline, decode))
             && Framed(ack) && OnTime(ack, ackDeadline) && decode(Body(ack)) == Alive(1, requestId)
    requires forall i :: 0 <= i < |after| ==> Skipped(after[i], deadline, decode)
    ensures Conversation(Joined(before) + (ack + (Joined(after) + tail)), end, start, deadline, decode, requestId)
         == Conversation(ack + tail, end, start, deadline, decode, requestId)
  {
    var ackDeadline := Min(deadline, start + ACK_TIMEOUT);
    NoiseBeforeAck(before, ack + (Joined(after) + tail), end, ackDeadline, decode, requestId);
    FrameRoundTrip(ack, Joined(after) + tail, end, ackDeadline);
    FrameRoundTrip(ack, tail, end, ackDeadline);
    NoiseBeforeVerdict(after, tail, end, deadline, decode);
  }

  // ---- what each outcome means ----

  /** Where the wait for a verdict stops. */
  function Settled(f: Frame, decode: Codec): Outcome {
    match f
    case Payload(bytes, _) => if Decides(decode(bytes)) then Verdict(bytes) else Unavailable
    case TimedOut => Unavailable
    case _ => Dropped
  }

  lemma SettlesAtOnce(rest: seq<Arrival>, end: End, deadline: int, decode: Codec)
    requires var f := FrameOf(rest, end, deadline); f.Payload? ==> !TellsNothing(decode(f.bytes))
    ensures VerdictPhase(rest, end, deadline, decode) == Settled(FrameOf(rest, end, deadline), decode)
  {
  }

  /**
    Every wait for a verdict is some on-time informational frames and then one event that
    settles it: a decision frame, an undecodable frame, the deadline, or a framing fault.
    Hanging up, truncating, resetting and announcing a bad length all settle it alike.
   */
  lemma {:induction false} VerdictNormalForm(rest: seq<Arrival>, end: End, deadline: int, decode: Codec)
    returns (frames: seq<seq<Arrival>>, tail: seq<Arrival>)
    ensures rest == Joined(frames) + tail
    ensures forall i :: 0 <= i < |frames| ==> Skipped(frames[i], deadline, decode)
    ensures var f := FrameOf(tail, end, deadline);
            && (f.Payload? ==> !TellsNothing(decode(f.bytes)))
            && VerdictPhase(rest, end, deadline, decode) == Settled(f, decode)
    decreases |rest|
  {
    var f := FrameOf(rest, end, deadline);
    if f.Payload? && TellsNothing(decode(f.bytes)) {
      var head := FrameSplit(rest, end, deadline);
      var others;
      others, tail := VerdictNormalForm(f.rest, end, deadline, decode);
      frames := [head] + others;
      assert frames[1..] == others;
      JoinedHead(frames, tail);
      VerdictSkips(head, f.rest, end, deadline, decode);
    } else {
      SettlesAtOnce(rest, end, deadline, decode);
      frames, tail := [], rest;
      assert Joined([]) + rest == rest;
    }
  }

  /** A verdict is reported exactly when a decoded decision frame is the first thing not skipped. */
  lemma VerdictIff(rest: seq<Arrival>, end: End, deadline: int, decode: Codec, bytes: seq<Octet>)
    ensures VerdictPhase(rest, end, deadline, decode) == Verdict(bytes) <==>
            exists frames: seq<seq<Arrival>>, f: seq<Arrival>, tail: seq<Arrival> ::
              DecidesAfter(frames, f, tail, rest, deadline, decode, bytes)
  {
    if VerdictPhase(rest, end, deadline, decode) == Verdict(bytes) {
      var frames, tail := VerdictNormalForm(rest, end, deadline, decode);
      var f := FrameSplit(tail, end, deadline);
      assert DecidesAfter(frames, f, FrameOf(tail, end, deadline).rest, rest, deadline, decode, bytes);
    }
    if frames, f, tail :| DecidesAfter(frames, f, tail, rest, deadline, decode, bytes) {
      NoiseBeforeVerdict(frames, f + tail, end, deadline, decode);
      FrameRoundTrip(f, tail, end, deadline);
    }
  }

  ghost predicate DecidesAfter(frames: seq<seq<Arrival>>, f: seq<Arrival>, tail: seq<Arrival>,
                               rest: seq<Arrival>, deadline: int, decode: Codec, bytes: seq<Octet>) {
    && rest == Joined(frames) + (f + tail)
    && (forall i :: 0 <= i < |frames| ==> Skipped(frames[i], deadline, decode))
    && Framed(f) && OnTime(f, deadline) && Body(f) == bytes && Decides(decode(bytes))
  }

  /** The first frame of an acknowledged wire either is the acknowledgement or is skipped. */
  lemma AckFirstFrame(rest: seq<Arrival>, end: End, deadline: int, decode: Codec, requestId: string)
    returns (head: seq<Arrival>, next: seq<Arrival>)
    requires AckPhase(rest, end, deadline, decode, requestId).Acked?
    ensures rest == head + next && |next| < |rest|
    ensures || (Unrecognised(head, deadline, decode)
                && AckPhase(next, end, deadline, decode, requestId) == AckPhase(rest, end, deadline, decode, requestId))
            || (Framed(head) && OnTime(head, deadline) && decode(Body(head)) == Alive(1, requestId)
                && AckPhase(rest, end, deadline, decode, requestId) == Acked(next))
  {
    head := FrameSplit(rest, end, deadline);
    next := FrameOf(rest, end, deadline).rest;
  }

  /** Putting a skipped frame in front. */
  lemma SkippedInFront(head: seq<Arrival>, frames: seq<seq<Arrival>>, f: seq<Arrival>, next: seq<Arrival>,
                       rest: seq<Arrival>, deadline: int, decode: Codec, requestId: string)
    requires Unrecognised(head, deadline, decode)
    requires AcknowledgesAfter(frames, f, next, rest, deadline, decode, requestId)
    ensures AcknowledgesAfter([head] + frames, f, next, head + rest, deadline, decode, requestId)
  {
    assert ([head] + frames)[1..] == frames;
    JoinedHead([head] + frames, f + next);
  }

  lemma {:induction false} AckNormalForm(rest: seq<Arrival>, end: End, deadline: int, decode: Codec, requestId: string, next: seq<Arrival>)
    returns (frames: seq<seq<Arrival>>, f: seq<Arrival>)
    requires AckPhase(rest, end, deadline, decode, requestId) == Acked(next)
    ensures AcknowledgesAfter(frames, f, next, rest, deadline, decode, requestId)
    decreases |rest|
  {
    var head, others := AckFirstFrame(rest, end, deadline, decode, requestId);
    if Unrecognised(head, deadline, decode) && AckPhase(others, end, deadline, decode, requestId) == Acked(next) {
      frames, f := AckNormalForm(others, end, deadline, decode, requestId, next);
      SkippedInFront(head, frames, f, next, others, deadline, decode, requestId);
      frames := [head] + frames;
    } else {
      frames, f := [], head;
      assert Joined([]) + rest == rest;
    }
  }

  /**
    An acknowledgement counts exactly when it is whole inside the one fixed window, after
    nothing but unrecognised frames: a drip of them cannot stretch the window.
   */
  lemma AckIff(rest: seq<Arrival>, end: End, deadline: int, decode: Codec, requestId: string, next: seq<Arrival>)
    ensures AckPhase(rest, end, deadline, decode, requestId) == Acked(next) <==>
            exists frames: seq<seq<Arrival>>, f: seq<Arrival> ::
              AcknowledgesAfter(frames, f, next, rest, deadline, decode, requestId)
  {
    if AckPhase(rest, end, deadline, decode, requestId) == Acked(next) {
      var frames, f := AckNormalForm(rest, end, deadline, decode, requestId, next);
      assert AcknowledgesAfter(frames, f, next, rest, deadline, decode, requestId);
    }
    if frames, f :| AcknowledgesAfter(frames, f, next, rest, deadline, decode, requestId) {
      NoiseBeforeAck(frames, f + next, end, deadline, decode, requestId);
      FrameRoundTrip(f, next, end, deadline);
    }
  }

  ghost predicate AcknowledgesAfter(frames: seq<seq<Arrival>>, f: seq<Arrival>, next: seq<Arrival>,
                                    rest: seq<Arrival>, deadline: int, decode: Codec, requestId: string) {
    && rest == Joined(frames) + (f + next)
    && (forall i :: 0 <= i < |frames| ==> Unrecognised(frames[i], deadline, decode))
    && Framed(f) && OnTime(f, deadline) && decode(Body(f)) == Alive(1, requestId)
  }

  // ---- late bytes ----

  lemma {:induction false} ExactlyEarly(early: seq<Arrival>, late: seq<Arrival>, end: End, deadline: int, n: nat)
    requires OnTime(early, deadline) && First(late, end, deadline) == Late
    ensures Exactly(early + late, end, deadline, n) == if n <= |early| then Byte else Late
  {
    if early == [] {
      assert early + late == late;
    } else if n > 0 {
      assert (early + late)[1..] == early[1..] + late;
      ExactlyEarly(early[1..], late, end, deadline, n - 1);
    }
  }

  /** The frame the bytes before the deadline make. */
  function EarlyFrame(early: seq<Arrival>): Frame {
    if |early| < 4 then TimedOut
    else
      var len := Length(Values(early[..4]));
      if len > MAX_FRAME_BYTES then Oversize
      else if |early| < 4 + len then TimedOut
      else Payload(Values(early[4..4 + len]), early[4 + len..])
  }

  lemma FrameEarly(early: seq<Arrival>, late: seq<Arrival>, end: End, deadline: int)
    requires OnTime(early, deadline) && First(late, end, deadline) == Late
    ensures var f := EarlyFrame(early);
            FrameOf(early + late, end, deadline) == if f.Payload? then Payload(f.bytes, f.rest + late) else f
  {
    var whole := early + late;
    ExactlyEarly(early, late, end, deadline, 4);
    if 4 <= |early| {
      var len := Length(Values(early[..4]));
      assert whole[..4] == early[..4] && whole[4..] == early[4..] + late;
      ExactlyEarly(early[4..], late, end, deadline, len);
      if 4 + len <= |early| {
        assert whole[4..][..len] == early[4..4 + len] && whole[4..][len..] == early[4 + len..] + late;
      }
    }
  }

  /** Whatever comes next, another byte or the end of the connection, comes at or after the deadline. */
  predicate TooLate(rest: seq<Arrival>, end: End, deadline: int) {
    deadline <= if rest != [] then rest[0].at else end.at
  }

  /** Nothing that arrives at or after the deadline, nor how the connection ends then, matters. */
  lemma {:induction false} LateBytesDoNotDecide(early: seq<Arrival>, a: seq<Arrival>, x: End, b: seq<Arrival>, y: End,
                                                deadline: int, decode: Codec)
    requires OnTime(early, deadline) && TooLate(a, x, deadline) && TooLate(b, y, deadline)
    ensures VerdictPhase(early + a, x, deadline, decode) == VerdictPhase(early + b, y, deadline, decode)
    decreases |early|
  {
    FrameEarly(early, a, x, deadline);
    FrameEarly(early, b, y, deadline);
    var f := EarlyFrame(early);
    if f.Payload? {
      LateBytesDoNotDecide(f.rest, a, x, b, y, deadline, decode);
    }
  }

  /** One turn of the acknowledgement loop, as the bytes before the deadline decide it. */
  lemma EarlyAck(early: seq<Arrival>, late: seq<Arrival>, end: End, deadline: int, decode: Codec, requestId: string)
    requires OnTime(early, deadline) && First(late, end, deadline) == Late
    ensures var f, a := EarlyFrame(early), AckPhase(early + late, end, deadline, decode, requestId);
            if !f.Payload? then a == Silence
            else if Acknowledges(decode(f.bytes), requestId) then a.Acked?
            else if decode(f.bytes).Unknown? then a == AckPhase(f.rest + late, end, deadline, decode, requestId)
            else a == Silence
  {
    FrameEarly(early, late, end, deadline);
  }

  lemma {:induction false} LateBytesDoNotAcknowledge(early: seq<Arrival>, a: seq<Arrival>, x: End, b: seq<Arrival>, y: End,
                                                     deadline: int, decode: Codec, requestId: string)
    requires OnTime(early, deadline) && TooLate(a, x, deadline) && TooLate(b, y, deadline)
    ensures AckPhase(early + a, x, deadline, decode, requestId).Acked?
        <==> AckPhase(early + b, y, deadline, decode, requestId).Acked?
    decreases |early|
  {
    EarlyAck(early, a, x, deadline, decode, requestId);
    EarlyAck(early, b, y, deadline, decode, requestId);
    var f := EarlyFrame(early);
    if f.Payload? {
      LateBytesDoNotAcknowledge(f.rest, a, x, b, y, deadline, decode, requestId);
    }
  }

  // ---- the whole attempt, from what the peer does and when ----

  /** A connection within two seconds and the deadline, and the request written within three more. */
  ghost predicate Reached(peer: Peer, start: int, deadline: int) {
    && start < deadline
    && peer.dial.Done? && peer.dial.at < deadline && peer.dial.at < start + 2000
    && peer.written.Done? && peer.written.at < deadline && peer.written.at < peer.dial.at + 3000
  }

  /**
    An acknowledgement of this request came whole before the deadline and within three
    seconds of the write, after nothing but unrecognised frames, with `next` still to come.
   */
  ghost predicate AckedWith(peer: Peer, deadline: int, decode: Codec, requestId: string, next: seq<Arrival>)
    requires peer.written.Done?
  {
    exists frames: seq<seq<Arrival>>, f: seq<Arrival>, window: int ::
      && AcknowledgesAfter(frames, f, next, peer.wire, window, decode, requestId)
      && window <= deadline && window <= peer.written.at + 3000
  }

  lemma {:induction false} LongerWindow(frames: seq<seq<Arrival>>, f: seq<Arrival>, next: seq<Arrival>, rest: seq<Arrival>,
                                        a: int, b: int, decode: Codec, requestId: string)
    requires a <= b && AcknowledgesAfter(frames, f, next, rest, a, decode, requestId)
    ensures AcknowledgesAfter(frames, f, next, rest, b, decode, requestId)
  {
    forall i | 0 <= i < |frames|
      ensures Unrecognised(frames[i], b, decode)
    {
      assert Unrecognised(frames[i], a, decode);
    }
  }

  /** The widest such window decides. */
  lemma AckedIff(peer: Peer, deadline: int, decode: Codec, requestId: string, next: seq<Arrival>)
    requires peer.written.Done?
    ensures AckedWith(peer, deadline, decode, requestId, next) <==>
            AckPhase(peer.wire, peer.end, Min(deadline, peer.written.at + ACK_TIMEOUT), decode, requestId) == Acked(next)
  {
    var widest := Min(deadline, peer.written.at + ACK_TIMEOUT);
    AckIff(peer.wire, peer.end, widest, decode, requestId, next);
    if AckedWith(peer, deadline, decode, requestId, next) {
      var frames, f, window :|
        && AcknowledgesAfter(frames, f, next, peer.wire, window, decode, requestId)
        && window <= deadline && window <= peer.written.at + 3000;
      LongerWindow(frames, f, next, peer.wire, window, widest, decode, requestId);
    }
  }

  /** No agent has taken the request: nobody to ask, nobody reached, or no acknowledgement in its window. */
  ghost predicate NobodyTookIt(peer: Peer, start: int, deadline: int, decode: Codec, requestId: string) {
    && peer.config.Some?
    && (peer.config.value && Reached(peer, start, deadline) ==>
          forall next :: !AckedWith(peer, deadline, decode, requestId, next))
  }

  /** Nobody to talk to. */
  lemma Unreached(peer: Peer, start: int, deadline: int, payload: seq<Octet>, decode: Codec, requestId: string)
    requires |payload| <= 3145728 && !(peer.config == Some(true) && Reached(peer, start, deadline))
    ensures Attempt(peer, start, deadline, payload, decode, requestId) ==
            if peer.config.None? then HostFault else if !peer.config.value then Unconfigured else NoAgent
  {
  }

  /** Somebody to talk to: the conversation decides. */
  lemma Talked(peer: Peer, start: int, deadline: int, payload: seq<Octet>, decode: Codec, requestId: string)
    requires |payload| <= 3145728 && peer.config == Some(true) && Reached(peer, start, deadline)
    ensures Attempt(peer, start, deadline, payload, decode, requestId)
         == Conversation(peer.wire, peer.end, peer.written.at, deadline, decode, requestId)
  {
    assert Encoded(payload).Some?;
  }

  /** The acknowledgement decides whether the verdict is waited for. */
  lemma Conversed(rest: seq<Arrival>, end: End, start: int, deadline: int, decode: Codec, requestId: string)
    requires start < deadline
    ensures Conversation(rest, end, start, deadline, decode, requestId) ==
            match AckPhase(rest, end, Min(deadline, start + ACK_TIMEOUT), decode, requestId)
            case Silence => NoAck
            case Acked(next) => VerdictPhase(next, end, deadline, decode)
  {
  }

  /**
    What an attempt with a request of legal size comes to: a fault of the configuration, one of
    the three silences, each for its own reason, or what the wire says after the acknowledgement.
   */
  lemma AttemptMeaning(peer: Peer, start: int, deadline: int, payload: seq<Octet>, decode: Codec, requestId: string)
    requires |payload| <= 3145728
    ensures var o := Attempt(peer, start, deadline, payload, decode, requestId);
            && (o.HostFault? <==> peer.config.None?)
            && (o.Unconfigured? <==> peer.config == Some(false))
            && (o.NoAgent? <==> peer.config == Some(true) && !Reached(peer, start, deadline))
            && (o.NoAck? <==> peer.config == Some(true) && Reached(peer, start, deadline)
                              && forall next :: !AckedWith(peer, deadline, decode, requestId, next))
            && !o.Unframeable?
    ensures peer.config == Some(true) && Reached(peer, start, deadline) ==>
              forall next :: AckedWith(peer, deadline, decode, requestId, next) ==>
                Attempt(peer, start, deadline, payload, decode, requestId) == VerdictPhase(next, peer.end, deadline, decode)
  {
    if peer.config == Some(true) && Reached(peer, start, deadline) {
      Talked(peer, start, deadline, payload, decode, requestId);
      Conversed(peer.wire, peer.end, peer.written.at, deadline, decode, requestId);
      forall next
        ensures AckedWith(peer, deadline, decode, requestId, next) <==>
                AckPhase(peer.wire, peer.end, Min(deadline, peer.written.at + ACK_TIMEOUT), decode, requestId) == Acked(next)
      {
        AckedIff(peer, deadline, decode, requestId, next);
      }
    } else {
      Unreached(peer, start, deadline, payload, decode, requestId);
    }
  }
}
