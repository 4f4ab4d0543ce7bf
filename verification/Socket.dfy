// The hook's conversation with the local agent (hook/src/main.rs, protocol/src/socket_v1.rs),
// as a function of which bytes arrive when.
module Socket {
  import opened Prelude

  type Octet = x: int | 0 <= x < 256

  const MAX_FRAME_BYTES: nat := 3 * 1024 * 1024
  const CONNECT_TIMEOUT: nat := 2000
  const ACK_TIMEOUT: nat := 3000

  /** One byte from the agent and the millisecond it arrives. */
  datatype Arrival = Arrival(byte: Octet, at: int)

  /** What follows the last byte: the peer hangs up or the connection breaks. */
  datatype End = End(at: int, reset: bool)

  // ---- frames ----

  function Prefix(n: nat): seq<Octet>
    requires n <= U32_MAX
  {
    [n / 16777216, n / 65536 % 256, n / 256 % 256, n % 256]
  }

  function Length(p: seq<Octet>): nat
    requires |p| == 4
  {
    (((p[0] as int) * 256 + p[1]) * 256 + p[2]) * 256 + p[3]
  }

  lemma PrefixRoundTrip(n: nat)
    requires n <= U32_MAX
    ensures Length(Prefix(n)) == n
  {
    var a, b, c := n / 256, n / 65536, n / 16777216;
    assert n == a * 256 + n % 256;
    assert a == b * 256 + a % 256;
    assert b == c * 256 + b % 256;
  }

  /** `encode_frame`. */
  function Encoded(payload: seq<Octet>): Option<seq<Octet>> {
    if |payload| > MAX_FRAME_BYTES then None else Some(Prefix(|payload|) + payload)
  }

  function Values(s: seq<Arrival>): (v: seq<Octet>)
    ensures |v| == |s| && forall i :: 0 <= i < |s| ==> v[i] == s[i].byte
  {
    if s == [] then [] else [s[0].byte] + Values(s[1..])
  }

  lemma ValuesConcat(a: seq<Arrival>, b: seq<Arrival>)
    ensures Values(a + b) == Values(a) + Values(b)
  {
  }

  /** What a reader meets next, if it waits no longer than `deadline`. */
  datatype Signal = Byte | HangsUp | Resets | Late

  function First(rest: seq<Arrival>, end: End, deadline: int): Signal {
    if rest != [] then (if rest[0].at < deadline then Byte else Late)
    else if end.at >= deadline then Late
    else if end.reset then Resets
    else HangsUp
  }

  /** What stops a read of exactly `n` bytes; `Byte` when nothing does. */
  function Exactly(rest: seq<Arrival>, end: End, deadline: int, n: nat): (s: Signal)
    ensures s == Byte ==> n <= |rest|
    decreases n
  {
    if n == 0 then Byte
    else match First(rest, end, deadline)
      case Byte => Exactly(rest[1..], end, deadline, n - 1)
      case other => other
  }

  datatype Frame =
    | Payload(bytes: seq<Octet>, rest: seq<Arrival>)
    | Eof | Truncated | Broken | Oversize | TimedOut

  /** What follows a prefix that announced `len` bytes. */
  function PayloadOf(rest: seq<Arrival>, end: End, deadline: int, len: nat): (f: Frame)
    ensures f.Payload? ==> |f.rest| <= |rest|
  {
    match Exactly(rest, end, deadline, len)
    case Late => TimedOut
    case Resets => Broken
    case HangsUp => Truncated
    case Byte => Payload(Values(rest[..len]), rest[len..])
  }

  function FrameOf(rest: seq<Arrival>, end: End, deadline: int): (f: Frame)
    ensures f.Payload? ==> |f.rest| < |rest|
  {
    match Exactly(rest, end, deadline, 4)
    case Late => TimedOut
    case Resets => Broken
    case HangsUp => if rest == [] then Eof else Truncated
    case Byte =>
      var len := Length(Values(rest[..4]));
      if len > MAX_FRAME_BYTES then Oversize else PayloadOf(rest[4..], end, deadline, len)
  }

  // ---- the conversation ----

  /** `decode_control_message`, down to what the conversation looks at. */
  datatype Control = Alive(version: nat, requestId: string) | Delivery | Decision | AuthDecision | Unknown | Undecodable

  type Codec = seq<Octet> -> Control

  predicate Acknowledges(c: Control, requestId: string) {
    c.Alive? && c.version == 1 && c.requestId == requestId
  }

  predicate IsVerdict(c: Control) {
    c.Decision? || c.AuthDecision?
  }

  /** Read past while waiting for the verdict. */
  predicate Informational(c: Control) {
    c.Alive? || c.Delivery? || c.Unknown?
  }

  datatype Outcome =
    | Unconfigured
    | NoAgent | NoAck
    | Dropped
    | Verdict(bytes: seq<Octet>)
    | Unavailable
    | HostFault
    | Unframeable

  datatype Ack = Acked(rest: seq<Arrival>) | Silence

  function AckPhase(rest: seq<Arrival>, end: End, deadline: int, decode: Codec, requestId: string): (a: Ack)
    ensures a.Acked? ==> |a.rest| <= |rest|
    decreases |rest|
  {
    match FrameOf(rest, end, deadline)
    case Payload(bytes, next) =>
      var c := decode(bytes);
      if Acknowledges(c, requestId) then Acked(next)
      else if c.Unknown? then AckPhase(next, end, deadline, decode, requestId)
      else Silence
    case _ => Silence
  }

  function VerdictPhase(rest: seq<Arrival>, end: End, deadline: int, decode: Codec): (o: Outcome)
    ensures o.Verdict? || o.Unavailable? || o.Dropped?
    ensures o.Verdict? ==> IsVerdict(decode(o.bytes))
    decreases |rest|
  {
    match FrameOf(rest, end, deadline)
    case Payload(bytes, next) =>
      var c := decode(bytes);
      if IsVerdict(c) then Verdict(bytes)
      else if Informational(c) then VerdictPhase(next, end, deadline, decode)
      else Unavailable
    case TimedOut => Unavailable
    case _ => Dropped
  }

  /** From the moment the request has been written. */
  function Conversation(rest: seq<Arrival>, end: End, start: int, deadline: int, decode: Codec, requestId: string): Outcome {
    var ackDeadline := Min(deadline, start + ACK_TIMEOUT);
    if ackDeadline <= start then NoAck
    else match AckPhase(rest, end, ackDeadline, decode, requestId)
      case Silence => NoAck
      case Acked(next) => VerdictPhase(next, end, deadline, decode)
  }

  function Min(a: int, b: int): int {
    if a < b then a else b
  }

  /** When, if at all, connecting and writing complete. */
  datatype Step = Done(at: int) | Refused

  datatype Peer = Peer(config: Option<bool>, dial: Step, written: Step, wire: seq<Arrival>, end: End)

  /** The whole attempt. `config` is `None` for an unreadable file, `Some(false)` for no socket. */
  function Attempt(peer: Peer, start: int, deadline: int, payload: seq<Octet>, decode: Codec, requestId: string): (o: Outcome)
    ensures o.Unframeable? ==> |payload| > MAX_FRAME_BYTES
    ensures o.Verdict? ==> IsVerdict(decode(o.bytes))
  {
    if peer.config.None? then HostFault
    else if !peer.config.value then Unconfigured
    else if deadline <= start then NoAgent
    else match peer.dial
      case Refused => NoAgent
      case Done(dialled) =>
        if Min(deadline, start + CONNECT_TIMEOUT) <= dialled then NoAgent
        else if Encoded(payload).None? then Unframeable
        else match peer.written
          case Refused => NoAgent
          case Done(written) =>
            if Min(deadline, dialled + ACK_TIMEOUT) <= written then NoAgent
            else Conversation(peer.wire, peer.end, written, deadline, decode, requestId)
  }
}
