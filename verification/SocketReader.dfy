// `read_frame` and `try_agent_socket` as the hook runs them: chunked reads over a live
// connection. However the bytes are chunked, they compute the functions in module Socket.
module SocketReader {
  import opened Prelude
  import opened Socket
  import opened SocketLaws

  datatype ReadResult = Got(bytes: seq<Octet>) | Closed | Failed | Expired

  /** After some timely bytes, what stops the read is what stops the rest of it. */
  lemma StillToRead(wire: seq<Arrival>, p: nat, pos: nat, end: End, deadline: int, n: nat)
    requires p <= pos <= |wire| && pos - p <= n && OnTime(wire[p..pos], deadline)
    ensures Exactly(wire[p..], end, deadline, n) == Exactly(wire[pos..], end, deadline, n - (pos - p))
  {
    assert wire[p..] == wire[p..pos] + wire[pos..];
    ExactlyPast(wire[p..pos], wire[pos..], end, deadline, n - (pos - p));
  }

  /** How many bytes a read of at most `limit` finds already there. */
  method Arrived(wire: seq<Arrival>, pos: nat, limit: nat, now: int) returns (ready: nat)
    requires pos < |wire| && 0 < limit && wire[pos].at <= now
    ensures 1 <= ready <= limit && pos + ready <= |wire|
    ensures forall i :: pos <= i < pos + ready ==> wire[i].at <= now
    ensures ready < limit && pos + ready < |wire| ==> now < wire[pos + ready].at
  {
    ready := 1;
    while ready < limit && pos + ready < |wire| && wire[pos + ready].at <= now
      invariant 1 <= ready <= limit && pos + ready <= |wire|
      invariant forall i :: pos <= i < pos + ready ==> wire[i].at <= now
    {
      ready := ready + 1;
    }
  }

  lemma InTimeByNow(wire: seq<Arrival>, p: nat, q: nat, now: int, deadline: int)
    requires p <= q <= |wire| && now < deadline && forall i :: p <= i < q ==> wire[i].at <= now
    ensures OnTime(wire[p..q], deadline)
  {
  }

  lemma FewerInTime(wire: seq<Arrival>, p: nat, q: nat, r: nat, deadline: int)
    requires p <= q <= r <= |wire| && OnTime(wire[p..r], deadline)
    ensures OnTime(wire[p..q], deadline)
  {
    assert wire[p..q] == wire[p..r][..q - p];
  }

  lemma ChunkJoins(wire: seq<Arrival>, p: nat, from: nat, pos: nat, deadline: int)
    requires p <= from <= pos <= |wire| && OnTime(wire[p..from], deadline) && OnTime(wire[from..pos], deadline)
    ensures Values(wire[p..pos]) == Values(wire[p..from]) + Values(wire[from..pos]) && OnTime(wire[p..pos], deadline)
  {
    assert wire[p..pos] == wire[p..from] + wire[from..pos];
    ValuesConcat(wire[p..from], wire[from..pos]);
  }

  class Connection {
    const wire: seq<Arrival>
    const end: End
    var pos: nat
    var now: int

    ghost predicate Valid()
      reads this
    {
      pos <= |wire|
    }

    ghost function Rest(): seq<Arrival>
      requires Valid()
      reads this
    {
      wire[pos..]
    }

    constructor (wire: seq<Arrival>, end: End, now: int)
      ensures Valid() && Rest() == wire && this.wire == wire && this.end == end && this.now == now
    {
      this.wire, this.end, this.now, pos := wire, end, now, 0;
    }

    /** One `read`: between one byte and everything that has arrived, at the kernel's choice. */
    method Read(limit: nat, deadline: int) returns (r: ReadResult)
      requires Valid() && limit > 0 && now < deadline
      modifies this`pos, this`now
      ensures Valid() && old(pos) <= pos
      ensures !r.Expired? ==> now < deadline
      ensures r.Got? ==> 0 < |r.bytes| <= limit && r.bytes == Values(wire[old(pos)..pos])
                         && OnTime(wire[old(pos)..pos], deadline)
      ensures !r.Got? ==> pos == old(pos)
      ensures match First(old(Rest()), end, deadline)
              case Byte => r.Got?
              case HangsUp => r.Closed?
              case Resets => r.Failed?
              case Late => r.Expired?
    {
      if pos == |wire| {
        if end.at >= deadline {
          now := deadline;
          return Expired;
        }
        now := if now < end.at then end.at else now;
        return if end.reset then Failed else Closed;
      }
      if wire[pos].at >= deadline {
        now := deadline;
        return Expired;
      }
      now := if now < wire[pos].at then wire[pos].at else now;
      var ready := Arrived(wire, pos, limit, now);
      InTimeByNow(wire, pos, pos + ready, now, deadline);
      var n :| 1 <= n <= ready;
      r := Got(Values(wire[pos..pos + n]));
      FewerInTime(wire, pos, pos + n, pos + ready, deadline);
      pos := pos + n;
    }

    /** Reads until `n` bytes are in hand or something stops it; reports what, and what it got. */
    method ReadExactly(n: nat, deadline: int) returns (stop: Signal, bytes: seq<Octet>)
      requires Valid() && now < deadline
      modifies this`pos, this`now
      ensures Valid() && old(pos) <= pos
      ensures stop != Late ==> now < deadline
      ensures stop == Exactly(old(Rest()), end, deadline, n)
      ensures stop == Byte ==> pos == old(pos) + n && bytes == Values(wire[old(pos)..pos])
      ensures bytes == [] <==> pos == old(pos)
      ensures stop == HangsUp && bytes == [] ==> old(pos) == |wire|
      ensures stop == HangsUp && bytes != [] ==> old(pos) < |wire|
    {
      ghost var p := pos;
      bytes := [];
      while |bytes| < n
        invariant Valid() && p <= pos && now < deadline
        invariant |bytes| == pos - p <= n
        invariant bytes == Values(wire[p..pos]) && OnTime(wire[p..pos], deadline)
        decreases n - |bytes|
      {
        ghost var from := pos;
        StillToRead(wire, p, pos, end, deadline, n);
        var r := Read(n - |bytes|, deadline);
        match r {
          case Closed => return HangsUp, bytes;
          case Failed => return Resets, bytes;
          case Expired => return Late, bytes;
          case Got(chunk) =>
            bytes := bytes + chunk;
            ChunkJoins(wire, p, from, pos, deadline);
        }
      }
      stop := Byte;
      StillToRead(wire, p, pos, end, deadline, n);
    }

    /** The part of `read_frame` after the prefix: exactly the announced bytes. */
    method ReadPayload(len: nat, deadline: int) returns (f: Frame)
      requires Valid() && now < deadline
      modifies this`pos, this`now
      ensures Valid()
      ensures f == PayloadOf(old(Rest()), end, deadline, len)
      ensures f.Payload? ==> f.rest == Rest() && now < deadline
    {
      ghost var whole, from := Rest(), pos;
      var cut, payload := ReadExactly(len, deadline);
      match cut {
        case Late => return TimedOut;
        case Resets => return Broken;
        case HangsUp => return Truncated;
        case Byte =>
      }
      assert wire[from..pos] == whole[..len] && Rest() == whole[len..];
      f := Payload(payload, wire[pos..]);
    }

    /** `read_frame`: chunk sizes never show in the result. */
    method ReadFrame(deadline: int) returns (f: Frame)
      requires Valid() && now < deadline
      modifies this`pos, this`now
      ensures Valid()
      ensures f == FrameOf(old(Rest()), end, deadline)
      ensures f.Payload? ==> f.rest == Rest() && now < deadline
    {
      ghost var whole := Rest();
      var stop, prefix := ReadExactly(4, deadline);
      match stop {
        case Late => return TimedOut;
        case Resets => return Broken;
        case HangsUp => return if prefix == [] then Eof else Truncated;
        case Byte =>
      }
      var len := Length(prefix);
      assert prefix == Values(whole[..4]) && Rest() == whole[4..];
      if len > MAX_FRAME_BYTES {
        return Oversize;
      }
      f := ReadPayload(len, deadline);
    }

    /** The loop that waits for the acknowledgement. */
    method AwaitAck(deadline: int, decode: Codec, requestId: string) returns (acked: bool)
      requires Valid()
      modifies this`pos, this`now
      ensures Valid()
      ensures acked <==> old(now) < deadline && AckPhase(old(Rest()), end, deadline, decode, requestId).Acked?
      ensures acked ==> now < deadline && AckPhase(old(Rest()), end, deadline, decode, requestId).rest == Rest()
    {
      ghost var goal := AckPhase(Rest(), end, deadline, decode, requestId);
      while true
        invariant Valid() && (now < deadline || (pos == old(pos) && now == old(now)))
        invariant now < deadline ==> goal == AckPhase(Rest(), end, deadline, decode, requestId) && old(now) < deadline
        decreases |wire| - pos
      {
        if deadline <= now {
          return false;
        }
        var f := ReadFrame(deadline);
        if !f.Payload? {
          return false;
        }
        var c := decode(f.bytes);
        if Acknowledges(c, requestId) {
          return true;
        }
        if !c.Unknown? {
          return false;
        }
      }
    }

    /** The loop that waits for the verdict. */
    method AwaitVerdict(deadline: int, decode: Codec) returns (o: Outcome)
      requires Valid() && now < deadline
      modifies this`pos, this`now
      ensures o == VerdictPhase(old(Rest()), end, deadline, decode)
    {
      while true
        invariant Valid() && now < deadline
        invariant VerdictPhase(old(Rest()), end, deadline, decode) == VerdictPhase(Rest(), end, deadline, decode)
        decreases |wire| - pos
      {
        var f := ReadFrame(deadline);
        match f {
          case TimedOut => return Unavailable;
          case Eof => return Dropped;
          case Truncated => return Dropped;
          case Broken => return Dropped;
          case Oversize => return Dropped;
          case Payload(bytes, _) =>
            var c := decode(bytes);
            if IsVerdict(c) {
              return Verdict(bytes);
            }
            if c.Undecodable? {
              return Unavailable;
            }
        }
      }
    }
  }

  /** `try_agent_socket`, from the configuration to its outcome. */
  method TryAgentSocket(peer: Peer, start: int, deadline: int, payload: seq<Octet>, decode: Codec, requestId: string)
    returns (o: Outcome)
    ensures o == Attempt(peer, start, deadline, payload, decode, requestId)
    ensures |payload| <= 3145728 ==>
              && (o.HostFault? <==> peer.config.None?)
              && (o.Unconfigured? || o.NoAgent? || o.NoAck? <==> NobodyTookIt(peer, start, deadline, decode, requestId))
              && (peer.config == Some(true) && Reached(peer, start, deadline) ==>
                    forall next :: AckedWith(peer, deadline, decode, requestId, next) ==>
                      o == VerdictPhase(next, peer.end, deadline, decode))
  {
    if |payload| <= 3145728 {
      AttemptMeaning(peer, start, deadline, payload, decode, requestId);
    }
    if peer.config.None? {
      return HostFault;
    }
    if !peer.config.value {
      return Unconfigured;
    }
    var connectBy := Min(deadline, start + CONNECT_TIMEOUT);
    if connectBy <= start || peer.dial.Refused? || connectBy <= peer.dial.at {
      return NoAgent;
    }
    if Encoded(payload).None? {
      return Unframeable;
    }
    var writeBy := Min(deadline, peer.dial.at + ACK_TIMEOUT);
    if peer.written.Refused? || writeBy <= peer.written.at {
      return NoAgent;
    }
    var conn := new Connection(peer.wire, peer.end, peer.written.at);
    var ackBy := Min(deadline, peer.written.at + ACK_TIMEOUT);
    var acked := conn.AwaitAck(ackBy, decode, requestId);
    if !acked {
      return NoAck;
    }
    o := conn.AwaitVerdict(deadline, decode);
  }
}
