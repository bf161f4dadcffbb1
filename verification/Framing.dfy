/** Framing of messages on a byte stream: a four-byte length, then the payload, with a limit per message type. */
module Framing {
  import opened Wrappers
  import opened Numbers
  import opened Bare

  const HEADER_SIZE: nat := 4
  const DEFAULT_LIMIT: u32 := 1_048_576
  const FILE_HEADER_LIMIT: u32 := 65_536

  datatype FrameError = TooBig | Truncated

  type ReadResult = Result<(Bytes, Bytes), FrameError>

  function Frame(payload: Bytes): Bytes
    requires |payload| < U32_BOUND
  {
    PutU32(|payload|) + payload
  }

  /** The first frame of a stream and what follows it. */
  function ReadFrame(b: Bytes, limit: u32): ReadResult {
    if |b| < HEADER_SIZE then Err(Truncated)
    else
      var size := GetU32(b[..HEADER_SIZE]);
      var body := b[HEADER_SIZE..];
      if size > limit then Err(TooBig)
      else if |body| < size then Err(Truncated)
      else Ok((body[..size], body[size..]))
  }

  /** A frame is read back whole, and reading stops at its end. */
  lemma FrameRoundTrip(payload: Bytes, rest: Bytes, limit: u32)
    requires |payload| <= limit
    ensures ReadFrame(Frame(payload) + rest, limit) == Ok((payload, rest))
  {
    var b := Frame(payload) + rest;
    assert b[..HEADER_SIZE] == PutU32(|payload|);
    U32RoundTrip(|payload|);
    assert b[HEADER_SIZE..] == payload + rest;
  }

  /** Four bytes give the length, the first counting least; then it is too big, cut short, or followed by the rest. */
  lemma FirstFrame(b: Bytes, limit: u32)
    ensures
      ReadFrame(b, limit) ==
        if |b| < 4 then Err(Truncated)
        else
          var size := LittleEndian(b[..4]);
          if size > limit then Err(TooBig)
          else if |b| < 4 + size then Err(Truncated)
          else Ok((b[4..4 + size], b[4 + size..]))
  {
    if |b| >= 4 {
      FixedSizeIsRead(b[..4]);
      var size, body := LittleEndian(b[..4]), b[4..];
      if |b| >= 4 + size {
        assert body[..size] == b[4..4 + size] && body[size..] == b[4 + size..];
      }
    }
  }

  ghost predicate Within(payloads: seq<Bytes>, limit: u32) {
    forall i :: 0 <= i < |payloads| ==> |payloads[i]| <= limit
  }

  ghost function Frames(payloads: seq<Bytes>): Bytes
    requires Within(payloads, U32_BOUND - 1)
  {
    if payloads == [] then [] else Frame(payloads[0]) + Frames(payloads[1..])
  }

  function ReadFrames(b: Bytes, n: nat, limit: u32): Result<(seq<Bytes>, Bytes), FrameError> {
    if n == 0 then Ok(([], b))
    else
      var (payload, rest) :- ReadFrame(b, limit);
      var (payloads, rest) :- ReadFrames(rest, n - 1, limit);
      Ok(([payload] + payloads, rest))
  }

  lemma {:induction false} FramesRoundTrip(payloads: seq<Bytes>, rest: Bytes, limit: u32)
    requires Within(payloads, limit)
    ensures ReadFrames(Frames(payloads) + rest, |payloads|, limit) == Ok((payloads, rest))
  {
    hide ReadFrame, Frame;
    if payloads == [] {
      assert Frames(payloads) + rest == rest;
    } else {
      var tail := Frames(payloads[1..]) + rest;
      assert Frames(payloads) + rest == Frame(payloads[0]) + tail;
      FrameRoundTrip(payloads[0], tail, limit);
      FramesRoundTrip(payloads[1..], rest, limit);
      assert payloads == [payloads[0]] + payloads[1..];
    }
  }

  // ----------------------------------------------------------------- streams

  /** A stream of bytes: what has been written and not read yet. Nothing follows after these bytes. */
  class ByteStream {
    var data: Bytes

    constructor (data: Bytes)
      ensures this.data == data
    {
      this.data := data;
    }

    method WriteAll(b: Bytes)
      modifies this
      ensures data == old(data) + b
    {
      data := data + b;
    }

    /** Either all `n` bytes, or none and an exhausted stream. */
    method ReadExact(n: nat) returns (r: Option<Bytes>)
      modifies this
      ensures n <= |old(data)| ==> r == Some(old(data)[..n]) && data == old(data)[n..]
      ensures n > |old(data)| ==> r == None && data == []
    {
      if n <= |data| {
        r := Some(data[..n]);
        data := data[n..];
      } else {
        r := None;
        data := [];
      }
    }

    /** Refuses, and writes nothing, when the payload is over the limit of its type. */
    method WriteFramed(payload: Bytes, limit: u32) returns (ok: bool)
      modifies this
      ensures ok <==> |payload| <= limit
      ensures data == if ok then old(data) + Frame(payload) else old(data)
    {
      ok := |payload| <= limit;
      if ok {
        var header := PutU32(|payload|);
        WriteAll(header);
        WriteAll(payload);
      }
    }

    method ReadFramed(limit: u32) returns (r: Result<Bytes, FrameError>)
      modifies this
      ensures
        match ReadFrame(old(data), limit)
        case Ok((payload, rest)) => r == Ok(payload) && data == rest
        case Err(e) => r == Err(e)
    {
      var header := ReadExact(HEADER_SIZE);
      if header.None? {
        return Err(Truncated);
      }
      var size := GetU32(header.value);
      if size > limit {
        return Err(TooBig);
      }
      var payload := ReadExact(size);
      r := if payload.Some? then Ok(payload.value) else Err(Truncated);
    }
  }
}
