/**
 The payload of a file on its way through the data channel: a buffered copy,
 limited to the announced size on the receiving side, then a framed trailer on
 the same stream. Reads and writes may be short, and may fail at any point.
 */
module Streaming {
  import opened Wrappers
  import opened Numbers
  import opened Framing

  datatype IoError = Interrupted | WriteZero

  datatype TransferError = Io(io: IoError) | Framing(frame: FrameError) | SizeMismatch

  // -------------------------------------------------------- what is expected

  /**
   How many bytes a buffered copy moves when `available` bytes come before the
   end: a buffer without room reads as the end.
   */
  function CopyLength(available: nat, capacity: nat): nat {
    if capacity == 0 then 0 else available
  }

  datatype Arrival = Arrival(content: Bytes, trailer: Bytes, rest: Bytes)

  /** What the receiving side makes of the bytes of a stream that ends after them, when no read or write fails. */
  function Received(data: Bytes, size: nat, capacity: nat): Result<Arrival, TransferError> {
    var n := CopyLength(Min(size, |data|), capacity);
    match ReadFrame(data[n..], FILE_HEADER_LIMIT)
    case Err(e) => Err(TransferError.Framing(e))
    case Ok((trailer, rest)) => Ok(Arrival(data[..n], trailer, rest))
  }

  /** What the sending side writes for a file whose metadata announced `size` bytes, when no read or write fails. */
  function Sent(content: Bytes, size: nat, trailer: Bytes, capacity: nat): Result<Bytes, TransferError> {
    if CopyLength(|content|, capacity) != size then Err(SizeMismatch)
    else if |trailer| > FILE_HEADER_LIMIT then Err(TransferError.Framing(TooBig))
    else Ok(content[..size] + Frame(trailer))
  }

  /**
   Although the receiver drops the count of copied bytes, it succeeds exactly
   when the whole payload and a whole trailer arrived: a short payload leaves
   nothing to read a trailer from.
   */
  lemma ReceivedIsExact(data: Bytes, size: nat, capacity: nat)
    requires capacity >= 1
    ensures
      var r := Received(data, size, capacity);
      && (r.Ok? <==> size <= |data| && ReadFrame(data[size..], FILE_HEADER_LIMIT).Ok?)
      && (r.Ok? ==>
            && r.value.content == data[..size]
            && ReadFrame(data[size..], FILE_HEADER_LIMIT) == Ok((r.value.trailer, r.value.rest)))
      && (|data| < size ==> r == Err(TransferError.Framing(Truncated)))
  {
    if |data| < size {
      assert data[|data|..] == [];
    }
  }

  /** Success means that the announced bytes, all of them, are the content. */
  ghost predicate Exact(data: Bytes, size: nat, capacity: nat) {
    var r := Received(data, size, capacity);
    r.Ok? ==> size <= |data| && r.value.content == data[..size]
  }

  /** Without room in the buffer nothing of the payload is copied, and a frame at its start passes for the trailer. */
  lemma PayloadTakenForTrailer(size: nat, trailer: Bytes, rest: Bytes)
    requires |trailer| <= FILE_HEADER_LIMIT
    ensures Received(Frame(trailer) + rest, size, 0) == Ok(Arrival([], trailer, rest))
  {
    hide ReadFrame, Frame;
    var data := Frame(trailer) + rest;
    FrameRoundTrip(trailer, rest, FILE_HEADER_LIMIT);
    assert data[0..] == data;
  }

  /** The shortest trailer that the program writes: the discriminant of its first version. */
  const TRAILER_V1: Bytes := [0]

  /** The configuration does not exclude a buffer of no bytes, and then success does not mean that the file arrived. */
  lemma ExactnessNeedsABuffer(size: nat, capacity: nat)
    ensures (forall data: Bytes :: Exact(data, size, capacity)) <==> capacity >= 1 || size == 0
  {
    hide ReadFrame, Frame;
    if capacity >= 1 {
      forall data: Bytes ensures Exact(data, size, capacity) {
        ReceivedIsExact(data, size, capacity);
      }
    } else if size > 0 {
      PayloadTakenForTrailer(size, TRAILER_V1, []);
      assert !Exact(Frame(TRAILER_V1) + [], size, capacity);
    }
  }

  /**
   A sender that succeeds has sent the file as announced, and a receiver with a
   buffer of its own size gets it, with the trailer, and stops at its end.
   */
  lemma ReceiverGetsWhatWasSent(content: Bytes, size: nat, trailer: Bytes, rest: Bytes, sending: nat, receiving: nat)
    requires Sent(content, size, trailer, sending).Ok?
    requires receiving >= 1 || size == 0
    ensures Received(Sent(content, size, trailer, sending).value + rest, size, receiving) ==
            Ok(Arrival(content[..size], trailer, rest))
    ensures sending >= 1 || content == [] ==> content[..size] == content
  {
    hide Frame, ReadFrame;
    var data := content[..size] + Frame(trailer) + rest;
    assert data[..size] == content[..size];
    assert data[size..] == Frame(trailer) + rest;
    FrameRoundTrip(trailer, rest, FILE_HEADER_LIMIT);
  }

  /**
   The sender fails over the size exactly when the file has not as many bytes as
   announced, or has no way to copy any; over the trailer only after that; and
   otherwise writes the file and one frame.
   */
  lemma SenderFailsIff(content: Bytes, size: nat, trailer: Bytes, capacity: nat)
    ensures
      var sent := Sent(content, size, trailer, capacity);
      var wrongSize := if capacity == 0 then size != 0 else size != |content|;
      && (sent == Err(SizeMismatch) <==> wrongSize)
      && (sent == Err(TransferError.Framing(TooBig)) <==> !wrongSize && |trailer| > 65_536)
      && (sent.Ok? <==> !wrongSize && |trailer| <= 65_536)
      && (sent.Ok? ==>
            && |sent.value| == size + 4 + |trailer| && size <= |content|
            && sent.value[..size] == content[..size]
            && ReadFrame(sent.value[size..], FILE_HEADER_LIMIT) == Ok((trailer, [])))
  {
    hide ReadFrame;
    if Sent(content, size, trailer, capacity).Ok? {
      var sent := content[..size] + Frame(trailer);
      assert sent[size..] == Frame(trailer) + [];
      FrameRoundTrip(trailer, [], FILE_HEADER_LIMIT);
    }
  }

  // ------------------------------------------------------------- the machinery

  /** Some of the next bytes of a stream: none only at its end, or when none were asked for. */
  method ReadSome(stream: ByteStream, max: nat) returns (r: Result<Bytes, IoError>)
    modifies stream
    ensures r.Err? ==> stream.data == old(stream.data)
    ensures r.Ok? ==>
      && r.value + stream.data == old(stream.data)
      && |r.value| <= max
      && (r.value == [] <==> max == 0 || old(stream.data) == [])
  {
    if * {
      return Err(Interrupted);
    }
    var available := Min(max, |stream.data|);
    var n: nat :| n <= available && (n == 0 <==> available == 0);
    r := Ok(stream.data[..n]);
    stream.data := stream.data[n..];
  }

  /** Writes some of the bytes, perhaps none. */
  method WriteSome(stream: ByteStream, b: Bytes) returns (r: Result<nat, IoError>)
    modifies stream
    ensures r.Err? ==> stream.data == old(stream.data)
    ensures r.Ok? ==> r.value <= |b| && stream.data == old(stream.data) + b[..r.value]
  {
    if * {
      return Err(Interrupted);
    }
    var n: nat :| n <= |b|;
    stream.data := stream.data + b[..n];
    r := Ok(n);
  }

  /** A buffer in front of a stream of which at most `limit` more bytes may be read. */
  class BufReader {
    const inner: ByteStream
    const capacity: nat
    var limit: Option<nat>
    var buffer: Bytes

    constructor (inner: ByteStream, limit: Option<nat>, capacity: nat)
      ensures this.inner == inner && this.limit == limit && this.capacity == capacity && buffer == []
    {
      this.inner, this.limit, this.capacity, this.buffer := inner, limit, capacity, [];
    }

    ghost function Reach(): nat
      reads this, inner
    {
      match limit
      case None => |inner.data|
      case Some(n) => Min(n, |inner.data|)
    }

    /** The bytes that are still to come. */
    ghost function Pending(): Bytes
      reads this, inner
    {
      buffer + inner.data[..Reach()]
    }

    /** The bytes past the limit. */
    ghost function Beyond(): Bytes
      reads this, inner
    {
      inner.data[Reach()..]
    }

    /** Afterwards an empty buffer means the end, or no room. */
    method FillBuf() returns (r: Result<Bytes, IoError>)
      modifies this, inner
      ensures Pending() == old(Pending()) && Beyond() == old(Beyond())
      ensures r.Ok? ==> r.value == buffer && buffer <= Pending()
      ensures r.Ok? && buffer == [] ==> old(buffer) == [] && (capacity == 0 || Pending() == [])
      ensures capacity == 0 && old(buffer) == [] ==> buffer == []
    {
      if buffer == [] {
        var room := match limit case None => capacity case Some(n) => Min(n, capacity);
        var data := inner.data;
        var chunk := ReadSome(inner, room);
        if chunk.Err? {
          return Err(chunk.error);
        }
        var n := |chunk.value|;
        assert chunk.value == data[..n] && inner.data == data[n..];
        buffer := chunk.value;
        limit := match limit case None => None case Some(left) => Some(left - n);
        assert data[..n] + inner.data[..Reach()] == data[..n + Reach()];
      }
      r := Ok(buffer);
    }

    method Consume(n: nat)
      requires n <= |buffer|
      modifies this`buffer
      ensures buffer == old(buffer)[n..]
      ensures n <= |old(Pending())| && Pending() == old(Pending())[n..] && Beyond() == old(Beyond())
    {
      buffer := buffer[n..];
    }
  }

  /** Fills the buffer if it is empty, and writes from it: `None` at the end. */
  method CopySome(reader: BufReader, writer: ByteStream) returns (r: Result<Option<nat>, IoError>)
    requires reader.inner != writer
    modifies reader, reader.inner, writer
    ensures reader.Beyond() == old(reader.Beyond())
    ensures r.Ok? && r.value.Some? ==>
      && 1 <= r.value.value <= |old(reader.Pending())|
      && reader.Pending() == old(reader.Pending())[r.value.value..]
      && writer.data == old(writer.data) + old(reader.Pending())[..r.value.value]
    ensures r.Ok? && r.value.None? ==> reader.buffer == [] && (reader.capacity == 0 || reader.Pending() == [])
    ensures r.Err? || r.value.None? ==> reader.Pending() == old(reader.Pending()) && writer.data == old(writer.data)
    ensures reader.capacity == 0 && old(reader.buffer) == [] ==> (r.Err? || r.value.None?) && reader.buffer == []
  {
    hide BufReader.Pending, BufReader.Beyond;
    var filled := reader.FillBuf();
    if filled.Err? {
      return Err(filled.error);
    }
    if filled.value == [] {
      return Ok(None);
    }
    var written := WriteSome(writer, filled.value);
    if written.Err? {
      return Err(written.error);
    }
    if written.value == 0 {
      return Err(WriteZero);
    }
    reader.Consume(written.value);
    r := Ok(Some(written.value));
  }

  /** Everything from the reader into the writer, one buffer at a time; `moved` counts also when the copy fails. */
  method CopyBuffered(reader: BufReader, writer: ByteStream) returns (r: Result<nat, IoError>, ghost moved: nat)
    requires reader.inner != writer && reader.buffer == []
    modifies reader, reader.inner, writer
    ensures reader.Beyond() == old(reader.Beyond())
    ensures moved <= |old(reader.Pending())| && writer.data == old(writer.data) + old(reader.Pending())[..moved]
    ensures reader.Pending() == old(reader.Pending())[moved..]
    ensures reader.capacity == 0 ==> moved == 0
    ensures r.Ok? ==> r.value == moved && reader.buffer == []
    ensures r.Ok? && reader.capacity >= 1 ==> moved == |old(reader.Pending())|
  {
    hide BufReader.Pending, BufReader.Beyond;
    ghost var all := reader.Pending();
    ghost var before := writer.data;
    moved := 0;
    var count: nat := 0;
    while true
      invariant count == moved <= |all|
      invariant writer.data == before + all[..moved] && reader.Pending() == all[moved..]
      invariant reader.Beyond() == old(reader.Beyond())
      invariant reader.capacity == 0 ==> moved == 0 && reader.buffer == []
      decreases |all| - moved
    {
      var n := CopySome(reader, writer);
      if n.Err? {
        return Err(n.error), moved;
      }
      match n.value {
        case None =>
          return Ok(count), moved;
        case Some(n) =>
          assert all[..count] + all[count..][..n] == all[..count + n];
          assert all[count..][n..] == all[count + n..];
          count, moved := count + n, moved + n;
      }
    }
  }

  method CopyLarge(reader: ByteStream, limit: Option<nat>, writer: ByteStream, capacity: nat)
    returns (r: Result<nat, IoError>)
    requires reader != writer
    modifies reader, writer
    ensures
      var available := if limit.None? then |old(reader.data)| else Min(limit.value, |old(reader.data)|);
      var n := CopyLength(available, capacity);
      && old(writer.data) <= writer.data <= old(writer.data) + old(reader.data)[..n]
      && (r.Ok? ==> r.value == n && reader.data == old(reader.data)[n..])
      && (r.Ok? ==> writer.data == old(writer.data) + old(reader.data)[..n])
  {
    var buffered := new BufReader(reader, limit, capacity);
    ghost var data := reader.data;
    ghost var reach := buffered.Reach();
    assert buffered.Pending() == data[..reach];
    ghost var moved;
    r, moved := CopyBuffered(buffered, writer);
    assert data == data[..reach] + data[reach..];
    assert data[..reach][..moved] == data[..moved];
    if r.Ok? {
      ghost var left := buffered.Reach();
      assert reader.data == reader.data[..left] + reader.data[left..];
      assert reader.data[..left] == data[..reach][moved..];
      assert data[moved..] == data[..reach][moved..] + data[reach..];
    }
  }

  // -------------------------------------------------------- the two directions

  /**
   The receiving side: a fresh file, the payload, the trailer. The count of
   copied bytes is dropped.
   */
  method ReceiveFile(stream: ByteStream, size: nat, file: ByteStream, capacity: nat)
    returns (r: Result<Bytes, TransferError>)
    requires stream != file && file.data == []
    modifies stream, file
    ensures file.data <= old(stream.data)[..CopyLength(Min(size, |old(stream.data)|), capacity)]
    ensures (r.Err? && r.error.Io?) ||
      match Received(old(stream.data), size, capacity)
      case Err(e) => r == Err(e)
      case Ok(arrival) => r == Ok(arrival.trailer) && file.data == arrival.content && stream.data == arrival.rest
  {
    var copied := CopyLarge(stream, Some(size), file, capacity);
    if copied.Err? {
      return Err(Io(copied.error));
    }
    var trailer := stream.ReadFramed(FILE_HEADER_LIMIT);
    r := match trailer
      case Ok(t) => Ok(t)
      case Err(e) => Err(TransferError.Framing(e));
  }

  /** The sending side, which does compare the count with the size that it announced. */
  method SendFile(file: ByteStream, size: nat, trailer: Bytes, stream: ByteStream, capacity: nat)
    returns (r: Result<(), TransferError>)
    requires stream != file
    modifies stream, file
    ensures (r.Err? && r.error.Io?) ||
      match Sent(old(file.data), size, trailer, capacity)
      case Err(e) => r == Err(e)
      case Ok(b) => r == Ok(()) && stream.data == old(stream.data) + b
  {
    var copied := CopyLarge(file, None, stream, capacity);
    if copied.Err? {
      return Err(Io(copied.error));
    }
    if copied.value != size {
      return Err(SizeMismatch);
    }
    var ok := stream.WriteFramed(trailer, FILE_HEADER_LIMIT);
    r := if ok then Ok(()) else Err(TransferError.Framing(TooBig));
  }

  /**
   A whole transfer over a stream with nothing else on it. If both sides report
   success, what was announced has arrived, unless the receiver has a buffer
   without room; the sender's own success rules out that it sent less.
   */
  method TransferFile(source: ByteStream, size: nat, trailer: Bytes, stream: ByteStream, target: ByteStream,
                      sending: nat, receiving: nat)
    returns (sent: Result<(), TransferError>, got: Result<Bytes, TransferError>)
    requires source != stream && stream != target && source != target
    requires stream.data == [] && target.data == []
    modifies source, stream, target
    ensures sent.Ok? ==> size <= |old(source.data)| && if sending == 0 then size == 0 else size == |old(source.data)|
    ensures sent.Ok? && got.Ok? && (receiving >= 1 || size == 0) ==>
      && target.data == old(source.data)[..size]
      && got.value == trailer && stream.data == []
    ensures sent.Ok? && got.Err? && (receiving >= 1 || size == 0) ==> got.error.Io?
    ensures receiving == 0 ==> target.data == []
  {
    ghost var content := source.data;
    sent := SendFile(source, size, trailer, stream, sending);
    got := ReceiveFile(stream, size, target, receiving);
    if sent.Ok? && (receiving >= 1 || size == 0) {
      ReceiverGetsWhatWasSent(content, size, trailer, [], sending, receiving);
      assert Sent(content, size, trailer, sending).value + [] == Sent(content, size, trailer, sending).value;
    }
  }
}
