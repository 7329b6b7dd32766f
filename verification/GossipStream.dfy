/** Frames on a stream that arrives in arbitrary chunks. */
module GossipStream {
  import opened Bytes
  import opened Postcard
  import opened GossipTypes
  import opened GossipWire

  datatype Chunk = Chunk(data: Bytes, complete: bool)

  /** What a stream delivers: everything up to its first complete chunk. */
  function Delivered(stream: seq<Chunk>): Bytes {
    if stream == [] then []
    else if stream[0].complete then stream[0].data
    else stream[0].data + Delivered(stream[1..])
  }

  predicate Ends(stream: seq<Chunk>) {
    stream != [] && (stream[0].complete || Ends(stream[1..]))
  }

  /** The first frame of a finished stream's bytes. */
  datatype Next = Frame(payload: Bytes, rest: Bytes) | End | Broken

  function NextFrame(bytes: Bytes, max: nat): (r: Next)
    ensures r.Frame? ==> |r.rest| < |bytes|
  {
    if bytes == [] then End
    else if |bytes| < 4 then Broken
    else
      var length := Be32(bytes[0], bytes[1], bytes[2], bytes[3]);
      if length > max || |bytes| < 4 + length then Broken
      else Frame(bytes[4..4 + length], bytes[4 + length..])
  }

  class FrameReader {
    var stream: seq<Chunk>
    var buffer: Bytes
    var complete: bool
    const maxFrameSize: nat

    constructor (chunks: seq<Chunk>, max: nat)
      requires Ends(chunks)
      ensures Valid() && Pending() == Delivered(chunks) && maxFrameSize == max
    {
      stream, buffer, complete, maxFrameSize := chunks, [], false, max;
      new;
      assert [] + Delivered(chunks) == Delivered(chunks);
    }

    ghost predicate Valid()
      reads this
    {
      complete || Ends(stream)
    }

    /** The bytes not yet handed out, buffered or still to come. */
    ghost function Pending(): Bytes
      reads this
    {
      if complete then buffer else buffer + Delivered(stream)
    }

    /** `readFrame`: how the stream was cut into chunks makes no difference. */
    method ReadFrame() returns (r: Result<Option<Bytes>>)
      requires Valid()
      modifies this
      ensures Valid()
      ensures match NextFrame(old(Pending()), maxFrameSize)
              case Frame(payload, rest) => r == Ok(Some(payload)) && Pending() == rest
              case End => r == Ok(None) && Pending() == []
              case Broken => r == Err && Pending() == old(Pending())
    {
      while true
        invariant Valid() && Pending() == old(Pending())
        decreases !complete, |stream|
      {
        var payload :- TryReadBufferedFrame();
        if payload.Some? {
          return Ok(payload);
        }
        if complete {
          if |buffer| != 0 {
            return Err;
          }
          return Ok(None);
        }
        var chunk := stream[0];
        assert buffer + (chunk.data + Delivered(stream[1..])) == buffer + chunk.data + Delivered(stream[1..]);
        buffer, complete, stream := buffer + chunk.data, chunk.complete, stream[1..];
      }
    }

    method TryReadBufferedFrame() returns (r: Result<Option<Bytes>>)
      requires Valid()
      modifies this`buffer
      ensures Valid()
      ensures r == Ok(None) ==> buffer == old(buffer) && (complete && buffer != [] ==> NextFrame(buffer, maxFrameSize).Broken?)
      ensures r == Err ==> Pending() == old(Pending()) && NextFrame(Pending(), maxFrameSize).Broken?
      ensures r.Ok? && r.value.Some? ==> NextFrame(old(Pending()), maxFrameSize) == Frame(r.value.value, Pending())
    {
      if |buffer| < 4 {
        return Ok(None);
      }
      var length := Be32(buffer[0], buffer[1], buffer[2], buffer[3]);
      if length > maxFrameSize {
        return Err;
      }
      var end := 4 + length;
      if |buffer| < end {
        return Ok(None);
      }
      assert Pending()[4..end] == buffer[4..end];
      assert !complete ==> Pending()[end..] == buffer[end..] + Delivered(stream);
      r := Ok(Some(buffer[4..end]));
      buffer := buffer[end..];
    }
  }

  // ----------------------------------------------------------- whole streams

  /** All frames of a finished stream. */
  function Frames(bytes: Bytes, max: nat): Result<seq<Bytes>>
    decreases |bytes|
  {
    match NextFrame(bytes, max)
    case End => Ok([])
    case Broken => Err
    case Frame(payload, rest) =>
      var others :- Frames(rest, max);
      Ok([payload] + others)
  }

  /** Reading frames until the end gives the frames of the whole stream,
      whatever the chunks. */
  method Drain(chunks: seq<Chunk>, max: nat) returns (r: Result<seq<Bytes>>)
    requires Ends(chunks)
    ensures r == Frames(Delivered(chunks), max)
  {
    hide NextFrame;
    var reader := new FrameReader(chunks, max);
    var payloads: seq<Bytes> := [];
    ghost var whole := Frames(Delivered(chunks), max);
    assert whole.Ok? ==> [] + whole.value == whole.value;
    while true
      invariant reader.Valid()
      invariant match Frames(reader.Pending(), max)
                case Err => whole.Err?
                case Ok(rest) => whole == Ok(payloads + rest)
      decreases |reader.Pending()|
    {
      ghost var pending := reader.Pending();
      var next :- reader.ReadFrame();
      if next.None? {
        assert payloads + [] == payloads;
        return Ok(payloads);
      }
      FramesStep(payloads, next.value, pending, reader.Pending(), max, whole);
      payloads := payloads + [next.value];
    }
  }

  lemma FramesStep(payloads: seq<Bytes>, payload: Bytes, pending: Bytes, rest: Bytes, max: nat,
                   whole: Result<seq<Bytes>>)
    requires NextFrame(pending, max) == Frame(payload, rest)
    requires match Frames(pending, max) case Err => whole.Err? case Ok(x) => whole == Ok(payloads + x)
    ensures match Frames(rest, max) case Err => whole.Err? case Ok(x) => whole == Ok(payloads + [payload] + x)
    ensures |rest| < |pending|
  {
    hide NextFrame;
    var others := Frames(rest, max);
    assert others.Ok? ==> payloads + ([payload] + others.value) == payloads + [payload] + others.value;
  }

  /** Encoding a list of messages: every number must be a safe integer and
      every payload must fit a frame. */
  function EncodeMessages(hash: Bytes -> Id, ms: seq<Message>): Result<Bytes> {
    if ms == [] then Ok([])
    else
      var _ :- Check(forall n :: n in Numbers(ms[0]) ==> n <= MAX_SAFE);
      var frame :- EncodeFrame(Payload(hash, ms[0]));
      var rest :- EncodeMessages(hash, ms[1..]);
      Ok(frame + rest)
  }

  function DecodeMessages(payloads: seq<Bytes>): Result<seq<Message>> {
    if payloads == [] then Ok([])
    else
      var first :- DecodeMessage(payloads[0]);
      var rest :- DecodeMessages(payloads[1..]);
      Ok([first] + rest)
  }

  function OnWireAll(hash: Bytes -> Id, ms: seq<Message>): seq<Message> {
    if ms == [] then [] else [OnWire(hash, ms[0])] + OnWireAll(hash, ms[1..])
  }

  lemma FirstFrame(payload: Bytes, rest: Bytes, max: nat)
    requires |payload| <= max && |payload| <= 0xffff_ffff
    ensures NextFrame(U32(|payload|) + payload + rest, max) == Frame(payload, rest)
  {
    hide U32, Be32;
    var header := U32(|payload|);
    var bytes := header + payload + rest;
    assert bytes[..4] == header;
    assert bytes[4..4 + |payload|] == payload && bytes[4 + |payload|..] == rest;
  }

  lemma NoFrames(max: nat)
    ensures Frames([], max) == Ok([])
  {
  }

  /** A header that announces more than the limit stops the stream. */
  lemma BigFrame(payload: Bytes, rest: Bytes, max: nat)
    requires max < |payload| <= 0xffff_ffff
    ensures NextFrame(U32(|payload|) + payload + rest, max) == Broken
  {
    hide U32, Be32;
    var header := U32(|payload|);
    var bytes := header + payload + rest;
    assert bytes[..4] == header;
  }

  ghost predicate Fits(hash: Bytes -> Id, ms: seq<Message>, max: nat) {
    forall m :: m in ms ==> |Payload(hash, m)| <= max && Small(m)
  }

  /** The messages of a finished stream. */
  function ReadMessages(bytes: Bytes, max: nat): Result<seq<Message>> {
    var payloads :- Frames(bytes, max);
    DecodeMessages(payloads)
  }

  lemma FitsCons(hash: Bytes -> Id, ms: seq<Message>, max: nat)
    requires ms != []
    ensures Fits(hash, ms, max) <==> |Payload(hash, ms[0])| <= max && Small(ms[0]) && Fits(hash, ms[1..], max)
  {
    hide Payload, Small;
    assert ms == [ms[0]] + ms[1..];
  }

  /** A stream of encoded messages reads back as those messages if and only if
      every frame is within the limit and every number below 2 to the 42. */
  lemma {:induction false} StreamRoundTrip(hash: Bytes -> Id, ms: seq<Message>, max: nat, e: Bytes)
    requires EncodeMessages(hash, ms) == Ok(e)
    ensures ReadMessages(e, max) == if Fits(hash, ms, max) then Ok(OnWireAll(hash, ms)) else Err
    decreases |ms|
  {
    hide Payload, Small, NextFrame, DecodeMessage, OnWire, U32, Fits;
    if ms == [] {
      NoFrames(max);
      assert Fits(hash, ms, max) by { NoneFits(hash, max); }
    } else {
      var payload := Payload(hash, ms[0]);
      var rest := EncodeMessages(hash, ms[1..]).value;
      FitsCons(hash, ms, max);
      if |payload| > max {
        BigFrame(payload, rest, max);
      } else {
        FirstFrame(payload, rest, max);
        MessageRoundTrip(hash, ms[0]);
        StreamRoundTrip(hash, ms[1..], max, rest);
        var others := Frames(rest, max);
        if others.Ok? { assert ([payload] + others.value)[1..] == others.value; }
      }
    }
  }

  lemma NoneFits(hash: Bytes -> Id, max: nat)
    ensures Fits(hash, [], max)
  {
  }

  /** However the encoded stream is cut into chunks, the frame reader yields
      one payload per message, in order, and each decodes to its message. */
  lemma AnyChunking(hash: Bytes -> Id, ms: seq<Message>, chunks: seq<Chunk>, max: nat)
    requires Fits(hash, ms, max) && EncodeMessages(hash, ms).Ok?
    requires Ends(chunks) && Delivered(chunks) == EncodeMessages(hash, ms).value
    requires forall m :: m in ms && m.Gossip? ==> m.id == hash(m.content)
    ensures var payloads := Frames(Delivered(chunks), max);
            payloads.Ok? && DecodeMessages(payloads.value) == Ok(ms)
  {
    hide Fits, Frames, DecodeMessages, EncodeMessages, Delivered, Ends;
    StreamRoundTrip(hash, ms, max, Delivered(chunks));
    OnWireSame(hash, ms);
  }

  lemma {:induction false} OnWireSame(hash: Bytes -> Id, ms: seq<Message>)
    requires forall m :: m in ms && m.Gossip? ==> m.id == hash(m.content)
    ensures OnWireAll(hash, ms) == ms
  {
    if ms != [] {
      assert ms[0] in ms;
      assert forall m :: m in ms[1..] ==> m in ms;
      OnWireSame(hash, ms[1..]);
    }
  }
}
