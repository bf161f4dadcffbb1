/** Tagged attribute lists, and the tags that the control protocol uses. */
module Tags {
  import opened Wrappers
  import opened Numbers
  import opened Bare
  import opened Variants

  /** An attribute: a raw tag, which a newer peer may have chosen, and its data. */
  datatype Tagged = Tagged(tag: u64, data: Variant)

  // ClientMessageAttributes and ClientMessage2Attributes agree on the first two codes.
  const DIRECTION_OF_TRAVEL: u64 := 1
  const PORT_RANGE_START: u64 := 2
  const PORT_RANGE_END: u64 := 3
  const OUTPUT_CONFIG: u64 := 4
  const BANDWIDTH_TO_SERVER: u64 := 5
  const BANDWIDTH_TO_CLIENT: u64 := 6
  const ROUND_TRIP_TIME: u64 := 7
  const CONGESTION_CONTROLLER_TYPE: u64 := 8
  const INITIAL_CONGESTION_WINDOW: u64 := 9
  const QUIC_TIMEOUT: u64 := 10

  // ServerMessage2Attributes
  const SERVER_CONGESTION_CONTROLLER: u64 := 1
  const SERVER_INITIAL_CONGESTION_WINDOW: u64 := 2
  const SERVER_WARNING_MESSAGE: u64 := 3
  const SERVER_QUIC_TIMEOUT: u64 := 4

  /** The data of the first attribute with the given tag. */
  function FindTag(attributes: seq<Tagged>, tag: u64): Option<Variant> {
    if attributes == [] then None
    else if attributes[0].tag == tag then Some(attributes[0].data)
    else FindTag(attributes[1..], tag)
  }

  lemma FindTagOfNone(tag: u64)
    ensures FindTag([], tag) == None
  {
  }

  /** One attribute, if there is a value for it. */
  function Opt(tag: u64, data: Option<Variant>): seq<Tagged> {
    match data case None => [] case Some(v) => [Tagged(tag, v)]
  }

  /** A pushed attribute only answers for its tag, and only where no earlier one does. */
  lemma {:induction false} FindTagAfterPush(attributes: seq<Tagged>, tag: u64, data: Option<Variant>, wanted: u64)
    ensures FindTag(attributes + Opt(tag, data), wanted) ==
            if FindTag(attributes, wanted).Some? then FindTag(attributes, wanted)
            else if wanted == tag then data else None
  {
    if attributes == [] {
    } else {
      assert (attributes + Opt(tag, data))[1..] == attributes[1..] + Opt(tag, data);
      FindTagAfterPush(attributes[1..], tag, data, wanted);
    }
  }

  // --------------------------------------------------------------- wire form

  function PutTagged(t: Tagged): Bytes {
    PutUint(t.tag) + Encode(t.data)
  }

  function ReadTagged(b: Bytes): (r: Read<Tagged>)
    ensures r.Ok? ==> |r.value.1| < |b|
  {
    var (tag, rest) :- ReadUint(b);
    var (data, rest) :- Decode(rest);
    Ok((Tagged(tag, data), rest))
  }

  function PutTags(ts: seq<Tagged>): Bytes {
    if ts == [] then [] else PutTagged(ts[0]) + PutTags(ts[1..])
  }

  function ReadTags(b: Bytes, n: nat): (r: Read<seq<Tagged>>)
    decreases n
  {
    if n == 0 then Ok(([], b))
    else
      var (t, rest) :- ReadTagged(b);
      var (ts, rest) :- ReadTags(rest, n - 1);
      Ok(([t] + ts, rest))
  }

  function PutTagList(ts: seq<Tagged>): Bytes {
    PutUint(|ts|) + PutTags(ts)
  }

  function ReadTagList(b: Bytes): Read<seq<Tagged>> {
    var (n, rest) :- ReadUint(b);
    ReadTags(rest, n)
  }

  ghost predicate WellFormedTags(ts: seq<Tagged>) {
    |ts| < U64_BOUND && forall t :: t in ts ==> WellFormed(t.data)
  }

  lemma TaggedRoundTrip(t: Tagged, rest: Bytes)
    requires WellFormed(t.data)
    ensures ReadTagged(PutTagged(t) + rest) == Ok((t, rest))
  {
    hide Decode, Encode, ReadUint, PutUint, WellFormed;
    assert PutTagged(t) + rest == PutUint(t.tag) + (Encode(t.data) + rest);
    UintRoundTrip(t.tag, Encode(t.data) + rest);
    RoundTrip(t.data, rest);
  }

  lemma {:induction false} TagsRoundTrip(ts: seq<Tagged>, rest: Bytes)
    requires forall t :: t in ts ==> WellFormed(t.data)
    ensures ReadTags(PutTags(ts) + rest, |ts|) == Ok((ts, rest))
  {
    hide ReadTagged, PutTagged, WellFormed;
    if ts == [] {
      assert PutTags(ts) + rest == rest;
    } else {
      var tail := PutTags(ts[1..]) + rest;
      assert PutTags(ts) + rest == PutTagged(ts[0]) + tail;
      assert ts[0] in ts && forall t :: t in ts[1..] ==> t in ts;
      TaggedRoundTrip(ts[0], tail);
      TagsRoundTrip(ts[1..], rest);
      assert ts == [ts[0]] + ts[1..];
    }
  }

  lemma TagListRoundTrip(ts: seq<Tagged>, rest: Bytes)
    requires WellFormedTags(ts)
    ensures ReadTagList(PutTagList(ts) + rest) == Ok((ts, rest))
  {
    hide ReadUint, PutUint, WellFormed;
    assert PutTagList(ts) + rest == PutUint(|ts|) + (PutTags(ts) + rest);
    UintRoundTrip(|ts|, PutTags(ts) + rest);
    TagsRoundTrip(ts, rest);
  }
}
