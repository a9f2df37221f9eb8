/**
 * The wire unit of the protocol: a message {id, type, content, ttl}.  The JSON
 * text is left out; the content is kept as the typed object the receiver
 * reads its keys from.
 */
module Wire {
  import opened Common

  /** The message types.  Other(tag) stands for a type string that is none of
      the five known ones; KindOf never builds it from a known one. */
  datatype Kind = Announce | Acknowledge | Request | Fail | Data | Other(tag: string)

  /** The five type strings the engine dispatches on. */
  const KnownTags: set<string> := {"ANNOUNCE", "ACKNOWLEDGE", "REQUEST", "FAIL", "DATA"}

  /** A kind as it can arise from a type string: Other only for unknown ones. */
  predicate WellTagged(k: Kind)
  {
    k.Other? ==> k.tag !in KnownTags
  }

  /** The string comparison of handleMsg: a known type string selects its
      kind, any other is carried unchanged as Other. */
  function KindOf(tag: string): (k: Kind)
    ensures WellTagged(k)
    ensures k.Other? <==> tag !in KnownTags
    ensures k.Other? ==> k.tag == tag
  {
    if tag == "ANNOUNCE" then Announce
    else if tag == "ACKNOWLEDGE" then Acknowledge
    else if tag == "REQUEST" then Request
    else if tag == "FAIL" then Fail
    else if tag == "DATA" then Data
    else Other(tag)
  }

  /** The type string sendMsg writes for a kind. */
  function TagOf(k: Kind): (tag: string)
    ensures k.Other? ==> tag == k.tag
    ensures !k.Other? ==> tag in KnownTags
  {
    match k
    case Announce => "ANNOUNCE"
    case Acknowledge => "ACKNOWLEDGE"
    case Request => "REQUEST"
    case Fail => "FAIL"
    case Data => "DATA"
    case Other(t) => t
  }

  /** Type strings round-trip through kinds, and so does every kind that can
      arise from a string. */
  lemma TagRoundTrip(tag: string, k: Kind)
    ensures TagOf(KindOf(tag)) == tag
    ensures WellTagged(k) ==> KindOf(TagOf(k)) == k
  {
  }

  /** The content object: empty for ANNOUNCE/ACKNOWLEDGE, {data_name,
      time_to_wait} for REQUEST, {data_name} for FAIL and {data_name, data_val,
      time_to_use, location} for DATA. */
  datatype Content =
    | NoContent
    | Interest(name: Name, ttw: int)
    | Failure(name: Name)
    | Payload(name: Name, value: Value, ttu: int, location: Addr)

  datatype Message = Message(id: Name, kind: Kind, content: Content, ttl: int)

  /** One send that reached the transport: the destination and the message. */
  datatype Sent = Sent(dest: Name, msg: Message)

  /** What a received message asks the engine to do. */
  datatype Event =
    | Announced(from: Name)
    | Acknowledged(from: Name)
    | Requested(from: Name, name: Name, ttw: int, ttl: int)
    | Failed(from: Name, name: Name)
    | Delivered(from: Name, name: Name, value: Value, ttu: int, location: Addr)
    | Ignored
    | Malformed

  /** The data_name key of a content object, when it has one. */
  function NameOf(c: Content): (r: Option<Name>)
    ensures r.None? <==> c.NoContent?
  {
    match c
    case NoContent => None
    case Interest(n, _) => Some(n)
    case Failure(n) => Some(n)
    case Payload(n, _, _, _) => Some(n)
  }

  /** The dispatch of handleMsg: a REQUEST needs data_name and time_to_wait, a
      FAIL only data_name, a DATA all four data keys; a content without the
      keys its type reads is malformed, and an unknown type is ignored. */
  function Decode(m: Message): (e: Event)
    ensures e.Ignored? <==> m.kind.Other?
    ensures e.Malformed? <==>
      (m.kind.Request? && !m.content.Interest?) ||
      (m.kind.Fail? && m.content.NoContent?) ||
      (m.kind.Data? && !m.content.Payload?)
    ensures !e.Ignored? && !e.Malformed? ==> e.from == m.id
  {
    match m.kind
    case Announce => Announced(m.id)
    case Acknowledge => Acknowledged(m.id)
    case Request =>
      if m.content.Interest? then Requested(m.id, m.content.name, m.content.ttw, m.ttl) else Malformed
    case Fail =>
      if m.content.NoContent? then Malformed else Failed(m.id, NameOf(m.content).value)
    case Data =>
      if m.content.Payload? then
        Delivered(m.id, m.content.name, m.content.value, m.content.ttu, m.content.location)
      else Malformed
    case Other(_) => Ignored
  }

  /** The message a sender builds for an event; every type but REQUEST goes out
      with the default ttl 1. */
  function Encode(e: Event): (m: Message)
    requires !e.Ignored? && !e.Malformed?
    ensures m.id == e.from
    ensures !e.Requested? ==> m.ttl == 1
  {
    match e
    case Announced(from) => Message(from, Announce, NoContent, 1)
    case Acknowledged(from) => Message(from, Acknowledge, NoContent, 1)
    case Requested(from, n, ttw, ttl) => Message(from, Request, Interest(n, ttw), ttl)
    case Failed(from, n) => Message(from, Fail, Failure(n), 1)
    case Delivered(from, n, v, ttu, loc) => Message(from, Data, Payload(n, v, ttu, loc), 1)
  }

  /** A receiver decodes exactly the event the sender encoded. */
  lemma DecodeEncode(e: Event)
    requires !e.Ignored? && !e.Malformed?
    ensures Decode(Encode(e)) == e
  {
  }

  /** A well-formed REQUEST or DATA message is the encoding of the event it
      decodes to: decoding loses nothing but the ttl of a DATA message, which
      the receiver never reads. */
  lemma EncodeDecode(m: Message)
    requires m.kind == Request || m.kind == Data
    requires !Decode(m).Malformed?
    ensures Encode(Decode(m)) == if m.kind == Request then m else m.(ttl := 1)
  {
  }
}
