/**
  Byte strings and the text frame the chat relay puts on the wire.

  A relayed message is the sender's label, one ASCII colon, and the
  message, concatenated as raw bytes with no escaping.
 */
module Wire {

  datatype Option<T> = None | Some(value: T)

  type Byte = bv8
  type Bytes = seq<Byte>

  /** ASCII ':' */
  const COLON: Byte := 0x3A

  /** The frame `label ++ ":" ++ message` (bytes.Join with a ":" separator). */
  function Join(name: Bytes, message: Bytes): (frame: Bytes)
    ensures |frame| == |name| + 1 + |message|
    ensures frame[..|name|] == name && frame[|name|] == COLON && frame[|name| + 1..] == message
  {
    name + [COLON] + message
  }

  /** Index of the first colon in `s`, if there is one. */
  function FirstColon(s: Bytes): (r: Option<nat>)
    ensures r.Some? ==> r.value < |s| && s[r.value] == COLON && COLON !in s[..r.value]
    ensures r.None? ==> COLON !in s
  {
    if s == [] then None
    else if s[0] == COLON then Some(0)
    else match FirstColon(s[1..])
      case None => None
      case Some(i) => Some(i + 1)
  }

  /** How a receiver takes a frame apart: the label is everything before the first colon. */
  function Split(frame: Bytes): (r: Option<(Bytes, Bytes)>)
    ensures r.None? <==> COLON !in frame
    ensures r.Some? ==> Join(r.value.0, r.value.1) == frame && COLON !in r.value.0
  {
    match FirstColon(frame)
      case None => None
      case Some(i) => Some((frame[..i], frame[i + 1..]))
  }

  /** Splitting undoes Join whenever the label holds no colon (the message may hold any). */
  lemma SplitJoin(name: Bytes, message: Bytes)
    requires COLON !in name
    ensures Split(Join(name, message)) == Some((name, message))
  {
  }

  /** A colon inside the label makes two different (label, message) pairs share one frame. */
  lemma JoinAmbiguousWithColonInLabel(a: Byte, b: Byte)
    ensures Join([a, COLON], [b]) == Join([a], [COLON, b])
    ensures [a, COLON] != [a]
  {
  }
}
