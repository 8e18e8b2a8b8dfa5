/** `EventSerializer`: an event as the bytes of one wire frame. The encoding
    is the identity: every character is one byte. */
module Serializer {
  import opened Wrappers
  import opened Text
  import opened Numbers
  import opened Timestamps
  import opened Events

  /** `str(v)` for an optional string: `None` prints as `None`. */
  function FieldText(v: Option<string>): string {
    match v
    case Some(s) => s
    case None => "None"
  }

  /** One header line, `<key>:<value>` and a line feed. */
  function HeaderLine(key: string, value: string): string {
    key + ":" + value + "\n"
  }

  /** `_serialize_header`: the four header lines in their fixed order. The
      timestamp line has a space after the colon. */
  function HeaderBlock(e: Event): string {
    HeaderLine("id", FieldText(e.id))
    + HeaderLine("timestamp", " " + FormatTicks(e.timestamp))
    + HeaderLine("source", FieldText(e.source))
    + HeaderLine("tags", Join(e.tags, ','))
  }

  /** `'event: %d %d %d\n' % (total, header, content)`. */
  function PreambleText(total: nat, header: nat, content: nat): string {
    "event: " + Join([NatToDecimal(total), NatToDecimal(header), NatToDecimal(content)], ' ') + "\n"
  }

  /** `serialize(event)`: preamble, header block, content, terminating line
      feed. The preamble declares the header and content lengths and their
      sum. */
  function Serialize(e: Event): (frame: string)
    ensures |frame| == |PreambleText(|HeaderBlock(e)| + |e.content|, |HeaderBlock(e)|, |e.content|)|
                       + |HeaderBlock(e)| + |e.content| + 1
  {
    var header := HeaderBlock(e);
    PreambleText(|header| + |e.content|, |header|, |e.content|) + header + e.content + "\n"
  }
}
