# Theia event model in Dafny

Theia is an event-streaming service. Producers send events to a collector
over a websocket, and subscribers receive the events that match a filter.
Every event travels as one text frame:

```
event: <total> <header> <content>\n
id:<id>\n
timestamp: <seconds with 7 decimals>\n
source:<source>\n
tags:<tag>,<tag>,...\n
<content>\n
```

`<header>` is the byte length of the four header lines. `<content>` is the
byte length of the content. `<total>` is their sum.

This project models the event model in `theia/model.py`:

* the `Event` record, its constructor defaults and its `match` filter;
* `EventSerializer`, which writes a frame;
* `EventParser`, which reads a frame back from a byte stream.

It then proves what the writer and the reader promise each other.

Modules:

* `Wrappers`: `Option` and `Result`.
* `Text`: the Python string operations the codec uses (`strip`, `index`,
  `startswith`, `split`, `join`) on ASCII text. One character is one byte.
* `Numbers`: decimal integers, `'%d'` and `int()`.
* `Timestamps`: `'%.7f'` and `float()`. A timestamp is a whole number of
  ticks of 10^-7 s, which is exactly what seven decimals show.
* `Events`: `Event`, `NewEvent` (the constructor), `Match` (the filter) and
  its properties.
* `Streams`: the in-memory stream. It has a spec function per operation
  (`ReadLineAt`, `ReadAt`, `SeekCur`) and a `ByteStream` class with a
  mutable cursor whose methods are proved against those functions.
* `Serializer`: `serialize` and `_serialize_header`.
* `Parser`: `parse_preamble`, `parse_header` and `parse_event`. Each is a
  spec function from the stream's bytes and cursor to a result and the new
  cursor, plus a method over a `ByteStream` proved equal to that function.
  The raised exceptions become the cases of `Parser.Error`. Two decoders
  exist side by side where the source is wrong (see "## Findings"): the
  as-written ones (`PreambleOfLineAsWritten`, `ContentSizeErrorAsWritten`)
  and the corrected ones (`PreambleOfLine`, `ContentSizeError`). The stream
  functions `PreambleAt` and `EventAt`, and so the methods `ParsePreamble`
  and `ParseEvent`, use the corrected ones.
* `RoundTrip`: serialise-then-parse, the length accounting of the preamble,
  truncated frames and the skip-content mode.

## Model

| member | source | states |
|---|---|---|
| `Events.NewEvent` | theia/model.py:19-25 | id and source are kept; a missing or zero timestamp becomes the clock reading `now`, any other is kept; missing tags become `[]` and missing content `''`, present ones are kept |
| `Events.Match` | theia/model.py:27-50 | the step-by-step `matches` flag holds iff the id, source, time, content and tag criteria all hold (criteria are ANDed) |
| `Events.HasAnyTag` | theia/model.py:41-47 | the `has_tag` loop finds a tag iff some wanted tag is among the event's tags |
| `Events.MatchNoCriteria` | theia/model.py:27-33 | with no criteria every event matches |
| `Events.MatchMissingField` | theia/model.py:52-55 | `Events.PatternMatches` (`_match`) never matches a missing value, so a pattern given for an id or source the event lacks makes the match fail |
| `Events.MatchZeroTimestamp` | theia/model.py:34-38 | for a zero timestamp the start and end bounds have no effect on the result |
| `Events.MatchUntagged` | theia/model.py:41-47 | for an event without tags the tag criterion has no effect on the result |
| `Events.MatchTags` | theia/model.py:41-47 | for a tagged event and a non-empty tag list, the match holds iff some wanted tag is one of the event's |
| `Events.MatchNarrowing` | theia/model.py:27-50 | dropping any single criterion from a matching query still matches: criteria only narrow |
| `Events.MatchPrefixScenario` | theia/model.py:52-55 | `Events.PatternMatches` anchors at the start as `re.match` does: id `abc123` matches pattern `abc` and does not match `xyz` |
| `Text.Strip` | theia/model.py:99 | `strip()` leaves no whitespace at either end, never lengthens, and is empty iff the text is all whitespace |
| `Text.IndexOf` | theia/model.py:102 | `index(':')` is absent iff there is no colon, otherwise it is the position of the first one |
| `Text.Split` | theia/model.py:112 | `split(',')` gives at least one piece, no piece contains the separator, and joining the pieces gives the text back |
| `Text.SplitJoin` | theia/model.py:80 | splitting a join gives the pieces back when none contains the separator |
| `Numbers.ParseIntOfDecimal` | theia/model.py:132 | `Numbers.ParseInt` (`int()`) reads back what `Numbers.NatToDecimal` (`'%d'`) wrote |
| `Timestamps.FormatTicksOneLine` | theia/model.py:78 | the text of `Timestamps.FormatTicks` (`'%.7f'`) has no line feed |
| `Timestamps.ParseFormatTicks` | theia/model.py:108 | `Timestamps.ParseTicks` (`float()`) reads back what `Timestamps.FormatTicks` (`'%.7f'`) wrote, with or without leading whitespace |
| `Streams.ReadLineAt` | theia/model.py:120 | `readline()` at or past the end gives the empty line and keeps the cursor; otherwise it gives the bytes up to and including the next line feed (or the end) and moves past them |
| `Streams.ReadAt` | theia/model.py:90 | `read(n)` gives the bytes from the cursor; it has exactly `n` bytes iff `n` is 0 or that many remain, and the cursor then moves by `n`; a negative `n`, or one larger than what remains, gives all remaining bytes and leaves the cursor at the end |
| `Streams.SeekCur` | theia/model.py:139 | `seek(n, SEEK_CUR)` moves by `n`, clamped at the start |
| `Streams.ReadLineExact` | theia/model.py:97 | a line feed-terminated line in the stream is read exactly, and the cursor ends just past it |
| `Streams.ByteStream.ReadLine` | theia/model.py:120 | the loop returns the line and cursor `ReadLineAt` gives for the old cursor |
| `Streams.ByteStream.Read` | theia/model.py:90 | returns the bytes and cursor `ReadAt` gives for the old cursor |
| `Streams.ByteStream.Seek` | theia/model.py:144 | the new cursor is `SeekCur` of the old one |
| `Serializer.Serialize` | theia/model.py:63-73 | the frame is as long as the preamble line (`Serializer.PreambleText`), the header block (`Serializer.HeaderBlock`), the content and one terminator byte together |
| `Parser.PreambleOfLineAsWritten` | theia/model.py:119-132 | as the source has it: a line that does not strip to something starting with `event:` is an invalid preamble line, and end of stream is never reported |
| `Parser.PreambleOfLineOk` | theia/model.py:125-132 | a line decodes iff it follows the preamble grammar (after stripping, `event:` first, exactly three space-separated fields from the 8th character on, each an integer), and then to those three integers |
| `Parser.PreambleOfLine` | theia/model.py:119-126 | the corrected preamble decoder reports end of stream iff the line read is empty, and otherwise agrees with the source |
| `Parser.EndOfStreamAsWritten` | theia/model.py:120-126 | at the end of the stream the source reports an invalid preamble line, where the corrected decoder reports end of stream |
| `Parser.SetProperty` | theia/model.py:105-114 | storing a value succeeds iff the name is one of the four properties (and, for `timestamp`, the value is a decimal); an unknown name and a bad timestamp give their own errors; `id` and `source` store the text, `timestamp` the parsed number and `tags` the comma split, each in its own field with the other fields unchanged |
| `Parser.ApplyLine` | theia/model.py:99-114 | a blank line is an invalid header, a line without `:` a missing separator, and otherwise the line is split at its first `:` into property and value |
| `Parser.ApplyLineOk` | theia/model.py:99-114 | one header line is accepted iff it is well formed (non-blank, with a known property before its first `:`) |
| `Parser.ApplyLinesOk` | theia/model.py:97-115 | a header block decodes iff every one of its lines is well formed, so any blank line, line without `:` or unknown property makes it fail |
| `Parser.HeaderAt` | theia/model.py:89-117 | a short read of the declared size fails; when the declared bytes are all there, the result is the decoding (`Parser.HeaderOfText`) of exactly those bytes and the cursor advances by exactly that size; on success the size is not negative |
| `Parser.ContentSizeError` | theia/model.py:146-147 | the corrected content check passes iff read content has the declared length, or skipped content has a declared length that is not negative |
| `Parser.SkipContentAsWritten` | theia/model.py:137-147 | as written, skipped content always fails the length check (`len(None)`); the corrected check lets it pass whenever the declared size is not negative |
| `Parser.ParsePreamble` | theia/model.py:119-132 | the method returns the result, and leaves the cursor where, `Parser.PreambleAt` says; this follows the source except that an exhausted stream gives `EndOfStream` (the corrected `PreambleOfLine`) where the source raises "Invalid preamble line" |
| `Parser.ParseHeaderText` | theia/model.py:93-117 | the `while ln:` loop over the header text returns its decoding `Parser.HeaderOfText`: the lines applied in order, the first failing one deciding |
| `Parser.ParseHeader` | theia/model.py:89-117 | the method returns the result, and leaves the cursor where, `HeaderAt` says |
| `Parser.ParseEvent` | theia/model.py:134-149 | the method returns the result, and leaves the cursor where, `Parser.EventAt` says; this follows the source except for the corrected preamble decoder and content check: with `skipContent` a well-formed frame gives the event without content where the source raises at `len(None)`, and a negative declared size is refused |
| `RoundTrip.PreambleTextParses` | theia/model.py:69 | the preamble line `Serializer.PreambleText` is a single line that decodes to the three sizes it was written with |
| `RoundTrip.PreamblePart` | theia/model.py:65-69 | the preamble of a frame in a stream, as `Parser.PreambleAt` reads it, declares the byte lengths of its header block and content and their sum, and the cursor stops where the header block begins |
| `RoundTrip.HeaderBlockLines` | theia/model.py:75-81 | the header block `Serializer.HeaderBlock` reads as exactly the id, timestamp, source and tags lines, in that order |
| `RoundTrip.HeaderBlockParses` | theia/model.py:75-81 | the header block decodes, by `Parser.HeaderOfText`, to the id and source text, the timestamp, and the parsed tags it was written from |
| `RoundTrip.TagsRoundTrip` | theia/model.py:80 | the comma split of the joined tags gives them back, except that no tags come back as `[""]` |
| `RoundTrip.ApplyTimestampLine` | theia/model.py:78 | the written timestamp line sets exactly that timestamp |
| `RoundTrip.FrameInPlace` | theia/model.py:63-73 | a frame standing in a stream leaves its preamble line, header block and content in place one after the other |
| `RoundTrip.EventRoundTrip` | theia/model.py:134-149 | parsing (`Parser.EventAt`) a serialised event found anywhere in a stream gives it back (a zero timestamp becomes the clock reading, no tags become `[""]`, a missing id or source the text `None`), with the cursor just past the terminator |
| `RoundTrip.EventRoundTripExact` | theia/model.py:134-149 | an event with id, source, non-zero timestamp and tags comes back exactly, and the cursor ends at the frame's end |
| `RoundTrip.TruncatedFrame` | theia/model.py:89-92 | a frame cut inside its header block, or (when content is read) inside its content, is refused |
| `RoundTrip.CutFrameFails` | theia/model.py:134-147 | when the stream ends before the declared header (and read content) bytes after a preamble, the parse fails |
| `RoundTrip.SkipContentEquivalence` | theia/model.py:134-149 | with the corrected check, skipping the content gives the same event without content and leaves the cursor in the same place as reading it |
| `RoundTrip.SkippedCursor` | theia/model.py:134-144 | a successful parse with skipped content moves the cursor forwards, past the preamble line, the declared header and content sizes (neither negative), and the one terminator byte |
| `RoundTrip.EventCursor` | theia/model.py:134-144 | a successful parse moves the cursor past the preamble line, the declared header and content sizes, and the one terminator byte |
| `RoundTrip.ConcreteScenario` | theia/model.py:134-149 | the frame of one concrete event (`e1`, `svc-a`, tags `x,y`, content `hello`) parses back to that event, with the cursor at the frame's end |

## Left out

- The websocket transport in `theia/comm.py` is not part of this model.
- Encodings: the source encodes and decodes with a configurable encoding (UTF-8 by default). Here text is ASCII, one character per byte, and encoding is the identity.
- Floating point: timestamps are whole ticks of 10^-7 s. `Timestamps.ParseTicks` accepts fixed-point text with at most seven decimals and treats anything else (exponents, `inf`, `nan`, more decimals) as unreadable.
- Clock: `time()` in the constructor becomes the parameter `now`.
- Regular expressions: `_match` calls `re.match`. Here a pattern is literal text matched as a prefix, so regex metacharacters are not interpreted.
- `Numbers.ParseInt`: does not accept the underscores and non-ASCII digits that Python's `int()` does.
- The `print` of the stream before the terminator seek (theia/model.py:143) is output only and is not modelled.
- Serializer.Serialize: its own ensures states only the frame's length. What the frame holds is proved about it in RoundTrip: `PreamblePart` (the declared sizes), `HeaderBlockLines` and `HeaderBlockParses` (the header block), `FrameInPlace` (the order of the parts) and `EventRoundTrip` (the frame parses back).
- Parser.ParsePreamble and Parser.ParseEvent follow the source except where it is wrong (see "## Findings"): they report end of stream as `EndOfStream`, accept skipped content, and refuse skipped content of negative declared size. The as-written behaviour is stated by `Parser.EndOfStreamAsWritten` and `Parser.SkipContentAsWritten`.
- The parser does not check that the declared total equals header plus content; the model follows the code, and the round trip only needs what the serializer writes.
- In skip mode the content is never read, so a frame cut inside its content is not noticed; `RoundTrip.TruncatedFrame` states only the cases the code detects.
- `Header` is a class with mutable fields in the source. It is a datatype here, updated value by value inside the `ParseHeaderText` loop.
- `EventPreamble` and `Header` carry no behaviour of their own; they are the datatypes `Parser.Preamble` and `Parser.Header`.
- Exception messages are not modelled; each raise is a case of `Parser.Error` that carries the values the message shows.

## Findings

| source | as written | input that shows it | evidently intended | confidence | as-written member | corrected member |
|---|---|---|---|---|---|---|
| theia/model.py:120-126 | `readline()` returns an empty value at end of stream, never `None`, so the `EOFException` branch cannot fire; end of stream is reported as "Invalid preamble line". In addition, `EOFException` (line 153) is defined with `def`, so it is a function, not an exception class | a stream whose cursor is at its end | end of stream reported as its own error | not executed | `Parser.EndOfStreamAsWritten` | `Parser.PreambleOfLine` |
| theia/model.py:137-147 | with `skip_content=True` the content stays `None`, and `len(content)` raises, so every skip-mode parse fails | any well-formed frame parsed with `skip_content=True` | only read content is length-checked; skipping gives the event without content, and refuses a negative declared size rather than seeking backwards | not executed | `Parser.SkipContentAsWritten` | `Parser.ContentSizeError` |
