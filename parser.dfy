/** `EventParser`: reads one frame back from a byte stream. The spec
    functions compute, from the stream's bytes and the cursor, what a parse
    returns and where it leaves the cursor; the methods do the same work on
    a `ByteStream` step by step and are proved to agree with them. */
module Parser {
  import opened Wrappers
  import opened Text
  import opened Numbers
  import opened Timestamps
  import opened Events
  import opened Streams

  /** The exceptions the parser raises, one case per raising site. */
  datatype Error =
    | EndOfStream                               // no line at all where a preamble was expected
    | InvalidPreambleLine                       // blank line, or no leading `event:`
    | InvalidPreambleValues                     // not exactly three space-separated fields
    | InvalidInteger(text: string)              // `int()` refused a preamble field
    | ShortRead(got: nat, expected: int)        // fewer header bytes than declared
    | InvalidHeader                             // blank line inside the header block
    | MissingSeparator(line: string)            // header line without `:`
    | UnknownProperty(name: string)             // header property outside the four known ones
    | InvalidTimestamp(text: string)            // `float()` refused the timestamp
    | InvalidContentSize(got: nat, expected: int) // fewer content bytes than declared
    | ContentNotRead                            // `len(None)` on skipped content
    | NegativeContentSize(expected: int)        // a negative size declared for skipped content

  /** `EventPreamble(total, header, content)`: the three declared sizes. */
  datatype Preamble = Preamble(total: int, header: int, content: int)

  /** The decoded header fields; each stays `None` until a line sets it. */
  datatype Header = Header(
    id: Option<string>,
    timestamp: Option<int>,
    source: Option<string>,
    tags: Option<seq<string>>)

  const EmptyHeader := Header(None, None, None, None)

  /* ---------------------------------------------------------------- preamble */

  /** What follows `event:` and the one character after it. */
  function PreambleFields(line: string): seq<string> {
    Split(Drop(Strip(line), 7), ' ')
  }

  /** The preamble grammar: after stripping, the line starts with `event:`;
      from the 8th character on it splits on single spaces into exactly three
      fields, each an integer literal. */
  predicate WellFormedPreamble(line: string) {
    StartsWith(Strip(line), "event:") &&
    |PreambleFields(line)| == 3 &&
    ParseInt(PreambleFields(line)[0]).Some? &&
    ParseInt(PreambleFields(line)[1]).Some? &&
    ParseInt(PreambleFields(line)[2]).Some?
  }

  /** `parse_preamble` on the line `readline()` returned, as the source has
      it: end of stream reads as the empty line and is reported as an invalid
      preamble line. */
  function PreambleOfLineAsWritten(line: string): (r: Result<Preamble, Error>)
    ensures !StartsWith(Strip(line), "event:") ==> r == Err(InvalidPreambleLine)
    ensures r != Err(EndOfStream)
  {
    var p := Strip(line);
    if p == [] || !StartsWith(p, "event:") then Err(InvalidPreambleLine)
    else
      var values := Split(Drop(p, 7), ' ');
      if |values| != 3 then Err(InvalidPreambleValues)
      else if ParseInt(values[0]).None? then Err(InvalidInteger(values[0]))
      else if ParseInt(values[1]).None? then Err(InvalidInteger(values[1]))
      else if ParseInt(values[2]).None? then Err(InvalidInteger(values[2]))
      else Ok(Preamble(ParseInt(values[0]).value, ParseInt(values[1]).value, ParseInt(values[2]).value))
  }

  /** A line decodes exactly when it follows the preamble grammar, and then
      to the integers its three fields spell. */
  lemma PreambleOfLineOk(line: string)
    ensures PreambleOfLineAsWritten(line).Ok? <==> WellFormedPreamble(line)
    ensures PreambleOfLineAsWritten(line).Ok? ==>
      var f, r := PreambleFields(line), PreambleOfLineAsWritten(line).value;
      ParseInt(f[0]) == Some(r.total) && ParseInt(f[1]) == Some(r.header) && ParseInt(f[2]) == Some(r.content)
  {
    var p := Strip(line);
    if p == [] {
      assert !StartsWith(p, "event:");
    }
  }

  /** `parse_preamble` as evidently intended: end of stream is its own error. */
  function PreambleOfLine(line: string): (r: Result<Preamble, Error>)
    ensures r == Err(EndOfStream) <==> line == []
    ensures line != [] ==> r == PreambleOfLineAsWritten(line)
  {
    if line == [] then Err(EndOfStream) else PreambleOfLineAsWritten(line)
  }

  /** The source's end-of-stream branch cannot fire: `readline()` returns an
      empty line, not `None`, and that line fails as an invalid preamble. */
  lemma EndOfStreamAsWritten(data: string, pos: nat)
    requires pos >= |data|
    ensures PreambleOfLineAsWritten(ReadLineAt(data, pos).0) == Err(InvalidPreambleLine)
    ensures PreambleOfLine(ReadLineAt(data, pos).0) == Err(EndOfStream)
  {
  }

  /** `parse_preamble(stream)`: the result and the cursor after the line. */
  function PreambleAt(data: string, pos: nat): (r: (Result<Preamble, Error>, nat))
  {
    var (line, next) := ReadLineAt(data, pos);
    (PreambleOfLine(line), next)
  }

  /* ------------------------------------------------------------------ header */

  /** A property a header line may set, with a value it accepts: one of
      the four names, and a decimal value for the timestamp. */
  predicate KnownProperty(prop: string, value: string) {
    prop in {"id", "timestamp", "source", "tags"} &&
    (prop == "timestamp" ==> ParseTicks(value).Some?)
  }

  /** The header grammar for one line: after stripping, it is non-blank and
      the text before its first `:` names a known property whose value the
      parser accepts. */
  predicate WellFormedHeaderLine(ln: string) {
    var t := Strip(ln);
    exists i :: 0 <= i < |t| && t[i] == ':' && ':' !in t[..i] && KnownProperty(t[..i], t[i + 1..])
  }

  /** Storing one value under its property name, or the error for a name
      the header does not have and for a timestamp that is not a decimal. */
  function SetProperty(h: Header, prop: string, value: string): (r: Result<Header, Error>)
    ensures r.Ok? <==> KnownProperty(prop, value)
    ensures prop !in {"id", "timestamp", "source", "tags"} ==> r == Err(UnknownProperty(prop))
    ensures prop == "timestamp" && ParseTicks(value).None? ==> r == Err(InvalidTimestamp(value))
    ensures prop == "id" ==> r == Ok(h.(id := Some(value)))
    ensures prop == "timestamp" && r.Ok? ==> r.value == h.(timestamp := ParseTicks(value))
    ensures prop == "source" ==> r == Ok(h.(source := Some(value)))
    ensures prop == "tags" ==> r == Ok(h.(tags := Some(Split(value, ','))))
  {
    if prop == "id" then Ok(h.(id := Some(value)))
    else if prop == "timestamp" then
      match ParseTicks(value)
      case None => Err(InvalidTimestamp(value))
      case Some(ts) => Ok(h.(timestamp := Some(ts)))
    else if prop == "source" then Ok(h.(source := Some(value)))
    else if prop == "tags" then Ok(h.(tags := Some(Split(value, ','))))
    else Err(UnknownProperty(prop))
  }

  /** One pass of the `while ln:` loop of `parse_header`: strip the line,
      split it at the first `:` and store the value under its property. */
  function ApplyLine(h: Header, ln: string): (r: Result<Header, Error>)
    ensures Strip(ln) == [] ==> r == Err(InvalidHeader)
    ensures Strip(ln) != [] && ':' !in Strip(ln) ==> r == Err(MissingSeparator(Strip(ln)))
    ensures ':' in Strip(ln) ==>
      var t := Strip(ln);
      var idx := IndexOf(t, ':').value;
      r == SetProperty(h, t[..idx], t[idx + 1..])
  {
    var t := Strip(ln);
    if t == [] then Err(InvalidHeader)
    else match IndexOf(t, ':')
      case None => Err(MissingSeparator(t))
      case Some(idx) => SetProperty(h, t[..idx], t[idx + 1..])
  }

  /** A line is accepted exactly when it is well formed. */
  lemma ApplyLineOk(h: Header, ln: string)
    ensures ApplyLine(h, ln).Ok? <==> WellFormedHeaderLine(ln)
  {
    var t := Strip(ln);
    if ':' in t {
      var idx := IndexOf(t, ':').value;
      assert ApplyLine(h, ln) == SetProperty(h, t[..idx], t[idx + 1..]);
      WellFormedAtColon(ln, idx);
    }
  }

  /** Only the first `:` of a stripped line can be the separator. */
  lemma WellFormedAtColon(ln: string, idx: nat)
    requires idx < |Strip(ln)| && Strip(ln)[idx] == ':' && ':' !in Strip(ln)[..idx]
    ensures WellFormedHeaderLine(ln) <==> KnownProperty(Strip(ln)[..idx], Strip(ln)[idx + 1..])
  {
    var t := Strip(ln);
    if WellFormedHeaderLine(ln) {
      var i :| 0 <= i < |t| && t[i] == ':' && ':' !in t[..i] && KnownProperty(t[..i], t[i + 1..]);
    }
  }

  /** The lines `readline()` yields from `text`: each ends with a line feed
      except possibly the last. */
  function Lines(text: string): seq<string>
    decreases |text|
  {
    if text == [] then []
    else
      var j := LineEnd(text, 0);
      [text[..j]] + Lines(text[j..])
  }

  /** Reading a line at `start` peels the first of the remaining lines. */
  lemma LinesAt(text: string, start: nat)
    requires start < |text|
    ensures var (ln, next) := ReadLineAt(text, start);
      Lines(text[start..]) == [ln] + Lines(text[next..])
  {
    var rest := text[start..];
    assert rest[0..] == text[start..];
    var j := LineEnd(text, start);
    assert LineEnd(rest, 0) == j - start;
    assert rest[..j - start] == text[start..j];
    assert rest[j - start..] == text[j..];
  }

  /** The header lines applied in order; the first failing line decides. */
  function ApplyLines(lines: seq<string>, h: Header): Result<Header, Error>
  {
    if lines == [] then Ok(h)
    else match ApplyLine(h, lines[0])
      case Err(e) => Err(e)
      case Ok(h') => ApplyLines(lines[1..], h')
  }

  /** The decoded header block. */
  function HeaderOfText(text: string): Result<Header, Error> {
    ApplyLines(Lines(text), EmptyHeader)
  }

  /** A header block decodes exactly when every one of its lines is well
      formed; in particular any blank line, any line without `:` and any
      unknown property name makes it fail. */
  lemma {:induction false} ApplyLinesOk(lines: seq<string>, h: Header)
    ensures ApplyLines(lines, h).Ok? <==> forall i :: 0 <= i < |lines| ==> WellFormedHeaderLine(lines[i])
    decreases |lines|
  {
    if lines != [] {
      var first := ApplyLine(h, lines[0]);
      ApplyLineOk(h, lines[0]);
      if first.Ok? {
        ApplyLinesOk(lines[1..], first.value);
        AllWellFormedTail(lines);
      }
    }
  }

  /** Every line is well formed iff the first is and every later one is. */
  lemma AllWellFormedTail(lines: seq<string>)
    requires lines != []
    ensures (forall i :: 0 <= i < |lines| ==> WellFormedHeaderLine(lines[i])) <==>
      WellFormedHeaderLine(lines[0]) && forall i :: 0 <= i < |lines[1..]| ==> WellFormedHeaderLine(lines[1..][i])
  {
    assert forall i :: 1 <= i < |lines| ==> lines[i] == lines[1..][i - 1];
  }

  /** `parse_header(hdr_size, stream)`: read exactly `size` bytes (fewer is
      an error), then decode them. */
  function HeaderAt(data: string, pos: nat, size: int): (r: (Result<Header, Error>, nat))
    ensures size < 0 || (size > 0 && pos + size > |data|) ==> r.0.Err? && r.0.error.ShortRead?
    ensures r.0.Ok? ==> size >= 0 && r.1 == pos + size && (size == 0 || pos + size <= |data|)
    ensures r.0.Ok? && size > 0 ==> r.0 == HeaderOfText(data[pos..pos + size])
    ensures 0 <= size && pos + size <= |data| ==>
      r.0 == HeaderOfText(data[pos..pos + size]) && r.1 == pos + size
  {
    var (bytes, next) := ReadAt(data, pos, size);
    if |bytes| != size then (Err(ShortRead(|bytes|, size)), next)
    else (HeaderOfText(bytes), next)
  }

  /* ------------------------------------------------------------------- event */

  /** The content-length check of `parse_event` as the source has it: with
      skipped content it takes `len(None)`, which raises. */
  function ContentSizeErrorAsWritten(content: Option<string>, declared: int): Option<Error> {
    match content
    case None => Some(ContentNotRead)
    case Some(c) => if |c| != declared then Some(InvalidContentSize(|c|, declared)) else None
  }

  /** The check as evidently intended: content that was read must have the
      declared length, and content that was skipped a length that is not
      negative (as read content always has), so that skipping never moves
      the cursor backwards. */
  function ContentSizeError(content: Option<string>, declared: int): (r: Option<Error>)
    ensures r.None? <==> if content.None? then declared >= 0 else |content.value| == declared
  {
    match content
    case None => if declared < 0 then Some(NegativeContentSize(declared)) else None
    case Some(_) => ContentSizeErrorAsWritten(content, declared)
  }

  /** As written, every parse with `skip_content=True` fails its last check;
      the corrected check passes skipped content of any size that is not
      negative. */
  lemma SkipContentAsWritten(declared: int)
    ensures ContentSizeErrorAsWritten(None, declared) == Some(ContentNotRead)
    ensures declared >= 0 ==> ContentSizeError(None, declared).None?
  {
  }

  /** `parse_event(stream, skip_content)`: preamble, header, then the content
      read (or seeked past), then one byte skipped for the terminator. `now`
      is the clock reading the event constructor falls back on. */
  function EventAt(data: string, pos: nat, skip: bool, now: int): (Result<Event, Error>, nat)
  {
    var (pre, p1) := PreambleAt(data, pos);
    match pre
    case Err(e) => (Err(e), p1)
    case Ok(preamble) =>
      var (hdr, p2) := HeaderAt(data, p1, preamble.header);
      match hdr
      case Err(e) => (Err(e), p2)
      case Ok(h) =>
        var (content, p3) :=
          if skip then (None, SeekCur(p2, preamble.content))
          else var (bytes, q) := ReadAt(data, p2, preamble.content); (Some(bytes), q);
        var p4 := SeekCur(p3, 1);
        match ContentSizeError(content, preamble.content)
        case Some(e) => (Err(e), p4)
        case None => (Ok(NewEvent(h.id, h.source, h.timestamp, h.tags, content, now)), p4)
  }

  /* ----------------------------------------------------------------- methods */

  method ParsePreamble(stream: ByteStream) returns (r: Result<Preamble, Error>)
    modifies stream
    ensures (r, stream.pos) == PreambleAt(stream.data, old(stream.pos))
  {
    var line := stream.ReadLine();
    if line == [] {
      return Err(EndOfStream);
    }
    var p := Strip(line);
    if p == [] || !StartsWith(p, "event:") {
      return Err(InvalidPreambleLine);
    }
    var values := Split(Drop(p, 7), ' ');
    if |values| != 3 {
      return Err(InvalidPreambleValues);
    }
    var total := ParseInt(values[0]);
    if total.None? {
      return Err(InvalidInteger(values[0]));
    }
    var header := ParseInt(values[1]);
    if header.None? {
      return Err(InvalidInteger(values[1]));
    }
    var content := ParseInt(values[2]);
    if content.None? {
      return Err(InvalidInteger(values[2]));
    }
    return Ok(Preamble(total.value, header.value, content.value));
  }

  /** The `while ln:` loop of `parse_header` over a `StringIO` of the block. */
  method ParseHeaderText(text: string) returns (r: Result<Header, Error>)
    ensures r == HeaderOfText(text)
  {
    var sio := new ByteStream(text);
    var header := EmptyHeader;
    ghost var start := 0;
    var ln := sio.ReadLine();
    assert text[0..] == text;
    while ln != []
      invariant start <= |text|
      invariant (ln, sio.pos) == ReadLineAt(text, start)
      invariant HeaderOfText(text) == ApplyLines(Lines(text[start..]), header)
      decreases |text| - start
    {
      LinesAt(text, start);
      var t := Strip(ln);
      if t == [] {
        return Err(InvalidHeader);
      }
      var idx := IndexOf(t, ':');
      if idx.None? {
        return Err(MissingSeparator(t));
      }
      var prop := t[..idx.value];
      var value := t[idx.value + 1..];
      if prop == "id" {
        header := header.(id := Some(value));
      } else if prop == "timestamp" {
        var ts := ParseTicks(value);
        if ts.None? {
          return Err(InvalidTimestamp(value));
        }
        header := header.(timestamp := Some(ts.value));
      } else if prop == "source" {
        header := header.(source := Some(value));
      } else if prop == "tags" {
        header := header.(tags := Some(Split(value, ',')));
      } else {
        return Err(UnknownProperty(prop));
      }
      start := sio.pos;
      ln := sio.ReadLine();
    }
    return Ok(header);
  }

  method ParseHeader(size: int, stream: ByteStream) returns (r: Result<Header, Error>)
    modifies stream
    ensures (r, stream.pos) == HeaderAt(stream.data, old(stream.pos), size)
  {
    var bytes := stream.Read(size);
    if |bytes| != size {
      return Err(ShortRead(|bytes|, size));
    }
    r := ParseHeaderText(bytes);
  }

  method ParseEvent(stream: ByteStream, skipContent: bool, now: int) returns (r: Result<Event, Error>)
    modifies stream
    ensures (r, stream.pos) == EventAt(stream.data, old(stream.pos), skipContent, now)
  {
    var preamble := ParsePreamble(stream);
    if preamble.Err? {
      return Err(preamble.error);
    }
    var header := ParseHeader(preamble.value.header, stream);
    if header.Err? {
      return Err(header.error);
    }
    var content: Option<string> := None;
    if skipContent {
      stream.Seek(preamble.value.content);
    } else {
      var bytes := stream.Read(preamble.value.content);
      content := Some(bytes);
    }
    stream.Seek(1);
    var problem := ContentSizeError(content, preamble.value.content);
    if problem.Some? {
      return Err(problem.value);
    }
    var h := header.value;
    return Ok(NewEvent(h.id, h.source, h.timestamp, h.tags, content, now));
  }
}
