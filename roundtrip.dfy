/** What the serializer and the parser promise each other: the preamble
    accounts for the bytes that follow it, a serialised event parses back
    and leaves the cursor just past its frame, a truncated frame is refused,
    and skipping the content moves the cursor exactly as reading it does. */
module RoundTrip {
  import opened Wrappers
  import opened Text
  import opened Numbers
  import opened Timestamps
  import opened Events
  import opened Streams
  import opened Serializer
  import opened Parser

  /** `s` stands in `data` from position `pos` on. */
  predicate At(data: string, pos: nat, s: string) {
    pos + |s| <= |data| && data[pos..pos + |s|] == s
  }

  lemma AtConcat(data: string, pos: nat, a: string, b: string)
    requires At(data, pos, a + b)
    ensures At(data, pos, a) && At(data, pos + |a|, b)
  {
    assert data[pos..pos + |a|] == (a + b)[..|a|];
    assert data[pos + |a|..pos + |a| + |b|] == (a + b)[|a|..];
  }

  /** A field the header carries back unchanged: a single line without
      trailing whitespace (the parser strips each line). */
  predicate SafeField(s: string) {
    '\n' !in s && (s == [] || !IsSpace(s[|s| - 1]))
  }

  /** Tags survive the comma join when none contains a comma and the joined
      list is a safe field. */
  predicate SafeTags(tags: seq<string>) {
    (forall i :: 0 <= i < |tags| ==> ',' !in tags[i]) && SafeField(Join(tags, ','))
  }

  predicate Serializable(e: Event) {
    SafeField(FieldText(e.id)) && SafeField(FieldText(e.source)) && SafeTags(e.tags)
  }

  /** A line feed ends a recognised line. */
  predicate IsLine(s: string) {
    s != [] && s[|s| - 1] == '\n' && '\n' !in s[..|s| - 1]
  }

  /* -------------------------------------------------------------- preamble */

  /** The preamble line is one line, and it parses back to the three sizes
      it was written with. */
  lemma {:induction false} PreambleTextParses(total: nat, header: nat, content: nat)
    ensures IsLine(PreambleText(total, header, content))
    ensures PreambleOfLine(PreambleText(total, header, content)) == Ok(Preamble(total, header, content))
  {
    var dt, dh, dc := NatToDecimal(total), NatToDecimal(header), NatToDecimal(content);
    var fields := [dt, dh, dc];
    var j := Join(fields, ' ');
    var x := "event: " + j;
    var p := PreambleText(total, header, content);
    assert p == x + "\n";
    assert '\n' !in x && j != [] && !IsSpace(j[|j| - 1]) by {
      NoCharInDigits(dt, '\n'); NoCharInDigits(dh, '\n'); NoCharInDigits(dc, '\n');
      assert fields[1..] == [dh, dc];
      assert Join([dh, dc], ' ') == dh + [' '] + dc;
      assert j == dt + [' '] + (dh + [' '] + dc);
      assert j[|j| - 1] == dc[|dc| - 1];
    }
    assert IsLine(p) by {
      assert p[..|p| - 1] == x;
    }
    assert Strip(p) == x by {
      StripLine(x);
    }
    assert StartsWith(x, "event:") && Drop(x, 7) == j by {
      assert x[..6] == "event:";
    }
    assert PreambleFields(p) == fields by {
      NoCharInDigits(dt, ' '); NoCharInDigits(dh, ' '); NoCharInDigits(dc, ' ');
      SplitJoin(fields, ' ');
    }
    ParseIntOfDecimal(total);
    ParseIntOfDecimal(header);
    ParseIntOfDecimal(content);
    PreambleOfFields(p, dt, dh, dc, total, header, content);
  }

  /** A line that starts with `event:` and has three integer fields decodes
      to those integers. */
  lemma PreambleOfFields(line: string, a: string, b: string, c: string, t: int, hs: int, cs: int)
    requires StartsWith(Strip(line), "event:") && PreambleFields(line) == [a, b, c]
    requires ParseInt(a) == Some(t) && ParseInt(b) == Some(hs) && ParseInt(c) == Some(cs)
    ensures PreambleOfLine(line) == Ok(Preamble(t, hs, cs))
  {
    assert line != [];
  }

  /* ---------------------------------------------------------------- header */

  /** A key the serializer writes: non-blank at the front, without a colon
      or a line feed. */
  predicate HeaderKey(key: string) {
    key != [] && !IsSpace(key[0]) && ':' !in key && '\n' !in key
  }

  /** The four property names are such keys. */
  lemma PropertyKeys()
    ensures HeaderKey("id") && HeaderKey("timestamp") && HeaderKey("source") && HeaderKey("tags")
  {
  }

  /** A header line strips to `<key>:<value>`, whose first colon ends the key. */
  lemma HeaderLineSplits(key: string, value: string)
    requires HeaderKey(key) && SafeField(value)
    ensures IsLine(HeaderLine(key, value))
    ensures var t := key + ":" + value;
      Strip(HeaderLine(key, value)) == t && IndexOf(t, ':') == Some(|key|) &&
      t[..|key|] == key && t[|key| + 1..] == value
  {
    var t := key + ":" + value;
    assert HeaderLine(key, value) == t + "\n";
    assert HeaderLine(key, value)[..|t|] == t;
    assert t[|t| - 1] == if value == [] then ':' else value[|value| - 1];
    StripLine(t);
    assert t == key + [':'] + value;
    IndexOfAfter(key, ':', value);
  }

  /** A recognised line in front of more text is the first of its lines. */
  lemma LinesCons(line: string, rest: string)
    requires IsLine(line)
    ensures Lines(line + rest) == [line] + Lines(rest)
  {
    var text := line + rest;
    assert text[0..|line|] == line;
    ReadLineExact(text, 0, line);
    assert text[..|line|] == line;
    assert text[|line|..] == rest;
  }

  /** A recognised line alone is its only line. */
  lemma OneLine(line: string)
    requires IsLine(line)
    ensures Lines(line) == [line]
  {
    LinesCons(line, []);
    assert line + [] == line;
  }

  lemma LinesPrepend(line: string, rest: string, tail: seq<string>)
    requires IsLine(line) && Lines(rest) == tail
    ensures Lines(line + rest) == [line] + tail
  {
    LinesCons(line, rest);
  }

  /** Four recognised lines, concatenated, read back as those four lines. */
  lemma FourLines(l1: string, l2: string, l3: string, l4: string)
    requires IsLine(l1) && IsLine(l2) && IsLine(l3) && IsLine(l4)
    ensures Lines(l1 + l2 + l3 + l4) == [l1, l2, l3, l4]
  {
    Assoc4(l1, l2, l3, l4);
    FourLinesNested(l1, l2, l3, l4);
  }

  lemma FourLinesNested(l1: string, l2: string, l3: string, l4: string)
    requires IsLine(l1) && IsLine(l2) && IsLine(l3) && IsLine(l4)
    ensures Lines(l1 + (l2 + (l3 + l4))) == [l1, l2, l3, l4]
  {
    ThreeLines(l2, l3, l4);
    LinesPrepend(l1, l2 + (l3 + l4), [l2, l3, l4]);
    ConsFour(l1, l2, l3, l4);
  }

  lemma ThreeLines(l2: string, l3: string, l4: string)
    requires IsLine(l2) && IsLine(l3) && IsLine(l4)
    ensures Lines(l2 + (l3 + l4)) == [l2, l3, l4]
  {
    TwoLines(l3, l4);
    LinesPrepend(l2, l3 + l4, [l3, l4]);
    ConsThree(l2, l3, l4);
  }

  lemma TwoLines(l3: string, l4: string)
    requires IsLine(l3) && IsLine(l4)
    ensures Lines(l3 + l4) == [l3, l4]
  {
    OneLine(l4);
    LinesPrepend(l3, l4, [l4]);
    assert [l3] + [l4] == [l3, l4];
  }

  lemma ConsFour(a: string, b: string, c: string, d: string)
    ensures [a] + [b, c, d] == [a, b, c, d]
  {
  }

  lemma ConsThree(a: string, b: string, c: string)
    ensures [a] + [b, c] == [a, b, c]
  {
  }

  lemma Assoc4(a: string, b: string, c: string, d: string)
    ensures a + b + c + d == a + (b + (c + d))
  {
  }

  /** The header block is exactly its four lines, in order. */
  lemma HeaderBlockLines(e: Event)
    requires Serializable(e)
    ensures Lines(HeaderBlock(e)) ==
      [HeaderLine("id", FieldText(e.id)), HeaderLine("timestamp", " " + FormatTicks(e.timestamp)),
       HeaderLine("source", FieldText(e.source)), HeaderLine("tags", Join(e.tags, ','))]
  {
    var l1, l2 := HeaderLine("id", FieldText(e.id)), HeaderLine("timestamp", " " + FormatTicks(e.timestamp));
    var l3, l4 := HeaderLine("source", FieldText(e.source)), HeaderLine("tags", Join(e.tags, ','));
    PropertyKeys();
    assert IsLine(l1) by { HeaderLineSplits("id", FieldText(e.id)); }
    assert IsLine(l2) by {
      FormatTicksOneLine(e.timestamp);
      HeaderLineSplits("timestamp", " " + FormatTicks(e.timestamp));
    }
    assert IsLine(l3) by { HeaderLineSplits("source", FieldText(e.source)); }
    assert IsLine(l4) by { HeaderLineSplits("tags", Join(e.tags, ',')); }
    assert HeaderBlock(e) == l1 + l2 + l3 + l4;
    FourLines(l1, l2, l3, l4);
  }

  /** The tags as the parser gives them back: a comma split of the join,
      which turns the empty list into `[""]`. */
  function ParsedTags(tags: seq<string>): seq<string> {
    if tags == [] then [""] else tags
  }

  lemma TagsRoundTrip(tags: seq<string>)
    requires SafeTags(tags)
    ensures Split(Join(tags, ','), ',') == ParsedTags(tags)
  {
    if tags != [] {
      SplitJoin(tags, ',');
    }
  }

  /** Applying a list of lines is applying its first, then the rest. */
  lemma ApplyLinesStep(lines: seq<string>, h: Header, h': Header)
    requires lines != [] && ApplyLine(h, lines[0]) == Ok(h')
    ensures ApplyLines(lines, h) == ApplyLines(lines[1..], h')
  {
  }

  /** A header line written from a key and a safe value sets that key to
      that value. */
  lemma ApplyHeaderLine(h: Header, key: string, value: string)
    requires HeaderKey(key) && SafeField(value)
    ensures ApplyLine(h, HeaderLine(key, value)) == SetProperty(h, key, value)
  {
    HeaderLineSplits(key, value);
  }

  lemma ApplyIdLine(h: Header, v: string)
    requires SafeField(v)
    ensures ApplyLine(h, HeaderLine("id", v)) == Ok(h.(id := Some(v)))
  {
    PropertyKeys();
    ApplyHeaderLine(h, "id", v);
  }

  lemma ApplyTimestampLine(h: Header, t: int)
    ensures ApplyLine(h, HeaderLine("timestamp", " " + FormatTicks(t))) == Ok(h.(timestamp := Some(t)))
  {
    var v := " " + FormatTicks(t);
    assert SafeField(v) by {
      FormatTicksOneLine(t);
    }
    assert ParseTicks(v) == Some(t) by {
      ParseFormatTicks(t, " ");
    }
    assert SetProperty(h, "timestamp", v) == Ok(h.(timestamp := Some(t)));
    PropertyKeys();
    ApplyHeaderLine(h, "timestamp", v);
  }

  lemma ApplySourceLine(h: Header, v: string)
    requires SafeField(v)
    ensures ApplyLine(h, HeaderLine("source", v)) == Ok(h.(source := Some(v)))
  {
    PropertyKeys();
    ApplyHeaderLine(h, "source", v);
  }

  lemma ApplyTagsLine(h: Header, tags: seq<string>)
    requires SafeTags(tags)
    ensures ApplyLine(h, HeaderLine("tags", Join(tags, ','))) == Ok(h.(tags := Some(ParsedTags(tags))))
  {
    PropertyKeys();
    ApplyHeaderLine(h, "tags", Join(tags, ','));
    TagsRoundTrip(tags);
  }

  /** Four lines that each apply cleanly apply cleanly in sequence. */
  lemma ApplyFourLines(l1: string, l2: string, l3: string, l4: string,
                       h0: Header, h1: Header, h2: Header, h3: Header, h4: Header)
    requires ApplyLine(h0, l1) == Ok(h1) && ApplyLine(h1, l2) == Ok(h2)
    requires ApplyLine(h2, l3) == Ok(h3) && ApplyLine(h3, l4) == Ok(h4)
    ensures ApplyLines([l1, l2, l3, l4], h0) == Ok(h4)
  {
    ApplyLinesStep([l1, l2, l3, l4], h0, h1);
    assert [l1, l2, l3, l4][1..] == [l2, l3, l4];
    ApplyLinesStep([l2, l3, l4], h1, h2);
    assert [l2, l3, l4][1..] == [l3, l4];
    ApplyLinesStep([l3, l4], h2, h3);
    assert [l3, l4][1..] == [l4];
    ApplyLinesStep([l4], h3, h4);
    assert [l4][1..] == [];
  }

  /** The header block decodes to the four values it was written from. */
  lemma HeaderBlockParses(e: Event)
    requires Serializable(e)
    ensures HeaderOfText(HeaderBlock(e)) ==
      Ok(Header(Some(FieldText(e.id)), Some(e.timestamp), Some(FieldText(e.source)), Some(ParsedTags(e.tags))))
  {
    var ts := " " + FormatTicks(e.timestamp);
    var l1, l2 := HeaderLine("id", FieldText(e.id)), HeaderLine("timestamp", ts);
    var l3, l4 := HeaderLine("source", FieldText(e.source)), HeaderLine("tags", Join(e.tags, ','));
    var h1 := EmptyHeader.(id := Some(FieldText(e.id)));
    var h2 := h1.(timestamp := Some(e.timestamp));
    var h3 := h2.(source := Some(FieldText(e.source)));
    var h4 := h3.(tags := Some(ParsedTags(e.tags)));
    ApplyIdLine(EmptyHeader, FieldText(e.id));
    ApplyTimestampLine(h1, e.timestamp);
    ApplySourceLine(h2, FieldText(e.source));
    ApplyTagsLine(h3, e.tags);
    ApplyFourLines(l1, l2, l3, l4, EmptyHeader, h1, h2, h3, h4);
    HeaderBlockLines(e);
  }

  /* ----------------------------------------------------------------- frame */

  /** A frame laid out in `data` leaves each of its four parts in place. */
  lemma FrameLayout(data: string, pos: nat, a: string, b: string, c: string, d: string)
    requires At(data, pos, a + b + c + d)
    ensures At(data, pos, a) && At(data, pos + |a|, b) && At(data, pos + |a| + |b|, c)
    ensures At(data, pos + |a| + |b| + |c|, d)
  {
    AtConcat(data, pos, a + b + c, d);
    AtConcat(data, pos, a + b, c);
    AtConcat(data, pos, a, b);
  }

  /** A recognised line in place is what the next line read returns, and
      the preamble decoded from it is the one read from the stream. */
  lemma PreambleInPlace(data: string, pos: nat, line: string, r: Result<Preamble, Error>)
    requires IsLine(line) && At(data, pos, line) && PreambleOfLine(line) == r
    ensures PreambleAt(data, pos).0 == r && PreambleAt(data, pos).1 == pos + |line|
  {
    ReadLineExact(data, pos, line);
  }

  /** A non-empty header block in place, read with its own length, decodes
      as its text. */
  lemma HeaderInPlace(data: string, pos: nat, hb: string)
    requires At(data, pos, hb) && hb != []
    ensures HeaderAt(data, pos, |hb|).0 == HeaderOfText(hb) && HeaderAt(data, pos, |hb|).1 == pos + |hb|
  {
    assert ReadAt(data, pos, |hb|).0 == hb;
  }

  /* What `parse_event` returns once its three reads are known. */

  lemma EventOfParts(data: string, pos: nat, now: int, total: int, hs: int, cs: int,
                     p1: nat, h: Header, p2: nat, c: string)
    requires PreambleAt(data, pos).0 == Ok(Preamble(total, hs, cs)) && PreambleAt(data, pos).1 == p1
    requires HeaderAt(data, p1, hs).0 == Ok(h) && HeaderAt(data, p1, hs).1 == p2
    requires ReadAt(data, p2, cs).0 == c && |c| == cs
    ensures EventAt(data, pos, false, now).0 == Ok(NewEvent(h.id, h.source, h.timestamp, h.tags, Some(c), now))
    ensures EventAt(data, pos, false, now).1 == p2 + |c| + 1
  {
  }

  lemma HeaderErrorFails(data: string, pos: nat, skip: bool, now: int, pre: Preamble, p1: nat)
    requires PreambleAt(data, pos).0 == Ok(pre) && PreambleAt(data, pos).1 == p1
    requires HeaderAt(data, p1, pre.header).0.Err?
    ensures EventAt(data, pos, skip, now).0.Err?
  {
  }

  lemma ShortContentFails(data: string, pos: nat, now: int, pre: Preamble, p1: nat, h: Header, p2: nat)
    requires PreambleAt(data, pos).0 == Ok(pre) && PreambleAt(data, pos).1 == p1
    requires HeaderAt(data, p1, pre.header).0 == Ok(h) && HeaderAt(data, p1, pre.header).1 == p2
    requires |ReadAt(data, p2, pre.content).0| != pre.content
    ensures EventAt(data, pos, false, now).0.Err?
  {
  }

  /** A stream cut short after a preamble line, inside the declared header
      bytes or (when the content is read) inside the declared content bytes,
      is refused. */
  lemma CutFrameFails(data: string, pos: nat, tot: int, hs: int, cs: int, p1: nat, skip: bool, now: int)
    requires PreambleAt(data, pos).0 == Ok(Preamble(tot, hs, cs)) && PreambleAt(data, pos).1 == p1
    requires hs >= 0 && cs >= 0
    requires p1 <= |data| < p1 + hs + (if skip then 0 else cs)
    ensures EventAt(data, pos, skip, now).0.Err?
  {
    var pre := Preamble(tot, hs, cs);
    var (hdr, p2) := HeaderAt(data, p1, hs);
    if hdr.Err? {
      HeaderErrorFails(data, pos, skip, now, pre, p1);
    } else {
      assert !skip && p2 == p1 + hs;
      ShortContentFails(data, pos, now, pre, p1, hdr.value, p2);
    }
  }

  /** The frame is its preamble line, header block, content and a line feed. */
  lemma FrameSplit(e: Event)
    ensures var hb := HeaderBlock(e);
      Serialize(e) == PreambleText(|hb| + |e.content|, |hb|, |e.content|) + hb + e.content + "\n"
  {
  }

  /** A frame in place leaves its preamble line, header block and content in
      place one after the other. */
  lemma FrameInPlace(e: Event, data: string, pos: nat, pl: string, hb: string, c: string)
    requires hb == HeaderBlock(e) && c == e.content && pl == PreambleText(|hb| + |c|, |hb|, |c|)
    requires At(data, pos, Serialize(e))
    ensures At(data, pos, pl) && At(data, pos + |pl|, hb) && At(data, pos + |pl| + |hb|, c)
  {
    FrameSplit(e);
    PartsInPlace(data, pos, Serialize(e), pl, hb, c, "\n");
  }

  lemma PartsInPlace(data: string, pos: nat, frame: string, a: string, b: string, c: string, d: string)
    requires At(data, pos, frame) && frame == a + b + c + d
    ensures At(data, pos, a) && At(data, pos + |a|, b) && At(data, pos + |a| + |b|, c)
  {
    FrameLayout(data, pos, a, b, c, d);
  }

  /** Content in place reads back whole. */
  lemma ContentInPlace(data: string, pos: nat, c: string)
    requires At(data, pos, c)
    ensures ReadAt(data, pos, |c|).0 == c
  {
  }

  /** Serialise, then parse from a stream holding the frame anywhere: the
      id, source, tags and content come back, the timestamp too unless it is
      zero (the constructor then takes the clock), and the cursor ends just
      past the terminator. Empty tags come back as `[""]`, and an absent id
      or source as the text `None`. */
  lemma EventRoundTrip(e: Event, data: string, pos: nat, now: int)
    requires Serializable(e)
    requires At(data, pos, Serialize(e))
    ensures EventAt(data, pos, false, now).0 ==
      Ok(Event(Some(FieldText(e.id)), Some(FieldText(e.source)),
               if e.timestamp == 0 then now else e.timestamp,
               ParsedTags(e.tags), e.content))
    ensures EventAt(data, pos, false, now).1 == pos + |Serialize(e)|
  {
    var hb, c := HeaderBlock(e), e.content;
    var pl := PreambleText(|hb| + |c|, |hb|, |c|);
    var h := Header(Some(FieldText(e.id)), Some(e.timestamp), Some(FieldText(e.source)), Some(ParsedTags(e.tags)));
    assert |Serialize(e)| == |pl| + |hb| + |c| + 1;
    FrameEvent(e, data, pos, now, pl, hb, c, h, |hb| + |c|, |hb|, |c|, pos + |pl|, pos + |pl| + |hb|);
    HeaderEvent(e, h, c, now);
  }

  /** The three reads of a frame in place, with every size and position
      named. */
  lemma FrameEvent(e: Event, data: string, pos: nat, now: int, pl: string, hb: string, c: string, h: Header,
                   tot: nat, hs: nat, cs: nat, p1: nat, p2: nat)
    requires Serializable(e) && At(data, pos, Serialize(e))
    requires hb == HeaderBlock(e) && c == e.content && pl == PreambleText(|hb| + |c|, |hb|, |c|)
    requires h == Header(Some(FieldText(e.id)), Some(e.timestamp), Some(FieldText(e.source)), Some(ParsedTags(e.tags)))
    requires tot == |hb| + |c| && hs == |hb| && cs == |c| && p1 == pos + |pl| && p2 == p1 + |hb|
    ensures EventAt(data, pos, false, now).0 == Ok(NewEvent(h.id, h.source, h.timestamp, h.tags, Some(c), now))
    ensures EventAt(data, pos, false, now).1 == p2 + cs + 1
  {
    PreamblePart(e, data, pos, pl, hb, c, tot, hs, cs, p1);
    HeaderPart(e, data, pos, pl, hb, c, h, hs, p1, p2);
    ContentPart(e, data, pos, pl, hb, c, cs, p2);
    EventOfParts(data, pos, now, tot, hs, cs, p1, h, p2, c);
  }

  /** The constructor, given the decoded header of a serializable event. */
  lemma HeaderEvent(e: Event, h: Header, c: string, now: int)
    requires h == Header(Some(FieldText(e.id)), Some(e.timestamp), Some(FieldText(e.source)), Some(ParsedTags(e.tags)))
    requires c == e.content
    ensures NewEvent(h.id, h.source, h.timestamp, h.tags, Some(c), now) ==
      Event(Some(FieldText(e.id)), Some(FieldText(e.source)),
            if e.timestamp == 0 then now else e.timestamp,
            ParsedTags(e.tags), e.content)
  {
  }

  /** The preamble of a frame in place declares the byte lengths of the
      header block and of the content, and their sum; reading it leaves the
      cursor where the header block begins. */
  lemma PreamblePart(e: Event, data: string, pos: nat, pl: string, hb: string, c: string,
                     tot: nat, hs: nat, cs: nat, p1: nat)
    requires hb == HeaderBlock(e) && c == e.content && pl == PreambleText(|hb| + |c|, |hb|, |c|)
    requires At(data, pos, Serialize(e))
    requires tot == |hb| + |c| && hs == |hb| && cs == |c| && p1 == pos + |pl|
    ensures PreambleAt(data, pos).0 == Ok(Preamble(tot, hs, cs))
    ensures PreambleAt(data, pos).1 == p1
  {
    assert At(data, pos, pl) by {
      FrameInPlace(e, data, pos, pl, hb, c);
    }
    PreambleLineInPlace(data, pos, pl, tot, hs, cs, p1);
  }

  /** A preamble line in place parses to the sizes it declares. */
  lemma PreambleLineInPlace(data: string, pos: nat, pl: string, tot: nat, hs: nat, cs: nat, p1: nat)
    requires pl == PreambleText(tot, hs, cs) && At(data, pos, pl) && p1 == pos + |pl|
    ensures PreambleAt(data, pos).0 == Ok(Preamble(tot, hs, cs))
    ensures PreambleAt(data, pos).1 == p1
  {
    PreambleTextParses(tot, hs, cs);
    PreambleInPlace(data, pos, pl, Ok(Preamble(tot, hs, cs)));
  }

  /** The header block of a frame in place decodes to the event's fields. */
  lemma HeaderPart(e: Event, data: string, pos: nat, pl: string, hb: string, c: string, h: Header,
                   hs: int, p1: nat, p2: nat)
    requires Serializable(e)
    requires hb == HeaderBlock(e) && c == e.content && pl == PreambleText(|hb| + |c|, |hb|, |c|)
    requires h == Header(Some(FieldText(e.id)), Some(e.timestamp), Some(FieldText(e.source)), Some(ParsedTags(e.tags)))
    requires At(data, pos, Serialize(e))
    requires hs == |hb| && p1 == pos + |pl| && p2 == p1 + |hb|
    ensures HeaderAt(data, p1, hs).0 == Ok(h)
    ensures HeaderAt(data, p1, hs).1 == p2
  {
    assert At(data, p1, hb) by {
      FrameInPlace(e, data, pos, pl, hb, c);
    }
    assert hb != [] by {
      assert |HeaderLine("id", FieldText(e.id))| > 0;
    }
    assert HeaderOfText(hb) == Ok(h) by {
      HeaderBlockParses(e);
    }
    HeaderInPlace(data, p1, hb);
  }

  /** The content of a frame in place reads back whole. */
  lemma ContentPart(e: Event, data: string, pos: nat, pl: string, hb: string, c: string, cs: int, p2: nat)
    requires hb == HeaderBlock(e) && c == e.content && pl == PreambleText(|hb| + |c|, |hb|, |c|)
    requires At(data, pos, Serialize(e))
    requires cs == |c| && p2 == pos + |pl| + |hb|
    ensures ReadAt(data, p2, cs).0 == c
  {
    FrameInPlace(e, data, pos, pl, hb, c);
    ContentInPlace(data, pos + |pl| + |hb|, c);
  }

  /** Events with an id, a source, a non-zero timestamp and at least one tag
      come back exactly. */
  lemma EventRoundTripExact(e: Event, now: int)
    requires Serializable(e)
    requires e.id.Some? && e.source.Some? && e.timestamp != 0 && e.tags != []
    ensures EventAt(Serialize(e), 0, false, now).0 == Ok(e)
    ensures EventAt(Serialize(e), 0, false, now).1 == |Serialize(e)|
  {
    assert At(Serialize(e), 0, Serialize(e));
    EventRoundTrip(e, Serialize(e), 0, now);
  }

  /** A frame cut short inside its header block or its content is refused
      (in skip mode only a cut inside the header block is noticed, since
      skipping never reads the content). */
  lemma TruncatedFrame(e: Event, k: nat, skip: bool, now: int)
    requires var hdr, cnt := |HeaderBlock(e)|, |e.content|;
      var pl := PreambleText(hdr + cnt, hdr, cnt);
      |pl| <= k < |pl| + hdr + (if skip then 0 else cnt)
    ensures EventAt(Serialize(e)[..k], 0, skip, now).0.Err?
  {
    var hb, c := HeaderBlock(e), e.content;
    var pl := PreambleText(|hb| + |c|, |hb|, |c|);
    TruncatedParts(e, k, skip, now, Serialize(e)[..k], pl, hb, c, |hb| + |c|, |hb|, |c|);
  }

  lemma TruncatedParts(e: Event, k: nat, skip: bool, now: int, data: string, pl: string, hb: string, c: string,
                       tot: nat, hs: nat, cs: nat)
    requires hb == HeaderBlock(e) && c == e.content && tot == hs + cs && hs == |hb| && cs == |c|
    requires pl == PreambleText(tot, hs, cs) && |pl| <= k < |pl| + hs + (if skip then 0 else cs)
    requires k <= |Serialize(e)| && data == Serialize(e)[..k]
    ensures EventAt(data, 0, skip, now).0.Err?
  {
    assert At(data, 0, pl) by {
      FrameSplit(e);
      PrefixInPlace(Serialize(e), k, pl, hb, c, "\n");
    }
    PreambleLineInPlace(data, 0, pl, tot, hs, cs, |pl|);
    CutFrameFails(data, 0, tot, hs, cs, |pl|, skip, now);
  }

  /** A frame cut after its first part still holds that part. */
  lemma PrefixInPlace(frame: string, k: nat, a: string, b: string, c: string, d: string)
    requires frame == a + b + c + d && |a| <= k <= |frame|
    ensures At(frame[..k], 0, a)
  {
    assert frame[..k][0..|a|] == a;
  }

  /** Skipping the content instead of reading it gives the same event,
      without content, and leaves the cursor at the same place. */
  lemma SkipContentEquivalence(data: string, pos: nat, now: int)
    requires EventAt(data, pos, false, now).0.Ok?
    ensures EventAt(data, pos, true, now).0 == Ok(EventAt(data, pos, false, now).0.value.(content := []))
    ensures EventAt(data, pos, true, now).1 == EventAt(data, pos, false, now).1
  {
    var pre, p1 := PreambleAt(data, pos).0.value, PreambleAt(data, pos).1;
    var h, p2 := HeaderAt(data, p1, pre.header).0.value, HeaderAt(data, p1, pre.header).1;
    var c := ReadAt(data, p2, pre.content).0;
    assert |c| == pre.content;
    EventOfParts(data, pos, now, pre.total, pre.header, pre.content, p1, h, p2, c);
    SkippedParts(data, pos, now, pre, p1, h, p2);
  }

  /* What `parse_event` returns with skipped content once its first two reads
     and the length of the content are known. */
  lemma SkippedParts(data: string, pos: nat, now: int, pre: Preamble, p1: nat, h: Header, p2: nat)
    requires PreambleAt(data, pos).0 == Ok(pre) && PreambleAt(data, pos).1 == p1
    requires HeaderAt(data, p1, pre.header).0 == Ok(h) && HeaderAt(data, p1, pre.header).1 == p2
    requires |ReadAt(data, p2, pre.content).0| == pre.content
    ensures EventAt(data, pos, true, now).0 == Ok(NewEvent(h.id, h.source, h.timestamp, h.tags, None, now))
    ensures EventAt(data, pos, true, now).1 == p2 + pre.content + 1
  {
  }

  /** A successful parse moves the cursor past the preamble line, the
      declared header and content bytes, and the one terminator byte. */
  lemma EventCursor(data: string, pos: nat, now: int)
    requires EventAt(data, pos, false, now).0.Ok?
    ensures var (pre, p1) := PreambleAt(data, pos);
      pre.Ok? && pre.value.header >= 0 && pre.value.content >= 0 &&
      EventAt(data, pos, false, now).1 == p1 + pre.value.header + pre.value.content + 1
  {
  }

  /** The same holds when the content is skipped: the cursor only moves
      forwards, past the declared sizes and the terminator byte. */
  lemma SkippedCursor(data: string, pos: nat, now: int)
    requires EventAt(data, pos, true, now).0.Ok?
    ensures var (pre, p1) := PreambleAt(data, pos);
      pre.Ok? && pre.value.header >= 0 && pre.value.content >= 0 &&
      EventAt(data, pos, true, now).1 == p1 + pre.value.header + pre.value.content + 1
    ensures EventAt(data, pos, true, now).1 > pos
  {
  }

  /** The frame of `Event(id="e1", source="svc-a", tags=["x","y"],
      content="hello")` parses back to the same event and leaves the cursor
      at its end. */
  lemma ConcreteScenario(e: Event, now: int)
    requires e == Event(Some("e1"), Some("svc-a"), 17000000001234567, ["x", "y"], "hello")
    ensures EventAt(Serialize(e), 0, false, now).0 == Ok(e)
    ensures EventAt(Serialize(e), 0, false, now).1 == |Serialize(e)|
  {
    assert Serializable(e) by {
      assert Join(["x", "y"], ',') == "x,y";
    }
    EventRoundTripExact(e, now);
  }
}
