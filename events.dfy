/** The event record and the subscriber-side filter over it
    (`Event.__init__`, `Event.match` and `_match` in theia/model.py). */
module Events {
  import opened Wrappers
  import opened Text

  /** An event as it stands after construction. `id` and `source` may be
      `None` (a parsed header may lack them); timestamp, tags and content are
      always present once the constructor has filled in their defaults. */
  datatype Event = Event(
    id: Option<string>,
    source: Option<string>,
    timestamp: int,
    tags: seq<string>,
    content: string)

  /** `Event(id, source, timestamp, tags, content)`. Each default follows
      Python's `x or default`: a missing or zero timestamp becomes the clock
      reading `now` (the source calls `time()`), missing or empty tags become
      `[]`, missing content becomes `''`. */
  function NewEvent(id: Option<string>, source: Option<string>, timestamp: Option<int>,
                    tags: Option<seq<string>>, content: Option<string>, now: int): (e: Event)
    ensures e.id == id && e.source == source
    ensures timestamp.Some? && timestamp.value != 0 ==> e.timestamp == timestamp.value
    ensures timestamp.None? || timestamp.value == 0 ==> e.timestamp == now
    ensures tags.Some? ==> e.tags == tags.value
    ensures tags.None? ==> e.tags == []
    ensures content.Some? ==> e.content == content.value
    ensures content.None? ==> e.content == []
  {
    Event(id, source,
          match timestamp { case Some(t) => if t != 0 then t else now case None => now },
          match tags { case Some(ts) => ts case None => [] },
          match content { case Some(c) => c case None => [] })
  }

  /** The optional criteria of `Event.match`; `None` means "no constraint". */
  datatype Criteria = Criteria(
    id: Option<string>,
    source: Option<string>,
    start: Option<int>,
    end: Option<int>,
    content: Option<string>,
    tags: Option<seq<string>>)

  const NoCriteria := Criteria(None, None, None, None, None, None)

  /** `_match(pattern, value)`. `re.match` anchors only at the start of the
      value; the pattern is read as literal text, so it matches exactly the
      values it is a prefix of. A missing value never matches. */
  predicate PatternMatches(pattern: string, value: Option<string>) {
    value.Some? && StartsWith(value.value, pattern)
  }

  /** The `has_tag` loop: some wanted tag is among the event's tags. */
  function HasAnyTag(wanted: seq<string>, tags: seq<string>): (r: bool)
    ensures r <==> exists i :: 0 <= i < |wanted| && wanted[i] in tags
  {
    if wanted == [] then false
    else if wanted[0] in tags then true
    else
      var r := HasAnyTag(wanted[1..], tags);
      assert forall i :: 1 <= i < |wanted| ==> wanted[i] == wanted[1..][i - 1];
      r
  }

  /** `event.match(...)`, step by step as the source computes its `matches`
      flag: each check runs only while every earlier one has passed. */
  function Match(e: Event, q: Criteria): (r: bool)
    ensures r <==> IdCriterion(e, q) && SourceCriterion(e, q) && TimeCriterion(e, q)
                   && ContentCriterion(e, q) && TagCriterion(e, q)
  {
    var m1 := if q.id.Some? then PatternMatches(q.id.value, e.id) else true;
    var m2 := if m1 && q.source.Some? then PatternMatches(q.source.value, e.source) else m1;
    var m3 :=
      if m2 && e.timestamp != 0 then
        var afterStart := if q.start.Some? then e.timestamp >= q.start.value else m2;
        if afterStart && q.end.Some? then e.timestamp <= q.end.value else afterStart
      else m2;
    var m4 := if m3 && q.content.Some? then PatternMatches(q.content.value, Some(e.content)) else m3;
    if m4 && |e.tags| != 0 && q.tags.Some? && |q.tags.value| != 0 then HasAnyTag(q.tags.value, e.tags) else m4
  }

  /* The criteria one at a time. */

  predicate IdCriterion(e: Event, q: Criteria) {
    q.id.Some? ==> e.id.Some? && StartsWith(e.id.value, q.id.value)
  }

  predicate SourceCriterion(e: Event, q: Criteria) {
    q.source.Some? ==> e.source.Some? && StartsWith(e.source.value, q.source.value)
  }

  /** Inclusive bounds, checked only for a non-zero timestamp. */
  predicate TimeCriterion(e: Event, q: Criteria) {
    e.timestamp != 0 ==>
      (q.start.Some? ==> q.start.value <= e.timestamp) &&
      (q.end.Some? ==> e.timestamp <= q.end.value)
  }

  predicate ContentCriterion(e: Event, q: Criteria) {
    q.content.Some? ==> StartsWith(e.content, q.content.value)
  }

  /** Some wanted tag is present, checked only when both lists are non-empty. */
  predicate TagCriterion(e: Event, q: Criteria) {
    e.tags != [] && q.tags.Some? && q.tags.value != [] ==>
      exists t :: t in q.tags.value && t in e.tags
  }

  /** No criteria: every event matches. */
  lemma MatchNoCriteria(e: Event)
    ensures Match(e, NoCriteria)
  {
  }

  /** A pattern on an absent id or source never matches. */
  lemma MatchMissingField(e: Event, q: Criteria)
    requires (q.id.Some? && e.id.None?) || (q.source.Some? && e.source.None?)
    ensures !Match(e, q)
  {
  }

  /** Zero timestamp: the time range is ignored whatever its bounds. */
  lemma MatchZeroTimestamp(e: Event, q: Criteria)
    requires e.timestamp == 0
    ensures Match(e, q) == Match(e, q.(start := None, end := None))
  {
  }

  /** No tags on the event: the tag criterion is ignored whatever it holds. */
  lemma MatchUntagged(e: Event, q: Criteria)
    requires e.tags == []
    ensures Match(e, q) == Match(e, q.(tags := None))
  {
  }

  /** Otherwise the tag criterion passes exactly when some wanted tag is one
      of the event's. */
  lemma MatchTags(e: Event, wanted: seq<string>)
    requires e.tags != [] && wanted != []
    ensures Match(e, NoCriteria.(tags := Some(wanted))) <==> exists t :: t in wanted && t in e.tags
  {
  }

  /** Adding a criterion can only narrow the set of matching events. */
  lemma MatchNarrowing(e: Event, q: Criteria)
    requires Match(e, q)
    ensures Match(e, q.(id := None)) && Match(e, q.(source := None))
    ensures Match(e, q.(start := None)) && Match(e, q.(end := None))
    ensures Match(e, q.(content := None)) && Match(e, q.(tags := None))
  {
  }

  /** `Event(id="abc123", ...).match(id="abc")` holds, `match(id="xyz")` does not. */
  lemma MatchPrefixScenario(e: Event)
    requires e.id == Some("abc123")
    ensures Match(e, NoCriteria.(id := Some("abc")))
    ensures !Match(e, NoCriteria.(id := Some("xyz")))
  {
    assert "abc123"[..3] == "abc";
    assert "abc123"[..3] != "xyz";
  }
}
