/**
 The comparator's `JsonReader`: a reader that walks the text itself, and finds a member of an
 object by skipping over the values before it.
 */
module Reader {
  import opened Results
  import opened Text
  import opened Literals
  import opened Containers
  import opened Trees

  datatype Span = Span(open: nat, close: nat)

  /** A span within the text, closed by a brace. */
  predicate Encloses(t: string, span: Span) {
    span.open < span.close < |t| && t[span.close] == '}'
  }

  /** The span of an object printed at `p`. */
  function SpanOf(p: nat, j: Json): Span
    requires j.Object?
  {
    Span(p, p + |Print(j)| - 1)
  }

  // ---------------------------------------------------------------- the scanners

  function ScalarEnd(t: string, cursor: nat): (r: nat)
    ensures cursor <= r
    ensures cursor <= |t| ==> r <= |t|
    decreases |t| - cursor
  {
    if cursor < |t| && !Ended(t, cursor) then ScalarEnd(t, cursor + 1) else cursor
  }

  method ScalarEndLoop(t: string, start: nat) returns (cursor: nat)
    ensures cursor == ScalarEnd(t, start)
  {
    cursor := start;
    while cursor < |t|
      invariant ScalarEnd(t, cursor) == ScalarEnd(t, start)
    {
      var current := t[cursor];
      if current == ',' || current == '}' || current == ']' || current == ' ' ||
         current == '\n' || current == '\r' || current == '\t' {
        break;
      }
      cursor := cursor + 1;
    }
  }

  /** The position one past the value at `position`. */
  function SkipValue(t: string, position: nat): (r: Result<nat>)
    ensures r.Ok? ==> position < r.value <= |t|
  {
    var start := SkipSpace(t, position);
    if start >= |t| then Fail(MissingValue)
    else if t[start] == '"' then
      var literal :- ParseString(t, start);
      Ok(literal.1)
    else if IsOpening(t[start]) then
      var close :- MatchingDelimiter(t, start);
      Ok(close + 1)
    else
      var end := ScalarEnd(t, start);
      if end == start then Fail(MissingValue) else Ok(end)
  }

  method SkipValueLoop(t: string, position: nat) returns (r: Result<nat>)
    ensures r == SkipValue(t, position)
  {
    var start := SkipSpaceLoop(t, position);
    if start >= |t| {
      return Fail(MissingValue);
    }
    if t[start] == '"' {
      var literal := ParseStringLoop(t, start);
      if literal.Fail? {
        return Fail(literal.error);
      }
      return Ok(literal.value.1);
    }
    if t[start] == '{' || t[start] == '[' {
      var close := MatchingDelimiterLoop(t, start);
      if close.Fail? {
        return Fail(close.error);
      }
      return Ok(close.value + 1);
    }
    var cursor := ScalarEndLoop(t, start);
    if cursor == start {
      return Fail(MissingValue);
    }
    return Ok(cursor);
  }

  function ObjectAt(t: string, position: nat): (r: Result<Span>)
    ensures r.Ok? ==> position <= r.value.open && Encloses(t, r.value)
  {
    var start := SkipSpace(t, position);
    if start >= |t| || t[start] != '{' then Fail(ExpectedObject)
    else
      var close :- MatchingDelimiter(t, start);
      Ok(Span(start, close))
  }

  function RootObject(t: string): (r: Result<Span>)
    ensures r.Ok? ==> Encloses(t, r.value)
  {
    var root :- ObjectAt(t, SkipSpace(t, 0));
    if SkipSpace(t, root.close + 1) != |t| then Fail(TrailingContent) else Ok(root)
  }

  /** What one member tells the search: its value, that it was the last, or where the next starts. */
  datatype Step = Found(value: nat) | Last | Next(position: nat)

  /** The end of the text counts as a null character, which is no comma. */
  function FindStep(t: string, close: nat, position: nat, wanted: string): (r: Result<Step>)
    requires position < close < |t| && t[close] == '}'
    ensures r.Ok? && r.value.Found? ==> position < r.value.value <= close
    ensures r.Ok? && r.value.Next? ==> position < r.value.position <= |t|
  {
    var (key, afterKey) :- ParseString(t, position);
    var colon := SkipSpace(t, afterKey);
    if colon >= close || t[colon] != ':' then Fail(ExpectedColon)
    else
      SkipStops(t, colon + 1, close);
      var value := SkipSpace(t, colon + 1);
      if key == wanted then Ok(Found(value))
      else
        var afterValue :- SkipValue(t, value);
        var comma := SkipSpace(t, afterValue);
        if comma == close then Ok(Last)
        else if comma >= |t| || t[comma] != ',' then Fail(ExpectedComma)
        else Ok(Next(SkipSpace(t, comma + 1)))
  }

  /** The search for a key among the members from `position` on, in an object closed at `close`. */
  function FindFrom(t: string, close: nat, position: nat, wanted: string): (r: Result<Option<nat>>)
    requires close < |t| && t[close] == '}'
    ensures r.Ok? && r.value.Some? ==> position < r.value.value <= close
    decreases |t| - position
  {
    if position >= close then Ok(None)
    else
      var step :- FindStep(t, close, position, wanted);
      match step
      case Found(value) => Ok(Some(value))
      case Last => Ok(None)
      case Next(next) => FindFrom(t, close, next, wanted)
  }

  /** A value found lies after the opening brace and no later than the closing one, on any text. */
  function Find(t: string, span: Span, wanted: string): (r: Result<Option<nat>>)
    requires Encloses(t, span)
    ensures r.Ok? && r.value.Some? ==> span.open < r.value.value <= span.close
  {
    FindFrom(t, span.close, SkipSpace(t, span.open + 1), wanted)
  }

  method FindLoop(t: string, span: Span, wanted: string) returns (r: Result<Option<nat>>)
    requires Encloses(t, span)
    ensures r == Find(t, span, wanted)
  {
    hide ParseString, SkipValue, SkipSpace, IsSpace;
    var position := SkipSpaceLoop(t, span.open + 1);
    ghost var first := position;
    while position < span.close
      invariant FindFrom(t, span.close, position, wanted) == FindFrom(t, span.close, first, wanted)
      decreases |t| - position
    {
      var parsed := ParseStringLoop(t, position);
      if parsed.Fail? {
        return Fail(parsed.error);
      }
      var (key, afterKey) := parsed.value;
      var colon := SkipSpaceLoop(t, afterKey);
      if colon >= span.close || t[colon] != ':' {
        return Fail(ExpectedColon);
      }
      var value := SkipSpaceLoop(t, colon + 1);
      if key == wanted {
        return Ok(Some(value));
      }
      var skipped := SkipValueLoop(t, value);
      if skipped.Fail? {
        return Fail(skipped.error);
      }
      var comma := SkipSpaceLoop(t, skipped.value);
      if comma == span.close {
        return Ok(None);
      }
      if comma >= |t| || t[comma] != ',' {
        return Fail(ExpectedComma);
      }
      position := SkipSpaceLoop(t, comma + 1);
    }
    return Ok(None);
  }

  function Required(t: string, span: Span, key: string): (r: Result<nat>)
    requires Encloses(t, span)
    ensures r.Ok? ==> span.open < r.value <= span.close
  {
    var value :- Find(t, span, key);
    if value.None? then Fail(MissingField) else Ok(value.value)
  }

  /** The text at `position`, after whitespace, begins with `word`. */
  predicate StartsWith(t: string, position: nat, word: string) {
    At(t, SkipSpace(t, position), word)
  }

  function StringValue(t: string, position: nat): Result<string> {
    var literal :- ParseString(t, SkipSpace(t, position));
    Ok(literal.0)
  }

  function BoolValue(t: string, position: nat): Result<bool> {
    if StartsWith(t, position, "true") then Ok(true)
    else if StartsWith(t, position, "false") then Ok(false)
    else Fail(ExpectedBoolean)
  }

  /** The characters that are handed to `strtod`. */
  function TokenValue(t: string, position: nat): Result<string> {
    var start := SkipSpace(t, position);
    var end :- SkipValue(t, start);
    Ok(t[start..end])
  }

  // ---------------------------------------------------------------- on printed trees

  lemma {:induction false} MatchPlain(t: string, p: nat, expected: seq<char>, w: string)
    requires expected != [] && At(t, p, w)
    requires forall k :: 0 <= k < |w| ==> w[k] != '"' && !IsOpening(w[k]) && !IsClosing(w[k])
    ensures MatchFrom(t, p, expected) == MatchFrom(t, p + |w|, expected)
    decreases |w|
  {
    if w != "" {
      assert t[p + 0] == w[0];
      assert [w[0]] + w[1..] == w;
      AtConcat(t, p, [w[0]], w[1..]);
      MatchPlain(t, p + 1, expected, w[1..]);
    }
  }

  lemma MatchTag(t: string, p: nat, expected: seq<char>, tag: Tag, keyed: bool)
    requires expected != [] && ValidTag(tag, keyed) && At(t, p, PrintTag(tag))
    ensures MatchFrom(t, p, expected) == MatchFrom(t, p + |PrintTag(tag)|, expected)
  {
    hide At, Quote, MatchFrom, ValidUnits;
    if tag.Key? {
      KeyParts(t, p, tag.us, tag.afterKey, tag.beforeValue);
      MatchLiteral(t, p, expected, tag.us);
      var q := p + |Quote(tag.us)|;
      MatchPlain(t, q, expected, tag.afterKey);
      AtOne(t, q + |tag.afterKey|, ':');
      MatchPlain(t, q + |tag.afterKey|, expected, [':']);
      MatchPlain(t, q + |tag.afterKey| + 1, expected, tag.beforeValue);
    }
  }

  /** Balanced text is skipped whole: every printed value, and every list of entries. */
  lemma {:induction false} MatchJson(t: string, p: nat, expected: seq<char>, j: Json)
    requires expected != [] && ValidJson(j) && At(t, p, Print(j))
    ensures MatchFrom(t, p, expected) == MatchFrom(t, p + |Print(j)|, expected)
    decreases j, 0
  {
    match j
    case Scalar(token) =>
      MatchPlain(t, p, expected, token);
    case Str(us) =>
      MatchLiteral(t, p, expected, us);
    case _ =>
      ContainerParts(t, p, j);
      MatchInside(t, p, expected + [ClosingOf(t[p])], j);
      MatchOpened(t, p, expected, j);
  }

  /** From inside a printed container, whatever is owed, the scan reaches its end. */
  lemma {:induction false} MatchInside(t: string, p: nat, owed: seq<char>, j: Json)
    requires (j.Object? || j.Array?) && ValidJson(j) && At(t, p, Print(j)) && owed != []
    ensures MatchFrom(t, p + 1, owed) == MatchFrom(t, p + |Print(j)| - 1, owed)
    decreases j.entries, 2
  {
    hide At, Print, PrintEntries, MatchFrom;
    ContainerParts(t, p, j);
    MatchPlain(t, p + 1, owed, j.pad);
    MatchEntries(t, p + 1 + |j.pad|, owed, j.entries, j.Object?);
  }

  lemma MatchOpened(t: string, p: nat, expected: seq<char>, j: Json)
    requires (j.Object? || j.Array?) && expected != [] && At(t, p, Print(j)) && p < |t|
    requires var owed := expected + [ClosingOf(t[p])];
      MatchFrom(t, p + 1, owed) == MatchFrom(t, p + |Print(j)| - 1, owed)
    ensures MatchFrom(t, p, expected) == MatchFrom(t, p + |Print(j)|, expected)
  {
    hide At, Print, PrintEntries;
    ContainerParts(t, p, j);
    var owed := expected + [ClosingOf(t[p])];
    assert owed[..|expected|] == expected;
  }

  lemma {:induction false} MatchEntries(t: string, p: nat, expected: seq<char>, es: Entries, keyed: bool)
    requires expected != [] && ValidEntries(es, keyed) && At(t, p, PrintEntries(es))
    ensures MatchFrom(t, p, expected) == MatchFrom(t, p + |PrintEntries(es)|, expected)
    decreases es, 1
  {
    hide At, Print, PrintTag, PrintRest, MatchFrom, ValidJson, ValidTag;
    if es.Entry? {
      EntryParts(t, p, es);
      MatchTag(t, p, expected, es.tag, keyed);
      MatchJson(t, ValuePos(p, es), expected, es.value);
      MatchPlain(t, ValuePos(p, es) + |Print(es.value)|, expected, es.after);
      if es.rest.Entry? {
        var comma := CommaPos(p, es);
        RestParts(t, comma, es.gap, es.rest);
        AtOne(t, comma, ',');
        MatchPlain(t, comma, expected, [',']);
        MatchPlain(t, comma + 1, expected, es.gap);
        MatchEntries(t, RestPos(p, es), expected, es.rest, keyed);
      }
    }
  }

  /** A printed container matches as a whole, whatever comes after it. */
  lemma MatchWhole(t: string, p: nat, j: Json)
    requires (j.Object? || j.Array?) && ValidJson(j) && At(t, p, Print(j))
    ensures p < |t| && MatchingDelimiter(t, p) == Ok(p + |Print(j)| - 1)
  {
    hide At, Print, PrintEntries, ValidJson;
    ContainerParts(t, p, j);
    MatchInside(t, p, [ClosingOf(t[p])], j);
  }

  lemma {:induction false} ScalarSpan(t: string, p: nat, w: string)
    requires At(t, p, w) && Ended(t, p + |w|)
    requires forall k :: 0 <= k < |w| ==> IsTokenChar(w[k])
    ensures ScalarEnd(t, p) == p + |w|
    decreases |w|
  {
    if w != "" {
      assert t[p + 0] == w[0];
      assert [w[0]] + w[1..] == w;
      AtConcat(t, p, [w[0]], w[1..]);
      ScalarSpan(t, p + 1, w[1..]);
    }
  }

  /** `skip_value` ends exactly one past every printed value. */
  lemma SkipValueExact(t: string, p: nat, j: Json)
    requires ValidJson(j) && At(t, p, Print(j)) && Ended(t, p + |Print(j)|)
    ensures SkipSpace(t, p) == p && SkipValue(t, p) == Ok(p + |Print(j)|)
  {
    hide At, MatchFrom, ParseFrom, Quote, ValidUnits, PrintEntries, ValidEntries;
    FirstChar(t, p, j);
    match j
    case Scalar(token) =>
      ScalarSpan(t, p, token);
    case Str(us) =>
      ParseQuoted(t, p, us);
    case _ =>
      MatchWhole(t, p, j);
  }

  lemma PrintedWithin(t: string, p: nat, w: string)
    requires At(t, p, w)
    ensures p + |w| <= |t|
  {
  }

  /** A list of members starts with a quote. */
  lemma KeyFirst(t: string, p: nat, es: Entries)
    requires es.Entry? && ValidEntries(es, true) && At(t, p, PrintEntries(es))
    ensures p < |t| && t[p] == '"' && |PrintEntries(es)| > 0
  {
    hide At, Print, PrintTag, PrintRest, ValidJson, Quote;
    EntryParts(t, p, es);
    KeyParts(t, p, es.tag.us, es.tag.afterKey, es.tag.beforeValue);
    QuoteParts(t, p, es.tag.us);
  }

  /** One key is read, and its value reached. */
  lemma FindKey(t: string, p: nat, es: Entries)
    requires es.Entry? && ValidEntries(es, true) && At(t, p, PrintEntries(es))
    ensures ParseString(t, p) == Ok((Decode(es.tag.us), p + |Quote(es.tag.us)|))
    ensures var colon := SkipSpace(t, p + |Quote(es.tag.us)|);
            && colon < p + |PrintEntries(es)| <= |t|
            && t[colon] == ':'
            && SkipSpace(t, colon + 1) == ValuePos(p, es)
  {
    hide At, Print, PrintTag, PrintRest, ValidJson, Decode, ParseString, Quote, ValidUnits, PrintEntries;
    EntryParts(t, p, es);
    var tag := es.tag;
    KeyParts(t, p, tag.us, tag.afterKey, tag.beforeValue);
    ParseQuoted(t, p, tag.us);
    SkipPad(t, p + |Quote(tag.us)|, tag.afterKey);
    FirstChar(t, ValuePos(p, es), es.value);
    SkipPad(t, p + |Quote(tag.us)| + |tag.afterKey| + 1, tag.beforeValue);
    PrintedWithin(t, p, PrintEntries(es));
  }

  /** A value is skipped, and the comma after it, as far as the next member. */
  lemma SkipMember(t: string, p: nat, es: Entries)
    requires es.Entry? && ValidEntries(es, true) && At(t, p, PrintEntries(es))
    requires p + |PrintEntries(es)| < |t| && t[p + |PrintEntries(es)|] == '}'
    ensures SkipValue(t, ValuePos(p, es)) == Ok(ValuePos(p, es) + |Print(es.value)|)
    ensures SkipSpace(t, ValuePos(p, es) + |Print(es.value)|) == CommaPos(p, es)
    ensures es.rest.End? ==> CommaPos(p, es) == p + |PrintEntries(es)|
    ensures es.rest.Entry? ==>
      && CommaPos(p, es) < p + |PrintEntries(es)|
      && t[CommaPos(p, es)] == ','
      && SkipSpace(t, CommaPos(p, es) + 1) == RestPos(p, es)
  {
    hide At, Print, PrintTag, PrintRest, PrintEntries, ValidJson, SkipValue, SkipSpace, AllSpace;
    EntryParts(t, p, es);
    ValueEnded(t, p, es, true);
    if es.rest.Entry? {
      RestParts(t, CommaPos(p, es), es.gap, es.rest);
      KeyFirst(t, RestPos(p, es), es.rest);
      SkipPad(t, CommaPos(p, es) + 1, es.gap);
    }
    SkipValueExact(t, ValuePos(p, es), es.value);
  }

  /** The search stops at a printed member, or goes on to the next one. */
  lemma FindEntry(t: string, p: nat, es: Entries, wanted: string)
    requires es.Entry? && ValidEntries(es, true) && At(t, p, PrintEntries(es))
    requires p + |PrintEntries(es)| < |t| && t[p + |PrintEntries(es)|] == '}'
    ensures p < p + |PrintEntries(es)|
    ensures FindStep(t, p + |PrintEntries(es)|, p, wanted) == Ok(
      if Decode(es.tag.us) == wanted then Found(ValuePos(p, es))
      else if es.rest.End? then Last
      else Next(RestPos(p, es)))
  {
    hide At, Print, PrintTag, PrintRest, PrintEntries, ValidJson, Decode, ParseString, SkipValue, SkipSpace, AllSpace,
         Ended;
    KeyFirst(t, p, es);
    FindKey(t, p, es);
    SkipMember(t, p, es);
  }

  /** The member search, on printed members, is the lookup in the tree. */
  lemma {:induction false} FindEntries(t: string, p: nat, es: Entries, wanted: string)
    requires ValidEntries(es, true) && At(t, p, PrintEntries(es))
    requires p + |PrintEntries(es)| < |t| && t[p + |PrintEntries(es)|] == '}'
    ensures FindFrom(t, p + |PrintEntries(es)|, p, wanted) == Ok(Lookup(es, p, wanted))
    decreases es
  {
    hide At, Print, PrintTag, PrintRest, PrintEntries, ValidJson, Decode, FindStep;
    if es.End? {
      NoEntries(t);
    } else {
      FindEntry(t, p, es, wanted);
      EntryParts(t, p, es);
      if es.rest.Entry? {
        RestParts(t, CommaPos(p, es), es.gap, es.rest);
        FindEntries(t, RestPos(p, es), es.rest, wanted);
      }
    }
  }

  /**
   Lookup round trip: in any text, at any position, the object printed there is taken as a whole,
   and the first member with the wanted decoded key is found, or none when there is none.
   */
  lemma FindExact(t: string, p: nat, j: Json, wanted: string)
    requires j.Object? && ValidJson(j) && At(t, p, Print(j))
    ensures ObjectAt(t, p) == Ok(SpanOf(p, j)) && Encloses(t, SpanOf(p, j))
    ensures Find(t, SpanOf(p, j), wanted) == Ok(Lookup(j.entries, p + 1 + |j.pad|, wanted))
  {
    hide At, PrintEntries, ValidEntries, MatchFrom, FindFrom, Lookup;
    MatchWhole(t, p, j);
    ContainerParts(t, p, j);
    FirstChar(t, p, j);
    if j.entries.Entry? {
      KeyFirst(t, p + 1 + |j.pad|, j.entries);
    } else {
      NoEntries(t);
    }
    SkipPad(t, p + 1, j.pad);
    FindEntries(t, p + 1 + |j.pad|, j.entries, wanted);
  }

  lemma NoEntries(t: string)
    ensures |PrintEntries(End)| == 0
  {
  }

  /** `object_at(required(...))` along a path of keys, and the value the last key leads to. */
  function Descend(t: string, span: Span, path: seq<string>): Result<nat>
    requires Encloses(t, span) && path != []
    decreases |path|
  {
    var value :- Required(t, span, path[0]);
    if |path| == 1 then Ok(value)
    else
      var inner :- ObjectAt(t, value);
      Descend(t, inner, path[1..])
  }

  /** The same walk in the tree of an object printed at `p`. */
  function TreePath(j: Json, p: nat, path: seq<string>): Result<nat>
    requires j.Object? && path != []
    decreases |path|
  {
    var first := p + 1 + |j.pad|;
    if Lookup(j.entries, first, path[0]).None? || Select(j.entries, path[0]).None? then Fail(MissingField)
    else
      var value, sub := Lookup(j.entries, first, path[0]).value, Select(j.entries, path[0]).value;
      if |path| == 1 then Ok(value)
      else if !sub.Object? then Fail(ExpectedObject)
      else TreePath(sub, value, path[1..])
  }

  /** The value of a member stands, printed and ended, where the lookup says. */
  lemma MemberStands(t: string, p: nat, j: Json, wanted: string)
    requires j.Object? && ValidJson(j) && At(t, p, Print(j))
    ensures var v, sub := Lookup(j.entries, p + 1 + |j.pad|, wanted), Select(j.entries, wanted);
      && v.Some? == sub.Some?
      && (v.Some? ==> Stands(t, v.value, sub.value))
  {
    hide At, PrintEntries, ValidEntries, Lookup, Select;
    ContainerParts(t, p, j);
    LookupStands(t, p + 1 + |j.pad|, j.entries, true, wanted);
  }

  /** Lookup round trip at every depth: walking the text is walking the tree. */
  lemma {:induction false} DescendExact(t: string, p: nat, j: Json, path: seq<string>)
    requires j.Object? && ValidJson(j) && At(t, p, Print(j)) && path != []
    ensures Encloses(t, SpanOf(p, j))
    ensures Descend(t, SpanOf(p, j), path) == TreePath(j, p, path)
    decreases |path|
  {
    hide At, Print, ValidJson, Lookup, Select, Find;
    PrintedWithin(t, p, Print(j));
    FindExact(t, p, j, path[0]);
    MemberStands(t, p, j, path[0]);
    var v, sub := Lookup(j.entries, p + 1 + |j.pad|, path[0]), Select(j.entries, path[0]);
    if v.Some? && |path| > 1 {
      ObjectOrNot(t, v.value, sub.value);
      if sub.value.Object? {
        DescendExact(t, v.value, sub.value, path[1..]);
      }
    }
  }

  /** `object_at` on a printed value takes an object whole and refuses anything else. */
  lemma ObjectOrNot(t: string, p: nat, j: Json)
    requires ValidJson(j) && At(t, p, Print(j))
    ensures ObjectAt(t, p) == if j.Object? then Ok(SpanOf(p, j)) else Fail(ExpectedObject)
  {
    hide At, Print, ValidJson, Find, MatchingDelimiter;
    FirstChar(t, p, j);
    if j.Object? {
      FindExact(t, p, j, "");
    }
  }

  /**
   A document that starts with a printed object is taken as that object if nothing but whitespace comes
   after it, and refused for its trailing content otherwise.
   */
  lemma RootDecides(before: string, j: Json, after: string)
    requires j.Object? && ValidJson(j) && AllSpace(before)
    ensures RootObject(before + Print(j) + after) ==
      if AllSpace(after) then Ok(SpanOf(|before|, j)) else Fail(TrailingContent)
  {
    var t := before + Print(j) + after;
    AtConcat(t, 0, before + Print(j), after);
    AtConcat(t, 0, before, Print(j));
    RootAt(t, before, j, after);
  }

  /** Skipping reaches the end of the text exactly if only whitespace is left. */
  lemma {:induction false} SkipToEnd(t: string, p: nat, pad: string)
    requires At(t, p, pad) && p + |pad| == |t|
    ensures SkipSpace(t, p) == |t| <==> AllSpace(pad)
    decreases |pad|
  {
    if pad != "" {
      assert t[p + 0] == pad[0];
      assert [pad[0]] + pad[1..] == pad;
      AtConcat(t, p, [pad[0]], pad[1..]);
      SkipToEnd(t, p + 1, pad[1..]);
      SpaceSplit(pad);
    }
  }

  lemma SpaceSplit(pad: string)
    requires pad != ""
    ensures AllSpace(pad) <==> IsSpace(pad[0]) && AllSpace(pad[1..])
  {
    assert forall k :: 1 <= k < |pad| ==> pad[k] == pad[1..][k - 1];
  }

  /** A document with whitespace around its root object is taken as that object. */
  lemma RootExact(before: string, j: Json, after: string)
    requires j.Object? && ValidJson(j) && AllSpace(before) && AllSpace(after)
    ensures RootObject(before + Print(j) + after) == Ok(SpanOf(|before|, j))
  {
    RootDecides(before, j, after);
  }

  lemma RootAt(t: string, before: string, j: Json, after: string)
    requires j.Object? && ValidJson(j) && AllSpace(before)
    requires At(t, 0, before) && At(t, |before|, Print(j)) && At(t, |before| + |Print(j)|, after)
    requires |t| == |before| + |Print(j)| + |after|
    ensures RootObject(t) == if AllSpace(after) then Ok(SpanOf(|before|, j)) else Fail(TrailingContent)
  {
    hide At, Print, ValidJson, Find, AllSpace;
    FirstChar(t, |before|, j);
    SkipPad(t, 0, before);
    FindExact(t, |before|, j, "");
    SkipToEnd(t, |before| + |Print(j)|, after);
  }
}
