/**
 Bracketed containers (RFC 8259, sections 4 and 5): the comparator's bracket stack and the
 exporter's brace counter, against a grammar of balanced text with opaque string literals.
 */
module Containers {
  import opened Results
  import opened Text
  import opened Literals

  predicate IsOpening(c: char) {
    c == '{' || c == '['
  }

  predicate IsClosing(c: char) {
    c == '}' || c == ']'
  }

  function ClosingOf(c: char): char {
    if c == '{' then '}' else ']'
  }

  // ---------------------------------------------------------------- the grammar

  /** What may stand between two matching delimiters. */
  datatype Content =
    | Done
    | Plain(c: char, rest: Content)
    | Literal(us: seq<Unit>, rest: Content)
    | Nested(opening: char, inner: Content, rest: Content)

  predicate ValidContent(d: Content) {
    match d
    case Done => true
    case Plain(c, rest) => c != '"' && !IsOpening(c) && !IsClosing(c) && ValidContent(rest)
    case Literal(us, rest) => ValidUnits(us) && ValidContent(rest)
    case Nested(opening, inner, rest) => IsOpening(opening) && ValidContent(inner) && ValidContent(rest)
  }

  function Flatten(d: Content): string {
    match d
    case Done => ""
    case Plain(c, rest) => [c] + Flatten(rest)
    case Literal(us, rest) => Quote(us) + Flatten(rest)
    case Nested(opening, inner, rest) => [opening] + Flatten(inner) + [ClosingOf(opening)] + Flatten(rest)
  }

  /** `t[p..c]`, both ends included, is a container whose inside is balanced. */
  ghost predicate IsContainer(t: string, p: nat, c: nat) {
    exists d :: ContainerOf(t, p, c, d)
  }

  ghost predicate ContainerOf(t: string, p: nat, c: nat, d: Content) {
    && ValidContent(d)
    && c == p + 1 + |Flatten(d)| < |t|
    && IsOpening(t[p])
    && At(t, p + 1, Flatten(d))
    && t[c] == ClosingOf(t[p])
  }

  // ---------------------------------------------------------------- the comparator's stack

  /** The scan from `cursor` on, the delimiters still owed with the innermost last. */
  function MatchFrom(t: string, cursor: nat, expected: seq<char>): (r: Result<nat>)
    requires expected != []
    ensures r.Ok? ==> cursor <= r.value < |t| && t[r.value] == expected[0]
    decreases |t| - cursor
  {
    if cursor >= |t| then Fail(UnterminatedContainer)
    else if t[cursor] == '"' then
      var literal :- ParseString(t, cursor);
      MatchFrom(t, literal.1, expected)
    else if IsOpening(t[cursor]) then MatchFrom(t, cursor + 1, expected + [ClosingOf(t[cursor])])
    else if IsClosing(t[cursor]) then
      var last := |expected| - 1;
      if t[cursor] != expected[last] then Fail(MismatchedDelimiter)
      else if last == 0 then Ok(cursor)
      else MatchFrom(t, cursor + 1, expected[..last])
    else MatchFrom(t, cursor + 1, expected)
  }

  /** The position of the delimiter that matches the one at `position`. */
  function MatchingDelimiter(t: string, position: nat): (r: Result<nat>)
    requires position < |t|
    ensures r.Ok? ==> position < r.value < |t| && t[r.value] == ClosingOf(t[position])
  {
    if !IsOpening(t[position]) then Fail(ExpectedContainer)
    else MatchFrom(t, position + 1, [ClosingOf(t[position])])
  }

  method MatchingDelimiterLoop(t: string, position: nat) returns (r: Result<nat>)
    requires position < |t|
    ensures r == MatchingDelimiter(t, position)
  {
    var opening := t[position];
    if opening != '{' && opening != '[' {
      return Fail(ExpectedContainer);
    }
    var expected := [if opening == '{' then '}' else ']'];
    var cursor := position + 1;
    while cursor < |t|
      invariant expected != []
      invariant MatchFrom(t, cursor, expected) == MatchFrom(t, position + 1, [ClosingOf(opening)])
    {
      if t[cursor] == '"' {
        var literal := ParseStringLoop(t, cursor);
        if literal.Fail? {
          return Fail(literal.error);
        }
        cursor := literal.value.1;
        continue;
      }
      if t[cursor] == '{' {
        expected := expected + ['}'];
      } else if t[cursor] == '[' {
        expected := expected + [']'];
      } else if t[cursor] == '}' || t[cursor] == ']' {
        if t[cursor] != expected[|expected| - 1] {
          return Fail(MismatchedDelimiter);
        }
        if |expected| == 1 {
          return Ok(cursor);
        }
        expected := expected[..|expected| - 1];
      }
      cursor := cursor + 1;
    }
    return Fail(UnterminatedContainer);
  }

  /** Balanced content is passed over without disturbing the stack. */
  lemma {:induction false} MatchSkips(t: string, cursor: nat, expected: seq<char>, d: Content)
    requires expected != [] && ValidContent(d) && At(t, cursor, Flatten(d))
    ensures MatchFrom(t, cursor, expected) == MatchFrom(t, cursor + |Flatten(d)|, expected)
    decreases d
  {
    hide At, Quote, ValidUnits;
    match d
    case Done =>
      assert |Flatten(d)| == 0;
    case Plain(c, rest) =>
      AtConcat(t, cursor, [c], Flatten(rest));
      AtOne(t, cursor, c);
      MatchSkips(t, cursor + 1, expected, rest);
    case Literal(us, rest) =>
      AtConcat(t, cursor, Quote(us), Flatten(rest));
      MatchLiteral(t, cursor, expected, us);
      MatchSkips(t, cursor + |Quote(us)|, expected, rest);
    case Nested(opening, inner, rest) =>
      NestedParts(t, cursor, opening, inner, rest);
      var close := cursor + 1 + |Flatten(inner)|;
      MatchSkips(t, cursor + 1, expected + [ClosingOf(opening)], inner);
      assert (expected + [ClosingOf(opening)])[..|expected|] == expected;
      MatchSkips(t, close + 1, expected, rest);
  }

  lemma MatchLiteral(t: string, cursor: nat, expected: seq<char>, us: seq<Unit>)
    requires expected != [] && ValidUnits(us) && At(t, cursor, Quote(us))
    ensures MatchFrom(t, cursor, expected) == MatchFrom(t, cursor + |Quote(us)|, expected)
  {
    hide At, Quote, Decode, ValidUnits, ParseString;
    QuoteParts(t, cursor, us);
    ParseQuoted(t, cursor, us);
  }

  lemma NestedParts(t: string, cursor: nat, opening: char, inner: Content, rest: Content)
    ensures At(t, cursor, Flatten(Nested(opening, inner, rest)))
       <==> var close := cursor + 1 + |Flatten(inner)|;
            && close < |t|
            && t[cursor] == opening
            && At(t, cursor + 1, Flatten(inner))
            && t[close] == ClosingOf(opening)
            && At(t, close + 1, Flatten(rest))
  {
    var head, tail := [opening] + Flatten(inner), [ClosingOf(opening)];
    AtConcat(t, cursor, head + tail, Flatten(rest));
    AtConcat(t, cursor, head, tail);
    AtConcat(t, cursor, [opening], Flatten(inner));
    AtOne(t, cursor, opening);
    AtOne(t, cursor + |head|, ClosingOf(opening));
  }

  /** A successful scan has passed over balanced content as far as the delimiter owed first. */
  lemma {:induction false} MatchSound(t: string, cursor: nat, expected: seq<char>) returns (d: Content)
    requires expected != [] && MatchFrom(t, cursor, expected).Ok?
    ensures var e := cursor + |Flatten(d)|;
      && ValidContent(d) && At(t, cursor, Flatten(d))
      && e < |t| && t[e] == expected[|expected| - 1]
      && MatchFrom(t, cursor, expected) == MatchFrom(t, e, expected)
    decreases |t| - cursor
  {
    hide At, Quote, ValidUnits, Decode, DecodeLossy, ParseString, StringEnd, StringAt;
    if t[cursor] == '"' {
      var us := StringEndRefines(t, cursor);
      var rest := MatchSound(t, cursor + |Quote(us)|, expected);
      AtConcat(t, cursor, Quote(us), Flatten(rest));
      d := Literal(us, rest);
    } else if IsOpening(t[cursor]) {
      var pushed := expected + [ClosingOf(t[cursor])];
      assert pushed[..|expected|] == expected;
      var inner := MatchSound(t, cursor + 1, pushed);
      var rest := MatchSound(t, cursor + 1 + |Flatten(inner)| + 1, expected);
      NestedParts(t, cursor, t[cursor], inner, rest);
      d := Nested(t[cursor], inner, rest);
    } else if IsClosing(t[cursor]) {
      AtNothing(t, cursor);
      d := Done;
    } else {
      var rest := MatchSound(t, cursor + 1, expected);
      AtOne(t, cursor, t[cursor]);
      AtConcat(t, cursor, [t[cursor]], Flatten(rest));
      d := Plain(t[cursor], rest);
    }
  }

  /** `matching_delimiter` finds exactly the balanced containers of the grammar. */
  lemma MatchingDelimiterExact(t: string, p: nat, c: nat)
    requires p < |t|
    ensures MatchingDelimiter(t, p) == Ok(c) <==> IsContainer(t, p, c)
  {
    if MatchingDelimiter(t, p) == Ok(c) {
      var d := MatchSound(t, p + 1, [ClosingOf(t[p])]);
      assert ContainerOf(t, p, c, d);
    }
    if d :| ContainerOf(t, p, c, d) {
      MatchSkips(t, p + 1, [ClosingOf(t[p])], d);
    }
  }

  /** No text starts two containers at one position, and an error means that it starts none. */
  lemma ContainerUnique(t: string, p: nat)
    requires p < |t|
    ensures forall c1, c2 :: IsContainer(t, p, c1) && IsContainer(t, p, c2) ==> c1 == c2
    ensures MatchingDelimiter(t, p).Fail? <==> !exists c: nat :: IsContainer(t, p, c)
  {
    forall c: nat
      ensures MatchingDelimiter(t, p) == Ok(c) <==> IsContainer(t, p, c)
    {
      MatchingDelimiterExact(t, p, c);
    }
    if MatchingDelimiter(t, p).Ok? {
      assert IsContainer(t, p, MatchingDelimiter(t, p).value);
    }
  }

  // ---------------------------------------------------------------- the exporter's counter

  function BraceFrom(t: string, cursor: nat, depth: nat): (r: Result<nat>)
    requires depth > 0
    ensures r.Ok? ==> cursor <= r.value < |t| && t[r.value] == '}'
    decreases |t| - cursor
  {
    if cursor >= |t| then Fail(UnterminatedContainer)
    else if t[cursor] == '"' then
      var end :- StringEnd(t, cursor);
      BraceFrom(t, end + 1, depth)
    else if t[cursor] == '{' then BraceFrom(t, cursor + 1, depth + 1)
    else if t[cursor] == '}' then
      if depth == 1 then Ok(cursor) else BraceFrom(t, cursor + 1, depth - 1)
    else BraceFrom(t, cursor + 1, depth)
  }

  function MatchingContainer(t: string, position: nat): (r: Result<nat>)
    ensures r.Ok? ==> position < r.value < |t| && t[r.value] == '}'
  {
    if position >= |t| || t[position] != '{' then Fail(ExpectedObject)
    else BraceFrom(t, position + 1, 1)
  }

  method MatchingContainerLoop(t: string, position: nat) returns (r: Result<nat>)
    ensures r == MatchingContainer(t, position)
  {
    if position >= |t| || t[position] != '{' {
      return Fail(ExpectedObject);
    }
    var depth := 1;
    var cursor := position + 1;
    while cursor < |t|
      invariant depth > 0
      invariant BraceFrom(t, cursor, depth) == BraceFrom(t, position + 1, 1)
    {
      if t[cursor] == '"' {
        var end := StringEndLoop(t, cursor);
        if end.Fail? {
          return Fail(end.error);
        }
        cursor := end.value;
      } else if t[cursor] == '{' {
        depth := depth + 1;
      } else if t[cursor] == '}' {
        depth := depth - 1;
        if depth == 0 {
          return Ok(cursor);
        }
      }
      cursor := cursor + 1;
    }
    return Fail(UnterminatedContainer);
  }

  function Braces(expected: seq<char>): (n: nat)
    ensures n <= |expected|
    ensures expected != [] && expected[0] == '}' ==> n > 0
  {
    if expected == [] then 0
    else
      var last := |expected| - 1;
      Braces(expected[..last]) + if expected[last] == '}' then 1 else 0
  }

  /** The exporter's depth is the number of braces on the comparator's stack. */
  lemma {:induction false} BraceRefines(t: string, cursor: nat, expected: seq<char>)
    requires expected != [] && expected[0] == '}'
    requires forall k :: 0 <= k < |expected| ==> IsClosing(expected[k])
    requires MatchFrom(t, cursor, expected).Ok?
    ensures BraceFrom(t, cursor, Braces(expected)) == MatchFrom(t, cursor, expected)
    decreases |t| - cursor
  {
    hide At, Quote, ValidUnits, Decode, DecodeLossy, ParseString, StringEnd, StringAt;
    var last := |expected| - 1;
    if t[cursor] == '"' {
      var us := StringEndRefines(t, cursor);
      BraceRefines(t, cursor + |Quote(us)|, expected);
    } else if IsOpening(t[cursor]) {
      var pushed := expected + [ClosingOf(t[cursor])];
      assert pushed[..|expected|] == expected;
      BraceRefines(t, cursor + 1, pushed);
    } else if IsClosing(t[cursor]) {
      if last == 0 {
        assert expected[..last] == [];
        assert Braces(expected) == 1;
      } else {
        BraceRefines(t, cursor + 1, expected[..last]);
      }
    } else {
      BraceRefines(t, cursor + 1, expected);
    }
  }

  /** On a brace, wherever the comparator finds the end of the object the exporter finds it too. */
  lemma MatchingContainerRefines(t: string, p: nat)
    requires p < |t| && t[p] == '{' && MatchingDelimiter(t, p).Ok?
    ensures MatchingContainer(t, p) == MatchingDelimiter(t, p)
  {
    assert ['}'][..0] == [];
    assert Braces(['}']) == 1;
    BraceRefines(t, p + 1, ['}']);
  }

  /**
   The refinement is one way only: on a brace with crossed brackets inside, or with an escape the
   comparator refuses, the exporter still answers.
   */
  lemma CounterAcceptsMore()
    ensures MatchingContainer("{]}", 0) == Ok(2) && MatchingDelimiter("{]}", 0) == Fail(MismatchedDelimiter)
  {
    var t := "{]}";
    assert BraceFrom(t, 2, 1) == Ok(2);
    assert BraceFrom(t, 1, 1) == Ok(2);
    assert MatchFrom(t, 1, ['}']) == Fail(MismatchedDelimiter);
  }
}
