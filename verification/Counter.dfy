/**
 The language of the exporter's brace counter: text in which braces alone nest, and in which a string
 is anything up to the first quote without a backslash of its own.
 */
module Counter {
  import opened Results
  import opened Text
  import opened Literals
  import opened Containers

  /** What the flag-based scanner takes for one unit of a string: a backslash may be followed by anything. */
  datatype Mark = Bare(c: char) | Escaped(c: char)

  predicate ValidMarks(ms: seq<Mark>) {
    forall k :: 0 <= k < |ms| ==> ms[k].Bare? ==> ms[k].c != '"' && ms[k].c != '\\'
  }

  function SpellMark(m: Mark): string {
    if m.Bare? then [m.c] else ['\\', m.c]
  }

  function SpellMarks(ms: seq<Mark>): string {
    if ms == [] then "" else SpellMark(ms[0]) + SpellMarks(ms[1..])
  }

  function QuoteMarks(ms: seq<Mark>): string {
    "\"" + (SpellMarks(ms) + "\"")
  }

  datatype Loose =
    | Nothing
    | Other(c: char, rest: Loose)
    | Quoted(ms: seq<Mark>, rest: Loose)
    | Braced(inner: Loose, rest: Loose)

  predicate ValidLoose(d: Loose) {
    match d
    case Nothing => true
    case Other(c, rest) => c != '"' && c != '{' && c != '}' && ValidLoose(rest)
    case Quoted(ms, rest) => ValidMarks(ms) && ValidLoose(rest)
    case Braced(inner, rest) => ValidLoose(inner) && ValidLoose(rest)
  }

  function Flat(d: Loose): string {
    match d
    case Nothing => ""
    case Other(c, rest) => [c] + Flat(rest)
    case Quoted(ms, rest) => QuoteMarks(ms) + Flat(rest)
    case Braced(inner, rest) => "{" + (Flat(inner) + ("}" + Flat(rest)))
  }

  /** `t[p..c]`, both ends included, is a pair of braces around such text. */
  ghost predicate IsBraced(t: string, p: nat, c: nat) {
    exists d :: BracedBy(t, p, c, d)
  }

  ghost predicate BracedBy(t: string, p: nat, c: nat, d: Loose) {
    ValidLoose(d) && c == p + 1 + |Flat(d)| < |t| && t[p] == '{' && At(t, p + 1, Flat(d)) && t[c] == '}'
  }

  // ---------------------------------------------------------------- strings

  lemma MarksTail(t: string, i: nat, ms: seq<Mark>)
    requires ms != []
    ensures |SpellMarks(ms)| == |SpellMark(ms[0])| + |SpellMarks(ms[1..])|
    ensures At(t, i, SpellMarks(ms) + "\"")
       <==> At(t, i, SpellMark(ms[0])) && At(t, i + |SpellMark(ms[0])|, SpellMarks(ms[1..]) + "\"")
  {
    hide At, SpellMark;
    Associates(SpellMark(ms[0]), SpellMarks(ms[1..]), "\"");
    AtConcat(t, i, SpellMark(ms[0]), SpellMarks(ms[1..]) + "\"");
  }

  lemma NoMarks(t: string, i: nat)
    ensures |SpellMarks([])| == 0
    ensures At(t, i, SpellMarks([]) + "\"") <==> i < |t| && t[i] == '"'
  {
    assert SpellMarks([]) + "\"" == "\"";
    AtOne(t, i, '"');
  }

  lemma MarkAt(t: string, i: nat, m: Mark)
    ensures At(t, i, SpellMark(m)) <==>
      if m.Bare? then i < |t| && t[i] == m.c else i + 1 < |t| && t[i] == '\\' && t[i + 1] == m.c
  {
    AtOne(t, i, m.c);
    AtOne(t, i, '\\');
    AtOne(t, i + 1, m.c);
    AtConcat(t, i, ['\\'], [m.c]);
    assert ['\\'] + [m.c] == ['\\', m.c];
  }

  lemma {:induction false} EndOfMarks(t: string, cursor: nat, ms: seq<Mark>)
    requires ValidMarks(ms) && At(t, cursor, SpellMarks(ms) + "\"")
    ensures EndFrom(t, cursor, false) == Ok(cursor + |SpellMarks(ms)|)
    decreases |ms|
  {
    hide At, SpellMarks;
    if ms == [] {
      NoMarks(t, cursor);
    } else {
      MarksTail(t, cursor, ms);
      MarkAt(t, cursor, ms[0]);
      EndOfMarks(t, cursor + |SpellMark(ms[0])|, ms[1..]);
    }
  }

  lemma {:induction false} MarksOfEnd(t: string, cursor: nat) returns (ms: seq<Mark>)
    requires EndFrom(t, cursor, false).Ok?
    ensures ValidMarks(ms) && At(t, cursor, SpellMarks(ms) + "\"")
    ensures EndFrom(t, cursor, false) == Ok(cursor + |SpellMarks(ms)|)
    decreases |t| - cursor
  {
    hide At, SpellMarks;
    if t[cursor] == '"' {
      NoMarks(t, cursor);
      ms := [];
    } else {
      var m := if t[cursor] == '\\' then Escaped(t[cursor + 1]) else Bare(t[cursor]);
      MarkAt(t, cursor, m);
      var rest := MarksOfEnd(t, cursor + |SpellMark(m)|);
      ms := [m] + rest;
      assert ms[1..] == rest;
      MarksTail(t, cursor, ms);
    }
  }

  // ---------------------------------------------------------------- braces

  lemma OtherParts(t: string, p: nat, c: char, rest: Loose)
    ensures At(t, p, Flat(Other(c, rest))) <==> p < |t| && t[p] == c && At(t, p + 1, Flat(rest))
  {
    hide At;
    AtConcat(t, p, [c], Flat(rest));
    AtOne(t, p, c);
  }

  lemma QuotedParts(t: string, p: nat, ms: seq<Mark>, rest: Loose)
    ensures |QuoteMarks(ms)| == |SpellMarks(ms)| + 2
    ensures At(t, p, Flat(Quoted(ms, rest))) <==>
      && p < |t| && t[p] == '"'
      && At(t, p + 1, SpellMarks(ms) + "\"")
      && At(t, p + |QuoteMarks(ms)|, Flat(rest))
  {
    hide At, SpellMarks;
    AtConcat(t, p, QuoteMarks(ms), Flat(rest));
    AtConcat(t, p, "\"", SpellMarks(ms) + "\"");
    AtOne(t, p, '"');
  }

  lemma BracedParts(t: string, p: nat, inner: Loose, rest: Loose)
    ensures var close := p + 1 + |Flat(inner)|;
      && |Flat(Braced(inner, rest))| == |Flat(inner)| + 2 + |Flat(rest)|
      && (At(t, p, Flat(Braced(inner, rest))) <==>
          && p < |t| && t[p] == '{'
          && At(t, p + 1, Flat(inner))
          && close < |t| && t[close] == '}'
          && At(t, close + 1, Flat(rest)))
  {
    hide At;
    AtConcat(t, p, "{", Flat(inner) + ("}" + Flat(rest)));
    AtConcat(t, p + 1, Flat(inner), "}" + Flat(rest));
    AtConcat(t, p + 1 + |Flat(inner)|, "}", Flat(rest));
    AtOne(t, p, '{');
    AtOne(t, p + 1 + |Flat(inner)|, '}');
  }

  /** Such text is passed over, and leaves the depth as it was. */
  lemma {:induction false} CountSkips(t: string, p: nat, depth: nat, d: Loose)
    requires depth > 0 && ValidLoose(d) && At(t, p, Flat(d))
    ensures BraceFrom(t, p, depth) == BraceFrom(t, p + |Flat(d)|, depth)
    decreases d
  {
    hide At, SpellMarks, QuoteMarks, ValidMarks, EndFrom;
    match d
    case Nothing =>
      assert |Flat(d)| == 0;
    case Other(c, rest) =>
      OtherParts(t, p, c, rest);
      CountSkips(t, p + 1, depth, rest);
    case Quoted(ms, rest) =>
      QuotedParts(t, p, ms, rest);
      EndOfMarks(t, p + 1, ms);
      CountSkips(t, p + |QuoteMarks(ms)|, depth, rest);
    case Braced(inner, rest) =>
      BracedParts(t, p, inner, rest);
      var close := p + 1 + |Flat(inner)|;
      CountSkips(t, p + 1, depth + 1, inner);
      CountSkips(t, close + 1, depth, rest);
  }

  /** A successful count has passed over such text as far as the brace that ends its level. */
  lemma {:induction false} CountSound(t: string, p: nat, depth: nat) returns (d: Loose)
    requires depth > 0 && BraceFrom(t, p, depth).Ok?
    ensures var e := p + |Flat(d)|;
      && ValidLoose(d) && At(t, p, Flat(d))
      && e < |t| && t[e] == '}'
      && BraceFrom(t, p, depth) == BraceFrom(t, e, depth)
    decreases |t| - p
  {
    hide At, SpellMarks, QuoteMarks, ValidMarks, EndFrom;
    if t[p] == '"' {
      var ms := MarksOfEnd(t, p + 1);
      QuotedParts(t, p, ms, Nothing);
      var rest := CountSound(t, p + |QuoteMarks(ms)|, depth);
      QuotedParts(t, p, ms, rest);
      d := Quoted(ms, rest);
    } else if t[p] == '{' {
      var inner := CountSound(t, p + 1, depth + 1);
      var rest := CountSound(t, p + 1 + |Flat(inner)| + 1, depth);
      BracedParts(t, p, inner, rest);
      d := Braced(inner, rest);
    } else if t[p] == '}' {
      AtNothing(t, p);
      d := Nothing;
    } else {
      var rest := CountSound(t, p + 1, depth);
      OtherParts(t, p, t[p], rest);
      d := Other(t[p], rest);
    }
  }

  /** `matching_container` finds exactly the pairs of braces of its own language. */
  lemma MatchingContainerExact(t: string, p: nat, c: nat)
    ensures MatchingContainer(t, p) == Ok(c) <==> IsBraced(t, p, c)
  {
    hide At;
    if MatchingContainer(t, p) == Ok(c) {
      var d := CountSound(t, p + 1, 1);
      assert BracedBy(t, p, c, d);
    }
    if d :| BracedBy(t, p, c, d) {
      CountSkips(t, p + 1, 1, d);
    }
  }

  /**
   Where the counter answers, the stack answers too exactly when what lies between is balanced in both
   kinds of brackets and its strings are literals; then it gives the same answer.
   */
  lemma CounterRight(t: string, p: nat, c: nat)
    requires MatchingContainer(t, p) == Ok(c)
    ensures MatchingDelimiter(t, p).Ok? <==> IsContainer(t, p, c)
    ensures MatchingDelimiter(t, p).Ok? ==> MatchingDelimiter(t, p) == Ok(c)
  {
    hide MatchingDelimiter, IsContainer;
    MatchingDelimiterExact(t, p, c);
    if MatchingDelimiter(t, p).Ok? {
      MatchingContainerRefines(t, p);
    }
  }
}
