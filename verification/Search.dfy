/**
 The exporter's `find_value`: an unscoped search of a whole text for a quoted key. It never looks
 at the nesting of objects, and tells keys from other text by the backslashes before the match and
 the colon after it.
 */
module Search {
  import opened Results
  import opened Text
  import opened Literals
  import opened Containers
  import opened Trees
  import Reader

  // ---------------------------------------------------------------- the search

  /** The first occurrence of `needle` from `from` on. */
  function IndexOf(doc: string, needle: string, from: nat): (r: Option<nat>)
    requires needle != ""
    ensures r.Some? ==> from <= r.value && At(doc, r.value, needle) && r.value + |needle| <= |doc|
    decreases |doc| - from
  {
    if from + |needle| > |doc| then None
    else if At(doc, from, needle) then Some(from)
    else IndexOf(doc, needle, from + 1)
  }

  /** How many backslashes stand directly before `k`. */
  function SlashCount(doc: string, k: nat): nat
    requires k <= |doc|
  {
    if k > 0 && doc[k - 1] == '\\' then 1 + SlashCount(doc, k - 1) else 0
  }

  function Needle(key: string): (needle: string)
    ensures |needle| == |key| + 2
  {
    "\"" + key + "\""
  }

  function SearchFrom(doc: string, key: string, from: nat): (r: Option<nat>)
    ensures r.Some? ==> from < r.value <= |doc|
    decreases |doc| - from
  {
    if from >= |doc| then None
    else
      var needle := Needle(key);
      var found := IndexOf(doc, needle, from);
      if found.None? then None
      else
        var next := found.value + |needle|;
        if SlashCount(doc, found.value) % 2 != 0 then SearchFrom(doc, key, next)
        else
          var colon := SkipSpace(doc, next);
          if colon < |doc| && doc[colon] == ':' then Some(SkipSpace(doc, colon + 1))
          else SearchFrom(doc, key, next)
  }

  /** A value found lies within the text, on any text. */
  function FindValue(doc: string, key: string): (r: Option<nat>)
    ensures r.Some? ==> 0 < r.value <= |doc|
  {
    SearchFrom(doc, key, 0)
  }

  method FindValueLoop(doc: string, key: string) returns (r: Option<nat>)
    ensures r == FindValue(doc, key)
  {
    hide At, Needle, SkipSpace;
    var needle := Needle(key);
    var searchFrom := 0;
    while searchFrom < |doc|
      invariant SearchFrom(doc, key, searchFrom) == FindValue(doc, key)
      decreases |doc| - searchFrom
    {
      var found := IndexOf(doc, needle, searchFrom);
      if found.None? {
        return None;
      }
      var keyPosition := found.value;
      var slashCount: nat := 0;
      var cursor: nat := keyPosition;
      while cursor > 0 && doc[cursor - 1] == '\\'
        invariant cursor <= keyPosition
        invariant slashCount + SlashCount(doc, cursor) == SlashCount(doc, keyPosition)
      {
        slashCount := slashCount + 1;
        cursor := cursor - 1;
      }
      if slashCount % 2 != 0 {
        searchFrom := keyPosition + |needle|;
        continue;
      }
      var valuePosition := SkipSpaceLoop(doc, keyPosition + |needle|);
      if valuePosition < |doc| && doc[valuePosition] == ':' {
        var value := SkipSpaceLoop(doc, valuePosition + 1);
        return Some(value);
      }
      searchFrom := keyPosition + |needle|;
    }
    return None;
  }

  // ---------------------------------------------------------------- the search in a tree

  /** Where the value of the first member stands, at any depth, whose key is spelled `key`. */
  function FirstKey(j: Json, p: nat, key: string): Option<nat>
    decreases j, 0
  {
    if j.Object? || j.Array? then FirstKeyIn(j.entries, p + 1 + |j.pad|, key) else None
  }

  function FirstKeyIn(es: Entries, p: nat, key: string): Option<nat>
    decreases es, 1
  {
    if es.End? then None
    else if es.tag.Key? && Spell(es.tag.us) == key then Some(ValuePos(p, es))
    else
      var inside := FirstKey(es.value, ValuePos(p, es), key);
      if inside.Some? then inside else FirstKeyIn(es.rest, RestPos(p, es), key)
  }

  /** The search moves on by one character where the quoted key does not stand. */
  lemma Advance(doc: string, key: string, i: nat)
    requires i < |doc| && !At(doc, i, Needle(key))
    ensures SearchFrom(doc, key, i) == SearchFrom(doc, key, i + 1)
  {
    hide At, Needle, SlashCount, SkipSpace;
  }

  /** No quote, no occurrence. */
  lemma {:induction false} AdvancePlain(doc: string, key: string, i: nat, w: string)
    requires At(doc, i, w) && forall k :: 0 <= k < |w| ==> w[k] != '"'
    ensures SearchFrom(doc, key, i) == SearchFrom(doc, key, i + |w|)
    decreases |w|
  {
    hide SearchFrom, SlashCount;
    if w != "" {
      assert doc[i + 0] == w[0];
      NeedleParts(doc, i, key);
      Advance(doc, key, i);
      assert [w[0]] + w[1..] == w;
      AtConcat(doc, i, [w[0]], w[1..]);
      AdvancePlain(doc, key, i + 1, w[1..]);
    }
  }

  lemma NeedleParts(doc: string, i: nat, key: string)
    ensures At(doc, i, Needle(key)) <==>
      i < |doc| && doc[i] == '"' && At(doc, i + 1, key) && i + 1 + |key| < |doc| && doc[i + 1 + |key|] == '"'
  {
    hide At;
    AtConcat(doc, i, ['"'] + key, ['"']);
    AtConcat(doc, i, ['"'], key);
    AtOne(doc, i, '"');
    AtOne(doc, i + 1 + |key|, '"');
  }

  /** Inside a literal every quote comes right after a backslash. */
  lemma {:induction false} QuoteEscaped(us: seq<Unit>, k: nat)
    requires ValidUnits(us) && k < |Spell(us)| && Spell(us)[k] == '"'
    ensures k > 0 && Spell(us)[k - 1] == '\\'
    decreases |us|
  {
    var w := SpellUnit(us[0]);
    if k >= |w| {
      QuoteEscaped(us[1..], k - |w|);
    } else {
      assert w[k] == '"';
    }
  }

  lemma TokenCharAt(doc: string, q: nat, key: string, k: nat)
    requires IsToken(key) && At(doc, q, key) && k < |key|
    ensures q + k < |doc| && IsTokenChar(doc[q + k])
  {
    AtIndex(doc, q, key, k);
  }

  /** Two unescaped quotes enclose the same text whichever way it is read. */
  lemma KeySpelled(doc: string, q: nat, key: string, us: seq<Unit>)
    requires IsToken(key) && ValidUnits(us) && At(doc, q, Spell(us) + "\"")
    requires At(doc, q, key) && q + |key| < |doc| && doc[q + |key|] == '"'
    ensures Spell(us) == key
  {
    hide Spell, ValidUnits;
    AtConcat(doc, q, Spell(us), "\"");
    AtOne(doc, q + |Spell(us)|, '"');
    if |Spell(us)| < |key| {
      TokenCharAt(doc, q, key, |Spell(us)|);
    } else if |key| < |Spell(us)| {
      AtIndex(doc, q, Spell(us), |key|);
      QuoteEscaped(us, |key|);
      AtIndex(doc, q, Spell(us), |key| - 1);
      TokenCharAt(doc, q, key, |key| - 1);
    } else {
      forall k | 0 <= k < |key|
        ensures Spell(us)[k] == key[k]
      {
        assert doc[q + k] == key[k];
      }
    }
  }

  /** What may follow a literal: anything that cannot begin a key. */
  predicate Fenced(doc: string, e: nat) {
    e < |doc| ==> !IsTokenChar(doc[e]) && doc[e] != '"'
  }

  /** The parity of the backslashes before a unit carries over to the next one. */
  lemma UnitParity(doc: string, q: nat, u: Unit)
    requires ValidUnit(u) && At(doc, q, SpellUnit(u)) && SlashCount(doc, q) % 2 == 0
    ensures SlashCount(doc, q + |SpellUnit(u)|) % 2 == 0
  {
    var w := SpellUnit(u);
    var n := |w|;
    assert doc[q + (n - 1)] == w[n - 1];
    if u.Short? {
      assert doc[q + 0] == w[0];
      assert SlashCount(doc, q + 1) == 1 + SlashCount(doc, q);
    } else if u.Unicode? {
      assert w[n - 1] == u.digits[3];
    }
  }

  /** One unit inside a literal is passed, or an occurrence in it jumps to the literal's end. */
  lemma SearchUnit(doc: string, q: nat, us: seq<Unit>, key: string)
    requires us != [] && ValidUnits(us) && At(doc, q, Spell(us) + "\"") && IsToken(key)
    requires SlashCount(doc, q) % 2 == 0
    ensures SearchFrom(doc, key, q) == SearchFrom(doc, key, q + |SpellUnit(us[0])|)
         || SearchFrom(doc, key, q) == SearchFrom(doc, key, q + |Spell(us)| + 1)
  {
    hide At, Needle, Spell, SearchFrom;
    SpellTail(doc, q, us);
    var u := us[0];
    match u
    case Raw(c) =>
      AdvancePlain(doc, key, q, [c]);
    case Unicode(digits) =>
      AdvancePlain(doc, key, q, SpellUnit(u));
    case Short(letter) =>
      assert SpellUnit(u) == ['\\'] + [letter];
      AtConcat(doc, q, ['\\'], [letter]);
      AtOne(doc, q, '\\');
      AtOne(doc, q + 1, letter);
      NeedleParts(doc, q, key);
      Advance(doc, key, q);
      if At(doc, q + 1, Needle(key)) {
        NeedleParts(doc, q + 1, key);
        KeySpelled(doc, q + 2, key, us[1..]);
        SkipEscaped(doc, key, q + 1);
      } else {
        Advance(doc, key, q + 1);
      }
  }

  /** An occurrence behind an odd number of backslashes is jumped over. */
  lemma SkipEscaped(doc: string, key: string, i: nat)
    requires i < |doc| && At(doc, i, Needle(key)) && SlashCount(doc, i) % 2 != 0
    ensures SearchFrom(doc, key, i) == SearchFrom(doc, key, i + |key| + 2)
  {
    hide Needle, SlashCount, SkipSpace;
  }

  /** From any unit of a literal, none of its text counts as a key. */
  lemma {:induction false} SearchBody(doc: string, q: nat, us: seq<Unit>, key: string)
    requires ValidUnits(us) && At(doc, q, Spell(us) + "\"") && IsToken(key)
    requires SlashCount(doc, q) % 2 == 0
    requires Fenced(doc, q + |Spell(us)| + 1)
    ensures SearchFrom(doc, key, q) == SearchFrom(doc, key, q + |Spell(us)| + 1)
    decreases |us|
  {
    hide At, Needle, SearchFrom, SlashCount, SpellUnit, ValidUnit;
    if us == [] {
      SpellEnd(doc, q);
      NeedleParts(doc, q, key);
      if At(doc, q, Needle(key)) {
        TokenCharAt(doc, q + 1, key, 0);
      }
      Advance(doc, key, q);
    } else {
      SpellTail(doc, q, us);
      SearchUnit(doc, q, us, key);
      UnitParity(doc, q, us[0]);
      SearchBody(doc, q + |SpellUnit(us[0])|, us[1..], key);
    }
  }

  /** A literal counts as a key exactly when it is spelled like it and a colon follows. */
  lemma SearchLiteral(doc: string, p: nat, us: seq<Unit>, key: string)
    requires ValidUnits(us) && At(doc, p, Quote(us)) && IsToken(key)
    requires p > 0 ==> p <= |doc| && doc[p - 1] != '\\'
    requires Fenced(doc, p + |Quote(us)|)
    ensures var e := p + |Quote(us)|;
      var colon := SkipSpace(doc, e);
      SearchFrom(doc, key, p) ==
        if Spell(us) == key && colon < |doc| && doc[colon] == ':' then Some(SkipSpace(doc, colon + 1))
        else SearchFrom(doc, key, e)
  {
    hide At, Needle, Quote, Spell, SkipSpace, ValidUnits;
    QuoteParts(doc, p, us);
    NeedleParts(doc, p, key);
    if At(doc, p, Needle(key)) {
      KeySpelled(doc, p + 1, key, us);
    } else {
      if Spell(us) == key {
        AtConcat(doc, p + 1, Spell(us), "\"");
        AtOne(doc, p + 1 + |key|, '"');
      }
      SearchPast(doc, p, us, key);
    }
  }

  lemma SearchPast(doc: string, p: nat, us: seq<Unit>, key: string)
    requires ValidUnits(us) && At(doc, p, Quote(us)) && IsToken(key) && !At(doc, p, Needle(key))
    requires Fenced(doc, p + |Quote(us)|)
    ensures SearchFrom(doc, key, p) == SearchFrom(doc, key, p + |Quote(us)|)
  {
    hide At, Needle, Quote, Spell, SearchFrom, ValidUnits;
    QuoteParts(doc, p, us);
    Advance(doc, key, p);
    assert SlashCount(doc, p + 1) == 0;
    SearchBody(doc, p + 1, us, key);
  }

  // ---------------------------------------------------------------- on printed trees

  /** Where a literal may start: not behind a backslash. */
  predicate Clean(doc: string, p: nat) {
    0 < p <= |doc| ==> doc[p - 1] != '\\'
  }

  /** No colon follows: what stands before is a value. */
  predicate Concluded(doc: string, e: nat) {
    SkipSpace(doc, e) < |doc| ==> doc[SkipSpace(doc, e)] != ':'
  }

  lemma EndedFenced(doc: string, p: nat)
    requires Ended(doc, p)
    ensures Fenced(doc, p)
  {
  }

  lemma SpaceClean(doc: string, p: nat, pad: string)
    requires At(doc, p, pad) && AllSpace(pad) && Clean(doc, p)
    ensures Clean(doc, p + |pad|)
  {
    if pad != "" {
      assert doc[p + (|pad| - 1)] == pad[|pad| - 1];
    }
  }

  /** A key is found if it is the wanted one; otherwise the search reaches its value. */
  lemma SearchTag(doc: string, p: nat, es: Entries, keyed: bool, key: string)
    requires es.Entry? && ValidEntries(es, keyed) && At(doc, p, PrintEntries(es)) && IsToken(key) && Clean(doc, p)
    ensures SearchFrom(doc, key, p) ==
      if es.tag.Key? && Spell(es.tag.us) == key then Some(ValuePos(p, es))
      else SearchFrom(doc, key, ValuePos(p, es))
    ensures Clean(doc, ValuePos(p, es))
  {
    hide At, Print, PrintEntries, PrintRest, Quote, Spell, SearchFrom, ValidUnits, ValidJson, IsToken, IsTokenChar,
         AllSpace, SkipSpace;
    EntryParts(doc, p, es);
    if es.tag.Key? {
      KeyParts(doc, p, es.tag.us, es.tag.afterKey, es.tag.beforeValue);
      FirstChar(doc, ValuePos(p, es), es.value);
      SearchKey(doc, p, es.tag.us, es.tag.afterKey, es.tag.beforeValue, key);
    }
  }

  lemma SearchKey(doc: string, p: nat, us: seq<Unit>, before: string, after: string, key: string)
    requires ValidUnits(us) && At(doc, p, Quote(us)) && IsToken(key) && Clean(doc, p)
    requires var e := p + |Quote(us)|;
      && At(doc, e, before) && AllSpace(before)
      && e + |before| < |doc| && doc[e + |before|] == ':'
      && At(doc, e + |before| + 1, after) && AllSpace(after)
    requires var v := p + |Quote(us)| + |before| + 1 + |after|; v < |doc| && !IsSpace(doc[v])
    ensures var v := p + |Quote(us)| + |before| + 1 + |after|;
      && SearchFrom(doc, key, p) == (if Spell(us) == key then Some(v) else SearchFrom(doc, key, v))
      && Clean(doc, v)
  {
    hide At, Quote, Spell, SearchFrom, ValidUnits, IsToken, AllSpace, SkipSpace, IsSpace;
    var e := p + |Quote(us)|;
    var colon := e + |before|;
    KeyFenced(doc, e, before);
    ColonPlain(doc, colon);
    SkipPad(doc, e, before);
    SearchLiteral(doc, p, us, key);
    SkipPad(doc, colon + 1, after);
    SearchPads(doc, e, before, after, key);
    SpaceClean(doc, colon + 1, after);
  }

  lemma ColonPlain(doc: string, colon: nat)
    requires colon < |doc| && doc[colon] == ':'
    ensures !IsSpace(doc[colon]) && Clean(doc, colon + 1)
  {
  }

  lemma KeyFenced(doc: string, e: nat, pad: string)
    requires At(doc, e, pad) && AllSpace(pad) && e + |pad| < |doc| && doc[e + |pad|] == ':'
    ensures Fenced(doc, e)
  {
    if pad != "" {
      assert doc[e + 0] == pad[0];
    }
  }

  lemma SearchPads(doc: string, e: nat, before: string, after: string, key: string)
    requires At(doc, e, before) && AllSpace(before)
    requires e + |before| < |doc| && doc[e + |before|] == ':'
    requires At(doc, e + |before| + 1, after) && AllSpace(after)
    ensures SearchFrom(doc, key, e) == SearchFrom(doc, key, e + |before| + 1 + |after|)
  {
    hide SearchFrom;
    AdvancePlain(doc, key, e, before);
    AdvancePlain(doc, key, e + |before|, ":");
    AdvancePlain(doc, key, e + |before| + 1, after);
  }

  /** In a printed value the search finds the first key of the wanted spelling, at whatever depth. */
  lemma {:induction false} SearchJson(doc: string, p: nat, j: Json, key: string)
    requires ValidJson(j) && At(doc, p, Print(j)) && IsToken(key)
    requires Clean(doc, p) && Ended(doc, p + |Print(j)|)
    requires j.Str? ==> Concluded(doc, p + |Print(j)|)
    ensures SearchFrom(doc, key, p) ==
      if FirstKey(j, p, key).Some? then FirstKey(j, p, key) else SearchFrom(doc, key, p + |Print(j)|)
    decreases j, 0
  {
    hide At, Quote, Spell, SearchFrom, PrintEntries, ValidUnits, FirstKeyIn;
    match j
    case Scalar(token) =>
      AdvancePlain(doc, key, p, token);
    case Str(us) =>
      var e := p + |Quote(us)|;
      EndedFenced(doc, e);
      FirstChar(doc, p, j);
      SearchLiteral(doc, p, us, key);
    case _ =>
      ContainerParts(doc, p, j);
      var first, close := p + 1 + |j.pad|, p + |Print(j)| - 1;
      AtOne(doc, p, doc[p]);
      AdvancePlain(doc, key, p, [doc[p]]);
      AdvancePlain(doc, key, p + 1, j.pad);
      SpaceClean(doc, p + 1, j.pad);
      SearchEntries(doc, first, j.entries, j.Object?, key);
      AtOne(doc, close, doc[close]);
      AdvancePlain(doc, key, close, [doc[close]]);
  }

  lemma {:induction false} SearchEntries(doc: string, p: nat, es: Entries, keyed: bool, key: string)
    requires ValidEntries(es, keyed) && At(doc, p, PrintEntries(es)) && IsToken(key) && Clean(doc, p)
    requires p + |PrintEntries(es)| < |doc| && IsClosing(doc[p + |PrintEntries(es)|])
    ensures SearchFrom(doc, key, p) ==
      if FirstKeyIn(es, p, key).Some? then FirstKeyIn(es, p, key)
      else SearchFrom(doc, key, p + |PrintEntries(es)|)
    decreases es, 1
  {
    hide At, Print, PrintTag, PrintRest, Spell, SearchFrom, ValidJson, ValidTag, FirstKey, PrintEntries;
    if es.End? {
      Reader.NoEntries(doc);
    } else {
      EntryParts(doc, p, es);
      SearchTag(doc, p, es, keyed, key);
      var value := ValuePos(p, es);
      ValueEnded(doc, p, es, keyed);
      if es.rest.Entry? {
        RestParts(doc, CommaPos(p, es), es.gap, es.rest);
      }
      SearchJson(doc, value, es.value, key);
      AdvancePlain(doc, key, value + |Print(es.value)|, es.after);
      if es.rest.Entry? {
        SearchGap(doc, CommaPos(p, es), es.gap, key);
        SearchEntries(doc, RestPos(p, es), es.rest, keyed, key);
      }
    }
  }

  lemma SearchGap(doc: string, comma: nat, gap: string, key: string)
    requires comma < |doc| && doc[comma] == ',' && At(doc, comma + 1, gap) && AllSpace(gap)
    ensures SearchFrom(doc, key, comma) == SearchFrom(doc, key, comma + 1 + |gap|)
    ensures Clean(doc, comma + 1 + |gap|)
  {
    hide SearchFrom;
    AdvancePlain(doc, key, comma, ",");
    AdvancePlain(doc, key, comma + 1, gap);
    SpaceClean(doc, comma + 1, gap);
  }

  /** Past the end of a text there is nothing to find. */
  lemma SearchPad(doc: string, p: nat, pad: string, key: string)
    requires At(doc, p, pad) && AllSpace(pad) && p + |pad| == |doc|
    ensures SearchFrom(doc, key, p) == None
  {
    AdvancePlain(doc, key, p, pad);
  }

  /**
   On every document, with any whitespace around its root, the unscoped search returns the value of
   the first member in reading order, at whatever depth, whose key is spelled like the wanted one.
   Text inside strings never misleads it.
   */
  lemma FindValueExact(doc: string, before: string, j: Json, after: string, key: string)
    requires doc == before + Print(j) + after
    requires (j.Object? || j.Array?) && ValidJson(j) && AllSpace(before) && AllSpace(after) && IsToken(key)
    ensures FindValue(doc, key) == FirstKey(j, |before|, key)
  {
    AtWhole(doc);
    AtConcat(doc, 0, before + Print(j), after);
    AtConcat(doc, 0, before, Print(j));
    SearchDocument(doc, before, j, after, key);
  }

  lemma SearchDocument(doc: string, before: string, j: Json, after: string, key: string)
    requires At(doc, 0, before) && At(doc, |before|, Print(j)) && At(doc, |before| + |Print(j)|, after)
    requires |doc| == |before| + |Print(j)| + |after|
    requires (j.Object? || j.Array?) && ValidJson(j) && AllSpace(before) && AllSpace(after) && IsToken(key)
    ensures FindValue(doc, key) == FirstKey(j, |before|, key)
  {
    hide Print, ValidJson, SearchFrom, FirstKey, At;
    AdvancePlain(doc, key, 0, before);
    PrintedDocument(doc, |before|, j, after, key);
    SpaceClean(doc, 0, before);
    SearchJson(doc, |before|, j, key);
    SearchPad(doc, |before| + |Print(j)|, after, key);
  }

  lemma AtWhole(t: string)
    ensures At(t, 0, t)
  {
  }

  lemma PrintedDocument(doc: string, p: nat, j: Json, after: string, key: string)
    requires At(doc, p + |Print(j)|, after) && AllSpace(after) && p + |Print(j)| + |after| == |doc|
    ensures Ended(doc, p + |Print(j)|)
  {
    hide Print;
    if after != "" {
      assert doc[p + |Print(j)| + 0] == after[0];
    }
  }

  // ---------------------------------------------------------------- unscoped against scoped

  /** Plain names: letters, digits and underscores. */
  predicate IsNameChar(c: char) {
    'a' <= c <= 'z' || 'A' <= c <= 'Z' || '0' <= c <= '9' || c == '_'
  }

  predicate IsName(w: string) {
    w != "" && forall k :: 0 <= k < |w| ==> IsNameChar(w[k])
  }

  lemma NameIsToken(w: string)
    requires IsName(w)
    ensures IsToken(w)
  {
  }

  /** For a plain name it does not matter whether keys are compared decoded or as spelled. */
  lemma {:induction false} NameSpelling(us: seq<Unit>, w: string)
    requires ValidUnits(us) && forall k :: 0 <= k < |w| ==> IsNameChar(w[k])
    ensures Spell(us) == w <==> Decode(us) == w
    decreases |us|
  {
    if us != [] && w != "" {
      NameSpelling(us[1..], w[1..]);
      NameUnit(us[0], w[0]);
      HeadTail(SpellUnit(us[0]), Spell(us[1..]), w);
      HeadTail(DecodeUnit(us[0]), Decode(us[1..]), w);
    } else if us != [] {
      DecodedNotEmpty(us[0]);
    }
  }

  lemma DecodedNotEmpty(u: Unit)
    requires ValidUnit(u)
    ensures DecodeUnit(u) != "" && (u.Raw? ==> DecodeUnit(u) == SpellUnit(u) == [u.c])
    ensures !u.Raw? ==> SpellUnit(u)[0] == '\\' && !IsNameChar(DecodeUnit(u)[0])
  {
  }

  lemma NameUnit(u: Unit, c: char)
    requires ValidUnit(u) && IsNameChar(c)
    ensures DecodeUnit(u) != ""
    ensures SpellUnit(u)[0] == c <==> DecodeUnit(u)[0] == c
  {
  }

  lemma HeadTail(a: string, b: string, w: string)
    requires a != "" && w != ""
    ensures a + b == w ==> a[0] == w[0]
    ensures |a| == 1 ==> (a + b == w <==> a[0] == w[0] && b == w[1..])
  {
    if |a| == 1 && a[0] == w[0] && b == w[1..] {
      assert a + b == w;
    }
    if a + b == w {
      assert (a + b)[0] == a[0];
      if |a| == 1 {
        assert w[1..] == b;
      }
    }
  }

  /** A member with the key `key` occurs somewhere inside. */
  predicate Mentions(j: Json, key: string)
    decreases j, 0
  {
    (j.Object? || j.Array?) && MentionsIn(j.entries, key)
  }

  predicate MentionsIn(es: Entries, key: string)
    decreases es, 1
  {
    es.Entry? &&
    ((es.tag.Key? && Spell(es.tag.us) == key) || Mentions(es.value, key) || MentionsIn(es.rest, key))
  }

  /** No value that stands before the first member called `key` mentions `key` inside it. */
  predicate ClearBefore(es: Entries, key: string) {
    es.End?
    || (es.tag.Key? && Spell(es.tag.us) == key)
    || (!Mentions(es.value, key) && ClearBefore(es.rest, key))
  }

  lemma {:induction false} FirstKeyBounds(j: Json, p: nat, key: string)
    requires ValidJson(j)
    ensures FirstKey(j, p, key).Some? <==> Mentions(j, key)
    ensures FirstKey(j, p, key).Some? ==> p < FirstKey(j, p, key).value < p + |Print(j)|
    decreases j, 0
  {
    hide PrintEntries, FirstKeyIn, MentionsIn;
    if j.Object? || j.Array? {
      FirstKeyInBounds(j.entries, p + 1 + |j.pad|, j.Object?, key);
    }
  }

  lemma {:induction false} FirstKeyInBounds(es: Entries, p: nat, keyed: bool, key: string)
    requires ValidEntries(es, keyed)
    ensures FirstKeyIn(es, p, key).Some? <==> MentionsIn(es, key)
    ensures FirstKeyIn(es, p, key).Some? ==> p < FirstKeyIn(es, p, key).value < p + |PrintEntries(es)|
    decreases es, 1
  {
    hide Print, PrintTag, PrintRest, PrintEntries, FirstKey, Mentions, Spell, Quote, At, ValidJson;
    if es.Entry? {
      EntryParts("", p, es);
      FirstKeyBounds(es.value, ValuePos(p, es), key);
      FirstKeyInBounds(es.rest, RestPos(p, es), keyed, key);
      PrintNotEmpty(es.value);
      if es.tag.Key? {
        TagNotEmpty(es.tag);
      }
    }
  }

  lemma TagNotEmpty(tag: Tag)
    requires tag.Key?
    ensures PrintTag(tag) != ""
  {
  }

  lemma PrintNotEmpty(j: Json)
    requires ValidJson(j)
    ensures |Print(j)| > 0
  {
    hide PrintEntries;
  }

  lemma {:induction false} LookupAfter(es: Entries, p: nat, key: string)
    ensures Lookup(es, p, key).Some? ==> p <= Lookup(es, p, key).value
    decreases es
  {
    if es.Entry? {
      LookupAfter(es.rest, RestPos(p, es), key);
    }
  }

  /** Among printed members, first in reading order means first member exactly when nothing is in the way. */
  lemma {:induction false} FirstIsLookup(es: Entries, p: nat, key: string)
    requires ValidEntries(es, true) && IsName(key)
    ensures FirstKeyIn(es, p, key) == Lookup(es, p, key) <==> ClearBefore(es, key)
    ensures !ClearBefore(es, key) ==> FirstKeyIn(es, p, key).Some?
    decreases es
  {
    hide Print, PrintTag, PrintRest, PrintEntries, FirstKey, Mentions, Spell, Decode, ValidJson;
    if es.Entry? {
      NameSpelling(es.tag.us, key);
      FirstKeyBounds(es.value, ValuePos(p, es), key);
      FirstIsLookup(es.rest, RestPos(p, es), key);
      LookupAfter(es.rest, RestPos(p, es), key);
    }
  }

  /**
   The exporter's shortcut is exact: on an object printed as the whole text it agrees with the
   comparator's scoped member search if and only if no value in front of the wanted member holds a
   member of the same name.
   */
  lemma UnscopedIsScoped(j: Json, key: string)
    requires j.Object? && ValidJson(j) && IsName(key)
    ensures var doc := Print(j);
      && Reader.RootObject(doc) == Ok(Reader.SpanOf(0, j))
      && Reader.Encloses(doc, Reader.SpanOf(0, j))
      && (Ok(FindValue(doc, key)) == Reader.Find(doc, Reader.SpanOf(0, j), key) <==> ClearBefore(j.entries, key))
  {
    hide Print, ValidJson, FindValue, ClearBefore, Reader.Find, Reader.RootObject, FirstKeyIn, Lookup, At;
    var doc := Print(j);
    assert "" + doc + "" == doc;
    Reader.RootExact("", j, "");
    AtWhole(doc);
    Reader.FindExact(doc, 0, j, key);
    NameIsToken(key);
    FindValueExact(doc, "", j, "", key);
    MembersValid(j);
    FirstIsLookup(j.entries, 1 + |j.pad|, key);
  }

  lemma MembersValid(j: Json)
    requires j.Object? && ValidJson(j)
    ensures ValidEntries(j.entries, true)
  {
  }
}
