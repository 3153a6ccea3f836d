/**
 JSON string literals (RFC 8259, section 7): the emitter's escaping, the comparator's decoding
 parser and the exporter's two-pass one, against a grammar of literal units.
 */
module Literals {
  import opened Results
  import opened Text

  const BACKSPACE: char := 8 as char
  const FORM_FEED: char := 12 as char

  /** One unit between the quotes of a literal. */
  datatype Unit = Raw(c: char) | Short(letter: char) | Unicode(digits: string)

  predicate IsHex(c: char) {
    '0' <= c <= '9' || 'a' <= c <= 'f' || 'A' <= c <= 'F'
  }

  /** The character a one-letter escape stands for. */
  function ShortValue(letter: char): Option<char> {
    match letter
    case '"' => Some('"')
    case '\\' => Some('\\')
    case '/' => Some('/')
    case 'b' => Some(BACKSPACE)
    case 'f' => Some(FORM_FEED)
    case 'n' => Some('\n')
    case 'r' => Some('\r')
    case 't' => Some('\t')
    case _ => None
  }

  predicate ValidUnit(u: Unit) {
    match u
    case Raw(c) => c != '"' && c != '\\'
    case Short(letter) => ShortValue(letter).Some?
    case Unicode(digits) => |digits| == 4 && forall k :: 0 <= k < 4 ==> IsHex(digits[k])
  }

  predicate ValidUnits(us: seq<Unit>) {
    forall k :: 0 <= k < |us| ==> ValidUnit(us[k])
  }

  function SpellUnit(u: Unit): (w: string)
    ensures w != ""
  {
    match u
    case Raw(c) => [c]
    case Short(letter) => ['\\', letter]
    case Unicode(digits) => "\\u" + digits
  }

  function Spell(us: seq<Unit>): string {
    if us == [] then "" else SpellUnit(us[0]) + Spell(us[1..])
  }

  function Quote(us: seq<Unit>): string {
    "\"" + Spell(us) + "\""
  }

  /** What the comparator makes of a unit: a unicode escape is kept as its own six characters. */
  function DecodeUnit(u: Unit): string {
    match u
    case Raw(c) => [c]
    case Short(letter) => if ShortValue(letter).Some? then [ShortValue(letter).value] else ""
    case Unicode(digits) => "\\u" + digits
  }

  function Decode(us: seq<Unit>): string {
    if us == [] then "" else DecodeUnit(us[0]) + Decode(us[1..])
  }

  /** What the exporter keeps of one unit. */
  function LossyUnit(u: Unit): string {
    if u.Unicode? then "?" else DecodeUnit(u)
  }

  /** What the exporter makes of a literal: a unicode escape becomes a question mark. */
  function DecodeLossy(us: seq<Unit>): string {
    if us == [] then "" else LossyUnit(us[0]) + DecodeLossy(us[1..])
  }

  // ---------------------------------------------------------------- the comparator's parser

  /** The unit that starts at `cursor`, which holds no closing quote. */
  function UnitAt(t: string, cursor: nat): (r: Result<Unit>)
    requires cursor < |t| && t[cursor] != '"'
    ensures r.Ok? ==> ValidUnit(r.value) && At(t, cursor, SpellUnit(r.value))
  {
    if t[cursor] != '\\' then Ok(Raw(t[cursor]))
    else if cursor + 1 >= |t| then Fail(UnterminatedEscape)
    else if t[cursor + 1] == 'u' then
      if cursor + 5 >= |t| then Fail(IncompleteUnicode)
      else if forall k :: cursor + 2 <= k < cursor + 6 ==> IsHex(t[k]) then
        assert t[cursor..cursor + 6] == "\\u" + t[cursor + 2..cursor + 6];
        Ok(Unicode(t[cursor + 2..cursor + 6]))
      else Fail(InvalidUnicode)
    else if ShortValue(t[cursor + 1]).Some? then Ok(Short(t[cursor + 1]))
    else Fail(InvalidEscape)
  }

  /** The parser's loop from `cursor` on, with `value` collected so far. */
  function ParseFrom(t: string, cursor: nat, value: string): (r: Result<(string, nat)>)
    ensures r.Ok? ==> cursor < r.value.1 <= |t| && t[r.value.1 - 1] == '"'
    decreases |t| - cursor
  {
    hide UnitAt, SpellUnit, DecodeUnit, ValidUnit, At;
    if cursor >= |t| then Fail(UnterminatedString)
    else if t[cursor] == '"' then Ok((value, cursor + 1))
    else
      var u :- UnitAt(t, cursor);
      ParseFrom(t, cursor + |SpellUnit(u)|, value + DecodeUnit(u))
  }

  /** The decoded literal at `position`, and the position after its closing quote. */
  function ParseString(t: string, position: nat): (r: Result<(string, nat)>)
    ensures r.Ok? ==> position + 1 < r.value.1 <= |t| && t[r.value.1 - 1] == '"'
  {
    if position >= |t| || t[position] != '"' then Fail(ExpectedString)
    else ParseFrom(t, position + 1, "")
  }

  method ParseStringLoop(t: string, position: nat) returns (r: Result<(string, nat)>)
    ensures r == ParseString(t, position)
  {
    hide SpellUnit, DecodeUnit, ValidUnit, At;
    if position >= |t| || t[position] != '"' {
      return Fail(ExpectedString);
    }
    var value := "";
    var cursor := position + 1;
    while cursor < |t|
      invariant ParseFrom(t, cursor, value) == ParseFrom(t, position + 1, "")
    {
      ghost var start, before := cursor, value;
      var current := t[cursor];
      if current == '"' {
        return Ok((value, cursor + 1));
      }
      if current != '\\' {
        value := value + [current];
        cursor := cursor + 1;
        RawTaken(t, start, before);
        continue;
      }
      cursor := cursor + 1;
      if cursor >= |t| {
        return Fail(UnterminatedEscape);
      }
      match t[cursor] {
        case '"' => value := value + ['"'];
        case '\\' => value := value + ['\\'];
        case '/' => value := value + ['/'];
        case 'b' => value := value + [BACKSPACE];
        case 'f' => value := value + [FORM_FEED];
        case 'n' => value := value + ['\n'];
        case 'r' => value := value + ['\r'];
        case 't' => value := value + ['\t'];
        case 'u' =>
          if cursor + 4 >= |t| {
            return Fail(IncompleteUnicode);
          }
          for offset := 1 to 5
            invariant forall k :: start + 2 <= k < cursor + offset ==> IsHex(t[k])
          {
            if !IsHex(t[cursor + offset]) {
              return Fail(InvalidUnicode);
            }
          }
          value := value + t[cursor - 1..cursor + 5];
          cursor := cursor + 4;
        case _ => return Fail(InvalidEscape);
      }
      cursor := cursor + 1;
      UnitTaken(t, start, before, cursor, value);
    }
    return Fail(UnterminatedString);
  }

  lemma RawTaken(t: string, start: nat, before: string)
    requires start < |t| && t[start] != '"' && t[start] != '\\'
    ensures ParseFrom(t, start, before) == ParseFrom(t, start + 1, before + [t[start]])
  {
    hide At, ValidUnit;
    assert UnitAt(t, start) == Ok(Raw(t[start]));
  }

  /** The escapes of the parser's switch are the units of the grammar. */
  lemma UnitTaken(t: string, start: nat, before: string, cursor: nat, value: string)
    requires start + 1 < |t| && t[start] == '\\'
    requires t[start + 1] == 'u' ==>
      && cursor == start + 6 <= |t|
      && (forall k :: start + 2 <= k < start + 6 ==> IsHex(t[k]))
      && value == before + t[start..start + 6]
    requires t[start + 1] != 'u' ==>
      && cursor == start + 2
      && ShortValue(t[start + 1]).Some?
      && value == before + [ShortValue(t[start + 1]).value]
    ensures ParseFrom(t, start, before) == ParseFrom(t, cursor, value)
  {
    if t[start + 1] == 'u' {
      assert t[start..start + 6] == "\\u" + t[start + 2..start + 6];
    }
    var u := UnitAt(t, start).value;
    assert cursor == start + |SpellUnit(u)| && value == before + DecodeUnit(u);
  }

  lemma Associates(a: string, b: string, c: string)
    ensures a + b + c == a + (b + c)
  {
  }

  /** A spelled literal stands at a position exactly when its first unit and the rest do. */
  lemma SpellTail(t: string, i: nat, us: seq<Unit>)
    requires us != []
    ensures |Spell(us)| == |SpellUnit(us[0])| + |Spell(us[1..])|
    ensures At(t, i, Spell(us) + "\"")
       <==> At(t, i, SpellUnit(us[0])) && At(t, i + |SpellUnit(us[0])|, Spell(us[1..]) + "\"")
  {
    Associates(SpellUnit(us[0]), Spell(us[1..]), "\"");
    AtConcat(t, i, SpellUnit(us[0]), Spell(us[1..]) + "\"");
  }

  /** The empty literal body is a closing quote. */
  lemma SpellEnd(t: string, i: nat)
    ensures At(t, i, Spell([]) + "\"") <==> i < |t| && t[i] == '"'
  {
    assert Spell([]) + "\"" == "\"";
    AtOne(t, i, '"');
  }

  /** The unit that is spelled at a position is the one read there. */
  lemma UnitSpelled(t: string, cursor: nat, u: Unit)
    requires ValidUnit(u) && At(t, cursor, SpellUnit(u))
    ensures cursor < |t| && t[cursor] != '"' && UnitAt(t, cursor) == Ok(u)
  {
    if u.Unicode? {
      UnicodeSpelled(t, cursor, u.digits);
    } else {
      var w := SpellUnit(u);
      assert t[cursor + 0] == w[0];
      if u.Short? {
        assert t[cursor + 1] == w[1];
      }
    }
  }

  lemma UnicodeSpelled(t: string, cursor: nat, digits: string)
    requires ValidUnit(Unicode(digits)) && At(t, cursor, "\\u" + digits)
    ensures cursor < |t| && t[cursor] != '"' && UnitAt(t, cursor) == Ok(Unicode(digits))
  {
    hide At;
    UnicodeParts(t, cursor, digits);
    assert t[cursor + 2..cursor + 6] == digits;
    assert forall k :: cursor + 2 <= k < cursor + 6 ==> t[k] == digits[k - cursor - 2];
  }

  lemma UnicodeParts(t: string, cursor: nat, digits: string)
    requires At(t, cursor, "\\u" + digits)
    ensures cursor + 2 + |digits| <= |t| && t[cursor] == '\\' && t[cursor + 1] == 'u'
    ensures forall k :: 0 <= k < |digits| ==> t[cursor + 2 + k] == digits[k]
  {
    AtConcat(t, cursor, "\\u", digits);
    AtSlice(t, cursor, "\\u");
    assert t[cursor + 0] == "\\u"[0] && t[cursor + 1] == "\\u"[1];
  }

  /** One turn of the parser's loop. */
  lemma ParseUnit(t: string, cursor: nat, value: string, u: Unit)
    requires ValidUnit(u) && At(t, cursor, SpellUnit(u))
    ensures ParseFrom(t, cursor, value)
         == ParseFrom(t, cursor + |SpellUnit(u)|, value + DecodeUnit(u))
  {
    hide At, UnitAt, SpellUnit, DecodeUnit, ValidUnit;
    UnitSpelled(t, cursor, u);
  }

  /** A valid literal is parsed to its end, and decoded. */
  lemma {:induction false} ParseSpelled(t: string, cursor: nat, value: string, us: seq<Unit>)
    requires ValidUnits(us) && At(t, cursor, Spell(us) + "\"")
    ensures ParseFrom(t, cursor, value) == Ok((value + Decode(us), cursor + |Spell(us)| + 1))
    decreases |us|
  {
    hide At, SpellUnit, DecodeUnit, ValidUnit;
    if us == [] {
      SpellEnd(t, cursor);
      assert value + Decode(us) == value;
    } else {
      var u, rest := us[0], us[1..];
      SpellTail(t, cursor, us);
      ParseUnit(t, cursor, value, u);
      ParseSpelled(t, cursor + |SpellUnit(u)|, value + DecodeUnit(u), rest);
      Associates(value, DecodeUnit(u), Decode(rest));
    }
  }

  /** Whatever the parser accepts is a literal of the grammar. */
  lemma {:induction false} ParseSound(t: string, cursor: nat, value: string) returns (us: seq<Unit>)
    requires ParseFrom(t, cursor, value).Ok?
    ensures ValidUnits(us) && At(t, cursor, Spell(us) + "\"")
    ensures ParseFrom(t, cursor, value).value == (value + Decode(us), cursor + |Spell(us)| + 1)
    decreases |t| - cursor
  {
    hide At, UnitAt, SpellUnit, DecodeUnit, ValidUnit;
    if t[cursor] == '"' {
      us := [];
      SpellEnd(t, cursor);
      assert value + Decode(us) == value;
    } else {
      var u := UnitAt(t, cursor).value;
      var rest := ParseSound(t, cursor + |SpellUnit(u)|, value + DecodeUnit(u));
      us := [u] + rest;
      assert us[1..] == rest;
      SpellTail(t, cursor, us);
      Associates(value, DecodeUnit(u), Decode(rest));
    }
  }

  /** `us` is a reading of the literal at `p` that ends just before `e` and decodes to `v`. */
  ghost predicate Reads(t: string, p: nat, us: seq<Unit>, v: string, e: nat) {
    ValidUnits(us) && At(t, p, Quote(us)) && v == Decode(us) && e == p + |Quote(us)|
  }

  /** The comparator's parser accepts exactly the literals of the grammar, and decodes them. */
  lemma ParseStringExact(t: string, p: nat, v: string, e: nat)
    ensures ParseString(t, p) == Ok((v, e)) <==> exists us :: Reads(t, p, us, v, e)
  {
    if ParseString(t, p) == Ok((v, e)) {
      var us := ParseSound(t, p + 1, "");
      QuoteParts(t, p, us);
      assert "" + Decode(us) == Decode(us);
      assert Reads(t, p, us, v, e);
    }
    if us :| Reads(t, p, us, v, e) {
      ParseQuoted(t, p, us);
    }
  }

  /** A quoted literal stands at a position exactly when a quote and its body do. */
  lemma QuoteParts(t: string, p: nat, us: seq<Unit>)
    ensures |Quote(us)| == |Spell(us)| + 2
    ensures At(t, p, Quote(us)) <==> p < |t| && t[p] == '"' && At(t, p + 1, Spell(us) + "\"")
  {
    hide Spell;
    Associates("\"", Spell(us), "\"");
    AtConcat(t, p, "\"", Spell(us) + "\"");
    AtOne(t, p, '"');
  }

  lemma ParseQuoted(t: string, p: nat, us: seq<Unit>)
    requires ValidUnits(us) && At(t, p, Quote(us))
    ensures ParseString(t, p) == Ok((Decode(us), p + |Quote(us)|))
  {
    hide At, Spell, Quote, Decode, ParseFrom, ValidUnits;
    QuoteParts(t, p, us);
    ParseSpelled(t, p + 1, "", us);
    assert "" + Decode(us) == Decode(us);
  }

  // ---------------------------------------------------------------- the exporter's scanner

  /** The closing quote from `cursor` on, knowing only whether the last character escapes. */
  function EndFrom(t: string, cursor: nat, escaped: bool): (r: Result<nat>)
    ensures r.Ok? ==> cursor <= r.value < |t| && t[r.value] == '"'
    decreases |t| - cursor
  {
    if cursor >= |t| then Fail(UnterminatedString)
    else if !escaped && t[cursor] == '"' then Ok(cursor)
    else EndFrom(t, cursor + 1, !escaped && t[cursor] == '\\')
  }

  function StringEnd(t: string, position: nat): (r: Result<nat>)
    ensures r.Ok? ==> position < r.value < |t| && t[r.value] == '"'
  {
    if position >= |t| || t[position] != '"' then Fail(ExpectedString)
    else EndFrom(t, position + 1, false)
  }

  method StringEndLoop(t: string, position: nat) returns (r: Result<nat>)
    ensures r == StringEnd(t, position)
  {
    if position >= |t| || t[position] != '"' {
      return Fail(ExpectedString);
    }
    var escaped := false;
    for cursor := position + 1 to |t|
      invariant EndFrom(t, cursor, escaped) == StringEnd(t, position)
    {
      if !escaped && t[cursor] == '"' {
        return Ok(cursor);
      }
      if !escaped && t[cursor] == '\\' {
        escaped := true;
      } else {
        escaped := false;
      }
    }
    return Fail(UnterminatedString);
  }

  /** The exporter's decoding loop over `[cursor, end)`. */
  function DecodeFrom(t: string, cursor: nat, end: nat, value: string): Result<string>
    requires end <= |t|
    decreases end - cursor
  {
    if cursor >= end then Ok(value)
    else if t[cursor] != '\\' then DecodeFrom(t, cursor + 1, end, value + [t[cursor]])
    else if cursor + 1 >= end then Fail(UnterminatedEscape)
    else if t[cursor + 1] == 'u' then
      if cursor + 5 >= end then Fail(IncompleteUnicode)
      else DecodeFrom(t, cursor + 6, end, value + "?")
    else match ShortValue(t[cursor + 1])
      case Some(c) => DecodeFrom(t, cursor + 2, end, value + [c])
      case None => Fail(InvalidEscape)
  }

  /** The exporter's `string_at`: find the end first, then decode what lies between. */
  function StringAt(t: string, raw: nat): Result<string> {
    var position := SkipSpace(t, raw);
    var end :- StringEnd(t, position);
    DecodeFrom(t, position + 1, end, "")
  }

  method StringAtLoop(t: string, raw: nat) returns (r: Result<string>)
    ensures r == StringAt(t, raw)
  {
    var position := SkipSpaceLoop(t, raw);
    var found := StringEndLoop(t, position);
    if found.Fail? {
      return Fail(found.error);
    }
    var end := found.value;
    var value := "";
    var cursor := position + 1;
    while cursor < end
      invariant DecodeFrom(t, cursor, end, value) == StringAt(t, raw)
    {
      if t[cursor] != '\\' {
        value := value + [t[cursor]];
        cursor := cursor + 1;
        continue;
      }
      cursor := cursor + 1;
      if cursor >= end {
        return Fail(UnterminatedEscape);
      }
      match t[cursor] {
        case '"' => value := value + ['"'];
        case '\\' => value := value + ['\\'];
        case '/' => value := value + ['/'];
        case 'b' => value := value + [BACKSPACE];
        case 'f' => value := value + [FORM_FEED];
        case 'n' => value := value + ['\n'];
        case 'r' => value := value + ['\r'];
        case 't' => value := value + ['\t'];
        case 'u' =>
          if cursor + 4 >= end {
            return Fail(IncompleteUnicode);
          }
          value := value + ['?'];
          cursor := cursor + 4;
        case _ => return Fail(InvalidEscape);
      }
      cursor := cursor + 1;
    }
    return Ok(value);
  }

  lemma {:induction false} EndPlain(t: string, cursor: nat, w: string)
    requires At(t, cursor, w) && forall k :: 0 <= k < |w| ==> w[k] != '"' && w[k] != '\\'
    ensures EndFrom(t, cursor, false) == EndFrom(t, cursor + |w|, false)
    decreases |w|
  {
    if w != "" {
      assert t[cursor + 0] == w[0];
      assert At(t, cursor + 1, w[1..]) by {
        AtConcat(t, cursor, [w[0]], w[1..]);
        assert w == [w[0]] + w[1..];
      }
      EndPlain(t, cursor + 1, w[1..]);
    }
  }

  lemma EndUnit(t: string, cursor: nat, u: Unit)
    requires ValidUnit(u) && At(t, cursor, SpellUnit(u))
    ensures EndFrom(t, cursor, false) == EndFrom(t, cursor + |SpellUnit(u)|, false)
  {
    var w := SpellUnit(u);
    assert t[cursor + 0] == w[0];
    if u.Short? {
      assert t[cursor + 1] == w[1];
    } else if u.Unicode? {
      assert t[cursor + 1] == w[1] == 'u';
      assert w == "\\u" + u.digits;
      AtConcat(t, cursor, "\\u", u.digits);
      EndPlain(t, cursor + 2, u.digits);
    }
  }

  lemma {:induction false} EndSpelled(t: string, cursor: nat, us: seq<Unit>)
    requires ValidUnits(us) && At(t, cursor, Spell(us) + "\"")
    ensures EndFrom(t, cursor, false) == Ok(cursor + |Spell(us)|)
    decreases |us|
  {
    hide At, SpellUnit, ValidUnit;
    if us == [] {
      SpellEnd(t, cursor);
    } else {
      SpellTail(t, cursor, us);
      EndUnit(t, cursor, us[0]);
      EndSpelled(t, cursor + |SpellUnit(us[0])|, us[1..]);
    }
  }

  lemma DecodeStep(t: string, cursor: nat, end: nat, value: string, u: Unit)
    requires ValidUnit(u) && At(t, cursor, SpellUnit(u)) && cursor + |SpellUnit(u)| <= end <= |t|
    ensures DecodeFrom(t, cursor, end, value)
         == DecodeFrom(t, cursor + |SpellUnit(u)|, end, value + LossyUnit(u))
  {
    var w := SpellUnit(u);
    assert t[cursor + 0] == w[0];
    if !u.Raw? {
      assert t[cursor + 1] == w[1];
    }
  }

  lemma {:induction false} DecodeSpelled(t: string, cursor: nat, end: nat, value: string, us: seq<Unit>)
    requires ValidUnits(us) && At(t, cursor, Spell(us) + "\"") && end == cursor + |Spell(us)| <= |t|
    ensures DecodeFrom(t, cursor, end, value) == Ok(value + DecodeLossy(us))
    decreases |us|
  {
    hide At, SpellUnit, ValidUnit, LossyUnit;
    if us == [] {
      assert value + DecodeLossy(us) == value;
    } else {
      SpellTail(t, cursor, us);
      var u, rest := us[0], us[1..];
      DecodeStep(t, cursor, end, value, u);
      DecodeSpelled(t, cursor + |SpellUnit(u)|, end, value + LossyUnit(u), rest);
      Associates(value, LossyUnit(u), DecodeLossy(rest));
    }
  }

  /**
   The exporter's scanner refines the comparator's: wherever the comparator reads a literal, the
   exporter finds the same closing quote, and decodes the same units in its own lossy way.
   */
  lemma StringEndRefines(t: string, p: nat) returns (us: seq<Unit>)
    requires ParseString(t, p).Ok?
    ensures ValidUnits(us) && At(t, p, Quote(us))
    ensures ParseString(t, p) == Ok((Decode(us), p + |Quote(us)|))
    ensures StringEnd(t, p) == Ok(p + |Quote(us)| - 1)
    ensures StringAt(t, p) == Ok(DecodeLossy(us))
  {
    hide At, Spell, Quote, Decode, DecodeLossy, ParseFrom, ValidUnits, StringEnd, StringAt;
    us := ParseSound(t, p + 1, "");
    QuoteParts(t, p, us);
    ParseQuoted(t, p, us);
    ScanQuoted(t, p, us);
  }

  lemma ScanQuoted(t: string, p: nat, us: seq<Unit>)
    requires ValidUnits(us) && At(t, p, Quote(us))
    ensures StringEnd(t, p) == Ok(p + |Quote(us)| - 1)
    ensures StringAt(t, p) == Ok(DecodeLossy(us))
  {
    hide At, Spell, Quote, DecodeLossy, DecodeFrom, EndFrom, ValidUnits;
    QuoteParts(t, p, us);
    assert SkipSpace(t, p) == p;
    var end := p + 1 + |Spell(us)|;
    EndSpelled(t, p + 1, us);
    assert StringEnd(t, p) == Ok(end);
    DecodeSpelled(t, p + 1, end, "", us);
    assert "" + DecodeLossy(us) == DecodeLossy(us);
  }

  // ---------------------------------------------------------------- the emitter's escaping

  function HexDigit(n: nat): char
    requires n < 16
  {
    "0123456789abcdef"[n]
  }

  /** A control character with no short escape. */
  predicate IsBareControl(c: char) {
    c < ' ' && c != BACKSPACE && c != FORM_FEED && c != '\n' && c != '\r' && c != '\t'
  }

  function EscapeChar(c: char): string {
    match c
    case '"' => "\\\""
    case '\\' => "\\\\"
    case '\n' => "\\n"
    case '\r' => "\\r"
    case '\t' => "\\t"
    case _ =>
      if c == BACKSPACE then "\\b"
      else if c == FORM_FEED then "\\f"
      else if c < ' ' then "\\u00" + [HexDigit(c as nat / 16), HexDigit(c as nat % 16)]
      else [c]
  }

  function EscapeJson(s: string): string {
    if s == "" then "" else EscapeChar(s[0]) + EscapeJson(s[1..])
  }

  lemma {:induction false} EscapeAppend(s: string, c: char)
    ensures EscapeJson(s + [c]) == EscapeJson(s) + EscapeChar(c)
    decreases |s|
  {
    if s == "" {
      assert [c][1..] == "";
    } else {
      assert (s + [c])[1..] == s[1..] + [c];
      EscapeAppend(s[1..], c);
    }
  }

  method EscapeJsonLoop(value: string) returns (out: string)
    ensures out == EscapeJson(value)
  {
    out := "";
    for i := 0 to |value|
      invariant out == EscapeJson(value[..i])
    {
      var c := value[i];
      EscapeAppend(value[..i], c);
      assert value[..i + 1] == value[..i] + [c];
      if c == '"' { out := out + "\\\""; }
      else if c == '\\' { out := out + "\\\\"; }
      else if c == BACKSPACE { out := out + "\\b"; }
      else if c == FORM_FEED { out := out + "\\f"; }
      else if c == '\n' { out := out + "\\n"; }
      else if c == '\r' { out := out + "\\r"; }
      else if c == '\t' { out := out + "\\t"; }
      else if c < ' ' {
        out := out + ("\\u00" + [HexDigit(c as nat / 16), HexDigit(c as nat % 16)]);
      } else {
        out := out + [c];
      }
    }
    assert value[..|value|] == value;
  }

  /** The units the emitter writes for a character. */
  function UnitOf(c: char): (u: Unit)
    ensures ValidUnit(u) && SpellUnit(u) == EscapeChar(c)
  {
    if c == '"' || c == '\\' then Short(c)
    else if c == BACKSPACE then Short('b')
    else if c == FORM_FEED then Short('f')
    else if c == '\n' then Short('n')
    else if c == '\r' then Short('r')
    else if c == '\t' then Short('t')
    else if c < ' ' then Unicode("00" + [HexDigit(c as nat / 16), HexDigit(c as nat % 16)])
    else Raw(c)
  }

  function UnitsOf(s: string): (us: seq<Unit>)
    ensures ValidUnits(us) && Spell(us) == EscapeJson(s)
  {
    if s == "" then [] else [UnitOf(s[0])] + UnitsOf(s[1..])
  }

  /** What comes back from the comparator: bare controls as their six-character escape. */
  function Shown(s: string): string {
    if s == "" then ""
    else (if IsBareControl(s[0]) then EscapeChar(s[0]) else [s[0]]) + Shown(s[1..])
  }

  /** What comes back from the exporter: bare controls as question marks. */
  function Masked(s: string): (m: string)
    ensures |m| == |s|
    ensures forall k :: 0 <= k < |s| ==> m[k] == if IsBareControl(s[k]) then '?' else s[k]
  {
    if s == "" then "" else [if IsBareControl(s[0]) then '?' else s[0]] + Masked(s[1..])
  }

  lemma DecodeUnitOf(c: char)
    ensures DecodeUnit(UnitOf(c)) == if IsBareControl(c) then EscapeChar(c) else [c]
    ensures UnitOf(c).Unicode? <==> IsBareControl(c)
  {
  }

  lemma {:induction false} DecodeUnitsOf(s: string)
    ensures Decode(UnitsOf(s)) == Shown(s)
    ensures DecodeLossy(UnitsOf(s)) == Masked(s)
    decreases |s|
  {
    if s != "" {
      var u, rest := UnitOf(s[0]), UnitsOf(s[1..]);
      assert UnitsOf(s)[0] == u && UnitsOf(s)[1..] == rest;
      DecodeUnitsOf(s[1..]);
      DecodeUnitOf(s[0]);
    }
  }

  ghost predicate NoBareControl(s: string) {
    forall k :: 0 <= k < |s| ==> !IsBareControl(s[k])
  }

  /** The comparator's copy is the original exactly when no bare control occurs in it. */
  lemma {:induction false} ShownExact(s: string)
    ensures |s| <= |Shown(s)|
    ensures Shown(s) == s <==> NoBareControl(s)
    decreases |s|
  {
    if s != "" {
      ShownExact(s[1..]);
      var head := if IsBareControl(s[0]) then EscapeChar(s[0]) else [s[0]];
      if Shown(s) == s {
        assert |head| == 1;
        assert Shown(s)[1..] == Shown(s[1..]);
        assert forall k :: 1 <= k < |s| ==> s[k] == s[1..][k - 1];
      }
      if NoBareControl(s) {
        assert NoBareControl(s[1..]);
        assert s == [s[0]] + s[1..];
      }
    }
  }

  /** The exporter's copy is the original exactly when no bare control occurs in it. */
  lemma MaskedExact(s: string)
    ensures Masked(s) == s <==> NoBareControl(s)
  {
    if Masked(s) == s {
      forall k | 0 <= k < |s|
        ensures !IsBareControl(s[k])
      {
        assert Masked(s)[k] == s[k];
      }
    }
  }

  lemma QuoteOf(s: string)
    ensures Quote(UnitsOf(s)) == "\"" + EscapeJson(s) + "\""
  {
    hide UnitsOf, EscapeJson, Spell;
  }

  /** An escaped and quoted text is read back whole by both readers, wherever it stands. */
  lemma EscapeRoundTrip(t: string, p: nat, s: string)
    requires At(t, p, "\"" + EscapeJson(s) + "\"")
    ensures ParseString(t, p) == Ok((Shown(s), p + |EscapeJson(s)| + 2))
    ensures StringEnd(t, p) == Ok(p + |EscapeJson(s)| + 1)
    ensures StringAt(t, p) == Ok(Masked(s))
    ensures Shown(s) == s <==> NoBareControl(s)
    ensures Masked(s) == s <==> NoBareControl(s)
  {
    hide Spell, Decode, DecodeLossy, ParseString, StringEnd, StringAt, EscapeJson, NoBareControl, ValidUnits, At,
         Shown, Masked, UnitsOf, Quote;
    var us := UnitsOf(s);
    QuoteOf(s);
    QuoteParts(t, p, us);
    ParseQuoted(t, p, us);
    ScanQuoted(t, p, us);
    DecodeUnitsOf(s);
    ShownExact(s);
    MaskedExact(s);
  }

  /**
   Two different names the comparator cannot tell apart: a bare control character, and the six
   characters of its escape. The exporter does tell these two apart.
   */
  lemma ShownNotInjective()
    ensures var a, b := [1 as char], "\\u0001";
            a != b && Shown(a) == Shown(b) && Masked(a) != Masked(b)
  {
    var a: string, b := [1 as char], "\\u0001";
    assert Shown(a) == "\\u0001" + Shown(a[1..]);
    assert NoBareControl(b);
    ShownExact(b);
  }

  // ---------------------------------------------------------------- the standard

  /** The short escapes are those of the standard, in both directions. */
  lemma EscapesStandard()
    ensures ShortValue('b') == Some(8 as char) && ShortValue('t') == Some(9 as char)
    ensures ShortValue('n') == Some(10 as char) && ShortValue('f') == Some(12 as char)
    ensures ShortValue('r') == Some(13 as char) && ShortValue('/') == Some('/')
    ensures ShortValue('"') == Some('"') && ShortValue('\\') == Some('\\')
    ensures forall letter :: ShortValue(letter).Some? ==> letter in "btnfr/\"\\"
  {
  }

  /** The number a hexadecimal digit stands for. */
  function HexValue(c: char): int {
    if '0' <= c <= '9' then c as int - '0' as int
    else if 'a' <= c <= 'f' then 10 + (c as int - 'a' as int)
    else if 'A' <= c <= 'F' then 10 + (c as int - 'A' as int)
    else 0
  }

  /** A bare control is written as a unicode escape of its own number. */
  lemma BareEscape(c: char)
    requires IsBareControl(c)
    ensures var w := EscapeChar(c);
      |w| == 6 && w[..4] == "\\u00" && IsHex(w[4]) && IsHex(w[5]) && 16 * HexValue(w[4]) + HexValue(w[5]) == c as int
  {
    HexDigits(c as int / 16);
    HexDigits(c as int % 16);
  }

  lemma HexDigits(k: nat)
    requires k < 16
    ensures IsHex(HexDigit(k)) && HexValue(HexDigit(k)) == k
  {
  }

  /** Escaped text holds no control characters. */
  lemma {:induction false} EscapedPrintable(s: string, k: nat)
    requires k < |EscapeJson(s)|
    ensures EscapeJson(s)[k] >= ' '
    decreases |s|
  {
    hide EscapeChar;
    var w := EscapeChar(s[0]);
    if k < |w| {
      CharPrintable(s[0], k);
    } else {
      EscapedPrintable(s[1..], k - |w|);
    }
  }

  lemma CharPrintable(c: char, k: nat)
    requires k < |EscapeChar(c)|
    ensures EscapeChar(c)[k] >= ' '
  {
    hide HexDigit;
    if IsBareControl(c) {
      HexDigits(c as int / 16);
      HexDigits(c as int % 16);
    }
  }
}
