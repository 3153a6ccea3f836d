/**
 Indented JSON objects, one field a line, as the emitter writes them: the text of a block, and how
 the fields of a block are looked up by either reader.
 */
module Blocks {
  import opened Results
  import opened Text
  import opened Literals
  import opened Trees
  import opened Search
  import opened Fields
  import Reader

  datatype Line = Line(field: Field, value: Json)

  // ---------------------------------------------------------------- trees

  function RawUnits(w: string): seq<Unit> {
    if w == "" then [] else [Raw(w[0])] + RawUnits(w[1..])
  }

  lemma {:induction false} RawSpelling(w: string)
    ensures Spell(RawUnits(w)) == w
    decreases |w|
  {
    if w != "" {
      assert RawUnits(w)[1..] == RawUnits(w[1..]);
      RawSpelling(w[1..]);
    }
  }

  lemma {:induction false} RawValid(w: string)
    requires forall k :: 0 <= k < |w| ==> IsNameChar(w[k])
    ensures ValidUnits(RawUnits(w))
    decreases |w|
  {
    if w != "" {
      RawValid(w[1..]);
    }
  }

  function KeyOf(f: Field): Tag {
    Key(RawUnits(Name(f)), "", " ")
  }

  function Entry1(line: Line, indent: string, rest: Entries): Entries {
    if rest.End? then Entry(KeyOf(line.field), line.value, "\n" + indent, "", rest)
    else Entry(KeyOf(line.field), line.value, "", "\n" + indent + "  ", rest)
  }

  function EntriesOf(lines: seq<Line>, indent: string): Entries {
    if lines == [] then End else Entry1(lines[0], indent, EntriesOf(lines[1..], indent))
  }

  /** An object that starts on the current line, its fields indented by two more columns. */
  function Block(lines: seq<Line>, indent: string): (j: Json)
    ensures j.Object?
  {
    Object("\n" + indent + "  ", EntriesOf(lines, indent))
  }

  predicate AllValid(lines: seq<Line>) {
    forall k :: 0 <= k < |lines| ==> ValidJson(lines[k].value)
  }

  lemma EntryValid(line: Line, indent: string, rest: Entries)
    requires ValidJson(line.value) && AllSpace(indent) && ValidEntries(rest, true)
    ensures ValidEntries(Entry1(line, indent, rest), true)
  {
    hide ValidJson, Name, ValidUnits, RawUnits;
    NameIsName(line.field);
    RawValid(Name(line.field));
  }

  lemma {:induction false} EntriesValid(lines: seq<Line>, indent: string)
    requires AllValid(lines) && AllSpace(indent)
    ensures ValidEntries(EntriesOf(lines, indent), true)
    decreases |lines|
  {
    hide ValidJson, Entry1, AllSpace;
    if lines != [] {
      EntriesValid(lines[1..], indent);
      EntryValid(lines[0], indent, EntriesOf(lines[1..], indent));
    }
  }

  lemma BlockValid(lines: seq<Line>, indent: string)
    requires AllValid(lines) && AllSpace(indent)
    ensures ValidJson(Block(lines, indent))
  {
    hide EntriesOf;
    EntriesValid(lines, indent);
  }

  // ---------------------------------------------------------------- lookup

  lemma {:induction false} RawDecoding(w: string)
    ensures Decode(RawUnits(w)) == w
    decreases |w|
  {
    if w != "" {
      assert RawUnits(w)[1..] == RawUnits(w[1..]);
      RawDecoding(w[1..]);
    }
  }

  /** Line `k` is the first of its field. */
  predicate IsFirst(lines: seq<Line>, k: nat) {
    k < |lines| && forall i :: 0 <= i < k ==> lines[i].field != lines[k].field
  }

  lemma {:induction false} SelectLine(lines: seq<Line>, indent: string, k: nat)
    requires IsFirst(lines, k)
    ensures Select(EntriesOf(lines, indent), Name(lines[k].field)) == Some(lines[k].value)
    decreases |lines|
  {
    hide Name, Decode, RawUnits;
    RawDecoding(Name(lines[0].field));
    if k > 0 {
      NamesDiffer(lines[0].field, lines[k].field);
      assert forall i :: 0 <= i < k ==> lines[1..][i] == lines[i + 1];
      SelectLine(lines[1..], indent, k - 1);
    }
  }

  /** The comparator finds every first field of a printed block, at any place in a text. */
  lemma BlockMember(t: string, p: nat, lines: seq<Line>, indent: string, k: nat) returns (v: nat)
    requires AllValid(lines) && AllSpace(indent) && At(t, p, Print(Block(lines, indent))) && IsFirst(lines, k)
    ensures var span := Reader.SpanOf(p, Block(lines, indent));
      && Reader.Encloses(t, span)
      && Reader.ObjectAt(t, p) == Ok(span)
      && Reader.Required(t, span, Name(lines[k].field)) == Ok(v)
    ensures Stands(t, v, lines[k].value)
    ensures Lookup(Block(lines, indent).entries, p + 1 + |Block(lines, indent).pad|, Name(lines[k].field)) == Some(v)
  {
    hide At, Print, ValidJson, Reader.Find, Reader.ObjectAt, Name, EntriesOf, Lookup, Select, Stands;
    var j, name := Block(lines, indent), Name(lines[k].field);
    BlockValid(lines, indent);
    Reader.FindExact(t, p, j, name);
    Reader.MemberStands(t, p, j, name);
    SelectLine(lines, indent, k);
    v := Lookup(j.entries, p + 1 + |j.pad|, name).value;
  }

  // ---------------------------------------------------------------- unscoped search

  lemma RawMentions(f: Field, g: Field)
    ensures Spell(RawUnits(Name(f))) == Name(g) <==> f == g
  {
    hide Name, Spell, RawUnits;
    RawSpelling(Name(f));
    if f != g {
      NamesDiffer(f, g);
    }
  }

  /** Some line has the field `f`, or a value with such a field inside. */
  ghost predicate Mentioned(lines: seq<Line>, f: Field) {
    exists i :: 0 <= i < |lines| && LineMentions(lines[i], f)
  }

  ghost predicate LineMentions(line: Line, f: Field) {
    line.field == f || Mentions(line.value, Name(f))
  }

  lemma {:induction false} LinesMention(lines: seq<Line>, indent: string, f: Field)
    ensures MentionsIn(EntriesOf(lines, indent), Name(f)) <==> Mentioned(lines, f)
    decreases |lines|
  {
    hide Name, Spell, RawUnits, Mentions, Mentioned;
    if lines == [] {
      NoneMentioned(lines, f);
    } else {
      RawMentions(lines[0].field, f);
      LinesMention(lines[1..], indent, f);
      MentionedTail(lines, f);
    }
  }

  lemma NoneMentioned(lines: seq<Line>, f: Field)
    requires lines == []
    ensures !Mentioned(lines, f)
  {
  }

  lemma MentionedTail(lines: seq<Line>, f: Field)
    requires lines != []
    ensures Mentioned(lines, f) <==> LineMentions(lines[0], f) || Mentioned(lines[1..], f)
  {
    hide LineMentions;
    if Mentioned(lines[1..], f) {
      var i :| 0 <= i < |lines[1..]| && LineMentions(lines[1..][i], f);
      assert lines[i + 1] == lines[1..][i];
    }
    if Mentioned(lines, f) && !LineMentions(lines[0], f) {
      var i :| 0 <= i < |lines| && LineMentions(lines[i], f);
      assert lines[1..][i - 1] == lines[i];
    }
  }

  lemma BlockMentions(lines: seq<Line>, indent: string, f: Field)
    ensures Mentions(Block(lines, indent), Name(f)) <==> Mentioned(lines, f)
  {
    hide Name, EntriesOf, Mentioned, MentionsIn;
    LinesMention(lines, indent, f);
  }

  /** Nothing in front of line `k` could be taken for its field. */
  ghost predicate IsClear(lines: seq<Line>, k: nat) {
    IsFirst(lines, k) && forall i :: 0 <= i < k ==> !Mentions(lines[i].value, Name(lines[k].field))
  }

  lemma {:induction false} LinesClear(lines: seq<Line>, indent: string, k: nat)
    requires IsClear(lines, k)
    ensures ClearBefore(EntriesOf(lines, indent), Name(lines[k].field))
    decreases |lines|
  {
    hide Name, Spell, RawUnits, Mentions;
    RawMentions(lines[0].field, lines[k].field);
    if k > 0 {
      assert forall i :: 0 <= i < k ==> lines[1..][i] == lines[i + 1];
      LinesClear(lines[1..], indent, k - 1);
    }
  }

  /** The exporter finds every clear field of a document that is a printed block. */
  lemma BlockSearch(doc: string, lines: seq<Line>, indent: string, after: string, k: nat) returns (v: nat)
    requires doc == Print(Block(lines, indent)) + after && AllSpace(after)
    requires AllValid(lines) && AllSpace(indent) && IsClear(lines, k)
    ensures FindValue(doc, Name(lines[k].field)) == Some(v) && Stands(doc, v, lines[k].value)
    ensures Lookup(Block(lines, indent).entries, 1 + |Block(lines, indent).pad|, Name(lines[k].field)) == Some(v)
  {
    hide At, Print, ValidJson, Name, EntriesOf, Lookup, Select, Stands, FindValue, FirstKeyIn, ClearBefore;
    var j, name := Block(lines, indent), Name(lines[k].field);
    BlockValid(lines, indent);
    LinesClear(lines, indent, k);
    SelectLine(lines, indent, k);
    NameIsName(lines[k].field);
    NameIsToken(name);
    SearchBlock(doc, j, after, name);
    v := Lookup(j.entries, 1 + |j.pad|, name).value;
  }

  lemma SearchBlock(doc: string, j: Json, after: string, name: string)
    requires doc == Print(j) + after && AllSpace(after)
    requires j.Object? && ValidJson(j) && IsName(name) && ClearBefore(j.entries, name)
    ensures FindValue(doc, name) == Lookup(j.entries, 1 + |j.pad|, name)
    ensures Lookup(j.entries, 1 + |j.pad|, name).Some? == Select(j.entries, name).Some?
    ensures Lookup(j.entries, 1 + |j.pad|, name).Some? ==>
      Stands(doc, Lookup(j.entries, 1 + |j.pad|, name).value, Select(j.entries, name).value)
  {
    hide At, Print, ValidJson, Lookup, Select, Stands, FindValue, FirstKeyIn, ClearBefore, IsName, IsToken;
    assert doc == "" + Print(j) + after;
    NameIsToken(name);
    FindValueExact(doc, "", j, after, name);
    MembersValid(j);
    FirstIsLookup(j.entries, 1 + |j.pad|, name);
    AtPrefix(doc, Print(j), after);
    Reader.MemberStands(doc, 0, j, name);
  }

  lemma AtPrefix(doc: string, w: string, after: string)
    requires doc == w + after
    ensures At(doc, 0, w)
  {
  }

  // ---------------------------------------------------------------- text

  /** The quoted name at the start of a line, as far as the value. */
  function Caption(indent: string, f: Field): string {
    indent + "  \"" + Name(f) + "\": "
  }

  /** The lines so far, each with the comma that leads on to the next one. */
  function Front(lines: seq<Line>, indent: string): string {
    if lines == [] then ""
    else Caption(indent, lines[0].field) + Print(lines[0].value) + ",\n" + Front(lines[1..], indent)
  }

  lemma {:induction false} FrontAppend(lines: seq<Line>, line: Line, indent: string)
    ensures Front(lines + [line], indent)
         == Front(lines, indent) + Caption(indent, line.field) + Print(line.value) + ",\n"
    decreases |lines|
  {
    hide Caption, Print;
    var c, v := Caption(indent, line.field), Print(line.value);
    if lines == [] {
      assert [line][1..] == [];
      assert c + v + ",\n" + "" == "" + c + v + ",\n";
    } else {
      assert (lines + [line])[0] == lines[0];
      assert (lines + [line])[1..] == lines[1..] + [line];
      FrontAppend(lines[1..], line, indent);
      Regroup(Caption(indent, lines[0].field) + Print(lines[0].value) + ",\n", Front(lines[1..], indent), c, v, ",\n");
    }
  }

  lemma Regroup(a: string, b: string, c: string, d: string, e: string)
    ensures a + (b + c + d + e) == a + b + c + d + e
  {
  }

  lemma CaptionPrinted(indent: string, f: Field)
    ensures indent + "  " + PrintTag(KeyOf(f)) == Caption(indent, f)
  {
    hide Spell, Name;
    RawSpelling(Name(f));
    var w := Name(f);
    assert ("\"" + w + "\"") + "" + ":" + " " == "\"" + w + "\": ";
    assert indent + "  " + ("\"" + w + "\": ") == indent + "  \"" + w + "\": ";
  }

  /** The printed entries of a block, its last line ended by a line break instead of a comma. */
  lemma {:induction false} FrontPrinted(lines: seq<Line>, line: Line, indent: string)
    ensures indent + "  " + PrintEntries(EntriesOf(lines + [line], indent))
         == Front(lines, indent) + (Caption(indent, line.field) + Print(line.value) + ("\n" + indent))
    decreases |lines|
  {
    hide Caption, Print, PrintTag, PrintEntries, KeyOf, Entry1, EntriesOf, Front;
    if lines == [] {
      OneLine(line, indent);
      NoFront(indent, Caption(indent, line.field) + Print(line.value) + ("\n" + indent));
      assert lines + [line] == [line];
    } else {
      var all := lines + [line];
      assert all[0] == lines[0] && all[1..] == lines[1..] + [line];
      FrontPrinted(lines[1..], line, indent);
      FirstLine(all, indent);
      FirstFront(lines, indent);
      Relink(Caption(indent, lines[0].field), Print(lines[0].value), indent + "  ",
             PrintEntries(EntriesOf(all[1..], indent)), Front(lines[1..], indent),
             Caption(indent, line.field) + Print(line.value) + ("\n" + indent));
    }
  }

  lemma NoFront(indent: string, w: string)
    ensures Front([], indent) + w == w
  {
  }

  lemma FirstFront(lines: seq<Line>, indent: string)
    requires lines != []
    ensures Front(lines, indent)
         == Caption(indent, lines[0].field) + Print(lines[0].value) + ",\n" + Front(lines[1..], indent)
  {
  }

  lemma OneLine(line: Line, indent: string)
    ensures indent + "  " + PrintEntries(EntriesOf([line], indent))
         == Caption(indent, line.field) + Print(line.value) + ("\n" + indent)
  {
    hide Caption, Print, PrintTag, PrintEntries, KeyOf, Entry1;
    assert [line][1..] == [];
    CaptionPrinted(indent, line.field);
    LastEntry(line, indent);
    Tail(indent + "  ", PrintTag(KeyOf(line.field)), Print(line.value), "\n" + indent);
  }

  lemma FirstLine(lines: seq<Line>, indent: string)
    requires |lines| > 1
    ensures indent + "  " + PrintEntries(EntriesOf(lines, indent))
         == Caption(indent, lines[0].field) + Print(lines[0].value) + ",\n"
            + (indent + "  " + PrintEntries(EntriesOf(lines[1..], indent)))
  {
    hide Caption, Print, PrintTag, PrintEntries, KeyOf, Entry1, EntriesOf;
    CaptionPrinted(indent, lines[0].field);
    FirstEntry(lines, indent);
    InnerEntry(lines[0], indent, EntriesOf(lines[1..], indent));
    Link(indent + "  ", PrintTag(KeyOf(lines[0].field)), Print(lines[0].value),
         PrintEntries(EntriesOf(lines[1..], indent)));
  }

  lemma FirstEntry(lines: seq<Line>, indent: string)
    requires |lines| > 1
    ensures EntriesOf(lines, indent) == Entry1(lines[0], indent, EntriesOf(lines[1..], indent))
    ensures EntriesOf(lines[1..], indent).Entry?
  {
  }

  lemma Relink(caption: string, v: string, pad: string, rest: string, front: string, last: string)
    requires pad + rest == front + last
    ensures caption + v + ",\n" + (pad + rest) == caption + v + ",\n" + front + last
  {
  }

  lemma LastEntry(line: Line, indent: string)
    ensures PrintEntries(Entry1(line, indent, End))
         == PrintTag(KeyOf(line.field)) + Print(line.value) + ("\n" + indent)
  {
    hide Print, PrintTag, KeyOf;
    var w := PrintTag(KeyOf(line.field)) + Print(line.value) + ("\n" + indent);
    assert w + "" == w;
  }

  lemma InnerEntry(line: Line, indent: string, rest: Entries)
    requires rest.Entry?
    ensures PrintEntries(Entry1(line, indent, rest))
         == PrintTag(KeyOf(line.field)) + Print(line.value) + ("," + ("\n" + indent + "  ") + PrintEntries(rest))
  {
    hide Print, PrintTag, KeyOf, PrintEntries;
    InnerPrinted(KeyOf(line.field), line.value, "\n" + indent + "  ", rest);
  }

  lemma InnerPrinted(tag: Tag, value: Json, gap: string, rest: Entries)
    requires rest.Entry?
    ensures PrintEntries(Entry(tag, value, "", gap, rest))
         == PrintTag(tag) + Print(value) + ("," + gap + PrintEntries(rest))
  {
    hide Print, PrintTag;
    var w := PrintTag(tag) + Print(value);
    assert w + "" == w;
  }

  lemma Tail(pad: string, tag: string, v: string, end: string)
    ensures pad + (tag + v + end) == (pad + tag) + v + end
  {
  }

  lemma Link(pad: string, tag: string, v: string, rest: string)
    ensures pad + (tag + v + ("," + ("\n" + pad) + rest)) == (pad + tag) + v + ",\n" + (pad + rest)
  {
  }

  /** A block prints as its lines, commas between them, a line break before the brace. */
  lemma BlockPrinted(lines: seq<Line>, line: Line, indent: string)
    ensures Print(Block(lines + [line], indent))
         == "{\n" + Front(lines, indent) + Caption(indent, line.field) + Print(line.value) + "\n" + indent + "}"
  {
    hide Caption, PrintEntries, EntriesOf, Front;
    FrontPrinted(lines, line, indent);
    var body := PrintEntries(EntriesOf(lines + [line], indent));
    Close(indent, body, Front(lines, indent), Caption(indent, line.field), Print(line.value));
  }

  lemma Close(indent: string, body: string, front: string, caption: string, v: string)
    requires indent + "  " + body == front + (caption + v + ("\n" + indent))
    ensures "{" + ("\n" + indent + "  ") + body + "}" == "{\n" + front + caption + v + "\n" + indent + "}"
  {
    assert "{" + ("\n" + indent + "  ") + body + "}" == "{\n" + (indent + "  " + body) + "}";
  }
}
