/**
 JSON documents as trees that keep their spelling: the whitespace of RFC 8259, section 2, at every
 place where it may stand, and the units of every string. A tree prints to exactly one text.
 */
module Trees {
  import opened Results
  import opened Text
  import opened Literals
  import opened Containers

  datatype Json =
    | Scalar(token: string)
    | Str(us: seq<Unit>)
    | Object(pad: string, entries: Entries)
    | Array(pad: string, entries: Entries)

  /** The members of an object, which carry a key, or the elements of an array, which do not. */
  datatype Entries = End | Entry(tag: Tag, value: Json, after: string, gap: string, rest: Entries)

  datatype Tag = Bare | Key(us: seq<Unit>, afterKey: string, beforeValue: string)

  predicate IsTokenChar(c: char) {
    !IsSpace(c) && !IsOpening(c) && !IsClosing(c) && c != ',' && c != ':' && c != '"' && c != '\\'
  }

  /** Numbers, booleans and null: any run of characters that cannot be taken for anything else. */
  predicate IsToken(w: string) {
    w != "" && forall k :: 0 <= k < |w| ==> IsTokenChar(w[k])
  }

  predicate ValidTag(tag: Tag, keyed: bool) {
    match tag
    case Bare => !keyed
    case Key(us, afterKey, beforeValue) =>
      keyed && ValidUnits(us) && AllSpace(afterKey) && AllSpace(beforeValue)
  }

  predicate ValidJson(j: Json) {
    match j
    case Scalar(token) => IsToken(token)
    case Str(us) => ValidUnits(us)
    case Object(pad, entries) => AllSpace(pad) && ValidEntries(entries, true)
    case Array(pad, entries) => AllSpace(pad) && ValidEntries(entries, false)
  }

  predicate ValidEntries(es: Entries, keyed: bool) {
    match es
    case End => true
    case Entry(tag, value, after, gap, rest) =>
      && ValidTag(tag, keyed)
      && ValidJson(value)
      && AllSpace(after)
      && AllSpace(gap)
      && ValidEntries(rest, keyed)
  }

  function PrintTag(tag: Tag): string {
    match tag
    case Bare => ""
    case Key(us, afterKey, beforeValue) => Quote(us) + afterKey + ":" + beforeValue
  }

  function Print(j: Json): (w: string)
    ensures if j.Scalar? then w == j.token else |w| >= 2
    decreases j, 0
  {
    match j
    case Scalar(token) => token
    case Str(us) => Quote(us)
    case Object(pad, entries) => "{" + pad + PrintEntries(entries) + "}"
    case Array(pad, entries) => "[" + pad + PrintEntries(entries) + "]"
  }

  function PrintEntries(es: Entries): string
    decreases es, 0
  {
    match es
    case End => ""
    case Entry(tag, value, after, gap, rest) =>
      PrintTag(tag) + Print(value) + after + PrintRest(gap, rest)
  }

  function PrintRest(gap: string, rest: Entries): string
    decreases rest, 1
  {
    if rest.End? then "" else "," + gap + PrintEntries(rest)
  }

  // ---------------------------------------------------------------- where the parts stand

  /** Where the value of an entry printed at `p` starts. */
  function ValuePos(p: nat, es: Entries): nat
    requires es.Entry?
  {
    p + |PrintTag(es.tag)|
  }

  /** Where the comma, or the closing delimiter, after an entry printed at `p` stands. */
  function CommaPos(p: nat, es: Entries): nat
    requires es.Entry?
  {
    ValuePos(p, es) + |Print(es.value)| + |es.after|
  }

  /** Where the next entry starts. */
  function RestPos(p: nat, es: Entries): nat
    requires es.Entry?
  {
    CommaPos(p, es) + 1 + |es.gap|
  }

  lemma EntryParts(t: string, p: nat, es: Entries)
    requires es.Entry?
    ensures At(t, p, PrintEntries(es)) <==>
      && At(t, p, PrintTag(es.tag))
      && At(t, ValuePos(p, es), Print(es.value))
      && At(t, ValuePos(p, es) + |Print(es.value)|, es.after)
      && At(t, CommaPos(p, es), PrintRest(es.gap, es.rest))
    ensures es.rest.End? ==> p + |PrintEntries(es)| == CommaPos(p, es)
    ensures es.rest.Entry? ==> p + |PrintEntries(es)| == RestPos(p, es) + |PrintEntries(es.rest)|
  {
    hide At, PrintTag, Print, PrintRest;
    AtFour(t, p, PrintTag(es.tag), Print(es.value), es.after, PrintRest(es.gap, es.rest));
    RestLength(es.gap, es.rest);
  }

  lemma RestLength(gap: string, rest: Entries)
    ensures |PrintRest(gap, rest)| == if rest.End? then 0 else 1 + |gap| + |PrintEntries(rest)|
  {
  }

  lemma RestParts(t: string, p: nat, gap: string, rest: Entries)
    requires rest.Entry?
    ensures At(t, p, PrintRest(gap, rest)) <==>
      p < |t| && t[p] == ',' && At(t, p + 1, gap) && At(t, p + 1 + |gap|, PrintEntries(rest))
  {
    hide At, PrintEntries;
    AtConcat(t, p, [','] + gap, PrintEntries(rest));
    AtConcat(t, p, [','], gap);
    AtOne(t, p, ',');
  }

  lemma KeyParts(t: string, p: nat, us: seq<Unit>, afterKey: string, beforeValue: string)
    ensures var colon := p + |Quote(us)| + |afterKey|;
            && |PrintTag(Key(us, afterKey, beforeValue))| == |Quote(us)| + |afterKey| + 1 + |beforeValue|
            && (At(t, p, PrintTag(Key(us, afterKey, beforeValue))) <==>
                && At(t, p, Quote(us))
                && At(t, p + |Quote(us)|, afterKey)
                && colon < |t|
                && t[colon] == ':'
                && At(t, colon + 1, beforeValue))
  {
    hide At, Quote;
    AtConcat(t, p, Quote(us) + afterKey + [':'], beforeValue);
    AtConcat(t, p, Quote(us) + afterKey, [':']);
    AtConcat(t, p, Quote(us), afterKey);
    AtOne(t, p + |Quote(us)| + |afterKey|, ':');
  }

  lemma ContainerParts(t: string, p: nat, j: Json)
    requires j.Object? || j.Array?
    ensures var close := p + 1 + |j.pad| + |PrintEntries(j.entries)|;
            && |Print(j)| == close + 1 - p
            && (At(t, p, Print(j)) <==>
                && close < |t|
                && t[p] == (if j.Object? then '{' else '[')
                && At(t, p + 1, j.pad)
                && At(t, p + 1 + |j.pad|, PrintEntries(j.entries))
                && t[close] == (if j.Object? then '}' else ']'))
  {
    hide At, PrintEntries;
    var open, shut := if j.Object? then '{' else '[', if j.Object? then '}' else ']';
    var body := PrintEntries(j.entries);
    AtConcat(t, p, [open] + j.pad + body, [shut]);
    AtConcat(t, p, [open] + j.pad, body);
    AtConcat(t, p, [open], j.pad);
    AtOne(t, p, open);
    AtOne(t, p + 1 + |j.pad| + |body|, shut);
  }

  /** The first character of a printed value. */
  lemma FirstChar(t: string, p: nat, j: Json)
    requires ValidJson(j) && At(t, p, Print(j))
    ensures p < |t| && |Print(j)| > 0 && !IsSpace(t[p]) && !IsClosing(t[p]) && t[p] != ','
    ensures j.Str? <==> t[p] == '"'
    ensures (j.Object? || j.Array?) <==> IsOpening(t[p])
    ensures j.Object? <==> t[p] == '{'
  {
    match j
    case Scalar(token) =>
      assert t[p + 0] == token[0];
    case Str(us) =>
      hide At, Quote;
      QuoteParts(t, p, us);
    case _ =>
      ContainerParts(t, p, j);
  }

  // ---------------------------------------------------------------- lookup in the tree

  /** Where the value of the first member stands whose decoded key is `wanted`. */
  function Lookup(es: Entries, p: nat, wanted: string): Option<nat> {
    match es
    case End => None
    case Entry(tag, value, after, gap, rest) =>
      if tag.Key? && Decode(tag.us) == wanted then Some(ValuePos(p, es))
      else Lookup(rest, RestPos(p, es), wanted)
  }

  /** That value itself. */
  function Select(es: Entries, wanted: string): Option<Json> {
    match es
    case End => None
    case Entry(tag, value, after, gap, rest) =>
      if tag.Key? && Decode(tag.us) == wanted then Some(value) else Select(rest, wanted)
  }

  /** What follows a value ends it: whitespace, a comma, a closing delimiter, or nothing. */
  predicate Ended(t: string, p: nat) {
    p < |t| ==> IsSpace(t[p]) || t[p] == ',' || IsClosing(t[p])
  }

  /** A value stands at `p`, printed, and nothing that follows could belong to it. */
  ghost predicate Stands(t: string, p: nat, j: Json) {
    ValidJson(j) && At(t, p, Print(j)) && Ended(t, p + |Print(j)|)
  }

  /** A value that is looked up stands, printed and ended, where the lookup says. */
  lemma {:induction false} LookupStands(t: string, p: nat, es: Entries, keyed: bool, wanted: string)
    requires ValidEntries(es, keyed) && At(t, p, PrintEntries(es)) && Ended(t, p + |PrintEntries(es)|)
    ensures Lookup(es, p, wanted).Some? == Select(es, wanted).Some?
    ensures Lookup(es, p, wanted).Some? ==>
      p < Lookup(es, p, wanted).value && Stands(t, Lookup(es, p, wanted).value, Select(es, wanted).value)
    decreases es
  {
    hide At, Print, PrintTag, PrintRest, PrintEntries, Decode, ValidJson;
    if es.Entry? {
      EntryParts(t, p, es);
      ValueEnded(t, p, es, keyed);
      if es.rest.Entry? {
        RestParts(t, CommaPos(p, es), es.gap, es.rest);
        LookupStands(t, RestPos(p, es), es.rest, keyed, wanted);
      }
      if es.tag.Key? {
        KeyParts(t, p, es.tag.us, es.tag.afterKey, es.tag.beforeValue);
      }
    }
  }

  lemma ValueEnded(t: string, p: nat, es: Entries, keyed: bool)
    requires es.Entry? && ValidEntries(es, keyed)
    requires At(t, p, PrintEntries(es)) && Ended(t, p + |PrintEntries(es)|)
    ensures Ended(t, CommaPos(p, es)) && Ended(t, ValuePos(p, es) + |Print(es.value)|)
    ensures At(t, ValuePos(p, es) + |Print(es.value)|, es.after)
    ensures CommaPos(p, es) < |t| && !IsSpace(t[CommaPos(p, es)]) ==>
      SkipSpace(t, ValuePos(p, es) + |Print(es.value)|) == CommaPos(p, es)
  {
    hide Print, PrintTag, PrintEntries, ValidJson;
    EntryParts(t, p, es);
    var e := ValuePos(p, es) + |Print(es.value)|;
    if es.rest.Entry? {
      RestParts(t, CommaPos(p, es), es.gap, es.rest);
    }
    if CommaPos(p, es) < |t| && !IsSpace(t[CommaPos(p, es)]) {
      SkipPad(t, e, es.after);
    }
    if es.after != "" {
      assert t[e + 0] == es.after[0];
    }
  }
}
