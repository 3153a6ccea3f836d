/** The exporter's Prometheus text: label escaping, the build-info line and the verdict gauges. */
module Exposition {
  import opened Results
  import opened Search
  import opened Exporter

  // ---------------------------------------------------------------- labels

  function EscapeLabelChar(c: char): string {
    match c
    case '\\' => "\\\\"
    case '"' => "\\\""
    case '\n' => "\\n"
    case _ => [c]
  }

  function EscapeLabel(s: string): string {
    if s == "" then "" else EscapeLabelChar(s[0]) + EscapeLabel(s[1..])
  }

  lemma {:induction false} EscapeLabelAppend(s: string, c: char)
    ensures EscapeLabel(s + [c]) == EscapeLabel(s) + EscapeLabelChar(c)
    decreases |s|
  {
    if s == "" {
      assert [c][1..] == "";
    } else {
      assert (s + [c])[1..] == s[1..] + [c];
      EscapeLabelAppend(s[1..], c);
    }
  }

  method EscapeLabelLoop(value: string) returns (escaped: string)
    ensures escaped == EscapeLabel(value)
  {
    escaped := "";
    for i := 0 to |value|
      invariant escaped == EscapeLabel(value[..i])
    {
      EscapeLabelAppend(value[..i], value[i]);
      assert value[..i + 1] == value[..i] + [value[i]];
      match value[i] {
        case '\\' => escaped := escaped + "\\\\";
        case '"' => escaped := escaped + "\\\"";
        case '\n' => escaped := escaped + "\\n";
        case c => escaped := escaped + [c];
      }
    }
    assert value[..|value|] == value;
  }

  /** How a label value is read (text exposition format): up to the first bare quote. */
  function ReadLabel(t: string): Option<(string, string)> {
    if t == "" || t[0] == '\n' then None
    else if t[0] == '"' then Some(("", t[1..]))
    else if t[0] == '\\' then
      if |t| == 1 || (t[1] != '\\' && t[1] != '"' && t[1] != 'n') then None
      else
        var rest := ReadLabel(t[2..]);
        if rest.None? then None
        else Some(([if t[1] == 'n' then '\n' else t[1]] + rest.value.0, rest.value.1))
    else
      var rest := ReadLabel(t[1..]);
      if rest.None? then None else Some(([t[0]] + rest.value.0, rest.value.1))
  }

  lemma ReadEscaped(c: char, tail: string)
    ensures ReadLabel(EscapeLabelChar(c) + tail) ==
      if ReadLabel(tail).None? then None else Some(([c] + ReadLabel(tail).value.0, ReadLabel(tail).value.1))
  {
    var w := EscapeLabelChar(c);
    assert (w + tail)[|w|..] == tail;
  }

  /** An escaped label value is read back whole, up to its closing quote and no further. */
  lemma {:induction false} LabelRoundTrip(s: string, after: string)
    ensures ReadLabel(EscapeLabel(s) + "\"" + after) == Some((s, after))
    decreases |s|
  {
    hide EscapeLabelChar;
    var t := EscapeLabel(s) + "\"" + after;
    if s == "" {
      assert t[1..] == after;
    } else {
      var tail := EscapeLabel(s[1..]) + "\"" + after;
      LabelRoundTrip(s[1..], after);
      ReadEscaped(s[0], tail);
      assert t == EscapeLabelChar(s[0]) + tail;
      assert s == [s[0]] + s[1..];
    }
  }

  // ---------------------------------------------------------------- the build-info line

  /** A label name, an equals sign and a quoted value. */
  function Label(name: string, value: string): string {
    name + "=\"" + EscapeLabel(value) + "\""
  }

  /** Labels with commas between them. */
  function Labels(pairs: seq<(string, string)>): string {
    if pairs == [] then ""
    else if |pairs| == 1 then Label(pairs[0].0, pairs[0].1)
    else Label(pairs[0].0, pairs[0].1) + "," + Labels(pairs[1..])
  }

  function BuildInfoLine(p: Provenance): string {
    "marketdata_build_info{"
    + Labels([ ("version", p.version), ("revision", p.revision), ("model", p.model), ("backend", p.backend),
               ("backend_version", p.backendVersion), ("device", p.device) ])
    + "} 1\n"
  }

  /** A label name is read up to the equals sign. */
  function ReadName(t: string): Option<(string, string)> {
    if t == "" then None
    else if t[0] == '=' then Some(("", t[1..]))
    else
      var rest := ReadName(t[1..]);
      if rest.None? then None else Some(([t[0]] + rest.value.0, rest.value.1))
  }

  lemma {:induction false} NameRead(name: string, rest: string)
    requires '=' !in name
    ensures ReadName(name + "=" + rest) == Some((name, rest))
    decreases |name|
  {
    var t := name + "=" + rest;
    if name == "" {
      assert t[1..] == rest;
    } else {
      assert t[1..] == name[1..] + "=" + rest;
      NameRead(name[1..], rest);
      assert name == [name[0]] + name[1..];
    }
  }

  /** How the labels of a sample line are read (text exposition format), from behind the opening brace. */
  function ReadLabels(t: string): (r: Option<(seq<(string, string)>, string)>)
    decreases |t|
  {
    var name := ReadName(t);
    if name.None? || name.value.1 == "" || name.value.1[0] != '"' then None
    else
      NameShorter(t);
      var value := ReadLabel(name.value.1[1..]);
      if value.None? || value.value.1 == "" then None
      else
        LabelShorter(name.value.1[1..]);
        var pair, rest := (name.value.0, value.value.0), value.value.1;
        if rest[0] == '}' then Some(([pair], rest[1..]))
        else if rest[0] != ',' then None
        else
          var more := ReadLabels(rest[1..]);
          if more.None? then None else Some(([pair] + more.value.0, more.value.1))
  }

  lemma {:induction false} NameShorter(t: string)
    ensures ReadName(t).Some? ==> |ReadName(t).value.1| < |t|
    decreases |t|
  {
    if t != "" && t[0] != '=' {
      NameShorter(t[1..]);
    }
  }

  lemma {:induction false} LabelShorter(t: string)
    ensures ReadLabel(t).Some? ==> |ReadLabel(t).value.1| < |t|
    decreases |t|
  {
    if t != "" && t[0] == '\\' && |t| > 1 {
      LabelShorter(t[2..]);
    } else if t != "" && t[0] != '"' {
      LabelShorter(t[1..]);
    }
  }

  /** One label is read, and what follows it. */
  lemma LabelRead(name: string, value: string, after: string)
    requires '=' !in name
    ensures var read := ReadName(Label(name, value) + after);
      && read.Some? && read.value.0 == name && read.value.1 != "" && read.value.1[0] == '"'
      && ReadLabel(read.value.1[1..]) == Some((value, after))
  {
    hide ReadName, ReadLabel, EscapeLabel;
    var quoted := "\"" + EscapeLabel(value) + "\"" + after;
    assert Label(name, value) + after == name + "=" + quoted;
    NameRead(name, quoted);
    LabelRoundTrip(value, after);
    assert quoted[1..] == EscapeLabel(value) + "\"" + after;
  }

  lemma LastRead(name: string, value: string, after: string)
    requires '=' !in name
    ensures ReadLabels(Label(name, value) + ("}" + after)) == Some(([(name, value)], after))
  {
    hide ReadName, ReadLabel, EscapeLabel, Label;
    LabelRead(name, value, "}" + after);
    assert ("}" + after)[1..] == after;
  }

  lemma NextRead(name: string, value: string, rest: string)
    requires '=' !in name
    ensures ReadLabels(Label(name, value) + ("," + rest)) ==
      if ReadLabels(rest).None? then None
      else Some(([(name, value)] + ReadLabels(rest).value.0, ReadLabels(rest).value.1))
  {
    hide ReadName, ReadLabel, EscapeLabel, Label;
    LabelRead(name, value, "," + rest);
    assert ("," + rest)[1..] == rest;
  }

  /** Labels are read back name by name and value by value, as far as the closing brace. */
  lemma {:induction false} LabelsRoundTrip(pairs: seq<(string, string)>, after: string)
    requires pairs != [] && forall k :: 0 <= k < |pairs| ==> '=' !in pairs[k].0
    ensures ReadLabels(Labels(pairs) + "}" + after) == Some((pairs, after))
    decreases |pairs|
  {
    hide ReadLabels, Label;
    var t := Labels(pairs) + "}" + after;
    var first := pairs[0];
    if |pairs| == 1 {
      assert t == Label(first.0, first.1) + ("}" + after);
      LastRead(first.0, first.1, after);
      assert pairs == [(first.0, first.1)];
    } else {
      var rest := Labels(pairs[1..]) + "}" + after;
      assert t == Label(first.0, first.1) + ("," + rest);
      NextRead(first.0, first.1, rest);
      LabelsRoundTrip(pairs[1..], after);
      assert pairs == [(first.0, first.1)] + pairs[1..];
    }
  }

  /** The build-info line is read back label by label: each name with its own value. */
  lemma BuildInfoRead(p: Provenance)
    ensures |BuildInfoLine(p)| > 22 && BuildInfoLine(p)[..22] == "marketdata_build_info{"
    ensures ReadLabels(BuildInfoLine(p)[22..]) == Some((
      [ ("version", p.version), ("revision", p.revision), ("model", p.model), ("backend", p.backend),
        ("backend_version", p.backendVersion), ("device", p.device) ],
      " 1\n"))
  {
    hide ReadLabels, Labels;
    var pairs := [ ("version", p.version), ("revision", p.revision), ("model", p.model), ("backend", p.backend),
                   ("backend_version", p.backendVersion), ("device", p.device) ];
    LabelsRoundTrip(pairs, " 1\n");
    var front := "marketdata_build_info{";
    assert |front| == 22;
    assert "} 1\n" == "}" + " 1\n";
    assert BuildInfoLine(p) == front + (Labels(pairs) + "}" + " 1\n");
  }

  /** Rendering is unambiguous: different provenance, different line. */
  lemma BuildInfoInjective(p: Provenance, q: Provenance)
    requires BuildInfoLine(p) == BuildInfoLine(q)
    ensures p == q
  {
    hide ReadLabels, BuildInfoLine;
    BuildInfoRead(p);
    BuildInfoRead(q);
    var ps := ReadLabels(BuildInfoLine(p)[22..]).value.0;
    assert ps[0].1 == p.version == q.version && ps[1].1 == p.revision == q.revision && ps[2].1 == p.model == q.model;
    assert ps[3].1 == p.backend == q.backend && ps[4].1 == p.backendVersion == q.backendVersion;
    assert ps[5].1 == p.device == q.device;
  }

  /** The backslashes at the end of a text pair up no differently behind one that ends in whole pairs. */
  lemma {:induction false} ParityBehind(w: string, rest: string, j: nat)
    requires j <= |rest| && SlashCount(w, |w|) % 2 == 0
    ensures SlashCount(w + rest, |w| + j) % 2 == SlashCount(rest, j) % 2
    decreases j
  {
    if j == 0 {
      SlashPrefix(w, rest, |w|);
    } else {
      assert (w + rest)[|w| + j - 1] == rest[j - 1];
      ParityBehind(w, rest, j - 1);
    }
  }

  lemma {:induction false} SlashPrefix(w: string, rest: string, k: nat)
    requires k <= |w|
    ensures SlashCount(w + rest, k) == SlashCount(w, k)
    decreases k
  {
    if k > 0 {
      assert (w + rest)[k - 1] == w[k - 1];
      SlashPrefix(w, rest, k - 1);
    }
  }

  lemma EscapeParity(c: char)
    ensures var w := EscapeLabelChar(c);
      && SlashCount(w, |w|) % 2 == 0
      && forall k :: 0 <= k < |w| ==> w[k] != '\n' && (w[k] == '"' ==> k == 1 && SlashCount(w, 1) == 1)
  {
    var w := EscapeLabelChar(c);
    if |w| == 2 {
      assert SlashCount(w, 0) == 0 && SlashCount(w, 1) == 1;
    }
  }

  /** No escaped value breaks its line, and every quote in it is escaped: an odd number of backslashes precede it. */
  lemma {:induction false} LabelOneLine(s: string, k: nat)
    requires k < |EscapeLabel(s)|
    ensures EscapeLabel(s)[k] != '\n'
    ensures EscapeLabel(s)[k] == '"' ==> SlashCount(EscapeLabel(s), k) % 2 == 1
    decreases |s|
  {
    hide EscapeLabelChar;
    var w, rest := EscapeLabelChar(s[0]), EscapeLabel(s[1..]);
    EscapeParity(s[0]);
    if k >= |w| {
      LabelOneLine(s[1..], k - |w|);
      ParityBehind(w, rest, k - |w|);
    } else {
      SlashPrefix(w, rest, k);
    }
  }

  // ---------------------------------------------------------------- gauges

  datatype Gauges = Gauges(
    validationEnabled: nat, validationPass: nat, validationElements: int,
    sloConfigured: nat, sloTargetUs: real, sloObservedP99Us: real, sloPass: nat)

  function RenderGauges(s: Snapshot): Gauges {
    Gauges(
      if s.validationPassed.Some? then 1 else 0,
      if s.validationPassed == Some(true) then 1 else 0,
      if s.validationElements.Some? then s.validationElements.value else 0,
      if s.slo.targetUs.Some? then 1 else 0,
      if s.slo.targetUs.Some? then s.slo.targetUs.value else 0.0,
      if s.slo.observedP99Us.Some? then s.slo.observedP99Us.value else s.endToEnd.p99,
      if s.slo.passed == Some(true) then 1 else 0)
  }
}
