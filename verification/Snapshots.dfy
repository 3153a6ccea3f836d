/** What the exporter makes of an emitted document: every value it asks for, and nothing else. */
module Snapshots {
  import opened Results
  import opened Text
  import opened Literals
  import opened Trees
  import opened Search
  import opened Fields
  import opened Blocks
  import opened Metrics
  import opened Emitter
  import opened Document
  import opened Exporter
  import Reader

  // ---------------------------------------------------------------- nothing is in the way

  /** A block of plain values has no members but its own. */
  lemma LeafBlock(lines: seq<Line>, indent: string, f: Field)
    requires forall i :: 0 <= i < |lines| ==> lines[i].value.Scalar? || lines[i].value.Str?
    ensures Mentions(Block(lines, indent), Name(f)) ==> exists i :: 0 <= i < |lines| && lines[i].field == f
  {
    hide Block, Name, MentionsIn;
    BlockMentions(lines, indent, f);
  }

  predicate InDistribution(f: Field) {
    f.Samples? || f.Mean? || f.Min? || f.P50? || f.P90? || f.P95? || f.P99? || f.Max? || f.Stddev?
  }

  lemma DistributionMentions(n: Numerics, d: Distribution, f: Field)
    ensures Mentions(DistributionTree(n, d), Name(f)) ==> InDistribution(f)
  {
    hide Block, Name, Mentions;
    LeafBlock(DistributionLines(n, d), "    ", f);
  }

  lemma BuildMentions(b: BuildInfo, f: Field)
    ensures Mentions(BuildTree(b), Name(f)) ==> f.Version? || f.Revision?
  {
    hide Block, Name, Mentions;
    LeafBlock(BuildLines(b), "  ", f);
  }

  lemma EnvironmentMentions(n: Numerics, r: Runtime, f: Field)
    ensures Mentions(EnvironmentTree(n, r), Name(f)) ==>
      f.BackendVersion? || f.Device? || f.ComputeCapability? || f.CudaRuntime? || f.CudaDriver? || f.DeviceMemoryBytes?
  {
    hide Block, Name, Mentions, TextTree, OptionalText;
    LeafBlock(EnvironmentLines(n, r), "  ", f);
  }

  lemma LatencyMentions(n: Numerics, s: Stats, f: Field)
    ensures Mentions(LatencyTree(n, s), Name(f)) ==> f.EndToEnd? || f.DeviceCompute? || InDistribution(f)
  {
    hide Block, Name, DistributionTree;
    BlockMentions(LatencyLines(n, s), "  ", f);
    DistributionMentions(n, s.endToEnd, f);
    if s.deviceCompute.Some? {
      DistributionMentions(n, s.deviceCompute.value, f);
    }
  }

  lemma ValidationMentions(n: Numerics, o: Options, s: Stats, f: Field)
    ensures Mentions(ValidationTree(n, o, s), Name(f)) ==>
      f.Kind? || f.Tolerance? || f.ComparedElements? || f.Mismatches? || f.MaxAbsError? || f.Passed?
  {
    hide Block, Name, MentionsIn, TextTree, BoolTree;
    if s.validation.Some? {
      LeafBlock(ValidationLines(n, o, s.validation.value), "  ", f);
    }
  }

  /** Every top-level field of an emitted document is clear: no earlier object mentions its name. */
  lemma DocumentClear(n: Numerics, b: BuildInfo, o: Options, s: Stats, k: nat)
    requires k < MEMBERS
    ensures IsClear(DocumentLines(n, b, o, s), k)
  {
    hide Block, Name, IsFirst, Mentions, TextTree, BoolTree, BuildTree, EnvironmentTree, LatencyTree, ValidationTree,
         SloTree;
    var lines := DocumentLines(n, b, o, s);
    var f := lines[k].field;
    DocumentDistinct(n, b, o, s, k);
    PlainMentions(n, b, o, s, f);
    BuildMentions(b, f);
    EnvironmentMentions(n, s.runtime, f);
    LatencyMentions(n, s, f);
    ValidationMentions(n, o, s, f);
  }

  lemma PlainMentions(n: Numerics, b: BuildInfo, o: Options, s: Stats, f: Field)
    ensures var lines := DocumentLines(n, b, o, s);
      forall i :: 0 <= i < |lines| && Mentions(lines[i].value, Name(f)) ==> i in {1, 7, 11, 22, 23}
  {
    hide Block, Name, MentionsIn, TextTree, BoolTree, BuildTree, EnvironmentTree, LatencyTree, ValidationTree,
         SloTree;
  }

  // ---------------------------------------------------------------- reading an emitted document

  /** The unscoped search finds the value of every top-level field. */
  lemma DocumentSearch(n: Numerics, b: BuildInfo, o: Options, s: Stats, k: nat) returns (v: nat)
    requires ReadsBack(n) && k < MEMBERS
    ensures FindValue(MetricsJson(n, b, o, s), Name(DocumentLines(n, b, o, s)[k].field)) == Some(v)
    ensures Stands(MetricsJson(n, b, o, s), v, DocumentLines(n, b, o, s)[k].value)
    ensures var j := DocumentTree(n, b, o, s);
      Lookup(j.entries, 1 + |j.pad|, Name(DocumentLines(n, b, o, s)[k].field)) == Some(v)
  {
    hide Block, Name, IsClear, ReadsBack, Print, ValidJson, FindValue, Stands, DocumentLines, Lookup;
    DocumentValid(n, b, o, s);
    DocumentClear(n, b, o, s, k);
    v := BlockSearch(MetricsJson(n, b, o, s), DocumentLines(n, b, o, s), "", "\n", k);
  }

  /**
   On every emitted document the exporter's unscoped search and the comparator's scoped one agree on
   every field of the root object, whatever text the strings of the document hold.
   */
  lemma SearchesAgree(n: Numerics, b: BuildInfo, o: Options, s: Stats, k: nat)
    requires ReadsBack(n) && k < MEMBERS
    ensures var doc, root := MetricsJson(n, b, o, s), Reader.SpanOf(0, DocumentTree(n, b, o, s));
      var name := Name(DocumentLines(n, b, o, s)[k].field);
      && Reader.RootObject(doc) == Ok(root)
      && Reader.Encloses(doc, root)
      && FindValue(doc, name).Some?
      && Reader.Find(doc, root, name) == Ok(FindValue(doc, name))
  {
    hide Block, Name, ReadsBack, Print, ValidJson, FindValue, Stands, DocumentLines, Lookup, Reader.Find,
         Reader.RootObject, MetricsJson, DocumentTree, At;
    var doc, j := MetricsJson(n, b, o, s), DocumentTree(n, b, o, s);
    RootFound(n, b, o, s, doc);
    DocumentValid(n, b, o, s);
    var v := DocumentSearch(n, b, o, s, k);
    Reader.FindExact(doc, 0, j, Name(DocumentLines(n, b, o, s)[k].field));
  }

  // ---------------------------------------------------------------- both searches in the objects cut out

  predicate IsLeaf(lines: seq<Line>) {
    forall i :: 0 <= i < |lines| ==> lines[i].value.Scalar? || lines[i].value.Str?
  }

  /** In a block of plain values nothing can be in the way of any key. */
  lemma {:induction false} LeafClear(lines: seq<Line>, indent: string, key: string)
    requires IsLeaf(lines)
    ensures ClearBefore(EntriesOf(lines, indent), key)
    decreases |lines|
  {
    hide Name, Spell, RawUnits;
    if lines != [] {
      LeafClear(lines[1..], indent, key);
    }
  }

  /** The exporter's search of a text that is an object, and the comparator's of that object, agree on a key. */
  ghost predicate Agree(j: Json, key: string)
    requires j.Object?
  {
    var text, span := Print(j), Reader.SpanOf(0, j);
    && Reader.RootObject(text) == Ok(span)
    && Reader.Encloses(text, span)
    && Reader.Find(text, span, key) == Ok(FindValue(text, key))
  }

  /** In a block of plain values they agree on every name, present or not. */
  lemma LeafAgrees(lines: seq<Line>, indent: string, key: string)
    requires AllValid(lines) && AllSpace(indent) && IsLeaf(lines) && IsName(key)
    ensures Agree(Block(lines, indent), key)
  {
    hide Print, ValidJson, EntriesOf, ClearBefore, IsName, Reader.Find, Reader.RootObject, FindValue, IsLeaf;
    BlockValid(lines, indent);
    LeafClear(lines, indent, key);
    UnscopedIsScoped(Block(lines, indent), key);
  }

  /** In any block they agree on the fields that nothing is in the way of. */
  lemma ClearAgrees(lines: seq<Line>, indent: string, k: nat)
    requires AllValid(lines) && AllSpace(indent) && IsClear(lines, k)
    ensures Agree(Block(lines, indent), Name(lines[k].field))
  {
    hide Print, ValidJson, EntriesOf, ClearBefore, IsName, Reader.Find, Reader.RootObject, FindValue, Name;
    BlockValid(lines, indent);
    LinesClear(lines, indent, k);
    NameIsName(lines[k].field);
    UnscopedIsScoped(Block(lines, indent), Name(lines[k].field));
  }

  /** The objects the exporter cuts out of a document. */
  datatype Part = BuildPart | EnvironmentPart | LatencyPart | EndToEndPart | DevicePart | ValidationPart | SloPart

  predicate Present(s: Stats, part: Part) {
    (part.DevicePart? ==> s.deviceCompute.Some?) && (part.ValidationPart? ==> s.validation.Some?)
  }

  function PartTree(n: Numerics, b: BuildInfo, o: Options, s: Stats, part: Part): (j: Json)
    requires Present(s, part)
    ensures j.Object?
  {
    match part
    case BuildPart => BuildTree(b)
    case EnvironmentPart => EnvironmentTree(n, s.runtime)
    case LatencyPart => LatencyTree(n, s)
    case EndToEndPart => DistributionTree(n, s.endToEnd)
    case DevicePart => DistributionTree(n, s.deviceCompute.value)
    case ValidationPart => ValidationTree(n, o, s)
    case SloPart => SloTree(n, o, s)
  }

  /**
   In each object that is cut out of an emitted document, the unscoped search of the cut-out text and
   the scoped search agree: in those with plain values on every name whatever, found or not found, and
   in the latency object on the names of the two distributions.
   */
  lemma NestedSearchesAgree(n: Numerics, b: BuildInfo, o: Options, s: Stats, part: Part, key: string)
    requires ReadsBack(n) && IsName(key) && Present(s, part)
    requires part.LatencyPart? ==> key in ["end_to_end", "device_compute"]
    ensures Agree(PartTree(n, b, o, s, part), key)
  {
    hide Agree, IsName, ReadsBack, ValidJson, Block, BuildLines, EnvironmentLines, DistributionLines, ValidationLines,
         SloLines, LatencyLines, DistributionTree, LatencyTree;
    match part
    case BuildPart =>
      BuildValid(b);
      BuildLeaf(b);
      LeafAgrees(BuildLines(b), "  ", key);
    case EnvironmentPart =>
      EnvironmentValid(n, s.runtime);
      EnvironmentLeaf(n, s.runtime);
      LeafAgrees(EnvironmentLines(n, s.runtime), "  ", key);
    case LatencyPart =>
      LatencyAgrees(n, s, key);
    case EndToEndPart =>
      DistributionAgrees(n, s.endToEnd, key);
    case DevicePart =>
      DistributionAgrees(n, s.deviceCompute.value, key);
    case ValidationPart =>
      ValidationValid(n, o, s);
      ValidationLeaf(n, o, s.validation.value);
      LeafAgrees(ValidationLines(n, o, s.validation.value), "  ", key);
    case SloPart =>
      SloValid(n, o, s);
      SloLeaf(n, o, s);
      LeafAgrees(SloLines(n, o, s), "  ", key);
  }

  lemma BuildLeaf(b: BuildInfo)
    ensures IsLeaf(BuildLines(b))
  {
    hide TextTree;
  }

  lemma EnvironmentLeaf(n: Numerics, r: Runtime)
    ensures IsLeaf(EnvironmentLines(n, r))
  {
    hide OptionalText;
  }

  lemma ValidationLeaf(n: Numerics, o: Options, v: OutputValidation)
    ensures IsLeaf(ValidationLines(n, o, v))
  {
    hide TextTree, BoolTree;
  }

  lemma SloLeaf(n: Numerics, o: Options, s: Stats)
    ensures IsLeaf(SloLines(n, o, s))
  {
    hide TextTree, BoolTree, ScopeName, Selected, SloPassed;
  }

  lemma DistributionAgrees(n: Numerics, d: Distribution, key: string)
    requires ReadsBack(n) && IsName(key)
    ensures Agree(DistributionTree(n, d), key)
  {
    hide Agree, IsName, ReadsBack, ValidJson, Block;
    DistributionValid(n, d);
    LeafAgrees(DistributionLines(n, d), "    ", key);
  }

  lemma LatencyAgrees(n: Numerics, s: Stats, key: string)
    requires ReadsBack(n) && key in ["end_to_end", "device_compute"]
    ensures Agree(LatencyTree(n, s), key)
  {
    hide Agree, ReadsBack, ValidJson, Block, LatencyLines, IsClear;
    LatencyValid(n, s);
    LatencyClear(n, s);
    ClearAgrees(LatencyLines(n, s), "  ", if key == "end_to_end" then 0 else 1);
  }

  lemma LatencyClear(n: Numerics, s: Stats)
    ensures var lines := LatencyLines(n, s);
      && |lines| == 2 && IsClear(lines, 0) && IsClear(lines, 1)
      && Name(lines[0].field) == "end_to_end" && Name(lines[1].field) == "device_compute"
  {
    hide Mentions, DistributionTree;
    DistributionMentions(n, s.endToEnd, Field.DeviceCompute);
  }

  // ---------------------------------------------------------------- what is read

  /** The field of a block that is a whole text by itself, all values in front of it being plain. */
  lemma LeafSearch(lines: seq<Line>, indent: string, k: nat) returns (v: nat)
    requires AllValid(lines) && AllSpace(indent) && IsFirst(lines, k)
    requires forall i :: 0 <= i < k ==> lines[i].value.Scalar? || lines[i].value.Str?
    ensures FindValue(Print(Block(lines, indent)), Name(lines[k].field)) == Some(v)
    ensures Stands(Print(Block(lines, indent)), v, lines[k].value)
  {
    hide Block, Name, Print, ValidJson, FindValue, Stands;
    assert Print(Block(lines, indent)) + "" == Print(Block(lines, indent));
    v := BlockSearch(Print(Block(lines, indent)), lines, indent, "", k);
  }

  ghost function ReadingsOf(n: Numerics, d: Distribution): Readings
    requires ReadsBack(n)
  {
    Readings(RereadSize(n, d.samples), Reread(n, d.mean), Reread(n, d.min), Reread(n, d.p50), Reread(n, d.p90),
            Reread(n, d.p95), Reread(n, d.p99), Reread(n, d.max), Reread(n, d.stddev))
  }

  /** One of the eight statistics of a printed distribution. */
  lemma StatisticRead(n: Numerics, d: Distribution, k: nat, f: Field, x: real)
    requires ReadsBack(n) && k < 9 && DistributionLines(n, d)[k] == Line(f, Scalar(n.fixed(x)))
    ensures NumberOf(n, Print(DistributionTree(n, d)), Name(f)) == Ok(Reread(n, x))
  {
    hide Block, Name, Print, ValidJson, FindValue, Stands, NumberOf, ReadsBack, Reread;
    var lines := DistributionLines(n, d);
    DistributionValid(n, d);
    var v := LeafSearch(lines, "    ", k);
    RealField(n, Print(DistributionTree(n, d)), Name(f), v, x);
  }

  lemma StatisticNames()
    ensures Name(Mean) == "mean" && Name(Min) == "min" && Name(Max) == "max" && Name(Stddev) == "stddev"
    ensures Name(P50) == "p50" && Name(P90) == "p90" && Name(P95) == "p95" && Name(P99) == "p99"
  {
  }

  lemma StatisticLines(n: Numerics, d: Distribution)
    ensures var lines := DistributionLines(n, d);
      && |lines| == 9
      && lines[1] == Line(Mean, Scalar(n.fixed(d.mean)))
      && lines[2] == Line(Min, Scalar(n.fixed(d.min)))
      && lines[3] == Line(P50, Scalar(n.fixed(d.p50)))
      && lines[4] == Line(P90, Scalar(n.fixed(d.p90)))
      && lines[5] == Line(P95, Scalar(n.fixed(d.p95)))
      && lines[6] == Line(P99, Scalar(n.fixed(d.p99)))
      && lines[7] == Line(Max, Scalar(n.fixed(d.max)))
      && lines[8] == Line(Stddev, Scalar(n.fixed(d.stddev)))
  {
  }

  lemma CountRead(n: Numerics, d: Distribution)
    requires ReadsBack(n)
    ensures UnsignedOf(n, Print(DistributionTree(n, d)), "samples") == Ok(RereadSize(n, d.samples))
  {
    hide Block, Print, ValidJson, FindValue, Stands, UnsignedOf, ReadsBack, RereadSize;
    var lines := DistributionLines(n, d);
    DistributionValid(n, d);
    var v := LeafSearch(lines, "    ", 0);
    SizeField(n, Print(DistributionTree(n, d)), "samples", v, d.samples);
  }

  /** A printed distribution is read back number by number. */
  lemma ReadingsRead(n: Numerics, d: Distribution)
    requires ReadsBack(n)
    ensures ParseDistribution(n, Print(DistributionTree(n, d))) == Ok(ReadingsOf(n, d))
  {
    hide DistributionTree, DistributionLines, Name, Print, NumberOf, UnsignedOf, ReadsBack, Reread, RereadSize;
    CountRead(n, d);
    StatisticNames();
    StatisticLines(n, d);
    StatisticRead(n, d, 1, Mean, d.mean);
    StatisticRead(n, d, 2, Min, d.min);
    StatisticRead(n, d, 3, P50, d.p50);
    StatisticRead(n, d, 4, P90, d.p90);
    StatisticRead(n, d, 5, P95, d.p95);
    StatisticRead(n, d, 6, P99, d.p99);
    StatisticRead(n, d, 7, Max, d.max);
    StatisticRead(n, d, 8, Stddev, d.stddev);
  }

  lemma BuildRead(b: BuildInfo)
    ensures StringOf(Print(BuildTree(b)), "version") == Ok(Masked(b.version))
    ensures StringOf(Print(BuildTree(b)), "revision") == Ok(Masked(b.revision))
  {
    hide Block, Print, ValidJson, FindValue, Stands, StringOf, TextTree;
    BuildValid(b);
    var v := LeafSearch(BuildLines(b), "  ", 0);
    TextField(Print(BuildTree(b)), "version", v, b.version);
    v := LeafSearch(BuildLines(b), "  ", 1);
    TextField(Print(BuildTree(b)), "revision", v, b.revision);
  }

  lemma EnvironmentRead(n: Numerics, r: Runtime)
    requires ReadsBack(n)
    ensures OptionalStringOf(Print(EnvironmentTree(n, r)), "backend_version") ==
      Ok(if r.backendVersion == "" then None else Some(Masked(r.backendVersion)))
    ensures StringOf(Print(EnvironmentTree(n, r)), "device") ==
      if r.deviceName == "" then Fail(ExpectedString) else Ok(Masked(r.deviceName))
  {
    hide Block, Print, ValidJson, FindValue, Stands, StringOf, OptionalStringOf, TextTree, ReadsBack;
    EnvironmentValid(n, r);
    var doc := Print(EnvironmentTree(n, r));
    var v := LeafSearch(EnvironmentLines(n, r), "  ", 0);
    if r.backendVersion == "" {
      NullField(n, doc, "backend_version", v);
    } else {
      TextField(doc, "backend_version", v, r.backendVersion);
    }
    v := LeafSearch(EnvironmentLines(n, r), "  ", 1);
    if r.deviceName == "" {
      NullField(n, doc, "device", v);
    } else {
      TextField(doc, "device", v, r.deviceName);
    }
  }

  lemma LatencyRead(n: Numerics, s: Stats)
    requires ReadsBack(n)
    ensures ObjectOf(Print(LatencyTree(n, s)), "end_to_end") == Ok(Print(DistributionTree(n, s.endToEnd)))
    ensures ParseDevice(n, Print(LatencyTree(n, s))) ==
      Ok(if s.deviceCompute.None? then None else Some(ReadingsOf(n, s.deviceCompute.value)))
  {
    hide Block, Print, ValidJson, FindValue, Stands, ObjectOf, ObjectText, IsNull, ReadsBack, DistributionTree,
         ParseDistribution, ReadingsOf;
    var lines, doc := LatencyLines(n, s), Print(LatencyTree(n, s));
    LatencyValid(n, s);
    var v := LeafSearch(lines, "  ", 0);
    ObjectField(doc, "end_to_end", v, DistributionTree(n, s.endToEnd));
    DistributionMentions(n, s.endToEnd, Field.DeviceCompute);
    assert doc + "" == doc;
    v := BlockSearch(doc, lines, "  ", "", 1);
    if s.deviceCompute.None? {
      NullField(n, doc, "device_compute", v);
    } else {
      ObjectField(doc, "device_compute", v, DistributionTree(n, s.deviceCompute.value));
      ReadingsRead(n, s.deviceCompute.value);
    }
  }

  /** The validation verdict is read; the count the exporter looks for is never there. */
  lemma ValidationRead(n: Numerics, o: Options, s: Stats, doc: string, v: nat)
    requires ReadsBack(n) && FindValue(doc, "validation") == Some(v) && Stands(doc, v, ValidationTree(n, o, s))
    ensures ParseValidation(n, doc) ==
      Ok((if s.validation.None? then None else Some(s.validation.value.passed), None))
  {
    hide Block, Print, ValidJson, FindValue, Stands, ObjectText, IsNull, ReadsBack, ValidationLines, BoolOf;
    if s.validation.None? {
      NullField(n, doc, "validation", v);
    } else {
      ObjectField(doc, "validation", v, ValidationTree(n, o, s));
      PassedRead(n, o, s);
      CheckedAbsent(n, o, s);
    }
  }

  lemma PassedRead(n: Numerics, o: Options, s: Stats)
    requires ReadsBack(n) && s.validation.Some?
    ensures BoolOf(Print(ValidationTree(n, o, s)), "passed") == Ok(s.validation.value.passed)
  {
    hide Block, Print, ValidJson, FindValue, Stands, ReadsBack, BoolOf, TextTree, BoolTree;
    ValidationValid(n, o, s);
    var w := LeafSearch(ValidationLines(n, o, s.validation.value), "  ", 5);
    BoolField(Print(ValidationTree(n, o, s)), "passed", w, s.validation.value.passed);
  }

  /** The emitter writes `compared_elements`; the exporter asks for `checked_elements`. */
  lemma CheckedAbsent(n: Numerics, o: Options, s: Stats)
    requires ReadsBack(n) && s.validation.Some?
    ensures FindValue(Print(ValidationTree(n, o, s)), Name(CheckedElements)) == None
  {
    hide Block, Name, Print, ValidJson, FindValue, ReadsBack, FirstKey, Mentions, IsToken, IsName, ValidationLines;
    var j := ValidationTree(n, o, s);
    ValidationValid(n, o, s);
    ValidationMentions(n, o, s, CheckedElements);
    NameIsName(CheckedElements);
    NameIsToken(Name(CheckedElements));
    FirstKeyBounds(j, 0, Name(CheckedElements));
    assert "" + Print(j) + "" == Print(j);
    FindValueExact(Print(j), "", j, "", Name(CheckedElements));
  }

  /** What the exporter should learn about the latency target. */
  ghost function ObjectiveOf(n: Numerics, o: Options, s: Stats): Objective
    requires ReadsBack(n)
  {
    Objective(ScopeName(o.targetScope),
              if o.targetLatencyUs > 0.0 then Some(Reread(n, o.targetLatencyUs)) else None,
              if Selected(o, s).Some? then Some(Reread(n, Selected(o, s).value.p99)) else None,
              SloPassed(o, s))
  }

  lemma SloPassedRead(n: Numerics, o: Options, s: Stats)
    requires ReadsBack(n)
    ensures ParsePassed(Print(SloTree(n, o, s))) == Ok(SloPassed(o, s))
  {
    hide Block, Print, ValidJson, FindValue, Stands, IsNull, ReadsBack, BoolAt, TextTree, BoolTree, SloPassed,
         Selected, ScopeName;
    SloValid(n, o, s);
    var doc := Print(SloTree(n, o, s));
    var v := LeafSearch(SloLines(n, o, s), "  ", 3);
    if SloPassed(o, s).None? {
      NullField(n, doc, "passed", v);
    } else {
      BoolField(doc, "passed", v, SloPassed(o, s).value);
    }
  }

  lemma SloNames()
    ensures Name(Field.Scope) == "scope" && Name(TargetUs) == "target_us" && Name(ObservedP99Us) == "observed_p99_us"
  {
  }

  lemma ScopeRead(n: Numerics, o: Options, s: Stats)
    requires ReadsBack(n)
    ensures StringOf(Print(SloTree(n, o, s)), "scope") == Ok(ScopeName(o.targetScope))
  {
    hide Block, Print, ValidJson, FindValue, Stands, ReadsBack, TextTree, BoolTree, SloPassed, Selected, ScopeName,
         StringOf, Name;
    SloNames();
    SloValid(n, o, s);
    var v := LeafSearch(SloLines(n, o, s), "  ", 0);
    TextField(Print(SloTree(n, o, s)), "scope", v, ScopeName(o.targetScope));
    PlainScope(o.targetScope);
  }

  lemma TargetRead(n: Numerics, o: Options, s: Stats)
    requires ReadsBack(n)
    ensures OptionalNumberOf(n, Print(SloTree(n, o, s)), "target_us") ==
      Ok(if o.targetLatencyUs > 0.0 then Some(Reread(n, o.targetLatencyUs)) else None)
  {
    hide Block, Print, ValidJson, FindValue, Stands, ReadsBack, TextTree, BoolTree, SloPassed, Selected, ScopeName,
         OptionalNumberOf, Reread, Name;
    SloNames();
    SloValid(n, o, s);
    var v := LeafSearch(SloLines(n, o, s), "  ", 1);
    if o.targetLatencyUs > 0.0 {
      RealField(n, Print(SloTree(n, o, s)), "target_us", v, o.targetLatencyUs);
    } else {
      NullField(n, Print(SloTree(n, o, s)), "target_us", v);
    }
  }

  lemma ObservedRead(n: Numerics, o: Options, s: Stats)
    requires ReadsBack(n)
    ensures OptionalNumberOf(n, Print(SloTree(n, o, s)), "observed_p99_us") ==
      Ok(if Selected(o, s).Some? then Some(Reread(n, Selected(o, s).value.p99)) else None)
  {
    hide Block, Print, ValidJson, FindValue, Stands, ReadsBack, TextTree, BoolTree, SloPassed, Selected, ScopeName,
         OptionalNumberOf, Reread, Name;
    SloNames();
    SloValid(n, o, s);
    var v := LeafSearch(SloLines(n, o, s), "  ", 2);
    if Selected(o, s).Some? {
      RealField(n, Print(SloTree(n, o, s)), "observed_p99_us", v, Selected(o, s).value.p99);
    } else {
      NullField(n, Print(SloTree(n, o, s)), "observed_p99_us", v);
    }
  }

  lemma SloRead(n: Numerics, o: Options, s: Stats)
    requires ReadsBack(n)
    ensures ReadSlo(n, Print(SloTree(n, o, s)), SloPassed(o, s)) == Ok(ObjectiveOf(n, o, s))
  {
    hide Print, SloTree, ReadsBack, SloPassed, Selected, ScopeName, StringOf, OptionalNumberOf, Reread;
    ScopeRead(n, o, s);
    TargetRead(n, o, s);
    ObservedRead(n, o, s);
  }

  lemma PlainScope(scope: Scope)
    ensures Masked(ScopeName(scope)) == ScopeName(scope)
  {
    var w := ScopeName(scope);
    assert forall k :: 0 <= k < |w| ==> !IsBareControl(w[k]);
  }

  /** What the exporter should learn from a run. */
  ghost function SnapshotOf(n: Numerics, b: BuildInfo, o: Options, s: Stats): Snapshot
    requires ReadsBack(n)
  {
    Snapshot(
      ProvenanceOf(b, o, s),
      Counters(RereadSize(n, s.endToEnd.samples), RereadSize(n, o.inputSize), RereadSize(n, o.batchSize),
               o.fallbackUsed, s.cudaGraph, Reread(n, s.throughputIps), Reread(n, s.throughputSamples)),
      ReadingsOf(n, s.endToEnd),
      if s.deviceCompute.None? then None else Some(ReadingsOf(n, s.deviceCompute.value)),
      if s.validation.None? then None else Some(s.validation.value.passed),
      None,
      ObjectiveOf(n, o, s))
  }

  function ProvenanceOf(b: BuildInfo, o: Options, s: Stats): Provenance {
    Provenance(Masked(b.version), Masked(b.revision), Masked(o.modelPath), Masked(s.backend),
               if s.runtime.backendVersion == "" then "unknown" else Masked(s.runtime.backendVersion),
               Masked(s.runtime.deviceName))
  }

  /** Which lines the exporter asks for. */
  lemma SnapshotLines(n: Numerics, b: BuildInfo, o: Options, s: Stats)
    ensures var lines := DocumentLines(n, b, o, s);
      && |lines| == 24
      && lines[0] == Line(SchemaVersion, Scalar("2"))
      && lines[1] == Line(Build, BuildTree(b))
      && lines[2] == Line(Model, TextTree(o.modelPath))
      && lines[3] == Line(Backend, TextTree(s.backend))
      && lines[5] == Line(FallbackUsed, BoolTree(o.fallbackUsed))
      && lines[6] == Line(CudaGraph, BoolTree(s.cudaGraph))
      && lines[7] == Line(Environment, EnvironmentTree(n, s.runtime))
      && lines[8] == Line(Samples, Scalar(n.decimal(s.endToEnd.samples)))
      && lines[9] == Line(InputSize, Scalar(n.decimal(o.inputSize)))
      && lines[10] == Line(BatchSize, Scalar(n.decimal(o.batchSize)))
      && lines[11] == Line(LatencyUs, LatencyTree(n, s))
      && lines[20] == Line(ThroughputIps, Scalar(n.fixed(s.throughputIps)))
      && lines[21] == Line(ThroughputSamplesPerSecond, Scalar(n.fixed(s.throughputSamples)))
      && lines[22] == Line(Field.Validation, ValidationTree(n, o, s))
      && lines[23] == Line(Slo, SloTree(n, o, s))
  {
    hide Block, TextTree, BoolTree, BuildTree, EnvironmentTree, LatencyTree, ValidationTree, SloTree;
  }

  lemma ProvenanceNames()
    ensures Name(SchemaVersion) == "schema_version" && Name(Build) == "build" && Name(Model) == "model"
    ensures Name(Backend) == "backend" && Name(Environment) == "environment" && Name(LatencyUs) == "latency_us"
    ensures Name(Field.Validation) == "validation" && Name(Slo) == "slo"
  {
  }

  lemma CounterNames()
    ensures Name(FallbackUsed) == "fallback_used" && Name(CudaGraph) == "cuda_graph" && Name(Samples) == "samples"
    ensures Name(InputSize) == "input_size" && Name(BatchSize) == "batch_size"
    ensures Name(ThroughputIps) == "throughput_ips"
    ensures Name(ThroughputSamplesPerSecond) == "throughput_samples_per_second"
  {
  }

  lemma SchemaRead(n: Numerics, b: BuildInfo, o: Options, s: Stats)
    requires ReadsBack(n)
    ensures UnsignedOf(n, MetricsJson(n, b, o, s), "schema_version") == Ok(2)
  {
    hide Name, FindValue, Stands, NumberOf, TextTree, BoolTree, DocumentLines, MetricsJson, ReadsBack, Lookup,
         DocumentTree, IsNumeral;
    SnapshotLines(n, b, o, s);
    ProvenanceNames();
    var v := DocumentSearch(n, b, o, s, 0);
    SchemaNumber(n);
    NumberField(n, MetricsJson(n, b, o, s), "schema_version", v, "2");
  }

  lemma SchemaNumber(n: Numerics)
    requires ReadsBack(n)
    ensures n.strtod("2") == Some(2.0) && IsNumeral("2")
  {
    SchemaValid();
  }

  /** The four objects of the document, cut out, and the validation verdict. */
  lemma ObjectsRead(n: Numerics, b: BuildInfo, o: Options, s: Stats)
    requires ReadsBack(n)
    ensures var doc := MetricsJson(n, b, o, s);
      && ObjectOf(doc, "build") == Ok(Print(BuildTree(b)))
      && ObjectOf(doc, "environment") == Ok(Print(EnvironmentTree(n, s.runtime)))
      && ObjectOf(doc, "latency_us") == Ok(Print(LatencyTree(n, s)))
      && ObjectOf(doc, "slo") == Ok(Print(SloTree(n, o, s)))
      && ParseValidation(n, doc) == Ok((if s.validation.None? then None else Some(s.validation.value.passed), None))
  {
    hide Name, FindValue, Stands, Print, ObjectOf, ParseValidation, DocumentLines, MetricsJson, BuildTree,
         EnvironmentTree, LatencyTree, ValidationTree, SloTree, ReadsBack;
    var doc := MetricsJson(n, b, o, s);
    SnapshotLines(n, b, o, s);
    ProvenanceNames();
    var v := DocumentSearch(n, b, o, s, 1);
    ObjectField(doc, "build", v, BuildTree(b));
    v := DocumentSearch(n, b, o, s, 7);
    ObjectField(doc, "environment", v, EnvironmentTree(n, s.runtime));
    v := DocumentSearch(n, b, o, s, 11);
    ObjectField(doc, "latency_us", v, LatencyTree(n, s));
    v := DocumentSearch(n, b, o, s, 23);
    ObjectField(doc, "slo", v, SloTree(n, o, s));
    v := DocumentSearch(n, b, o, s, 22);
    ValidationRead(n, o, s, doc, v);
  }

  lemma ProvenanceRead(n: Numerics, b: BuildInfo, o: Options, s: Stats)
    requires ReadsBack(n)
    ensures ReadProvenance(MetricsJson(n, b, o, s), Print(BuildTree(b)), Print(EnvironmentTree(n, s.runtime))) ==
      if s.runtime.deviceName == "" then Fail(ExpectedString) else Ok(ProvenanceOf(b, o, s))
  {
    hide Name, FindValue, Stands, Print, StringOf, OptionalStringOf, DocumentLines, MetricsJson, BuildTree,
         EnvironmentTree, TextTree, ReadsBack, Masked;
    var doc := MetricsJson(n, b, o, s);
    SnapshotLines(n, b, o, s);
    ProvenanceNames();
    BuildRead(b);
    EnvironmentRead(n, s.runtime);
    var v := DocumentSearch(n, b, o, s, 2);
    TextField(doc, "model", v, o.modelPath);
    v := DocumentSearch(n, b, o, s, 3);
    TextField(doc, "backend", v, s.backend);
  }

  lemma CountersRead(n: Numerics, b: BuildInfo, o: Options, s: Stats)
    requires ReadsBack(n)
    ensures ReadCounters(n, MetricsJson(n, b, o, s)) == Ok(SnapshotOf(n, b, o, s).counters)
  {
    hide Name, FindValue, Stands, Print, UnsignedOf, NumberOf, BoolOf, DocumentLines, MetricsJson, BoolTree,
         ReadsBack, Reread, RereadSize, ReadingsOf, ObjectiveOf, ProvenanceOf;
    var doc := MetricsJson(n, b, o, s);
    SnapshotLines(n, b, o, s);
    CounterNames();
    var v := DocumentSearch(n, b, o, s, 8);
    SizeField(n, doc, "samples", v, s.endToEnd.samples);
    v := DocumentSearch(n, b, o, s, 9);
    SizeField(n, doc, "input_size", v, o.inputSize);
    v := DocumentSearch(n, b, o, s, 10);
    SizeField(n, doc, "batch_size", v, o.batchSize);
    v := DocumentSearch(n, b, o, s, 5);
    BoolField(doc, "fallback_used", v, o.fallbackUsed);
    v := DocumentSearch(n, b, o, s, 6);
    BoolField(doc, "cuda_graph", v, s.cudaGraph);
    v := DocumentSearch(n, b, o, s, 20);
    RealField(n, doc, "throughput_ips", v, s.throughputIps);
    v := DocumentSearch(n, b, o, s, 21);
    RealField(n, doc, "throughput_samples_per_second", v, s.throughputSamples);
  }

  /**
   The exporter's round trip: from every emitted document the unscoped searches and the brace counter
   recover exactly the values printed for each field asked for, whatever the model, backend, device
   and build strings contain. Only a run whose device is unknown is refused.
   */
  lemma SnapshotEmitted(n: Numerics, b: BuildInfo, o: Options, s: Stats)
    requires ReadsBack(n)
    ensures ParseSnapshot(n, MetricsJson(n, b, o, s)) ==
      if s.runtime.deviceName == "" then Fail(ExpectedString) else Ok(SnapshotOf(n, b, o, s))
  {
    hide Name, Print, UnsignedOf, NumberOf, BoolOf, ObjectOf, ParseDevice, ParseValidation, ParsePassed,
         ReadProvenance, ReadCounters, ParseDistribution, ReadSlo, MetricsJson, BuildTree, EnvironmentTree,
         LatencyTree, DistributionTree, SloTree, ReadsBack, Reread, RereadSize, ReadingsOf, ObjectiveOf, ProvenanceOf,
         SloPassed;
    SchemaRead(n, b, o, s);
    ObjectsRead(n, b, o, s);
    LatencyRead(n, s);
    SloPassedRead(n, o, s);
    ProvenanceRead(n, b, o, s);
    CountersRead(n, b, o, s);
    ReadingsRead(n, s.endToEnd);
    SloRead(n, o, s);
  }

  /** The same in full, each field by its own name. */
  lemma SnapshotPlain(n: Numerics, b: BuildInfo, o: Options, s: Stats)
    requires ReadsBack(n) && s.runtime.deviceName != ""
    ensures ParseSnapshot(n, MetricsJson(n, b, o, s)).Ok?
    ensures var snapshot := ParseSnapshot(n, MetricsJson(n, b, o, s)).value;
      && snapshot.provenance == Provenance(
           version := Masked(b.version), revision := Masked(b.revision), model := Masked(o.modelPath),
           backend := Masked(s.backend),
           backendVersion := if s.runtime.backendVersion == "" then "unknown" else Masked(s.runtime.backendVersion),
           device := Masked(s.runtime.deviceName))
      && snapshot.counters == Counters(
           samples := RereadSize(n, s.endToEnd.samples), inputSize := RereadSize(n, o.inputSize),
           batchSize := RereadSize(n, o.batchSize), fallbackUsed := o.fallbackUsed, cudaGraph := s.cudaGraph,
           throughputIps := Reread(n, s.throughputIps), throughputSamples := Reread(n, s.throughputSamples))
      && IsReading(n, s.endToEnd, snapshot.endToEnd)
      && snapshot.deviceCompute.Some? == s.deviceCompute.Some?
      && (s.deviceCompute.Some? ==> IsReading(n, s.deviceCompute.value, snapshot.deviceCompute.value))
      && snapshot.validationPassed == (if s.validation.None? then None else Some(s.validation.value.passed))
      && snapshot.validationElements == None
    ensures var slo := ParseSnapshot(n, MetricsJson(n, b, o, s)).value.slo;
      var observed := if o.targetScope == Scope.EndToEnd then Some(s.endToEnd) else s.deviceCompute;
      && slo.scope == (if o.targetScope == Scope.EndToEnd then "end_to_end" else "device_compute")
      && slo.targetUs == (if o.targetLatencyUs > 0.0 then Some(Reread(n, o.targetLatencyUs)) else None)
      && slo.observedP99Us == (if observed.None? then None else Some(Reread(n, observed.value.p99)))
      && slo.passed == (if o.targetLatencyUs <= 0.0 then None
                        else Some(observed.Some? && observed.value.p99 <= o.targetLatencyUs))
  {
    hide ParseSnapshot, MetricsJson, ReadsBack, Reread, RereadSize, Masked;
    SnapshotEmitted(n, b, o, s);
  }

  /** The nine values of a distribution as they are read. */
  ghost predicate IsReading(n: Numerics, d: Distribution, r: Readings)
    requires ReadsBack(n)
  {
    r == Readings(
      samples := RereadSize(n, d.samples), mean := Reread(n, d.mean), min := Reread(n, d.min),
      p50 := Reread(n, d.p50), p90 := Reread(n, d.p90), p95 := Reread(n, d.p95), p99 := Reread(n, d.p99),
      max := Reread(n, d.max), stddev := Reread(n, d.stddev))
  }
}
