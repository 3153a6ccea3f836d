/** The emitted document is a valid tree; what its values are to a reader that stands on one. */
module Document {
  import opened Results
  import opened Text
  import opened Literals
  import opened Trees
  import opened Fields
  import opened Blocks
  import opened Metrics
  import opened Emitter
  import Reader

  // ---------------------------------------------------------------- validity

  lemma TextValid(s: string)
    ensures ValidJson(TextTree(s)) && ValidJson(OptionalText(s))
  {
    NullValid();
  }

  lemma NullValid()
    ensures ValidJson(NULL) && forall b :: ValidJson(BoolTree(b))
  {
    assert IsToken("null") && IsToken("true") && IsToken("false");
  }

  lemma NumbersValid(n: Numerics)
    requires ReadsBack(n)
    ensures forall x :: ValidJson(Scalar(n.fixed(x)))
    ensures forall k :: ValidJson(Scalar(n.decimal(k)))
  {
    hide IsToken;
    forall x
      ensures ValidJson(Scalar(n.fixed(x)))
    {
      assert IsNumeral(n.fixed(x));
    }
    forall k
      ensures ValidJson(Scalar(n.decimal(k)))
    {
      assert IsNumeral(n.decimal(k));
    }
  }

  lemma DistributionValid(n: Numerics, d: Distribution)
    requires ReadsBack(n)
    ensures AllValid(DistributionLines(n, d)) && ValidJson(DistributionTree(n, d))
  {
    hide ValidJson, Block, ReadsBack;
    NumbersValid(n);
    BlockValid(DistributionLines(n, d), "    ");
  }

  lemma BuildValid(b: BuildInfo)
    ensures AllValid(BuildLines(b)) && ValidJson(BuildTree(b))
  {
    hide ValidJson, Block;
    TextValid(b.version);
    TextValid(b.revision);
    BlockValid(BuildLines(b), "  ");
  }

  lemma EnvironmentValid(n: Numerics, r: Runtime)
    requires ReadsBack(n)
    ensures AllValid(EnvironmentLines(n, r)) && ValidJson(EnvironmentTree(n, r))
  {
    hide ValidJson, Block, ReadsBack, TextTree, OptionalText;
    NumbersValid(n);
    NullValid();
    TextValid(r.backendVersion);
    TextValid(r.deviceName);
    TextValid(r.computeCapability);
    TextValid(r.cudaRuntime);
    TextValid(r.cudaDriver);
    BlockValid(EnvironmentLines(n, r), "  ");
  }

  lemma LatencyValid(n: Numerics, s: Stats)
    requires ReadsBack(n)
    ensures AllValid(LatencyLines(n, s)) && ValidJson(LatencyTree(n, s))
  {
    hide ValidJson, Block, ReadsBack, DistributionTree;
    NullValid();
    DistributionValid(n, s.endToEnd);
    if s.deviceCompute.Some? {
      DistributionValid(n, s.deviceCompute.value);
    }
    BlockValid(LatencyLines(n, s), "  ");
  }

  lemma ValidationValid(n: Numerics, o: Options, s: Stats)
    requires ReadsBack(n)
    ensures s.validation.Some? ==> AllValid(ValidationLines(n, o, s.validation.value))
    ensures ValidJson(ValidationTree(n, o, s))
  {
    hide ValidJson, Block, ReadsBack, TextTree, BoolTree;
    NullValid();
    if s.validation.Some? {
      NumbersValid(n);
      TextValid("identity");
      BlockValid(ValidationLines(n, o, s.validation.value), "  ");
    }
  }

  lemma SloValid(n: Numerics, o: Options, s: Stats)
    requires ReadsBack(n)
    ensures AllValid(SloLines(n, o, s)) && ValidJson(SloTree(n, o, s))
  {
    hide ValidJson, Block, ReadsBack, TextTree, BoolTree, ScopeName, SloPassed, Selected;
    NullValid();
    NumbersValid(n);
    TextValid(ScopeName(o.targetScope));
    BlockValid(SloLines(n, o, s), "  ");
  }

  /** Whatever the run, the emitted document is a valid tree. */
  lemma DocumentValid(n: Numerics, b: BuildInfo, o: Options, s: Stats)
    requires ReadsBack(n)
    ensures AllValid(DocumentLines(n, b, o, s)) && ValidJson(DocumentTree(n, b, o, s))
  {
    hide ValidJson, Block, ReadsBack, TextTree, BoolTree, ValidationTree, BuildTree, EnvironmentTree, LatencyTree,
         SloTree;
    NullValid();
    NumbersValid(n);
    TextValid(o.modelPath);
    TextValid(s.backend);
    TextValid(o.requestedBackend);
    BuildValid(b);
    EnvironmentValid(n, s.runtime);
    LatencyValid(n, s);
    ValidationValid(n, o, s);
    SloValid(n, o, s);
    SchemaValid();
    BlockValid(DocumentLines(n, b, o, s), "");
  }

  lemma SchemaValid()
    ensures ValidJson(Scalar("2"))
  {
    assert IsToken("2");
  }

  // ---------------------------------------------------------------- standing on a value

  /** What a printed number is read back as. */
  ghost function Reread(n: Numerics, x: real): real
    requires ReadsBack(n)
  {
    n.strtod(n.fixed(x)).value
  }

  ghost function RereadSize(n: Numerics, k: Size): int
    requires ReadsBack(n)
  {
    n.strtod(n.decimal(k)).value.Floor
  }

  /** A number is taken whole, and is not null. */
  lemma OnNumber(t: string, v: nat, w: string)
    requires Stands(t, v, Scalar(w)) && IsNumeral(w)
    ensures SkipSpace(t, v) == v && v + |w| <= |t| && t[v..v + |w|] == w
    ensures Reader.SkipValue(t, v) == Ok(v + |w|) && Reader.ScalarEnd(t, v) == v + |w|
    ensures !At(t, v, "null")
  {
    hide Reader.SkipValue, Reader.ScalarEnd, SkipSpace;
    Reader.SkipValueExact(t, v, Scalar(w));
    Reader.ScalarSpan(t, v, w);
    AtSlice(t, v, w);
    FirstDiffers(t, v, w, "null");
  }

  lemma FirstDiffers(t: string, v: nat, w: string, word: string)
    requires At(t, v, w) && w != "" && word != "" && w[0] != word[0]
    ensures !At(t, v, word)
  {
    AtIndex(t, v, w, 0);
    assert t[v + 0] != word[0];
  }

  /** A string decodes to what each reader makes of it, and is not null. */
  lemma OnText(t: string, v: nat, s: string)
    requires Stands(t, v, TextTree(s))
    ensures Reader.StringValue(t, v) == Ok(Shown(s)) && StringAt(t, v) == Ok(Masked(s))
    ensures SkipSpace(t, v) == v && !At(t, v, "null")
  {
    hide At, ParseString, StringEnd, SkipSpace, Decode, DecodeLossy, Spell, Quote, ValidUnits, StringAt;
    var us := UnitsOf(s);
    FirstChar(t, v, TextTree(s));
    StartsAt(t, v);
    ParseQuoted(t, v, us);
    ScanQuoted(t, v, us);
    DecodeUnitsOf(s);
    AtQuote(t, v);
  }

  lemma StartsAt(t: string, v: nat)
    requires v < |t| && !IsSpace(t[v])
    ensures SkipSpace(t, v) == v
  {
  }

  lemma AtQuote(t: string, v: nat)
    requires v < |t| && (t[v] == '"' || t[v] == '{')
    ensures !At(t, v, "null") && !At(t, v, "true") && !At(t, v, "false")
  {
    assert t[v + 0] != "null"[0] && t[v + 0] != "true"[0] && t[v + 0] != "false"[0];
  }

  /** Null is recognised as null; it is no string and no object. */
  lemma OnNull(t: string, v: nat)
    requires Stands(t, v, NULL)
    ensures SkipSpace(t, v) == v && At(t, v, "null")
    ensures Reader.StringValue(t, v) == Fail(ExpectedString) && StringAt(t, v) == Fail(ExpectedString)
  {
    FirstChar(t, v, NULL);
    StartsAt(t, v);
  }

  lemma OnBool(t: string, v: nat, b: bool)
    requires Stands(t, v, BoolTree(b))
    ensures SkipSpace(t, v) == v && !At(t, v, "null")
    ensures At(t, v, "true") <==> b
    ensures At(t, v, "false") <==> !b
  {
    var w := if b then "true" else "false";
    FirstChar(t, v, BoolTree(b));
    StartsAt(t, v);
    FirstDiffers(t, v, w, "null");
    if b { FirstDiffers(t, v, w, "false"); } else { FirstDiffers(t, v, w, "true"); }
  }

  /** An object is no null, and each reader takes it whole. */
  lemma OnObject(t: string, v: nat, j: Json)
    requires Stands(t, v, j) && j.Object?
    ensures SkipSpace(t, v) == v && !At(t, v, "null")
    ensures Reader.ObjectAt(t, v) == Ok(Reader.SpanOf(v, j))
  {
    hide At, Print, ValidJson, Reader.ObjectAt, Reader.Find;
    FirstChar(t, v, j);
    StartsAt(t, v);
    AtQuote(t, v);
    Reader.FindExact(t, v, j, "");
  }

  // ---------------------------------------------------------------- the document as a whole

  /** The root of an emitted document. */
  lemma RootFound(n: Numerics, b: BuildInfo, o: Options, s: Stats, t: string)
    requires ReadsBack(n) && t == MetricsJson(n, b, o, s)
    ensures Reader.RootObject(t) == Ok(Reader.SpanOf(0, DocumentTree(n, b, o, s)))
    ensures Reader.Encloses(t, Reader.SpanOf(0, DocumentTree(n, b, o, s)))
    ensures At(t, 0, Print(DocumentTree(n, b, o, s)))
  {
    hide ValidJson, Block, Print, At, Name, Stands, ReadsBack, Reader.RootObject, DocumentLines;
    DocumentValid(n, b, o, s);
    var j := DocumentTree(n, b, o, s);
    assert "" + Print(j) + "\n" == t;
    Reader.RootExact("", j, "\n");
    RootStands(t, Print(j));
  }

  lemma RootStands(t: string, w: string)
    requires t == w + "\n"
    ensures At(t, 0, w)
  {
  }

  /** No two fields of the document share a name. */
  lemma DocumentDistinct(n: Numerics, b: BuildInfo, o: Options, s: Stats, k: nat)
    requires k < MEMBERS
    ensures IsFirst(DocumentLines(n, b, o, s), k)
  {
    hide Block, TextTree, BoolTree, ValidationTree, BuildTree, EnvironmentTree, LatencyTree, SloTree;
  }
}
