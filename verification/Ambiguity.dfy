/** Which strings can be told from all others by the copy a reader of the document makes of them. */
module Ambiguity {
  import opened Literals

  /**
   Strings over the characters from `least` on: all of them if that is the null character, and those a C
   string can hold if it is the one after it.
   */
  predicate IsOver(s: string, least: char) {
    forall k :: 0 <= k < |s| ==> s[k] >= least
  }

  /** The least character of a C string. */
  const FIRST: char := 1 as char

  /** The escape the emitter writes for some bare control from `least` on. */
  ghost predicate IsSpelling(w: string, least: char) {
    exists c :: IsBareControl(c) && c >= least && w == EscapeChar(c)
  }

  ghost predicate SpellingAt(s: string, i: nat, least: char) {
    i + 6 <= |s| && IsSpelling(s[i..i + 6], least)
  }

  /** Somewhere inside stands such an escape, in plain characters. */
  ghost predicate HoldsSpelling(s: string, least: char) {
    exists i: nat :: SpellingAt(s, i, least)
  }

  lemma {:induction false} ShownConcat(a: string, b: string)
    ensures Shown(a + b) == Shown(a) + Shown(b)
    decreases |a|
  {
    if a == "" {
      assert a + b == b;
    } else {
      assert (a + b)[1..] == a[1..] + b;
      ShownConcat(a[1..], b);
    }
  }

  /** A bare control is shown as its spelling, and so is the spelling itself. */
  lemma SpellingShown(c: char)
    requires IsBareControl(c)
    ensures |EscapeChar(c)| == 6
    ensures Shown([c]) == EscapeChar(c) && Shown(EscapeChar(c)) == EscapeChar(c)
  {
    assert NoBareControl(EscapeChar(c));
    ShownExact(EscapeChar(c));
    assert [c][1..] == "" && EscapeChar(c) + "" == EscapeChar(c);
  }

  lemma SplitShown(before: string, w: string, after: string)
    ensures Shown(before + w + after) == Shown(before) + Shown(w) + Shown(after)
  {
    ShownConcat(before + w, after);
    ShownConcat(before, w);
  }

  /** A bare control and its spelling can stand for each other anywhere. */
  lemma Interchange(before: string, c: char, after: string)
    requires IsBareControl(c)
    ensures Shown(before + [c] + after) == Shown(before + EscapeChar(c) + after)
    ensures before + [c] + after != before + EscapeChar(c) + after
  {
    hide EscapeChar, Shown;
    SpellingShown(c);
    SplitShown(before, [c], after);
    SplitShown(before, EscapeChar(c), after);
    assert |before + [c] + after| != |before + EscapeChar(c) + after|;
  }

  /** A bare control leaves its spelling in the copy. */
  lemma BareLeavesSpelling(s: string, i: nat, least: char)
    requires i < |s| && IsBareControl(s[i]) && s[i] >= least
    ensures HoldsSpelling(Shown(s), least)
  {
    hide EscapeChar, Shown, IsBareControl;
    var before, after := s[..i], s[i + 1..];
    assert s == before + [s[i]] + after;
    SpellingShown(s[i]);
    SplitShown(before, [s[i]], after);
    var k := |Shown(before)|;
    assert Shown(s)[k..k + 6] == EscapeChar(s[i]);
    assert SpellingAt(Shown(s), k, least);
  }

  /**
   Among the strings over the same characters, the comparator's copy of a string tells it from every other
   one exactly when it holds neither a bare control nor the spelling of one.
   */
  lemma ShownDetermines(a: string, least: char)
    requires IsOver(a, least) && least <= ' '
    ensures (forall b | IsOver(b, least) && Shown(b) == Shown(a) :: b == a)
       <==> NoBareControl(a) && !HoldsSpelling(a, least)
  {
    hide Shown, EscapeChar, NoBareControl, HoldsSpelling, IsBareControl, IsOver;
    if !NoBareControl(a) || HoldsSpelling(a, least) {
      var b := Twin(a, least);
    } else {
      ShownExact(a);
      forall b | IsOver(b, least) && Shown(b) == Shown(a)
        ensures b == a
      {
        ShownExact(b);
        if !NoBareControl(b) {
          HasBare(b, least);
        }
      }
    }
  }

  lemma HasBare(s: string, least: char)
    requires !NoBareControl(s) && IsOver(s, least)
    ensures HoldsSpelling(Shown(s), least)
  {
    hide Shown, HoldsSpelling;
    var i :| 0 <= i < |s| && IsBareControl(s[i]);
    BareLeavesSpelling(s, i, least);
  }

  /** Another string with the same copy. */
  lemma Twin(a: string, least: char) returns (b: string)
    requires !NoBareControl(a) || HoldsSpelling(a, least)
    requires IsOver(a, least) && least <= ' '
    ensures b != a && Shown(b) == Shown(a) && IsOver(b, least)
  {
    hide Shown, EscapeChar, IsBareControl;
    if !NoBareControl(a) {
      var i :| 0 <= i < |a| && IsBareControl(a[i]);
      assert a == a[..i] + [a[i]] + a[i + 1..];
      b := a[..i] + EscapeChar(a[i]) + a[i + 1..];
      Interchange(a[..i], a[i], a[i + 1..]);
      SpellingPrintable(a[i]);
    } else {
      var i: nat :| SpellingAt(a, i, least);
      var c :| IsBareControl(c) && c >= least && a[i..i + 6] == EscapeChar(c);
      assert a == a[..i] + a[i..i + 6] + a[i + 6..];
      b := a[..i] + [c] + a[i + 6..];
      Interchange(a[..i], c, a[i + 6..]);
    }
  }

  lemma SpellingPrintable(c: char)
    requires IsBareControl(c)
    ensures IsOver(EscapeChar(c), ' ')
  {
  }

  /** Among strings without bare controls the comparator confuses none. */
  lemma PlainNamesApart(a: string, b: string)
    requires NoBareControl(a) && NoBareControl(b)
    ensures Shown(a) == Shown(b) <==> a == b
  {
    hide Shown, NoBareControl;
    ShownExact(a);
    ShownExact(b);
  }

  /** For the exporter's copy the place of the spelling is taken by the question mark. */
  lemma MaskedDetermines(a: string)
    ensures (forall b :: Masked(b) == Masked(a) ==> b == a) <==> NoBareControl(a) && '?' !in a
  {
    hide Masked;
    if i :| 0 <= i < |a| && (IsBareControl(a[i]) || a[i] == '?') {
      var other := if a[i] == '?' then 1 as char else '?';
      var b := a[i := other];
      assert b[i] != a[i] && Masked(b) == Masked(a);
    } else {
      forall b | Masked(b) == Masked(a)
        ensures b == a
      {
        forall k | 0 <= k < |a|
          ensures b[k] == a[k]
        {
          assert Masked(b)[k] == Masked(a)[k];
        }
      }
    }
  }
}
