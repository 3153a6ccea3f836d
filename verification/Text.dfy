/** Positions in a text, and the whitespace scanner both readers share. */
module Text {

  /** The word `w` stands at position `i` of `t`. */
  predicate At(t: string, i: nat, w: string) {
    i + |w| <= |t| && forall k :: 0 <= k < |w| ==> t[i + k] == w[k]
  }

  lemma AtConcat(t: string, i: nat, a: string, b: string)
    ensures At(t, i, a + b) <==> At(t, i, a) && At(t, i + |a|, b)
  {
    if At(t, i, a + b) {
      forall k | 0 <= k < |a|
        ensures t[i + k] == a[k]
      {
        assert (a + b)[k] == a[k];
      }
      forall k | 0 <= k < |b|
        ensures t[i + |a| + k] == b[k]
      {
        assert (a + b)[|a| + k] == b[k];
      }
    }
    if At(t, i, a) && At(t, i + |a|, b) {
      forall k | 0 <= k < |a + b|
        ensures t[i + k] == (a + b)[k]
      {
        if k >= |a| {
          assert t[i + |a| + (k - |a|)] == b[k - |a|];
        }
      }
    }
  }

  lemma AtNothing(t: string, i: nat)
    ensures At(t, i, "") <==> i <= |t|
  {
  }

  lemma AtOne(t: string, i: nat, c: char)
    ensures At(t, i, [c]) <==> i < |t| && t[i] == c
  {
    if At(t, i, [c]) {
      assert t[i + 0] == [c][0];
    }
  }

  lemma AtIndex(t: string, i: nat, w: string, k: nat)
    requires At(t, i, w) && k < |w|
    ensures i + k < |t| && t[i + k] == w[k]
  {
  }

  lemma AtSlice(t: string, i: nat, w: string)
    requires At(t, i, w)
    ensures i + |w| <= |t| && t[i..i + |w|] == w
  {
  }

  lemma AtFour(t: string, i: nat, a: string, b: string, c: string, d: string)
    ensures |a + b + c + d| == |a| + |b| + |c| + |d|
    ensures At(t, i, a + b + c + d) <==>
      At(t, i, a) && At(t, i + |a|, b) && At(t, i + |a| + |b|, c) && At(t, i + |a| + |b| + |c|, d)
  {
    hide At;
    AtConcat(t, i, a + b + c, d);
    AtConcat(t, i, a + b, c);
    AtConcat(t, i, a, b);
  }

  predicate IsSpace(c: char) {
    c == ' ' || c == '\n' || c == '\r' || c == '\t'
  }

  predicate AllSpace(pad: string) {
    forall k :: 0 <= k < |pad| ==> IsSpace(pad[k])
  }

  /** The first position from `p` on that does not hold whitespace. */
  function SkipSpace(t: string, p: nat): (r: nat)
    ensures p <= r
    ensures p <= |t| ==> r <= |t|
    ensures r < |t| ==> !IsSpace(t[r])
    decreases |t| - p
  {
    if p < |t| && IsSpace(t[p]) then SkipSpace(t, p + 1) else p
  }

  /** Skipping never passes a character that is not whitespace. */
  lemma {:induction false} SkipStops(t: string, p: nat, stop: nat)
    requires p <= stop < |t| && !IsSpace(t[stop])
    ensures SkipSpace(t, p) <= stop
    decreases stop - p
  {
    if p < stop && IsSpace(t[p]) {
      SkipStops(t, p + 1, stop);
    }
  }

  method SkipSpaceLoop(t: string, start: nat) returns (position: nat)
    ensures position == SkipSpace(t, start)
  {
    position := start;
    while position < |t|
      invariant SkipSpace(t, position) == SkipSpace(t, start)
    {
      var value := t[position];
      if value != ' ' && value != '\n' && value != '\r' && value != '\t' {
        break;
      }
      position := position + 1;
    }
  }

  /** Padding is skipped exactly when something else, or nothing, follows it. */
  lemma {:induction false} SkipPad(t: string, p: nat, pad: string)
    requires At(t, p, pad) && AllSpace(pad)
    requires p + |pad| < |t| ==> !IsSpace(t[p + |pad|])
    ensures SkipSpace(t, p) == p + |pad|
    decreases |pad|
  {
    if pad != "" {
      assert t[p + 0] == pad[0];
      assert [pad[0]] + pad[1..] == pad;
      AtConcat(t, p, [pad[0]], pad[1..]);
      SkipPad(t, p + 1, pad[1..]);
    }
  }
}
