/**
 * The card's template substitution: every `{{ expression }}` in an item's
 * text is replaced by the value of the expression. The pattern is
 * `/\{\{\s*(.*?)\s*\}\}/g`, which is modelled here as a left-to-right scan.
 *
 * How the pattern matches at an opening `{{`:
 * - The leading greedy `\s*` takes the whole run of white space. Giving some
 *   of it back never produces a match that the full run misses.
 * - The lazy capture `(.*?)` then ends at the first position `j` from which
 *   `\s*\}\}` matches. It never crosses a line terminator, which `.` does
 *   not match.
 * - The match ends after that `}}`. The search goes on from there, or one
 *   character further on when nothing matched.
 *
 * The scan is split in two: `Tokens` finds the holes and `Fill` evaluates
 * them, so that facts about where the pattern matches do not depend on the
 * expressions.
 */
module Template {
  import opened Wrappers
  import opened JsValues
  import opened JsText
  import opened Expression

  /** Two copies of `c` at `i` and `i + 1`. */
  predicate PairAt(s: string, i: int, c: char) {
    0 <= i && i + 1 < |s| && s[i] == c && s[i + 1] == c
  }

  /** `\s*\}\}` matches at `j`. */
  predicate Closes(s: string, j: nat)
    requires j <= |s|
  {
    PairAt(s, SpaceEnd(s, j), '}')
  }

  /** The lazy `(.*?)` from `j`: the first position where `\s*\}\}` matches, if no line terminator comes first. */
  function CloseFrom(s: string, j: nat): (r: Option<nat>)
    requires j <= |s|
    ensures r.Some? ==> j <= r.value <= |s| && Closes(s, r.value)
    decreases |s| - j
  {
    if Closes(s, j) then Some(j)
    else if j < |s| && !IsLineTerminator(s[j]) then CloseFrom(s, j + 1)
    else None
  }

  /** The close `CloseFrom` finds is the first, and no line terminator comes before it. */
  lemma {:induction false} CloseFromFirst(s: string, j: nat)
    requires j <= |s|
    ensures CloseFrom(s, j).Some? ==>
      forall i :: j <= i < CloseFrom(s, j).value ==> !IsLineTerminator(s[i]) && !Closes(s, i)
    decreases |s| - j
  {
    if !Closes(s, j) && j < |s| && !IsLineTerminator(s[j]) {
      CloseFromFirst(s, j + 1);
    }
  }

  /**
   * What the pattern captures: no line terminator, no `}}`, and no white
   * space at either end.
   */
  predicate IsCapture(e: string) {
    && (forall i :: 0 <= i < |e| ==> !IsLineTerminator(e[i]))
    && (forall i :: 0 <= i < |e| ==> !PairAt(e, i, '}'))
    && (e == [] || (!IsSpace(e[0]) && !IsSpace(e[|e| - 1])))
  }

  /** A run of white space moved one step left ends where it did. */
  lemma SpaceEndStep(s: string, i: nat)
    requires i < |s| && IsSpace(s[i])
    ensures SpaceEnd(s, i) == SpaceEnd(s, i + 1)
  {
  }

  /** One match of the pattern at an opening `{{`: the capture and the index just past the match. */
  function MatchAt(s: string): (r: Option<(string, nat)>)
    requires PairAt(s, 0, '{')
    ensures r.Some? ==> 4 <= r.value.1 <= |s| && PairAt(s, r.value.1 - 2, '}')
  {
    var k := SpaceEnd(s, 2);
    match CloseFrom(s, k)
    case None => None
    case Some(j) => Some((s[k..j], SpaceEnd(s, j) + 2))
  }

  /** What a match captures has no line terminator, no `}}` and no white space at either end. */
  lemma MatchCaptures(s: string)
    requires PairAt(s, 0, '{')
    ensures MatchAt(s).Some? ==> IsCapture(MatchAt(s).value.0)
  {
    var k := SpaceEnd(s, 2);
    CloseFromFirst(s, k);
    match CloseFrom(s, k)
    case None =>
    case Some(j) => CaptureOf(s, k, j);
  }

  /** Between a run of white space and the first close after it lies a capture. */
  lemma CaptureOf(s: string, k: nat, j: nat)
    requires k <= j <= |s| && (k < |s| ==> !IsSpace(s[k]))
    requires forall i :: k <= i < j ==> !IsLineTerminator(s[i]) && !Closes(s, i)
    requires Closes(s, j)
    ensures IsCapture(s[k..j])
  {
    var e := s[k..j];
    assert forall i :: 0 <= i < |e| ==> e[i] == s[k + i];
    forall i | 0 <= i < |e| ensures !PairAt(e, i, '}') {
      CaptureNoClose(s, k, j, i);
    }
    if e != [] {
      CaptureLast(s, k, j);
    }
  }

  /** A `}}` inside the capture would have closed the match earlier. */
  lemma CaptureNoClose(s: string, k: nat, j: nat, i: nat)
    requires k + i < j <= |s|
    requires !Closes(s, k + i)
    ensures !PairAt(s[k..j], i, '}')
  {
  }

  /** White space at the end of the capture would have let the match close earlier. */
  lemma CaptureLast(s: string, k: nat, j: nat)
    requires k < j <= |s|
    requires !Closes(s, j - 1) && Closes(s, j)
    ensures !IsSpace(s[k..j][j - k - 1])
  {
  }

  /** A piece of a template: a character copied through, or a hole whose expression is evaluated. */
  datatype Piece = Lit(c: char) | Hole(expr: string)

  /**
   * The pieces the global pattern cuts `s` into, left to right: a hole for
   * each match, and every character outside a match copied through.
   */
  function Tokens(s: string): (ps: seq<Piece>)
    ensures |ps| <= |s|
    ensures ps == [] <==> s == []
    ensures forall i :: 0 <= i < |ps| && ps[i].Hole? ==> IsCapture(ps[i].expr)
    decreases |s|
  {
    if s == [] then []
    else if PairAt(s, 0, '{') && MatchAt(s).Some? then
      var m := MatchAt(s).value;
      MatchCaptures(s);
      [Hole(m.0)] + Tokens(s[m.1..])
    else [Lit(s[0])] + Tokens(s[1..])
  }

  /** Every character of `s` copied through. */
  function Lits(s: string): (ps: seq<Piece>)
    ensures |ps| == |s| && forall i :: 0 <= i < |s| ==> ps[i] == Lit(s[i])
  {
    seq(|s|, i requires 0 <= i < |s| => Lit(s[i]))
  }

  /** The replacer callback `(match, expr) => evaluate(expr)` on one hole. */
  function HoleText(h: Hass, n: Numerics, e: string): (r: string)
    ensures AllSpace(e) ==> r == ""
    ensures Lookup(h, Trim(e)).Failure? && Trim(e) != "" && '|' !in e ==> r == "Error: " + Lookup(h, Trim(e)).error
  {
    EvaluateError(h, n, e);
    ToText(n.show, Evaluate(h, n, e))
  }

  /** The text of one piece: a character as it is, a hole replaced by its value. */
  function PieceText(h: Hass, n: Numerics, p: Piece): string {
    match p
    case Lit(c) => [c]
    case Hole(e) => HoleText(h, n, e)
  }

  /** The text of the pieces, one after the other. */
  function Fill(h: Hass, n: Numerics, ps: seq<Piece>): (r: string)
    ensures (forall i :: 0 <= i < |ps| ==> ps[i].Lit?) ==> |r| == |ps| && forall i :: 0 <= i < |ps| ==> r[i] == ps[i].c
  {
    if ps == [] then [] else PieceText(h, n, ps[0]) + Fill(h, n, ps[1..])
  }

  /**
   * `_renderTemplate(template)`: '' for anything that is not a string,
   * otherwise `template.replace(/\{\{\s*(.*?)\s*\}\}/g, ...)`.
   */
  function RenderTemplate(h: Hass, n: Numerics, template: Value): (r: string)
    ensures !template.Str? ==> r == ""
    ensures template == Str("") ==> r == ""
  {
    if template.Str? then Fill(h, n, Tokens(template.s)) else ""
  }

  /** Filling pieces one after the other is filling them together. */
  lemma {:induction false} FillAppend(h: Hass, n: Numerics, a: seq<Piece>, b: seq<Piece>)
    ensures Fill(h, n, a + b) == Fill(h, n, a) + Fill(h, n, b)
    decreases |a|
  {
    if a != [] {
      assert (a + b)[0] == a[0] && (a + b)[1..] == a[1..] + b;
      FillAppend(h, n, a[1..], b);
      var x, fa, fb := PieceText(h, n, a[0]), Fill(h, n, a[1..]), Fill(h, n, b);
      assert x + (fa + fb) == x + fa + fb;
    } else {
      assert a + b == b;
    }
  }

  /** Characters copied through fill back to themselves. */
  lemma {:induction false} FillLits(h: Hass, n: Numerics, s: string)
    ensures Fill(h, n, Lits(s)) == s
    decreases |s|
  {
    if s != [] {
      assert Lits(s)[1..] == Lits(s[1..]);
      FillLits(h, n, s[1..]);
      assert s == [s[0]] + s[1..];
    }
  }

  /** Text holding no `}}` has no hole. */
  lemma {:induction false} TokensNoClose(s: string)
    requires forall i :: !PairAt(s, i, '}')
    ensures Tokens(s) == Lits(s)
    decreases |s|
  {
    if s != [] {
      assert PairAt(s, 0, '{') ==> MatchAt(s).None?;
      forall i ensures PairAt(s[1..], i, '}') ==> PairAt(s, i + 1, '}') {
      }
      TokensNoClose(s[1..]);
      assert Lits(s) == [Lit(s[0])] + Lits(s[1..]);
    }
  }

  /** A text without any `}}` renders as itself. */
  lemma RenderPlainText(h: Hass, n: Numerics, s: string)
    requires forall i :: !PairAt(s, i, '}')
    ensures RenderTemplate(h, n, Str(s)) == s
  {
    TokensNoClose(s);
    FillLits(h, n, s);
  }

  /**
   * A `{{` the pattern cannot match at (a line break before the closing
   * `}}`, or no `}}` at all) is copied through, and the scan resumes at the
   * next character.
   */
  lemma RenderUnmatched(h: Hass, n: Numerics, s: string)
    requires PairAt(s, 0, '{') && MatchAt(s).None?
    ensures RenderTemplate(h, n, Str(s)) == s[..1] + RenderTemplate(h, n, Str(s[1..]))
  {
    var ps := Tokens(s);
    assert ps == [Lit(s[0])] + Tokens(s[1..]);
    assert ps[0] == Lit(s[0]) && ps[1..] == Tokens(s[1..]);
    assert Fill(h, n, ps) == [s[0]] + Fill(h, n, ps[1..]);
  }

  /** A character that does not open `{{` is copied through. */
  lemma TokensCopy(s: string)
    requires s != [] && !PairAt(s, 0, '{')
    ensures Tokens(s) == [Lit(s[0])] + Tokens(s[1..])
  {
  }

  /** A prefix in which no `{{` starts is copied through character by character. */
  lemma {:induction false} TokensAppend(a: string, b: string)
    requires forall i :: 0 <= i < |a| ==> !PairAt(a + b, i, '{')
    ensures Tokens(a + b) == Lits(a) + Tokens(b)
    decreases |a|
  {
    if a == [] {
      assert a + b == b;
    } else {
      TokensAppendStep(a, b);
      NoOpenTail(a, b);
      TokensAppend(a[1..], b);
      LitsCons(a, Tokens(b));
    }
  }

  /** `Lits(a) + t` is the first character copied through, then the rest. */
  lemma LitsCons(a: string, t: seq<Piece>)
    requires a != []
    ensures Lits(a) + t == [Lit(a[0])] + (Lits(a[1..]) + t)
  {
    assert Lits(a) == [Lit(a[0])] + Lits(a[1..]);
  }

  lemma TokensAppendStep(a: string, b: string)
    requires a != [] && !PairAt(a + b, 0, '{')
    ensures Tokens(a + b) == [Lit(a[0])] + Tokens(a[1..] + b)
  {
    var s := a + b;
    assert s[0] == a[0] && s[1..] == a[1..] + b;
    TokensCopy(s);
  }

  lemma NoOpenTail(a: string, b: string)
    requires a != [] && forall i :: 0 <= i < |a| ==> !PairAt(a + b, i, '{')
    ensures forall i :: 0 <= i < |a| - 1 ==> !PairAt(a[1..] + b, i, '{')
  {
    var s := a + b;
    assert s[1..] == a[1..] + b;
    forall i | 0 <= i < |a| - 1 ensures !PairAt(a[1..] + b, i, '{') {
      assert !PairAt(s, i + 1, '{');
    }
  }

  /** A prefix in which no `{{` starts is rendered as it is. */
  lemma RenderPrefix(h: Hass, n: Numerics, a: string, b: string)
    requires forall i :: 0 <= i < |a| ==> !PairAt(a + b, i, '{')
    ensures RenderTemplate(h, n, Str(a + b)) == a + RenderTemplate(h, n, Str(b))
  {
    TokensAppend(a, b);
    FillAppend(h, n, Lits(a), Tokens(b));
    FillLits(h, n, a);
  }

  /** `CloseFrom` stops at the first position from which `\s*\}\}` matches. */
  lemma CloseFromStops(s: string, j: nat, c: nat)
    requires j <= c <= |s| && Closes(s, c)
    requires forall i :: j <= i < c ==> !IsLineTerminator(s[i]) && !Closes(s, i)
    ensures CloseFrom(s, j) == Some(c)
    decreases c - j
  {
    if j < c {
      CloseFromStops(s, j + 1, c);
    }
  }

  /**
   * In `s`, the capture `e` sits at `k` and is followed by the spaces `w2`
   * and `}}`: the lazy capture stops right after `e`.
   */
  lemma CaptureEnds(s: string, k: nat, e: string, w2: string)
    requires IsCapture(e) && e != [] && AllSpace(w2)
    requires w2 == [] ==> e[|e| - 1] != '}'
    requires k + |e| + |w2| + 2 <= |s|
    requires s[k..k + |e|] == e && s[k + |e|..k + |e| + |w2|] == w2
    requires PairAt(s, k + |e| + |w2|, '}')
    ensures CloseFrom(s, k) == Some(k + |e|)
    ensures SpaceEnd(s, k + |e|) == k + |e| + |w2|
  {
    var j := k + |e|;
    var t := j + |w2|;
    assert forall i :: 0 <= i < |e| ==> s[k + i] == e[i];
    assert forall i :: 0 <= i < |w2| ==> s[j + i] == w2[i];
    SpaceEndStops(s, j, t);
    forall i | k <= i < j ensures !IsLineTerminator(s[i]) && !Closes(s, i) {
      NoCloseInside(s, k, e, w2, i);
    }
    CloseFromStops(s, k, j);
  }

  /** No position inside the capture `e` closes the match. */
  lemma NoCloseInside(s: string, k: nat, e: string, w2: string, i: nat)
    requires k <= i < k + |e| < |s|
    requires IsCapture(e) && AllSpace(w2)
    requires w2 == [] ==> e[|e| - 1] != '}'
    requires forall m :: 0 <= m < |e| ==> s[k + m] == e[m]
    requires w2 != [] ==> s[k + |e|] == w2[0]
    ensures !IsLineTerminator(s[i]) && !Closes(s, i)
  {
    var j := k + |e|;
    assert s[i] == e[i - k];
    var u := SpaceEnd(s, i);
    assert s[j - 1] == e[|e| - 1];
    assert u <= j - 1;
    if u < j - 1 {
      assert s[u] == e[u - k] && s[u + 1] == e[u - k + 1];
      assert !PairAt(e, u - k, '}');
    } else if w2 != [] {
      assert IsSpace(w2[0]);
    }
  }

  /**
   * The substitution: `{{`, optional spaces, an expression, optional spaces
   * and `}}` make one hole, and the scan goes on after the `}}`. The
   * expression must be what the pattern captures; when it ends in `}` a
   * space must separate it from the `}}`.
   */
  lemma TokensReplace(w1: string, e: string, w2: string, rest: string)
    requires AllSpace(w1) && AllSpace(w2) && IsCapture(e)
    requires w2 == [] && e != [] ==> e[|e| - 1] != '}'
    ensures Tokens("{{" + w1 + e + w2 + "}}" + rest) == [Hole(e)] + Tokens(rest)
  {
    MatchAtReplace(w1, e, w2, rest);
    ReplaceLayout(w1, e, w2, rest);
  }

  /** The hole is replaced by the text of the expression's value, and the rest rendered after it. */
  lemma RenderReplace(h: Hass, n: Numerics, w1: string, e: string, w2: string, rest: string)
    requires AllSpace(w1) && AllSpace(w2) && IsCapture(e)
    requires w2 == [] && e != [] ==> e[|e| - 1] != '}'
    ensures RenderTemplate(h, n, Str("{{" + w1 + e + w2 + "}}" + rest))
         == ToText(n.show, Evaluate(h, n, e)) + RenderTemplate(h, n, Str(rest))
  {
    TokensReplace(w1, e, w2, rest);
    FillAppend(h, n, [Hole(e)], Tokens(rest));
  }

  /** The match at the head of `{{ w1 e w2 }} rest` captures `e` and ends before `rest`. */
  lemma MatchAtReplace(w1: string, e: string, w2: string, rest: string)
    requires AllSpace(w1) && AllSpace(w2) && IsCapture(e)
    requires w2 == [] && e != [] ==> e[|e| - 1] != '}'
    ensures var s := "{{" + w1 + e + w2 + "}}" + rest;
      PairAt(s, 0, '{') && MatchAt(s) == Some((e, 4 + |w1| + |e| + |w2|))
  {
    var s := "{{" + w1 + e + w2 + "}}" + rest;
    var k := 2 + |w1|;
    var j := k + |e|;
    var t := j + |w2|;
    ReplaceLayout(w1, e, w2, rest);
    MatchAtParts(s, k, j, t);
    MatchAtRenamed(s, s[k..j], e, t + 2);
  }

  lemma MatchAtRenamed(s: string, e: string, e': string, end: nat)
    requires PairAt(s, 0, '{') && MatchAt(s) == Some((e, end)) && e == e'
    ensures MatchAt(s) == Some((e', end))
  {
  }

  /** Where the pieces of `{{ w1 e w2 }} rest` sit. */
  lemma ReplaceLayout(w1: string, e: string, w2: string, rest: string)
    ensures var s := "{{" + w1 + e + w2 + "}}" + rest;
      var k := 2 + |w1|;
      var j := k + |e|;
      var t := j + |w2|;
      && s[2..k] == w1 && s[k..j] == e && s[j..t] == w2 && s[t + 2..] == rest
      && PairAt(s, 0, '{') && PairAt(s, t, '}')
  {
    var s := "{{" + w1 + e + w2 + "}}" + rest;
    var k := 2 + |w1|;
    var j := k + |e|;
    var t := j + |w2|;
    assert s[2..k] == w1 && s[k..j] == e && s[j..t] == w2;
    assert s[t] == '}' && s[t + 1] == '}' && s[t + 2..] == rest;
  }

  /** `MatchAt` on `{{`, spaces up to `k`, a capture up to `j`, spaces up to `t` and `}}`. */
  lemma MatchAtParts(s: string, k: nat, j: nat, t: nat)
    requires PairAt(s, 0, '{') && 2 <= k <= j <= t && PairAt(s, t, '}')
    requires AllSpace(s[2..k]) && AllSpace(s[j..t]) && IsCapture(s[k..j])
    requires t == j && k < j ==> s[k..j][j - k - 1] != '}'
    ensures MatchAt(s) == Some((s[k..j], t + 2))
  {
    if k == j {
      assert AllSpace(s[2..t]) by {
        forall i | 2 <= i < t ensures IsSpace(s[i]) {
          if i < k { assert s[2..k][i - 2] == s[i]; } else { assert s[j..t][i - j] == s[i]; }
        }
      }
      MatchAtEmpty(s, t);
    } else {
      MatchAtCapture(s, k, j, t);
    }
  }

  /** `{{`, white space and `}}`: the capture is empty. */
  lemma MatchAtEmpty(s: string, t: nat)
    requires PairAt(s, 0, '{') && 2 <= t && PairAt(s, t, '}') && AllSpace(s[2..t])
    ensures MatchAt(s) == Some(([], t + 2))
  {
    SpaceEndStops(s, 2, t);
    SpaceEndStops(s, t, t);
    assert CloseFrom(s, t) == Some(t);
    MatchAtOf(s, t, t);
    assert s[t..t] == [];
  }

  /** `{{`, white space, a non-empty capture, white space and `}}`. */
  lemma MatchAtCapture(s: string, k: nat, j: nat, t: nat)
    requires PairAt(s, 0, '{') && 2 <= k < j <= t && PairAt(s, t, '}')
    requires AllSpace(s[2..k]) && AllSpace(s[j..t]) && IsCapture(s[k..j])
    requires t == j ==> s[k..j][j - k - 1] != '}'
    ensures MatchAt(s) == Some((s[k..j], t + 2))
  {
    SpaceEndStops(s, 2, k);
    var e, w2 := s[k..j], s[j..t];
    assert k + |e| == j && j + |w2| == t;
    CaptureEnds(s, k, e, w2);
    MatchAtOf(s, k, j);
  }

  /** `MatchAt` once the spaces after `{{` end at `k` and the lazy capture ends at `j`. */
  lemma MatchAtOf(s: string, k: nat, j: nat)
    requires PairAt(s, 0, '{') && k == SpaceEnd(s, 2) && CloseFrom(s, k) == Some(j)
    ensures MatchAt(s) == Some((s[k..j], SpaceEnd(s, j) + 2))
  {
  }
}
