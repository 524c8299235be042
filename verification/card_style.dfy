/**
 * The card's two style resolvers: `resolveFontSize`, which turns a validated
 * `font_size` into a CSS rule, and `resolveCustomColor`, which turns
 * `cascade_color` into custom-property overrides.
 */
module CardStyle {
  import opened Wrappers
  import opened JsValues
  import opened JsText

  /** The message of the TypeError that `value.trim()` throws on a value that is not a string. */
  const TrimError: string := "trim is not a function"

  /** The units the font-size pattern accepts, in lower case. */
  const Units: set<string> :=
    {"px", "em", "rem", "%", "ex", "ch", "vw", "vh", "vmin", "vmax", "pt", "pc", "in", "cm", "mm"}

  predicate IsAsciiLetter(c: char) {
    'a' <= c <= 'z' || 'A' <= c <= 'Z'
  }

  /** ASCII lower-casing: the only case folding the `i` flag does between ASCII letters. */
  function Lower(c: char): (r: char)
    ensures 'a' <= r <= 'z' ==> IsAsciiLetter(c)
    ensures !('a' <= r <= 'z') ==> r == c
  {
    if 'A' <= c <= 'Z' then (c as int + 32) as char else c
  }

  function LowerAll(s: string): (r: string)
    ensures |r| == |s| && forall i :: 0 <= i < |s| ==> r[i] == Lower(s[i])
  {
    seq(|s|, i requires 0 <= i < |s| => Lower(s[i]))
  }

  /** `[\d.]`. */
  predicate IsSizeChar(c: char) {
    IsDigit(c) || c == '.'
  }

  /** The end of the run of `[\d.]` that starts at `i` (what the greedy `[\d.]+` consumes). */
  function SizeEnd(s: string, i: nat): (k: nat)
    requires i <= |s|
    ensures i <= k <= |s|
    ensures forall j :: i <= j < k ==> IsSizeChar(s[j])
    ensures k < |s| ==> !IsSizeChar(s[k])
    decreases |s| - i
  {
    if i < |s| && IsSizeChar(s[i]) then SizeEnd(s, i + 1) else i
  }

  /**
   * `/^[\d.]+\s*(px|em|rem|%|ex|ch|vw|vh|vmin|vmax|pt|pc|in|cm|mm)$/i`.
   * No unit starts with a digit, a dot or white space, so the two greedy
   * runs never have to give anything back: the digits and dots, then the
   * white space, then exactly one unit up to the end.
   */
  predicate IsFontSize(t: string): (b: bool)
    ensures b ==> |t| >= 2 && IsSizeChar(t[0]) && !IsSizeChar(t[|t| - 1])
  {
    var d := SizeEnd(t, 0);
    var u := SpaceEnd(t, d);
    d > 0 && LowerAll(t[u..]) in Units
  }

  /** Every unit is made of lower-case letters and `%`. */
  lemma UnitChars(w: string)
    requires w in Units
    ensures forall i :: 0 <= i < |w| ==> 'a' <= w[i] <= 'z' || w[i] == '%'
  {
  }

  /**
   * An accepted font size holds only digits, dots, white space, ASCII
   * letters and `%`, so it cannot end the CSS declaration or rule it is
   * placed in.
   */
  lemma FontSizeSafe(t: string)
    requires IsFontSize(t)
    ensures forall i :: 0 <= i < |t| ==> IsSizeChar(t[i]) || IsSpace(t[i]) || IsAsciiLetter(t[i]) || t[i] == '%'
  {
    var d := SizeEnd(t, 0);
    var u := SpaceEnd(t, d);
    var w := LowerAll(t[u..]);
    UnitChars(w);
    forall i | u <= i < |t| ensures IsAsciiLetter(t[i]) || t[i] == '%' {
      assert w[i - u] == Lower(t[i]);
    }
  }

  /** Every number, run of white space and unit in any letter case forms an accepted font size. */
  lemma FontSizeAccepted(num: string, gap: string, unit: string)
    requires num != [] && forall i :: 0 <= i < |num| ==> IsSizeChar(num[i])
    requires AllSpace(gap)
    requires LowerAll(unit) in Units
    ensures IsFontSize(num + gap + unit)
  {
    var t := num + gap + unit;
    var d := |num|;
    var u := |num| + |gap|;
    UnitChars(LowerAll(unit));
    assert unit != [] && t[u] == unit[0];
    assert !IsSizeChar(unit[0]) && !IsSpace(unit[0]) by {
      assert Lower(unit[0]) == LowerAll(unit)[0];
    }
    assert forall i :: 0 <= i < d ==> t[i] == num[i];
    assert forall i :: d <= i < u ==> t[i] == gap[i - d];
    assert !IsSizeChar(t[d]) by {
      if gap != [] { assert t[d] == gap[0] && IsSpace(gap[0]); }
    }
    SizeEndStops(t, 0, d);
    SpaceEndStops(t, d, u);
    assert t[u..] == unit;
  }

  /** `SizeEnd` stops at the first character that is neither a digit nor a dot. */
  lemma SizeEndStops(s: string, i: nat, k: nat)
    requires i <= k < |s| && (forall j :: i <= j < k ==> IsSizeChar(s[j])) && !IsSizeChar(s[k])
    ensures SizeEnd(s, i) == k
    decreases k - i
  {
    if i < k {
      SizeEndStops(s, i + 1, k);
    }
  }

  /** A value with no number in front of its unit, or anything after the unit, is refused. */
  lemma FontSizeRefused()
    ensures !IsFontSize("px") && !IsFontSize("12") && !IsFontSize("12px;") && !IsFontSize("")
    ensures !IsFontSize(Trim(""))
  {
    assert SizeEnd("px", 0) == 0;
    var t := "12px;";
    SizeEndStops(t, 0, 2);
    SpaceEndStops(t, 2, 2);
    assert t[2..] == "px;";
    assert LowerAll("px;") == "px;";
    assert SizeEnd("12", 0) == 2 by { assert SizeEnd("12", 2) == 2; }
  }

  /** The rule `resolveFontSize` returns for an accepted size. */
  function FontRule(size: string): (r: string)
    ensures |r| == |size| + 49
    ensures r[35..35 + |size|] == size
  {
    ".multi-line-container { font-size: " + size + " !important; }"
  }

  /** The rule for a trimmed size: the font-size rule when the size is accepted, '' otherwise. */
  function SizeRule(size: string): (r: string)
    ensures r != "" <==> IsFontSize(size)
    ensures r != "" ==> r == FontRule(size)
  {
    if IsFontSize(size) then FontRule(size) else ""
  }

  /**
   * `resolveFontSize()` on `font_size`: '' when it is falsy or not an
   * accepted size (the source also logs a warning then); the font-size rule
   * for the trimmed value when it is accepted; a thrown TypeError when it
   * is truthy but not a string.
   */
  function ResolveFontSize(fontSize: Value): (r: Result<string>)
    ensures r.Failure? <==> Truthy(fontSize) && !fontSize.Str?
    ensures !Truthy(fontSize) ==> r == Success("")
    ensures Truthy(fontSize) && fontSize.Str? ==> r.Success? && (r.value != "" <==> IsFontSize(Trim(fontSize.s)))
    ensures r.Success? && r.value != "" ==> fontSize.Str? && r.value == FontRule(Trim(fontSize.s))
  {
    if !Truthy(fontSize) then Success("")
    else if !fontSize.Str? then Failure(TrimError)
    else Success(SizeRule(Trim(fontSize.s)))
  }

  const UserOverride: string := "--data-cascade-user-override"
  const ColorOverride: string := "--data-cascade-color-override"

  /**
   * The colour rules: the chosen property is set on the host, and the
   * container resolves its colour from the user override, then the colour
   * override, then the theme's colours, then #ff9900.
   */
  function ColorRule(property: string, value: string): (r: string)
    ensures var p := 15 + |property|;
      && |r| >= p + 2 + |value|
      && r[15..p] == property && r[p..p + 2] == ": " && r[p + 2..p + 2 + |value|] == value
  {
    "\n      :host { " + property + ": " + value + ContainerRule
  }

  /** The end of the host rule and the container's colour fallback chain. */
  const ContainerRule: string := "; }\n"
    + "      .multi-line-container { --resolved-cascade-color: var(" + UserOverride + ", var(" + ColorOverride
    + ", var(--data-cascade-color, var(--lcars-ui-primary, #ff9900)))); }\n    "

  /**
   * `resolveCustomColor()` on `cascade_color`: '' when it is falsy; for a
   * string, the colour rules with the trimmed value assigned to the user
   * override when it starts with `var(` and to the colour override
   * otherwise; a thrown TypeError when it is truthy but not a string.
   */
  function ResolveCustomColor(color: Value): (r: Result<string>)
    ensures r.Failure? <==> Truthy(color) && !color.Str?
    ensures !Truthy(color) ==> r == Success("")
    ensures Truthy(color) && color.Str? ==>
      && r.Success? && r.value != ""
      && (StartsWith(Trim(color.s), "var(") ==> r.value == ColorRule(UserOverride, Trim(color.s)))
      && (!StartsWith(Trim(color.s), "var(") ==> r.value == ColorRule(ColorOverride, Trim(color.s)))
  {
    if !Truthy(color) then Success("")
    else if !color.Str? then Failure(TrimError)
    else
      var value := Trim(color.s);
      var property := if StartsWith(value, "var(") then UserOverride else ColorOverride;
      Success(ColorRule(property, value))
  }
}
