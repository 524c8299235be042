/**
 * The card's expression evaluator (`_evaluateExpression`, `states`,
 * `state_attr`): the text between `{{` and `}}` is split at `|` into a call
 * and a filter; the call is one of `states('ID')`, `state_attr('ID','ATTR')`
 * or a bare entity id, and the filter may be `round(N)`. The regular
 * expressions of the original are written out as small parsers.
 */
module Expression {
  import opened Wrappers
  import opened JsValues
  import opened JsText

  /** What the entity store holds for one entity id. */
  datatype Entity = Entity(state: Value, attributes: map<string, Value>)

  /** The `hass` object. When its `states` table is missing, every lookup throws. */
  datatype Hass = Hass(states: Option<map<string, Entity>>)

  /**
   * The engine's number behaviour, which is floating point and is left
   * abstract: `round(Number(value), digits)` and Number-to-string formatting.
   */
  datatype Numerics = Numerics(round: (Value, nat) -> Value, show: real -> string)

  /**
   * The card's `round(value, digits)` receives `Number(value)`, a number, and
   * returns `Math.round(value * factor) / factor`, again a number (NaN included).
   */
  ghost predicate NumericRound(n: Numerics) {
    forall v, d :: n.round(v, d).Num? || n.round(v, d).NaN?
  }

  /** The message of the TypeError raised by reading a property of `undefined`. */
  function ReadError(key: string): string {
    "Cannot read properties of undefined (reading '" + key + "')"
  }

  /** `states(entityId)`: the entity's state, or "unknown" when the entity or its state is missing. */
  function States(h: Hass, id: string): (r: Result<Value>)
    ensures r.Failure? <==> h.states.None?
    ensures r.Failure? ==> r.error == ReadError(id)
    ensures r.Success? ==> !Nullish(r.value)
    ensures r.Success? && id !in h.states.value ==> r.value == Str("unknown")
  {
    match h.states
    case None => Failure(ReadError(id))
    case Some(m) => Success(if id in m then Coalesce(m[id].state, Str("unknown")) else Str("unknown"))
  }

  /** `state_attr(entityId, attr)`: the attribute, or `undefined` when the entity or attribute is missing. */
  function StateAttr(h: Hass, id: string, attr: string): (r: Result<Value>)
    ensures r.Failure? <==> h.states.None?
    ensures r.Success? && (id !in h.states.value || attr !in h.states.value[id].attributes) ==> r.value == Undefined
  {
    match h.states
    case None => Failure(ReadError(id))
    case Some(m) => Success(if id in m then Get(m[id].attributes, attr) else Undefined)
  }

  predicate IsQuote(c: char) {
    c == '\'' || c == '"'
  }

  predicate NoQuotes(s: string) {
    forall i :: 0 <= i < |s| ==> !IsQuote(s[i])
  }

  /** A quoted argument `[^'"]+` as the call patterns accept it. */
  predicate IsArgument(s: string) {
    s != [] && NoQuotes(s)
  }

  /** The text `states(<q1>ID<q2>)`; the two quotes need not match. */
  function StatesCall(q1: char, id: string, q2: char): string {
    "states(" + [q1] + id + [q2] + ")"
  }

  /** `/^states\(['"]([^'"]+)['"]\)$/`: the entity id of a `states` call. */
  function ParseStates(f: string): (r: Option<string>)
    ensures r.Some? ==> |f| >= 11 && f[..7] == "states("
    ensures r.Some? ==> IsArgument(r.value) && IsQuote(f[7]) && IsQuote(f[|f| - 2])
    ensures r.Some? ==> f == StatesCall(f[7], r.value, f[|f| - 2])
  {
    if |f| >= 11 && f[..7] == "states(" && IsQuote(f[7]) && IsQuote(f[|f| - 2]) && f[|f| - 1] == ')'
       && NoQuotes(f[8..|f| - 2])
    then
      assert f == f[..7] + [f[7]] + f[8..|f| - 2] + [f[|f| - 2]] + [f[|f| - 1]];
      Some(f[8..|f| - 2])
    else None
  }

  /** `ParseStates` reads back the id of every `states` call it is shown. */
  lemma ParseStatesCall(q1: char, id: string, q2: char)
    requires IsQuote(q1) && IsQuote(q2) && IsArgument(id)
    ensures ParseStates(StatesCall(q1, id, q2)) == Some(id)
  {
    var f := StatesCall(q1, id, q2);
    assert f[..7] == "states(" && f[7] == q1 && f[8..|f| - 2] == id;
  }

  /** The text `state_attr(<q1>ID<q2>,<gap><q3>ATTR<q4>)`. */
  function AttrCall(q1: char, id: string, q2: char, gap: string, q3: char, attr: string, q4: char): string {
    "state_attr(" + AttrArgs(q1, id, q2, gap, q3, attr, q4)
  }

  function AttrArgs(q1: char, id: string, q2: char, gap: string, q3: char, attr: string, q4: char): string {
    [q1] + id + [q2] + ("," + gap + ([q3] + attr + [q4] + ")"))
  }

  /** `a` is `<q>ID<q>,<spaces><q>ATTR<q>)` for some quote characters and some run of spaces. */
  ghost predicate IsAttrArgs(a: string, id: string, attr: string) {
    exists q1, q2, gap, q3, q4 ::
      && IsQuote(q1) && IsQuote(q2) && AllSpace(gap) && IsQuote(q3) && IsQuote(q4)
      && a == AttrArgs(q1, id, q2, gap, q3, attr, q4)
  }

  /** A quoted argument `['"]([^'"]+)['"]` at the start of `s`: the argument and the text after it. */
  function Quoted(s: string): (r: Option<(string, string)>)
    ensures r.Some? ==> IsArgument(r.value.0) && |s| >= |r.value.0| + 2
    ensures r.Some? ==> IsQuote(s[0]) && IsQuote(s[|r.value.0| + 1])
    ensures r.Some? ==> s == [s[0]] + r.value.0 + [s[|r.value.0| + 1]] + r.value.1
  {
    if |s| >= 1 && IsQuote(s[0]) then
      var q := QuoteFrom(s, 1);
      if 1 < q < |s| then
        assert s == [s[0]] + s[1..q] + [s[q]] + s[q + 1..];
        Some((s[1..q], s[q + 1..]))
      else None
    else None
  }

  lemma QuotedOf(q1: char, arg: string, q2: char, rest: string)
    requires IsQuote(q1) && IsQuote(q2) && IsArgument(arg)
    ensures Quoted([q1] + arg + [q2] + rest) == Some((arg, rest))
  {
    var s := [q1] + arg + [q2] + rest;
    assert s[1..|arg| + 1] == arg && s[|arg| + 1] == q2 && s[|arg| + 2..] == rest;
    QuoteFromStops(s, 1, |arg| + 1);
  }

  /** The argument text after `state_attr(`: `<q>ID<q>,\s*<q>ATTR<q>)`. */
  function ParseAttrArgs(a: string): (r: Option<(string, string)>)
    ensures r.Some? ==> IsArgument(r.value.0) && IsArgument(r.value.1)
    ensures r.Some? ==> IsAttrArgs(a, r.value.0, r.value.1)
  {
    match Quoted(a)
    case None => None
    case Some((id, r1)) =>
      if |r1| >= 1 && r1[0] == ',' then
        var k := SpaceEnd(r1, 1);
        match Quoted(r1[k..])
        case None => None
        case Some((attr, r3)) =>
          if r3 == ")" then
            AttrArgsParts(a, id, r1, k, attr);
            Some((id, attr))
          else None
      else None
  }

  /** The first quote at or after `i`, or `|s|`. */
  function QuoteFrom(s: string, i: nat): (j: nat)
    requires i <= |s|
    ensures i <= j <= |s|
    ensures NoQuotes(s[i..j])
    ensures j < |s| ==> IsQuote(s[j])
    decreases |s| - i
  {
    if i == |s| || IsQuote(s[i]) then i else QuoteFrom(s, i + 1)
  }

  /** The pieces `ParseAttrArgs` finds make up the text it was given. */
  lemma AttrArgsParts(a: string, id: string, r1: string, k: nat, attr: string)
    requires Quoted(a) == Some((id, r1))
    requires |r1| >= 1 && r1[0] == ',' && k == SpaceEnd(r1, 1)
    requires Quoted(r1[k..]) == Some((attr, ")"))
    ensures IsAttrArgs(a, id, attr)
  {
    CommaGap(r1, k);
    AttrArgsWitness(a, a[0], id, a[|id| + 1], r1, r1[1..k], r1[k..], r1[k..][0], attr, r1[k..][|attr| + 1]);
  }

  /** A comma, the run of white space after it, and the rest. */
  lemma CommaGap(r1: string, k: nat)
    requires |r1| >= 1 && r1[0] == ',' && k == SpaceEnd(r1, 1)
    ensures AllSpace(r1[1..k]) && r1 == "," + r1[1..k] + r1[k..]
  {
    SpaceRun(r1, 1);
    CommaSplit(r1, k);
  }

  /** What `SpaceEnd` skips is white space. */
  lemma SpaceRun(s: string, i: nat)
    requires i <= |s|
    ensures AllSpace(s[i..SpaceEnd(s, i)])
  {
    var k := SpaceEnd(s, i);
    forall m | 0 <= m < k - i ensures IsSpace(s[i..k][m]) {
      assert s[i..k][m] == s[i + m];
    }
  }

  lemma CommaSplit(r1: string, k: nat)
    requires 1 <= k <= |r1| && r1[0] == ','
    ensures r1 == "," + r1[1..k] + r1[k..]
  {
    assert r1 == [r1[0]] + r1[1..k] + r1[k..];
  }

  lemma AttrArgsWitness(a: string, q1: char, id: string, q2: char, r1: string, gap: string,
                        r2: string, q3: char, attr: string, q4: char)
    requires IsQuote(q1) && IsQuote(q2) && AllSpace(gap) && IsQuote(q3) && IsQuote(q4)
    requires a == [q1] + id + [q2] + r1 && r1 == "," + gap + r2 && r2 == [q3] + attr + [q4] + ")"
    ensures IsAttrArgs(a, id, attr)
  {
    assert a == AttrArgs(q1, id, q2, gap, q3, attr, q4);
  }

  /** `/^state_attr\(['"]([^'"]+)['"],\s*['"]([^'"]+)['"]\)$/`: the entity id and attribute name. */
  function ParseStateAttr(f: string): (r: Option<(string, string)>)
    ensures r.Some? ==> |f| >= 11 && f[..11] == "state_attr("
    ensures r.Some? ==> IsArgument(r.value.0) && IsArgument(r.value.1)
    ensures r.Some? ==> IsAttrArgs(f[11..], r.value.0, r.value.1)
  {
    if |f| >= 11 && f[..11] == "state_attr(" then
      ParseAttrArgs(f[11..])
    else None
  }

  /** `ParseStateAttr` reads back the id and attribute of every `state_attr` call it is shown. */
  lemma ParseStateAttrCall(q1: char, id: string, q2: char, gap: string, q3: char, attr: string, q4: char)
    requires IsQuote(q1) && IsQuote(q2) && IsQuote(q3) && IsQuote(q4)
    requires IsArgument(id) && IsArgument(attr) && AllSpace(gap)
    ensures ParseStateAttr(AttrCall(q1, id, q2, gap, q3, attr, q4)) == Some((id, attr))
  {
    var f := AttrCall(q1, id, q2, gap, q3, attr, q4);
    var a := AttrArgs(q1, id, q2, gap, q3, attr, q4);
    assert f == "state_attr(" + a;
    assert f[..11] == "state_attr(" && f[11..] == a;
    ParseAttrArgsOf(q1, id, q2, gap, q3, attr, q4);
  }

  lemma ParseAttrArgsOf(q1: char, id: string, q2: char, gap: string, q3: char, attr: string, q4: char)
    requires IsQuote(q1) && IsQuote(q2) && IsQuote(q3) && IsQuote(q4)
    requires IsArgument(id) && IsArgument(attr) && AllSpace(gap)
    ensures ParseAttrArgs(AttrArgs(q1, id, q2, gap, q3, attr, q4)) == Some((id, attr))
  {
    var r2 := [q3] + attr + [q4] + ")";
    var r1 := "," + gap + r2;
    assert AttrArgs(q1, id, q2, gap, q3, attr, q4) == [q1] + id + [q2] + r1;
    QuotedOf(q1, id, q2, r1);
    GapOf(gap, r2);
    QuotedOf(q3, attr, q4, ")");
  }

  /** After a comma, the white-space run ends where the next argument's quote starts. */
  lemma GapOf(gap: string, r2: string)
    requires AllSpace(gap) && |r2| >= 1 && !IsSpace(r2[0])
    ensures var r1 := "," + gap + r2;
      SpaceEnd(r1, 1) == 1 + |gap| && r1[1 + |gap|..] == r2
  {
    var r1 := "," + gap + r2;
    var k := 1 + |gap|;
    assert r1[k] == r2[0] && r1[k..] == r2;
    assert r1[1..k] == gap;
    SpaceEndStops(r1, 1, k);
  }

  lemma QuoteFromStops(s: string, i: nat, j: nat)
    requires i <= j < |s| && NoQuotes(s[i..j]) && IsQuote(s[j])
    ensures QuoteFrom(s, i) == j
    decreases j - i
  {
    if i < j {
      assert !IsQuote(s[i..j][0]);
      assert s[i + 1..j] == s[i..j][1..];
      QuoteFromStops(s, i + 1, j);
    }
  }

  /** `[a-z_]` under the `i` flag. */
  predicate IsDomainChar(c: char) {
    'a' <= c <= 'z' || 'A' <= c <= 'Z' || c == '_'
  }

  /** `[a-z0-9_]` under the `i` flag. */
  predicate IsObjectChar(c: char) {
    IsDomainChar(c) || IsDigit(c)
  }

  /** `/^[a-z_]+\.([a-z0-9_]+)$/i`: a bare `domain.object_id`. */
  predicate IsEntityId(f: string): (b: bool)
    ensures b ==> |f| >= 3 && f[0] != '.' && f[|f| - 1] != '.'
    ensures b ==> forall i :: 0 <= i < |f| ==> f[i] == '.' || IsObjectChar(f[i])
  {
    var d := IndexFrom(f, '.', 0);
    && 0 < d < |f| - 1
    && (forall i :: 0 <= i < d ==> IsDomainChar(f[i]))
    && (forall i :: d < i < |f| ==> IsObjectChar(f[i]))
  }

  /** A bare entity id is exactly a non-empty domain, a dot and a non-empty object id. */
  lemma EntityIdShape(domain: string, objectId: string)
    ensures IsEntityId(domain + "." + objectId) <==>
      && domain != [] && (forall i :: 0 <= i < |domain| ==> IsDomainChar(domain[i]))
      && objectId != [] && (forall i :: 0 <= i < |objectId| ==> IsObjectChar(objectId[i]))
  {
    var f := domain + "." + objectId;
    var d := IndexFrom(f, '.', 0);
    assert f[|domain|] == '.';
    assert d <= |domain|;
    assert forall i :: 0 <= i < |domain| ==> f[i] == domain[i];
    assert forall i :: |domain| < i < |f| ==> f[i] == objectId[i - |domain| - 1];
    if forall i :: 0 <= i < |domain| ==> IsDomainChar(domain[i]) {
      assert d == |domain|;
      if forall j :: 0 <= j < |objectId| ==> IsObjectChar(objectId[j]) {
        assert forall i :: d < i < |f| ==> IsObjectChar(f[i]);
      } else {
        var j :| 0 <= j < |objectId| && !IsObjectChar(objectId[j]);
        assert !IsObjectChar(f[d + 1 + j]);
      }
    }
  }

  /** The value of a non-empty run of decimal digits. */
  function DecimalValue(ds: string): nat
    requires forall i :: 0 <= i < |ds| ==> IsDigit(ds[i])
  {
    if ds == [] then 0
    else
      var last := ds[|ds| - 1];
      assert IsDigit(last);
      DecimalValue(ds[..|ds| - 1]) * 10 + (last as int - '0' as int)
  }

  /** `/^round\((\d+)\)$/`: the number of decimal places of a `round` filter. */
  function RoundDigits(filter: string): (r: Option<nat>)
    ensures r.Some? ==> exists ds :: ds != [] && (forall i :: 0 <= i < |ds| ==> IsDigit(ds[i]))
                           && filter == "round(" + ds + ")" && r.value == DecimalValue(ds)
  {
    if |filter| >= 8 && filter[..6] == "round(" && filter[|filter| - 1] == ')'
       && forall i :: 6 <= i < |filter| - 1 ==> IsDigit(filter[i])
    then
      var ds := filter[6..|filter| - 1];
      assert filter == "round(" + ds + ")";
      Some(DecimalValue(ds))
    else None
  }

  lemma RoundDigitsOf(ds: string)
    requires ds != [] && forall i :: 0 <= i < |ds| ==> IsDigit(ds[i])
    ensures RoundDigits("round(" + ds + ")") == Some(DecimalValue(ds))
  {
    var f := "round(" + ds + ")";
    assert f[..6] == "round(" && f[6..|f| - 1] == ds;
  }

  /**
   * `expr.split("|").map(s => s.trim())` destructured into `[funcPart,
   * filterPart]`: the trimmed text before the first `|`, and the trimmed
   * text between the first and the second `|` when there is a first.
   */
  function CallAndFilter(expr: string): (r: (string, Option<string>))
    ensures '|' !in r.0
    ensures r.1.Some? ==> '|' !in r.1.value
    ensures r.1.None? <==> '|' !in expr
  {
    var p := IndexFrom(expr, '|', 0);
    var call := Trim(expr[..p]);
    TrimIsSlice(expr[..p]);
    if p == |expr| then
      (call, None)
    else
      var q := IndexFrom(expr, '|', p + 1);
      TrimIsSlice(expr[p + 1..q]);
      (call, Some(Trim(expr[p + 1..q])))
  }

  lemma TrimIsSlice(s: string)
    ensures forall c :: c in Trim(s) ==> c in s
  {
    var t := TrimStart(s);
    assert forall c :: c in TrimEnd(t) ==> c in t;
    assert forall c :: c in t ==> c in s;
  }

  /**
   * The value of `let value;` after the three call matches, in the order the
   * source tries them; the bare id is tried only while the value is still
   * `undefined`. A lookup that throws ends the evaluation with its error.
   */
  function Lookup(h: Hass, call: string): (r: Result<Value>)
    ensures r.Failure? <==> h.states.None? && (ParseStates(call).Some? || ParseStateAttr(call).Some? || IsEntityId(call))
    ensures ParseStates(call).Some? ==> r == States(h, ParseStates(call).value)
    ensures ParseStates(call).None? && ParseStateAttr(call).None? && !IsEntityId(call) ==> r == Success(Undefined)
  {
    var afterStates := match ParseStates(call)
      case Some(id) => States(h, id)
      case None => Success(Undefined);
    if afterStates.Failure? then afterStates
    else
      var afterAttr := match ParseStateAttr(call)
        case Some(args) => StateAttr(h, args.0, args.1)
        case None => afterStates;
      if afterAttr.Failure? then afterAttr
      else if afterAttr.value == Undefined && IsEntityId(call) then States(h, call)
      else afterAttr
  }

  /**
   * `_evaluateExpression(expr)`: '' for an empty or blank expression; the
   * looked-up value, rounded when the filter is `round(N)`, with `undefined`
   * and `null` shown as ''; "Error: <message>" when a lookup throws.
   */
  function Evaluate(h: Hass, n: Numerics, expr: string): (r: Value)
    ensures !Nullish(r)
    ensures AllSpace(expr) ==> r == Str("")
  {
    if expr == "" || Trim(expr) == "" then Str("")
    else
      var (call, filter) := CallAndFilter(expr);
      Shown(Filtered(n, filter, Lookup(h, call)))
  }

  /**
   * The `if (filterPart)` step: a successful lookup is handed to the
   * engine's rounding when the filter is `round(N)`; an error, a missing or
   * empty filter and any other filter leave the result as it is.
   */
  function Filtered(n: Numerics, filter: Option<string>, r: Result<Value>): (f: Result<Value>)
    ensures f.Success? <==> r.Success?
    ensures r.Failure? || filter.None? ==> f == r
    ensures f != r ==> filter.Some? && RoundDigits(filter.value).Some?
  {
    if r.Success? && filter.Some? && filter.value != "" && RoundDigits(filter.value).Some?
    then Success(n.round(r.value, RoundDigits(filter.value).value))
    else r
  }

  /**
   * `return value ?? ""` and the `catch`: what the evaluation shows for a
   * lookup result, never `undefined` or `null`.
   */
  function Shown(r: Result<Value>): (v: Value)
    ensures !Nullish(v)
    ensures r.Success? && !Nullish(r.value) ==> v == r.value
    ensures r.Failure? ==> v == Str("Error: " + r.error)
  {
    match r
    case Success(v) => Coalesce(v, Str(""))
    case Failure(message) => Str("Error: " + message)
  }

  lemma NoPipeCall(expr: string)
    requires '|' !in expr && expr != [] && !IsSpace(expr[0]) && !IsSpace(expr[|expr| - 1])
    ensures CallAndFilter(expr) == (expr, None)
    ensures Trim(expr) == expr
  {
    assert IndexFrom(expr, '|', 0) == |expr|;
    assert expr[..|expr|] == expr;
    TrimUnchanged(expr);
  }

  /** An expression with no `|` and no surrounding space shows the result of its lookup. */
  lemma EvaluatePlainCall(h: Hass, n: Numerics, e: string)
    requires '|' !in e && e != [] && !IsSpace(e[0]) && !IsSpace(e[|e| - 1])
    ensures Evaluate(h, n, e) == Shown(Lookup(h, e))
  {
    NoPipeCall(e);
  }

  /** A `states` call is looked up with `states(ID)` and nothing else. */
  lemma LookupStatesCall(h: Hass, f: string, id: string)
    requires ParseStates(f) == Some(id)
    ensures Lookup(h, f) == States(h, id)
  {
    StatesPrefix(f);
  }

  /** Text starting `states(` is neither a `state_attr` call nor a bare entity id. */
  lemma StatesPrefix(f: string)
    requires |f| >= 7 && f[..7] == "states("
    ensures ParseStateAttr(f).None? && !IsEntityId(f)
  {
    assert f[5] == 's' && f[6] == '(' by { assert f[..7][5] == f[5] && f[..7][6] == f[6]; }
    NotStateAttr(f);
    NotEntityIdAt(f, 6);
  }

  /** Text whose sixth character is not `_` does not start `state_attr(`. */
  lemma NotStateAttr(f: string)
    requires |f| > 5 && f[5] != '_'
    ensures ParseStateAttr(f).None?
  {
    if |f| >= 11 {
      assert f[..11][5] != "state_attr("[5];
      assert f[..11] != "state_attr(";
    }
  }

  /** Text holding a character that is no letter, digit, `_` or dot is not a bare entity id. */
  lemma NotEntityIdAt(f: string, i: nat)
    requires i < |f| && !IsObjectChar(f[i]) && f[i] != '.'
    ensures !IsEntityId(f)
  {
    EntityIdChars(f);
  }

  /** A `state_attr` call is looked up with `state_attr(ID, ATTR)` and nothing else. */
  lemma LookupStateAttrCall(h: Hass, f: string, id: string, attr: string)
    requires ParseStateAttr(f) == Some((id, attr))
    ensures Lookup(h, f) == StateAttr(h, id, attr)
  {
    StateAttrPrefix(f);
  }

  /** Text starting `state_attr(` is neither a `states` call nor a bare entity id. */
  lemma StateAttrPrefix(f: string)
    requires |f| >= 11 && f[..11] == "state_attr("
    ensures ParseStates(f).None? && !IsEntityId(f)
  {
    assert f[10] == '(' by { assert f[..11][10] == f[10]; }
    assert f[5] == '_' by { assert f[..11][5] == f[5]; }
    assert f[..7][5] == f[5];
    NotEntityIdAt(f, 10);
  }

  /** A bare entity id is looked up with `states(ID)`. */
  lemma LookupEntityId(h: Hass, f: string)
    requires IsEntityId(f)
    ensures Lookup(h, f) == States(h, f)
  {
    EntityIdNotCall(f);
  }

  /** Every character of a bare entity id is a letter, a digit, `_` or the dot. */
  lemma EntityIdChars(f: string)
    ensures IsEntityId(f) ==> forall i :: 0 <= i < |f| ==> IsObjectChar(f[i]) || f[i] == '.'
  {
    if IsEntityId(f) {
      var d := IndexFrom(f, '.', 0);
      forall i | 0 <= i < |f| ensures IsObjectChar(f[i]) || f[i] == '.' {
        if i < d { assert IsDomainChar(f[i]); }
      }
    }
  }

  /** A bare entity id has no parenthesis, so it is neither a `states` nor a `state_attr` call. */
  lemma EntityIdNotCall(f: string)
    requires IsEntityId(f)
    ensures ParseStates(f).None? && ParseStateAttr(f).None?
  {
    EntityIdChars(f);
    assert |f| >= 7 ==> f[..7][6] == f[6];
    assert |f| >= 11 ==> f[..11][10] == f[10];
  }

  lemma StatesCallShape(q1: char, id: string, q2: char)
    requires IsQuote(q1) && IsQuote(q2) && '|' !in id
    ensures var f := StatesCall(q1, id, q2);
      '|' !in f && f != [] && f[0] == 's' && f[|f| - 1] == ')'
  {
    var f := StatesCall(q1, id, q2);
    assert '|' !in "states(" && '|' !in [q1] && '|' !in [q2] && '|' !in ")";
    assert f == "states(" + [q1] + id + [q2] + ")";
  }

  /**
   * `states('ID')` shows the entity's state, "unknown" for an entity that is
   * missing or has no state, and "Error: <message>" when the store cannot be
   * read.
   */
  lemma EvaluateStatesCall(h: Hass, n: Numerics, q1: char, id: string, q2: char)
    requires IsQuote(q1) && IsQuote(q2) && IsArgument(id) && '|' !in id
    ensures Evaluate(h, n, StatesCall(q1, id, q2)) == Shown(States(h, id))
  {
    StatesCallShape(q1, id, q2);
    EvaluatePlainCall(h, n, StatesCall(q1, id, q2));
    ParseStatesCall(q1, id, q2);
    LookupStatesCall(h, StatesCall(q1, id, q2), id);
  }

  /**
   * `state_attr('ID','ATTR')` shows the attribute, '' when the entity or the
   * attribute is missing, and "Error: <message>" when the store cannot be read.
   */
  lemma EvaluateStateAttrCall(h: Hass, n: Numerics, q1: char, id: string, q2: char, gap: string, q3: char, attr: string, q4: char)
    requires IsQuote(q1) && IsQuote(q2) && IsQuote(q3) && IsQuote(q4)
    requires IsArgument(id) && IsArgument(attr) && AllSpace(gap)
    requires '|' !in id && '|' !in attr
    ensures Evaluate(h, n, AttrCall(q1, id, q2, gap, q3, attr, q4)) == Shown(StateAttr(h, id, attr))
  {
    var f := AttrCall(q1, id, q2, gap, q3, attr, q4);
    assert '|' !in gap by {
      forall i | 0 <= i < |gap| ensures gap[i] != '|' { assert IsSpace(gap[i]); }
    }
    var tail := [q3] + attr + [q4] + ")";
    assert '|' !in tail;
    assert '|' !in "," + gap + tail;
    assert '|' !in AttrArgs(q1, id, q2, gap, q3, attr, q4);
    assert f[0] == 's' && f[|f| - 1] == ')';
    EvaluatePlainCall(h, n, f);
    ParseStateAttrCall(q1, id, q2, gap, q3, attr, q4);
    LookupStateAttrCall(h, f, id, attr);
  }

  /**
   * A bare `domain.object_id` is shorthand for `states('domain.object_id')`:
   * both show the same value.
   */
  lemma EvaluateEntityShorthand(h: Hass, n: Numerics, f: string)
    requires IsEntityId(f)
    ensures Evaluate(h, n, f) == Evaluate(h, n, StatesCall('\'', f, '\''))
    ensures Evaluate(h, n, f) == Shown(States(h, f))
  {
    assert forall i :: 0 <= i < |f| ==> IsObjectChar(f[i]) || f[i] == '.';
    assert forall i :: 0 <= i < |f| ==> f[i] != '|' && !IsQuote(f[i]) && !IsSpace(f[i]);
    EvaluatePlainCall(h, n, f);
    LookupEntityId(h, f);
    EvaluateStatesCall(h, n, '\'', f, '\'');
  }

  /** `expr.split("|")` on a call, a `|` and a filter that hold no `|` themselves. */
  lemma SplitAtPipe(call: string, filter: string)
    requires '|' !in call && '|' !in filter
    ensures var e := call + "|" + filter;
      IndexFrom(e, '|', 0) == |call| && IndexFrom(e, '|', |call| + 1) == |e|
      && e[..|call|] == call && e[|call| + 1..|e|] == filter
  {
    var e := call + "|" + filter;
    assert forall k :: 0 <= k < |call| ==> e[k] == call[k];
    assert e[|call|] == '|';
    assert forall k :: |call| + 1 <= k < |e| ==> e[k] == filter[k - |call| - 1];
  }

  lemma CallAndFilterAt(expr: string, p: nat, q: nat)
    requires p < |expr| && p == IndexFrom(expr, '|', 0)
    requires p + 1 <= q <= |expr| && q == IndexFrom(expr, '|', p + 1)
    ensures CallAndFilter(expr) == (Trim(expr[..p]), Some(Trim(expr[p + 1..q])))
  {
  }

  /**
   * `split("|")` and `trim` on one `|`: the call and the filter are the
   * two sides, each trimmed.
   */
  lemma CallAndFilterPipe(a: string, b: string)
    requires '|' !in a && '|' !in b
    ensures CallAndFilter(a + "|" + b) == (Trim(a), Some(Trim(b)))
  {
    var e := a + "|" + b;
    SplitAtPipe(a, b);
    assert e[..|a|] == a && e[|a| + 1..|e|] == b;
    CallAndFilterAt(e, |a|, |e|);
  }

  /** Only the first two `|`-separated parts are used: a third and later ones are dropped. */
  lemma CallAndFilterDropsRest(a: string, b: string, rest: string)
    requires '|' !in a && '|' !in b
    ensures CallAndFilter(a + "|" + b + "|" + rest) == (Trim(a), Some(Trim(b)))
  {
    var e := a + "|" + b + "|" + rest;
    var p, q := |a|, |a| + 1 + |b|;
    assert forall k :: 0 <= k < p ==> e[k] == a[k];
    assert e[p] == '|';
    assert forall k :: p + 1 <= k < q ==> e[k] == b[k - p - 1];
    assert e[q] == '|';
    assert IndexFrom(e, '|', 0) == p;
    assert IndexFrom(e, '|', p + 1) == q;
    assert e[..p] == a && e[p + 1..q] == b;
    CallAndFilterAt(e, p, q);
  }

  /** An expression without `|` whose lookup throws shows "Error: " and the message. */
  lemma EvaluateError(h: Hass, n: Numerics, e: string)
    ensures '|' !in e && Trim(e) != "" && Lookup(h, Trim(e)).Failure?
            ==> Evaluate(h, n, e) == Str("Error: " + Lookup(h, Trim(e)).error)
  {
    if '|' !in e {
      CallAndFilterNoPipe(e);
    }
  }

  /** Without a `|` there is no filter, and the call is the trimmed text. */
  lemma CallAndFilterNoPipe(a: string)
    requires '|' !in a
    ensures CallAndFilter(a) == (Trim(a), None)
  {
    assert IndexFrom(a, '|', 0) == |a|;
    assert a[..|a|] == a;
  }

  /** White space holds no `|`. */
  lemma NoPipeInSpace(w: string)
    requires AllSpace(w)
    ensures '|' !in w
  {
    forall i | 0 <= i < |w| ensures w[i] != '|' { assert IsSpace(w[i]); }
  }

  /**
   * `call | filter`, neither part holding `|`: the trimmed filter acts on
   * the lookup of the trimmed call.
   */
  lemma EvaluateFiltered(h: Hass, n: Numerics, call: string, filter: string)
    requires '|' !in call && '|' !in filter
    ensures Evaluate(h, n, call + "|" + filter) == Shown(Filtered(n, Some(Trim(filter)), Lookup(h, Trim(call))))
  {
    var e := call + "|" + filter;
    CallAndFilterPipe(call, filter);
    PipeNotBlank(e, |call|);
    EvaluateCall(h, n, e);
  }

  /** Text holding a `|` is not blank. */
  lemma PipeNotBlank(e: string, i: nat)
    requires i < |e| && e[i] == '|'
    ensures Trim(e) != ""
  {
    assert !IsSpace(e[i]);
  }

  /** A text that is not blank shows its filtered lookup. */
  lemma EvaluateCall(h: Hass, n: Numerics, e: string)
    requires Trim(e) != ""
    ensures Evaluate(h, n, e) == Shown(Filtered(n, CallAndFilter(e).1, Lookup(h, CallAndFilter(e).0)))
  {
  }

  /** An expression with a second `|` shows the same as the part before it. */
  lemma EvaluateDropsRest(h: Hass, n: Numerics, call: string, filter: string, rest: string)
    requires '|' !in call && '|' !in filter
    ensures Evaluate(h, n, call + "|" + filter + "|" + rest) == Evaluate(h, n, call + "|" + filter)
  {
    var e := call + "|" + filter + "|" + rest;
    CallAndFilterDropsRest(call, filter, rest);
    assert e[|call|] == '|';
    PipeNotBlank(e, |call|);
    EvaluateCall(h, n, e);
    EvaluateFiltered(h, n, call, filter);
  }

  /** The filter text `round(N)`. */
  function RoundFilter(ds: string): string {
    "round(" + ds + ")"
  }

  /**
   * `states('ID') | round(N)`, with any white space around the call and the
   * filter, hands the looked-up state to the engine's
   * `round(Number(value), N)`.
   */
  lemma EvaluateRoundedState(h: Hass, n: Numerics, q1: char, id: string, q2: char, ds: string,
                             w1: string, w2: string, w3: string, w4: string)
    requires IsQuote(q1) && IsQuote(q2) && IsArgument(id) && '|' !in id
    requires ds != [] && forall i :: 0 <= i < |ds| ==> IsDigit(ds[i])
    requires AllSpace(w1) && AllSpace(w2) && AllSpace(w3) && AllSpace(w4)
    requires h.states.Some? && NumericRound(n)
    ensures Evaluate(h, n, w1 + StatesCall(q1, id, q2) + w2 + "|" + w3 + RoundFilter(ds) + w4)
         == n.round(States(h, id).value, DecimalValue(ds))
  {
    var sc := StatesCall(q1, id, q2);
    var rf := RoundFilter(ds);
    StatesCallShape(q1, id, q2);
    RoundFilterShape(ds);
    EvaluatePadded(h, n, sc, rf, w1, w2, w3, w4);
    ParseStatesCall(q1, id, q2);
    LookupStatesCall(h, sc, id);
    RoundDigitsOf(ds);
    ShownRounded(n, rf, States(h, id), DecimalValue(ds));
  }

  /** White space around the call and around the filter changes nothing. */
  lemma EvaluatePadded(h: Hass, n: Numerics, call: string, filter: string,
                       w1: string, w2: string, w3: string, w4: string)
    requires '|' !in call && call != [] && !IsSpace(call[0]) && !IsSpace(call[|call| - 1])
    requires '|' !in filter && filter != [] && !IsSpace(filter[0]) && !IsSpace(filter[|filter| - 1])
    requires AllSpace(w1) && AllSpace(w2) && AllSpace(w3) && AllSpace(w4)
    ensures Evaluate(h, n, w1 + call + w2 + "|" + w3 + filter + w4)
         == Shown(Filtered(n, Some(filter), Lookup(h, call)))
  {
    var c := w1 + call + w2;
    var f := w3 + filter + w4;
    PaddedNoPipe(w1, call, w2);
    PaddedNoPipe(w3, filter, w4);
    assert w1 + call + w2 + "|" + w3 + filter + w4 == c + "|" + f;
    EvaluateFiltered(h, n, c, f);
    TrimPadded(w1, call, w2);
    TrimPadded(w3, filter, w4);
  }

  /** Text without `|` padded with white space holds no `|`. */
  lemma PaddedNoPipe(w1: string, x: string, w2: string)
    requires AllSpace(w1) && AllSpace(w2) && '|' !in x
    ensures '|' !in w1 + x + w2
  {
    NoPipeInSpace(w1);
    NoPipeInSpace(w2);
  }

  /** A `round(N)` filter holds no `|` and starts and ends with a character that is not white space. */
  lemma RoundFilterShape(ds: string)
    requires forall i :: 0 <= i < |ds| ==> IsDigit(ds[i])
    ensures var f := RoundFilter(ds);
      '|' !in f && f != [] && f[0] == 'r' && f[|f| - 1] == ')'
  {
    var f := RoundFilter(ds);
    forall i | 0 <= i < |ds| ensures ds[i] != '|' { assert IsDigit(ds[i]); }
    assert '|' !in "round(" && '|' !in ")";
    assert f[0] == 'r' && f[|f| - 1] == ')';
  }

  /** A successful lookup under a `round(N)` filter shows the engine's rounded number. */
  lemma ShownRounded(n: Numerics, filter: string, r: Result<Value>, d: nat)
    requires r.Success? && RoundDigits(filter) == Some(d) && NumericRound(n)
    ensures Shown(Filtered(n, Some(filter), r)) == n.round(r.value, d)
  {
    assert n.round(r.value, d).Num? || n.round(r.value, d).NaN?;
  }

  /**
   * Text that is none of the three calls shows '' (not an error) unless a
   * `round(N)` filter follows it.
   */
  lemma EvaluateUnrecognised(h: Hass, n: Numerics, expr: string)
    requires Trim(expr) != ""
    requires var (call, filter) := CallAndFilter(expr);
      && ParseStates(call).None? && ParseStateAttr(call).None? && !IsEntityId(call)
      && (filter.None? || RoundDigits(filter.value).None?)
    ensures Evaluate(h, n, expr) == Str("")
  {
  }

  /** Text that is none of the three calls looks up `undefined`. */
  lemma LookupUnrecognised(h: Hass, f: string)
    requires ParseStates(f).None? && ParseStateAttr(f).None? && !IsEntityId(f)
    ensures Lookup(h, f) == Success(Undefined)
  {
  }

  /** "bogus syntax" holds a space, so it is no entity id, and it names neither call. */
  lemma BogusSyntaxUnrecognised()
    ensures !IsEntityId("bogus syntax")
    ensures ParseStates("bogus syntax").None? && ParseStateAttr("bogus syntax").None?
  {
    var e := "bogus syntax";
    NotEntityIdAt(e, 5);
    assert e[..7][0] == 'b' && e[..11][0] == 'b';
  }

  /** "bogus syntax" is not a call: it shows '' rather than an error. */
  lemma EvaluateBogusSyntax(h: Hass, n: Numerics)
    ensures Evaluate(h, n, "bogus syntax") == Str("")
  {
    var e := "bogus syntax";
    assert e[0] == 'b' && e[|e| - 1] == 'x';
    assert '|' !in e;
    EvaluatePlainCall(h, n, e);
    BogusSyntaxUnrecognised();
    LookupUnrecognised(h, e);
  }
}
