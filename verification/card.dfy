/**
 * The `DataCascadeCard` element: it holds the normalised configuration and
 * the `hass` object, and `render` groups the items into lines and buckets,
 * renders their templates, orders the lines and resolves the styles.
 * `render` is modelled down to the data the markup is built from: the rows
 * in order, and in each row the texts of the start and end groups and the
 * centred texts with their positions.
 */
module DataCascadeCard {
  import opened Wrappers
  import opened JsValues
  import opened Content
  import opened Expression
  import opened Template
  import opened LineLayout
  import opened CardConfig
  import opened CardStyle

  /** A centred text and its `left` position in percent (`center_position || 50`). */
  datatype CenterEntry = CenterEntry(text: string, position: Value)

  /** The `{ start: [], center: [], end: [] }` record of one line. */
  datatype Group = Group(start: seq<string>, center: seq<CenterEntry>, end: seq<string>)

  const EmptyGroup: Group := Group([], [], [])

  /** One rendered line: its key, the `dc-row-<index>` index (none when the key has no number), and its groups. */
  datatype Row = Row(key: Value, rowIndex: Option<real>, group: Group)

  /**
   * What `render` produces: nothing before there is a configuration and a
   * `hass` object; the message of the error a style resolver throws; or the
   * style rules, the rows, the row height and the card header.
   */
  datatype View =
    | Blank
    | Broken(message: string)
    | Drawn(colorCss: string, fontCss: string, rows: seq<Row>, rowHeight: Value, header: Value)

  const DefaultRowHeight: Value := Str("1.5em")

  /**
   * `this._renderTemplate(item.text)` for every item, in order. Rendering
   * is a function of `hass` and the text alone, so the grouping below takes
   * these texts as given.
   */
  function RenderAll(h: Hass, n: Numerics, items: seq<Item>): (rendered: seq<string>)
    ensures |rendered| == |items|
    ensures forall i :: 0 <= i < |items| ==> rendered[i] == RenderTemplate(h, n, items[i].text)
  {
    seq(|items|, i requires 0 <= i < |items| => RenderTemplate(h, n, items[i].text))
  }

  /** The centred entry of an item whose template rendered to `text`. */
  function CenterOf(it: Item, text: string): (e: CenterEntry)
    ensures e.text == text && Truthy(e.position)
    ensures Truthy(it.centerPosition) ==> e.position == it.centerPosition
    ensures !Truthy(it.centerPosition) ==> e.position == DefaultPosition
  {
    CenterEntry(text, Or(it.centerPosition, DefaultPosition))
  }

  /** The body of the grouping `switch`: the item's rendered text joins the group its justify selects. */
  function Push(g: Group, it: Item, text: string): (r: Group)
    ensures CardBucket(it.justify) == Start ==> r == g.(start := g.start + [text])
    ensures CardBucket(it.justify) == Center ==> r == g.(center := g.center + [CenterOf(it, text)])
    ensures CardBucket(it.justify) == End ==> r == g.(end := g.end + [text])
  {
    match CardBucket(it.justify)
    case Start => g.(start := g.start + [text])
    case Center => g.(center := g.center + [CenterOf(it, text)])
    case End => g.(end := g.end + [text])
  }

  /** The rendered texts of the items at the positions `ps`. */
  function Texts(rendered: seq<string>, ps: seq<nat>): (ts: seq<string>)
    requires forall j :: 0 <= j < |ps| ==> ps[j] < |rendered|
    ensures |ts| == |ps| && forall j :: 0 <= j < |ps| ==> ts[j] == rendered[ps[j]]
  {
    seq(|ps|, j requires 0 <= j < |ps| => rendered[ps[j]])
  }

  /** The centred entries of the items at the positions `ps`. */
  function Centers(items: seq<Item>, rendered: seq<string>, ps: seq<nat>): (cs: seq<CenterEntry>)
    requires |rendered| == |items|
    requires forall j :: 0 <= j < |ps| ==> ps[j] < |items|
    ensures |cs| == |ps| && forall j :: 0 <= j < |ps| ==> cs[j] == CenterOf(items[ps[j]], rendered[ps[j]])
  {
    seq(|ps|, j requires 0 <= j < |ps| => CenterOf(items[ps[j]], rendered[ps[j]]))
  }

  /** The group of line `k` once the first `count` items are placed. */
  function LineGroup(items: seq<Item>, rendered: seq<string>, count: nat, k: Value): (g: Group)
    requires |rendered| == |items| && count <= |items|
    ensures count == 0 ==> g == EmptyGroup
    ensures forall t :: t in g.start ==>
      exists i :: 0 <= i < count && InBucket(items, i, k, CardLayout, Start) && t == rendered[i]
    ensures forall c :: c in g.center ==>
      exists i :: 0 <= i < count && InBucket(items, i, k, CardLayout, Center) && c == CenterOf(items[i], rendered[i])
    ensures forall t :: t in g.end ==>
      exists i :: 0 <= i < count && InBucket(items, i, k, CardLayout, End) && t == rendered[i]
  {
    var ss, cs, es := Positions(items, count, k, CardLayout, Start),
                      Positions(items, count, k, CardLayout, Center),
                      Positions(items, count, k, CardLayout, End);
    TextsInBucket(items, rendered, count, k, Start, Texts(rendered, ss));
    TextsInBucket(items, rendered, count, k, End, Texts(rendered, es));
    CentersInBucket(items, rendered, count, k, Centers(items, rendered, cs));
    Group(Texts(rendered, ss), Centers(items, rendered, cs), Texts(rendered, es))
  }

  /** Each text of a start or end list is the rendered text of an item in that bucket. */
  lemma TextsInBucket(items: seq<Item>, rendered: seq<string>, count: nat, k: Value, b: Bucket, ts: seq<string>)
    requires |rendered| == |items| && count <= |items|
    requires ts == Texts(rendered, Positions(items, count, k, CardLayout, b))
    ensures forall t :: t in ts ==> exists i :: 0 <= i < count && InBucket(items, i, k, CardLayout, b) && t == rendered[i]
  {
    var ps := Positions(items, count, k, CardLayout, b);
    forall t | t in ts
      ensures exists i :: 0 <= i < count && InBucket(items, i, k, CardLayout, b) && t == rendered[i]
    {
      var j :| 0 <= j < |ts| && ts[j] == t;
      assert ps[j] in ps && ts[j] == rendered[ps[j]];
    }
  }

  /** Each centred entry is the entry of an item in the centre bucket. */
  lemma CentersInBucket(items: seq<Item>, rendered: seq<string>, count: nat, k: Value, cs: seq<CenterEntry>)
    requires |rendered| == |items| && count <= |items|
    requires cs == Centers(items, rendered, Positions(items, count, k, CardLayout, Center))
    ensures forall c :: c in cs ==>
      exists i :: 0 <= i < count && InBucket(items, i, k, CardLayout, Center) && c == CenterOf(items[i], rendered[i])
  {
    var ps := Positions(items, count, k, CardLayout, Center);
    forall c | c in cs
      ensures exists i :: 0 <= i < count && InBucket(items, i, k, CardLayout, Center) && c == CenterOf(items[i], rendered[i])
    {
      var j :| 0 <= j < |cs| && cs[j] == c;
      assert ps[j] in ps && cs[j] == CenterOf(items[ps[j]], rendered[ps[j]]);
    }
  }

  /** Placing item `i` changes only the group of its own line, and that one by `Push`. */
  lemma LineGroupStep(items: seq<Item>, rendered: seq<string>, i: nat, k: Value)
    requires |rendered| == |items| && i < |items|
    ensures LineKey(items[i]) != k ==> LineGroup(items, rendered, i + 1, k) == LineGroup(items, rendered, i, k)
    ensures LineKey(items[i]) == k ==>
      LineGroup(items, rendered, i + 1, k) == Push(LineGroup(items, rendered, i, k), items[i], rendered[i])
  {
    PositionsStep(items, i, k, CardLayout, Start);
    PositionsStep(items, i, k, CardLayout, Center);
    PositionsStep(items, i, k, CardLayout, End);
    if LineKey(items[i]) == k {
      var b := CardBucket(items[i].justify);
      var ps := Positions(items, i, k, CardLayout, b);
      match b
      case Start => TextsSnoc(rendered, ps, i);
      case Center => CentersSnoc(items, rendered, ps, i);
      case End => TextsSnoc(rendered, ps, i);
    }
  }

  lemma TextsSnoc(rendered: seq<string>, ps: seq<nat>, x: nat)
    requires forall j :: 0 <= j < |ps| ==> ps[j] < |rendered|
    requires x < |rendered|
    ensures Texts(rendered, ps + [x]) == Texts(rendered, ps) + [rendered[x]]
  {
    assert forall j :: 0 <= j < |ps| ==> (ps + [x])[j] == ps[j];
  }

  lemma CentersSnoc(items: seq<Item>, rendered: seq<string>, ps: seq<nat>, x: nat)
    requires |rendered| == |items|
    requires forall j :: 0 <= j < |ps| ==> ps[j] < |items|
    requires x < |items|
    ensures Centers(items, rendered, ps + [x]) == Centers(items, rendered, ps) + [CenterOf(items[x], rendered[x])]
  {
    assert forall j :: 0 <= j < |ps| ==> (ps + [x])[j] == ps[j];
  }

  /** A line no earlier item was placed on has empty groups. */
  lemma NewLineEmpty(items: seq<Item>, rendered: seq<string>, i: nat, k: Value)
    requires |rendered| == |items| && i <= |items| && k !in LineKeys(items, i)
    ensures LineGroup(items, rendered, i, k) == EmptyGroup
  {
    PositionsAbsent(items, i, k, CardLayout, Start);
    PositionsAbsent(items, i, k, CardLayout, Center);
    PositionsAbsent(items, i, k, CardLayout, End);
  }

  /** The `lines` map after `count` items, as its keys in insertion order and the group of each. */
  ghost predicate Grouped(items: seq<Item>, rendered: seq<string>, count: nat, keys: seq<Value>, groups: seq<Group>)
    requires |rendered| == |items| && count <= |items|
  {
    |groups| == |keys| && forall j :: 0 <= j < |keys| ==> groups[j] == LineGroup(items, rendered, count, keys[j])
  }

  /** Pushing item `i` onto the group of its line takes the map from `i` placed items to `i + 1`. */
  lemma PushStep(items: seq<Item>, rendered: seq<string>, i: nat, keys: seq<Value>, groups: seq<Group>, at: nat)
    requires |rendered| == |items| && i < |items|
    requires Grouped(items, rendered, i, keys, groups) && NoDuplicates(keys)
    requires at < |keys| && keys[at] == LineKey(items[i])
    ensures Grouped(items, rendered, i + 1, keys, groups[at := Push(groups[at], items[i], rendered[i])])
  {
    var groups1 := groups[at := Push(groups[at], items[i], rendered[i])];
    forall j | 0 <= j < |keys| ensures groups1[j] == LineGroup(items, rendered, i + 1, keys[j]) {
      LineGroupStep(items, rendered, i, keys[j]);
    }
  }

  /** A new line enters the map with an empty group. */
  lemma AddLineStep(items: seq<Item>, rendered: seq<string>, i: nat, keys: seq<Value>, groups: seq<Group>, k: Value)
    requires |rendered| == |items| && i <= |items|
    requires Grouped(items, rendered, i, keys, groups) && k !in LineKeys(items, i)
    ensures Grouped(items, rendered, i, keys + [k], groups + [EmptyGroup])
  {
    NewLineEmpty(items, rendered, i, k);
  }

  /**
   * The `forEach` callback of `render` for item `i`: `lines.set` an empty
   * group when its line is new, then push its rendered text.
   */
  method PlaceItem(items: seq<Item>, rendered: seq<string>, i: nat, keys: seq<Value>, groups: seq<Group>)
    returns (keys': seq<Value>, groups': seq<Group>)
    requires |rendered| == |items| && i < |items|
    requires keys == LineKeys(items, i) && Grouped(items, rendered, i, keys, groups)
    ensures keys' == LineKeys(items, i + 1) && Grouped(items, rendered, i + 1, keys', groups')
  {
    keys', groups' := keys, groups;
    var k := LineKey(items[i]);
    LineKeysStep(items, i);
    var at := IndexOf(keys', k);
    if at.None? {
      AddLineStep(items, rendered, i, keys', groups', k);
      keys' := keys' + [k];
      groups' := groups' + [EmptyGroup];
      at := Some(|keys'| - 1);
    }
    assert keys' == LineKeys(items, i + 1);
    PushStep(items, rendered, i, keys', groups', at.value);
    groups' := groups'[at.value := Push(groups'[at.value], items[i], rendered[i])];
  }

  /**
   * The `forEach` of `render` that fills the `lines` map: its keys in
   * insertion order, and the group of each line at the same index.
   */
  method GroupCardLines(items: seq<Item>, rendered: seq<string>) returns (keys: seq<Value>, groups: seq<Group>)
    requires |rendered| == |items|
    ensures keys == LineKeys(items, |items|)
    ensures |groups| == |keys|
    ensures forall j :: 0 <= j < |keys| ==> groups[j] == LineGroup(items, rendered, |items|, keys[j])
  {
    keys := [];
    groups := [];
    for i := 0 to |items|
      invariant keys == LineKeys(items, i)
      invariant Grouped(items, rendered, i, keys, groups)
    {
      keys, groups := PlaceItem(items, rendered, i, keys, groups);
    }
  }

  /** `lines.get(k)`. */
  function GroupOf(keys: seq<Value>, groups: seq<Group>, k: Value): (g: Group)
    requires |groups| == |keys| && k in keys
    ensures exists j :: 0 <= j < |keys| && keys[j] == k && g == groups[j]
  {
    groups[IndexOf(keys, k).value]
  }

  /** The rows `render` shows for the items: one per distinct line key, in sorted key order. */
  function Rows(items: seq<Item>, rendered: seq<string>): (rows: seq<Row>)
    requires |rendered| == |items|
    ensures |rows| == |LineKeys(items, |items|)|
    ensures forall j :: 0 <= j < |rows| ==> rows[j].key in LineKeys(items, |items|)
    ensures forall j :: 0 <= j < |rows| ==> rows[j].rowIndex == RowIndexOf(rows[j].key)
  {
    var keys := LineKeys(items, |items|);
    var sorted := SortLines(keys);
    assert |sorted| == |multiset(keys)| == |keys|;
    assert forall j :: 0 <= j < |sorted| ==> sorted[j] in multiset(keys);
    seq(|sorted|, j requires 0 <= j < |sorted| =>
      Row(sorted[j], RowIndexOf(sorted[j]), LineGroup(items, rendered, |items|, sorted[j])))
  }

  /**
   * The part of `render` that builds the rows: group the items by line,
   * sort the line numbers, and look up each line's group.
   */
  method LayOutRows(items: seq<Item>, rendered: seq<string>) returns (rows: seq<Row>)
    requires |rendered| == |items|
    ensures rows == Rows(items, rendered)
  {
    var keys, groups := GroupCardLines(items, rendered);
    var sorted := SortLines(keys);
    assert forall j :: 0 <= j < |sorted| ==> sorted[j] in multiset(keys);
    rows := seq(|sorted|, j requires 0 <= j < |sorted| => Row(sorted[j], RowIndexOf(sorted[j]), GroupOf(keys, groups, sorted[j])));
    forall j | 0 <= j < |sorted| ensures rows[j] == Rows(items, rendered)[j] {
      GroupOfLine(items, rendered, keys, groups, sorted[j]);
    }
  }

  /** Looking a line up in the grouped lines gives that line's group. */
  lemma GroupOfLine(items: seq<Item>, rendered: seq<string>, keys: seq<Value>, groups: seq<Group>, k: Value)
    requires |rendered| == |items| && |groups| == |keys| && k in keys
    requires forall j :: 0 <= j < |keys| ==> groups[j] == LineGroup(items, rendered, |items|, keys[j])
    ensures GroupOf(keys, groups, k) == LineGroup(items, rendered, |items|, k)
  {
  }

  /** What `render` shows for a configuration, a `hass` object and the engine's number behaviour. */
  function CardView(config: Option<Config>, hass: Option<Hass>, n: Numerics): (v: View)
    ensures v.Blank? <==> config.None? || hass.None?
    ensures v.Broken? ==> v.message == TrimError
    ensures v.Broken? <==> (config.Some? && hass.Some? &&
      ((Truthy(Get(config.value.rest, "cascade_color")) && !Get(config.value.rest, "cascade_color").Str?) ||
       (Truthy(Get(config.value.rest, "font_size")) && !Get(config.value.rest, "font_size").Str?)))
  {
    if config.None? || hass.None? then Blank
    else
      var c := config.value;
      match ResolveCustomColor(Get(c.rest, "cascade_color"))
      case Failure(message) => Broken(message)
      case Success(colorCss) =>
        match ResolveFontSize(Get(c.rest, "font_size"))
        case Failure(message) => Broken(message)
        case Success(fontCss) =>
          Drawn(colorCss, fontCss, Rows(c.content, RenderAll(hass.value, n, c.content)),
                Or(Get(c.rest, "height"), DefaultRowHeight), Or(Get(c.rest, "title"), Str("")))
  }

  /** The rows' keys are the distinct line keys, each once, in sorted order. */
  lemma RowsKeys(items: seq<Item>, rendered: seq<string>)
    requires |rendered| == |items|
    ensures var rows := Rows(items, rendered);
      && (forall j, j' :: 0 <= j < j' < |rows| ==> rows[j].key != rows[j'].key && !Before(rows[j'].key, rows[j].key))
      && (forall j :: 0 <= j < |rows| ==> rows[j].key in LineKeys(items, |items|))
  {
    var keys := LineKeys(items, |items|);
    SortLinesDistinct(keys);
  }

  /** Every item's line has a row. */
  lemma RowsCover(items: seq<Item>, rendered: seq<string>, i: nat)
    requires |rendered| == |items| && i < |items|
    ensures var rows := Rows(items, rendered);
      exists j :: 0 <= j < |rows| && rows[j].key == LineKey(items[i])
  {
    var keys := LineKeys(items, |items|);
    var sorted := SortLines(keys);
    assert LineKey(items[i]) in multiset(keys);
    var j :| 0 <= j < |sorted| && sorted[j] == LineKey(items[i]);
    assert Rows(items, rendered)[j].key == sorted[j];
  }

  /** Item `i` lands in the group its justify selects, in the row of its line key. */
  predicate ShownIn(row: Row, it: Item, text: string) {
    row.key == LineKey(it) &&
    match CardBucket(it.justify)
    case Start => text in row.group.start
    case Center => CenterOf(it, text) in row.group.center
    case End => text in row.group.end
  }

  /**
   * Every item is shown exactly where the grouping puts it: in the row of
   * its line key, in the group its justify selects.
   */
  lemma RowsPlace(items: seq<Item>, rendered: seq<string>, i: nat)
    requires |rendered| == |items| && i < |items|
    ensures var rows := Rows(items, rendered);
      exists j :: 0 <= j < |rows| && ShownIn(rows[j], items[i], rendered[i])
  {
    var rows := Rows(items, rendered);
    RowsCover(items, rendered, i);
    var j :| 0 <= j < |rows| && rows[j].key == LineKey(items[i]);
    GroupShows(items, rendered, i, rows[j]);
  }

  /** The group of an item's line holds the item in the bucket its justify selects. */
  lemma GroupShows(items: seq<Item>, rendered: seq<string>, i: nat, row: Row)
    requires |rendered| == |items| && i < |items|
    requires row.key == LineKey(items[i]) && row.group == LineGroup(items, rendered, |items|, row.key)
    ensures ShownIn(row, items[i], rendered[i])
  {
    var b := CardBucket(items[i].justify);
    var ps := Positions(items, |items|, row.key, CardLayout, b);
    assert i in ps;
    var m :| 0 <= m < |ps| && ps[m] == i;
    match b
    case Start => assert Texts(rendered, ps)[m] == rendered[i];
    case Center => assert Centers(items, rendered, ps)[m] == CenterOf(items[i], rendered[i]);
    case End => assert Texts(rendered, ps)[m] == rendered[i];
  }

  /** When every line is a number, the rows run in strictly ascending line order. */
  lemma RowsAscend(items: seq<Item>, rendered: seq<string>)
    requires |rendered| == |items|
    requires forall i :: 0 <= i < |items| ==> LineKey(items[i]).Num?
    ensures var rows := Rows(items, rendered);
      forall j, j' :: 0 <= j < j' < |rows| ==> rows[j].key.Num? && rows[j'].key.Num? && rows[j].key.x < rows[j'].key.x
  {
    var keys := LineKeys(items, |items|);
    forall k | k in keys ensures k.Num? {
      LineKeysFrom(items, |items|, k);
    }
    SortedLinesAscend(keys);
  }

  /**
   * A row whose line key converts to a positive integer (a number, or
   * `true`) is drawn with one of the seven row styles.
   */
  lemma RowStyleOfLine(items: seq<Item>, rendered: seq<string>, j: nat)
    requires |rendered| == |items| && j < |Rows(items, rendered)|
    requires var x := NumberOf(Rows(items, rendered)[j].key); x.Some? && x.value.Floor as real == x.value && x.value >= 1.0
    ensures var r := Rows(items, rendered)[j].rowIndex;
      r.Some? && 1.0 <= r.value <= 7.0 && r.value.Floor as real == r.value
  {
    var row := Rows(items, rendered)[j];
    assert row.rowIndex == RowIndexOf(row.key);
    RowIndexStyled(NumberOf(row.key).value);
  }

  /**
   * Once the card shows anything, every configured item's rendered template
   * appears exactly where its line and justify put it.
   */
  lemma ViewShowsEveryItem(config: Option<Config>, hass: Option<Hass>, n: Numerics, i: nat)
    requires config.Some? && hass.Some? && i < |config.value.content|
    requires CardView(config, hass, n).Drawn?
    ensures var rows := CardView(config, hass, n).rows;
      var it := config.value.content[i];
      exists j :: 0 <= j < |rows| && ShownIn(rows[j], it, RenderTemplate(hass.value, n, it.text))
  {
    var items := config.value.content;
    DrawnRows(config, hass, n);
    RowsPlace(items, RenderAll(hass.value, n, items), i);
  }

  /** The rows of a view that is shown are those of the configured items' rendered texts. */
  lemma DrawnRows(config: Option<Config>, hass: Option<Hass>, n: Numerics)
    requires config.Some? && hass.Some? && CardView(config, hass, n).Drawn?
    ensures CardView(config, hass, n).rows == Rows(config.value.content, RenderAll(hass.value, n, config.value.content))
  {
    var c := config.value;
    assert ResolveCustomColor(Get(c.rest, "cascade_color")).Success?;
    assert ResolveFontSize(Get(c.rest, "font_size")).Success?;
  }

  class Card {
    /** `_config`: absent until the first successful `setConfig`. */
    var config: Option<Config>
    /** `hass`: set by the host application. */
    var hass: Option<Hass>
    /** The engine's number behaviour the expressions use. */
    const numerics: Numerics

    constructor(numerics: Numerics)
      ensures config.None? && hass.None? && this.numerics == numerics
    {
      config := None;
      hass := None;
      this.numerics := numerics;
    }

    /**
     * `setConfig(config)`: a configuration with a content array replaces the
     * current one in its normalised form; any other configuration throws
     * (returned here as the error) and leaves the card as it was.
     */
    method SetConfig(raw: map<string, Value>) returns (error: Option<string>)
      modifies this
      ensures NormalizeCard(raw).Success? ==> error.None? && config == Some(NormalizeCard(raw).value)
      ensures NormalizeCard(raw).Failure? ==> error == Some(ContentError) && config == old(config)
      ensures hass == old(hass)
    {
      match NormalizeCard(raw)
      case Success(c) =>
        config := Some(c);
        error := None;
      case Failure(message) =>
        error := Some(message);
    }

    /** The host application hands the card a new `hass` object. */
    method SetHass(h: Hass)
      modifies this
      ensures hass == Some(h) && config == old(config)
    {
      hass := Some(h);
    }

    /** `render()`, which changes nothing. */
    method Render() returns (v: View)
      ensures v == CardView(config, hass, numerics)
    {
      if config.None? || hass.None? {
        return Blank;
      }
      var c := config.value;
      var h := hass.value;
      var rendered := RenderAll(h, numerics, c.content);
      var rows := LayOutRows(c.content, rendered);
      var colorCss := ResolveCustomColor(Get(c.rest, "cascade_color"));
      if colorCss.Failure? {
        return Broken(colorCss.error);
      }
      var fontCss := ResolveFontSize(Get(c.rest, "font_size"));
      if fontCss.Failure? {
        return Broken(fontCss.error);
      }
      v := Drawn(colorCss.value, fontCss.value, rows,
                 Or(Get(c.rest, "height"), DefaultRowHeight), Or(Get(c.rest, "title"), Str("")));
    }
  }
}
