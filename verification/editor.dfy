/**
 * The `DataCascadeCardEditor` element: it holds the editor's normalised
 * configuration, edits its content list in response to the form, and
 * reports every edit with a `config-changed` event, modelled as a log of
 * the configurations the events carried.
 */
module DataCascadeEditor {
  import opened Wrappers
  import opened JsValues
  import opened Content
  import opened LineLayout
  import opened EditorConfig
  import CardConfig

  /**
   * The four `_valueChanged` calls the form makes, one per field, with the
   * value already read from the input: `parseInt(value, 10)` and
   * `parseFloat(value)` are given as their result, `None` standing for NaN.
   */
  datatype Edit =
    | SetText(text: string)
    | SetJustify(justify: string)
    | SetLine(parsedLine: Option<int>)
    | SetCenterPosition(parsedPosition: Option<real>)

  /** `parseInt(value, 10) || 1`. */
  function LineValue(parsed: Option<int>): (v: Value)
    ensures v.Num? && Truthy(v) && v.x.Floor as real == v.x
    ensures parsed.Some? && parsed.value != 0 ==> v == Num(parsed.value as real)
    ensures parsed.None? || parsed.value == 0 ==> v == DefaultLine
  {
    if parsed.Some? && parsed.value != 0 then Num(parsed.value as real) else DefaultLine
  }

  /** `Math.max(0, Math.min(100, parseFloat(value) || 50))`. */
  function PositionValue(parsed: Option<real>): (v: Value)
    ensures v.Num? && 0.0 <= v.x <= 100.0
    ensures parsed.Some? && 0.0 < parsed.value <= 100.0 ==> v == Num(parsed.value)
    ensures parsed.None? || parsed.value == 0.0 ==> v == DefaultPosition
    ensures parsed.Some? && parsed.value > 100.0 ==> v == Num(100.0)
    ensures parsed.Some? && parsed.value < 0.0 ==> v == Num(0.0)
  {
    var p := if parsed.Some? && parsed.value != 0.0 then parsed.value else 50.0;
    var atMost := if 100.0 < p then 100.0 else p;
    Num(if 0.0 < atMost then atMost else 0.0)
  }

  /** `{ ...item, [field]: value }`: the item with the one field the edit names replaced. */
  function Edited(it: Item, e: Edit): (r: Item)
    ensures e.SetText? ==> r == it.(text := Str(e.text))
    ensures e.SetJustify? ==> r == it.(justify := Str(e.justify))
    ensures e.SetLine? ==> r == it.(line := LineValue(e.parsedLine))
    ensures e.SetCenterPosition? ==> r == it.(centerPosition := PositionValue(e.parsedPosition))
  {
    match e
    case SetText(t) => it.(text := Str(t))
    case SetJustify(j) => it.(justify := Str(j))
    case SetLine(p) => it.(line := LineValue(p))
    case SetCenterPosition(p) => it.(centerPosition := PositionValue(p))
  }

  /** An edit changes exactly the field it names, and editing that field twice keeps only the second value. */
  lemma EditedFields(it: Item, e: Edit, e': Edit)
    requires e.SetText? <==> e'.SetText?
    requires e.SetJustify? <==> e'.SetJustify?
    requires e.SetLine? <==> e'.SetLine?
    ensures Edited(Edited(it, e), e') == Edited(it, e')
    ensures !e.SetText? ==> Edited(it, e).text == it.text
    ensures !e.SetJustify? ==> Edited(it, e).justify == it.justify
    ensures !e.SetLine? ==> Edited(it, e).line == it.line
    ensures !e.SetCenterPosition? ==> Edited(it, e).centerPosition == it.centerPosition
  {
  }

  /**
   * A form edit keeps the editor's item shape, as long as the justify
   * chosen is not empty and the position typed is not negative.
   */
  lemma EditedWellFormed(it: Item, e: Edit)
    requires EditorWellFormed(it)
    requires e.SetJustify? ==> e.justify != ""
    requires e.SetCenterPosition? && e.parsedPosition.Some? ==> e.parsedPosition.value >= 0.0
    ensures EditorWellFormed(Edited(it, e))
  {
  }

  /**
   * A negative position is clamped to 0, which is falsy: the card then
   * reads `center_position || 50` and centres the item at 50%, and the
   * next `setConfig` of the editor stores 50.
   */
  lemma NegativePositionCentred(it: Item, p: real)
    requires p < 0.0
    ensures Edited(it, SetCenterPosition(Some(p))).centerPosition == Num(0.0)
    ensures Or(Edited(it, SetCenterPosition(Some(p))).centerPosition, DefaultPosition) == DefaultPosition
    ensures EditorItem(ItemValue(Edited(it, SetCenterPosition(Some(p))))).centerPosition == DefaultPosition
  {
    var v := ItemValue(Edited(it, SetCenterPosition(Some(p))));
    assert Get(v.props, "center_position") == Num(0.0);
  }

  /**
   * `items.splice(index, 1)`: a negative index counts from the end (and is
   * taken as 0 past the front); the item there is removed, and an index at
   * or past the end removes nothing.
   */
  function Splice<T>(s: seq<T>, index: int): (r: seq<T>)
    ensures 0 <= index < |s| ==> |r| == |s| - 1 && r[..index] == s[..index]
    ensures 0 <= index < |s| ==> forall j :: index <= j < |r| ==> r[j] == s[j + 1]
    ensures index >= |s| ==> r == s
    ensures -|s| <= index < 0 ==> |r| == |s| - 1 && r == s[..|s| + index] + s[|s| + index + 1..]
    ensures index < -|s| && s != [] ==> r == s[1..]
  {
    var start := if index < 0 then (if |s| + index < 0 then 0 else |s| + index) else index;
    if start < |s| then s[..start] + s[start + 1..] else s
  }

  /** Removing an item and putting it back at the same place restores the list. */
  lemma SpliceReinsert<T>(s: seq<T>, index: nat)
    requires index < |s|
    ensures Splice(s, index)[..index] + [s[index]] + Splice(s, index)[index..] == s
  {
    var r := Splice(s, index);
    assert r[index..] == s[index + 1..];
    assert s == s[..index] + [s[index]] + s[index + 1..];
  }

  /** `[items[i], items[j]] = [items[j], items[i]]`. */
  function Swapped<T>(s: seq<T>, i: nat, j: nat): (r: seq<T>)
    requires i < |s| && j < |s|
    ensures |r| == |s| && r[i] == s[j] && r[j] == s[i]
    ensures forall m :: 0 <= m < |s| && m != i && m != j ==> r[m] == s[m]
    ensures multiset(r) == multiset(s)
  {
    s[i := s[j]][j := s[i]]
  }

  /** Swapping the same two places again restores the list. */
  lemma SwappedTwice<T>(s: seq<T>, i: nat, j: nat)
    requires i < |s| && j < |s|
    ensures Swapped(Swapped(s, i, j), j, i) == s
  {
    var r := Swapped(Swapped(s, i, j), j, i);
    assert forall m :: 0 <= m < |s| ==> r[m] == s[m];
  }

  /** The index `_moveItem` swaps with: one up for 'up', one down for anything else. */
  function MoveTarget(index: int, direction: string): (r: int)
    ensures r == index - 1 || r == index + 1
    ensures r < index <==> direction == "up"
  {
    if direction == "up" then index - 1 else index + 1
  }

  /** Moving an item up and then down again (or down then up) restores the list. */
  lemma MoveBack(s: seq<Item>, index: nat)
    requires 0 < index < |s|
    ensures MoveTarget(index, "up") == index - 1 && MoveTarget(index - 1, "down") == index
    ensures Swapped(Swapped(s, index, index - 1), index - 1, index) == s
  {
    SwappedTwice(s, index, index - 1);
  }

  /** An item with its `originalIndex`, as `linePreview` stores it. */
  datatype Tagged = Tagged(item: Item, originalIndex: nat)

  /** The `{ start: [], center: [], end: [] }` record of one previewed line. */
  datatype Preview = Preview(start: seq<Tagged>, center: seq<Tagged>, end: seq<Tagged>)

  const EmptyPreview: Preview := Preview([], [], [])

  function BucketItems(g: Preview, b: Bucket): seq<Tagged> {
    match b
    case Start => g.start
    case Center => g.center
    case End => g.end
  }

  /** The body of the preview's `switch`: the tagged item joins the bucket the editor's switch selects. */
  function PushPreview(g: Preview, t: Tagged): (r: Preview)
    ensures EditorBucket(t.item.justify) == Start ==> r == g.(start := g.start + [t])
    ensures EditorBucket(t.item.justify) == Center ==> r == g.(center := g.center + [t])
    ensures EditorBucket(t.item.justify) == End ==> r == g.(end := g.end + [t])
  {
    match EditorBucket(t.item.justify)
    case Start => g.(start := g.start + [t])
    case Center => g.(center := g.center + [t])
    case End => g.(end := g.end + [t])
  }

  /** The items at the positions `ps`, each tagged with its position. */
  function Tags(items: seq<Item>, ps: seq<nat>): (ts: seq<Tagged>)
    requires forall j :: 0 <= j < |ps| ==> ps[j] < |items|
  {
    seq(|ps|, j requires 0 <= j < |ps| => Tagged(items[ps[j]], ps[j]))
  }

  /** The preview record of line `k` once the first `count` items are placed. */
  function PreviewGroup(items: seq<Item>, count: nat, k: Value): (g: Preview)
    requires count <= |items|
    ensures forall b, t :: t in BucketItems(g, b) ==>
      t.originalIndex < count && t.item == items[t.originalIndex] && InBucket(items, t.originalIndex, k, EditorLayout, b)
    ensures forall b, i :: 0 <= i < count && InBucket(items, i, k, EditorLayout, b) ==> Tagged(items[i], i) in BucketItems(g, b)
  {
    var g := Preview(Tags(items, Positions(items, count, k, EditorLayout, Start)),
                     Tags(items, Positions(items, count, k, EditorLayout, Center)),
                     Tags(items, Positions(items, count, k, EditorLayout, End)));
    TagsInBucket(items, count, k, Start);
    TagsInBucket(items, count, k, Center);
    TagsInBucket(items, count, k, End);
    g
  }

  /** The tags of a bucket are exactly the items of that bucket, each with its index. */
  lemma TagsInBucket(items: seq<Item>, count: nat, k: Value, b: Bucket)
    requires count <= |items|
    ensures var ts := Tags(items, Positions(items, count, k, EditorLayout, b));
      && (forall t :: t in ts ==>
           t.originalIndex < count && t.item == items[t.originalIndex] && InBucket(items, t.originalIndex, k, EditorLayout, b))
      && (forall i :: 0 <= i < count && InBucket(items, i, k, EditorLayout, b) ==> Tagged(items[i], i) in ts)
  {
    var ps := Positions(items, count, k, EditorLayout, b);
    var ts := Tags(items, ps);
    forall t | t in ts
      ensures t.originalIndex < count && t.item == items[t.originalIndex] && InBucket(items, t.originalIndex, k, EditorLayout, b)
    {
      var j :| 0 <= j < |ts| && ts[j] == t;
      assert ps[j] in ps;
    }
    forall i | 0 <= i < count && InBucket(items, i, k, EditorLayout, b) ensures Tagged(items[i], i) in ts {
      var j :| 0 <= j < |ps| && ps[j] == i;
      assert ts[j] == Tagged(items[i], i);
    }
  }

  lemma PreviewBucket(items: seq<Item>, count: nat, k: Value, b: Bucket)
    requires count <= |items|
    ensures BucketItems(PreviewGroup(items, count, k), b) == Tags(items, Positions(items, count, k, EditorLayout, b))
  {
  }

  /** One more item adds its tagged self to the end of its own bucket and nowhere else. */
  lemma TagsStep(items: seq<Item>, i: nat, k: Value, b: Bucket)
    requires i < |items|
    ensures var ps := Positions(items, i, k, EditorLayout, b);
      Tags(items, Positions(items, i + 1, k, EditorLayout, b)) ==
        if InBucket(items, i, k, EditorLayout, b) then Tags(items, ps) + [Tagged(items[i], i)] else Tags(items, ps)
  {
    PositionsStep(items, i, k, EditorLayout, b);
    var ps := Positions(items, i, k, EditorLayout, b);
    assert Tags(items, ps + [i]) == Tags(items, ps) + [Tagged(items[i], i)];
  }

  /** Placing item `i` changes only the record of its own line, and that one by `PushPreview`. */
  lemma PreviewGroupStep(items: seq<Item>, i: nat, k: Value)
    requires i < |items|
    ensures LineKey(items[i]) != k ==> PreviewGroup(items, i + 1, k) == PreviewGroup(items, i, k)
    ensures LineKey(items[i]) == k ==>
      PreviewGroup(items, i + 1, k) == PushPreview(PreviewGroup(items, i, k), Tagged(items[i], i))
  {
    TagsStep(items, i, k, Start);
    TagsStep(items, i, k, Center);
    TagsStep(items, i, k, End);
  }

  /** A line no earlier item was placed on has an empty record. */
  lemma NewPreviewEmpty(items: seq<Item>, i: nat, k: Value)
    requires i <= |items| && k !in LineKeys(items, i)
    ensures PreviewGroup(items, i, k) == EmptyPreview
  {
    PositionsAbsent(items, i, k, EditorLayout, Start);
    PositionsAbsent(items, i, k, EditorLayout, Center);
    PositionsAbsent(items, i, k, EditorLayout, End);
  }

  /** The preview's `lines` map after `count` items, as its keys in insertion order and the record of each. */
  ghost predicate Previewed(items: seq<Item>, count: nat, keys: seq<Value>, groups: seq<Preview>)
    requires count <= |items|
  {
    |groups| == |keys| && forall j :: 0 <= j < |keys| ==> groups[j] == PreviewGroup(items, count, keys[j])
  }

  lemma PushPreviewStep(items: seq<Item>, i: nat, keys: seq<Value>, groups: seq<Preview>, at: nat)
    requires i < |items| && Previewed(items, i, keys, groups) && NoDuplicates(keys)
    requires at < |keys| && keys[at] == LineKey(items[i])
    ensures Previewed(items, i + 1, keys, groups[at := PushPreview(groups[at], Tagged(items[i], i))])
  {
    var groups1 := groups[at := PushPreview(groups[at], Tagged(items[i], i))];
    forall j | 0 <= j < |keys| ensures groups1[j] == PreviewGroup(items, i + 1, keys[j]) {
      PreviewGroupStep(items, i, keys[j]);
    }
  }

  lemma AddPreviewLineStep(items: seq<Item>, i: nat, keys: seq<Value>, groups: seq<Preview>, k: Value)
    requires i <= |items| && Previewed(items, i, keys, groups) && k !in LineKeys(items, i)
    ensures Previewed(items, i, keys + [k], groups + [EmptyPreview])
  {
    NewPreviewEmpty(items, i, k);
  }

  /** The `forEach` callback of `linePreview` for item `i`. */
  method PlacePreview(items: seq<Item>, i: nat, keys: seq<Value>, groups: seq<Preview>)
    returns (keys': seq<Value>, groups': seq<Preview>)
    requires i < |items|
    requires keys == LineKeys(items, i) && Previewed(items, i, keys, groups)
    ensures keys' == LineKeys(items, i + 1) && Previewed(items, i + 1, keys', groups')
  {
    keys', groups' := keys, groups;
    var k := LineKey(items[i]);
    LineKeysStep(items, i);
    var at := IndexOf(keys', k);
    if at.None? {
      AddPreviewLineStep(items, i, keys', groups', k);
      keys' := keys' + [k];
      groups' := groups' + [EmptyPreview];
      at := Some(|keys'| - 1);
    }
    assert keys' == LineKeys(items, i + 1);
    PushPreviewStep(items, i, keys', groups', at.value);
    groups' := groups'[at.value := PushPreview(groups'[at.value], Tagged(items[i], i))];
  }

  /**
   * Every item appears in the preview exactly once: tagged with its own
   * index, in the line `line || 1` and the bucket the editor's switch
   * selects, and in no other bucket of any line.
   */
  lemma PreviewPlacesOnce(items: seq<Item>, i: nat, k: Value, b: Bucket)
    requires i < |items|
    ensures Tagged(items[i], i) in BucketItems(PreviewGroup(items, |items|, LineKey(items[i])), EditorBucket(items[i].justify))
    ensures (exists t :: t in BucketItems(PreviewGroup(items, |items|, k), b) && t.originalIndex == i) ==>
      k == LineKey(items[i]) && b == EditorBucket(items[i].justify)
  {
    assert InBucket(items, i, LineKey(items[i]), EditorLayout, EditorBucket(items[i].justify));
  }

  /**
   * Each bucket holds items in list order, each tagged with the index it
   * has in the list.
   */
  lemma PreviewInOrder(items: seq<Item>, k: Value, b: Bucket)
    ensures var ts := BucketItems(PreviewGroup(items, |items|, k), b);
      && (forall j :: 0 <= j < |ts| ==> ts[j].originalIndex < |items| && ts[j].item == items[ts[j].originalIndex])
      && (forall j, j' :: 0 <= j < j' < |ts| ==> ts[j].originalIndex < ts[j'].originalIndex)
  {
    PreviewBucket(items, |items|, k, b);
  }

  class Editor {
    /** `_config`, in the form the editor's `setConfig` stores it. */
    var config: Config
    /** The configurations carried by the `config-changed` events dispatched so far, oldest first. */
    var events: seq<Config>

    /** The element as the host hands it its first configuration. */
    constructor(raw: map<string, Value>)
      ensures config == NormalizeEditor(raw) && events == []
    {
      config := NormalizeEditor(raw);
      events := [];
    }

    /** `setConfig(config)`: replaces the configuration; no event is dispatched. */
    method SetConfig(raw: map<string, Value>)
      modifies this
      ensures config == NormalizeEditor(raw) && events == old(events)
    {
      config := NormalizeEditor(raw);
    }

    /** `contentItems`: the content list (always an array once configured). */
    function ContentItems(): (items: seq<Item>)
      reads this
      ensures items == config.content
    {
      config.content
    }

    /** `_emitChange()`: a `config-changed` event carrying the current configuration. */
    method EmitChange()
      modifies this
      ensures config == old(config) && events == old(events) + [config]
    {
      events := events + [config];
    }

    /**
     * `_valueChanged(index, field, e)`: the item at `index` gets the edited
     * field and nothing else changes; one event follows.
     */
    method ValueChanged(index: nat, edit: Edit)
      requires index < |config.content|
      modifies this
      ensures config == old(config).(content := old(config.content)[index := Edited(old(config.content)[index], edit)])
      ensures events == old(events) + [config]
    {
      var newItems := ContentItems();
      newItems := newItems[index := Edited(newItems[index], edit)];
      config := config.(content := newItems);
      EmitChange();
    }

    /** `_addItem()`: the blank item is appended; one event follows. */
    method AddItem()
      modifies this
      ensures config == old(config).(content := old(config.content) + [BlankItem])
      ensures events == old(events) + [config]
    {
      config := config.(content := ContentItems() + [BlankItem]);
      EmitChange();
    }

    /** `_removeItem(index)`: the spliced list; one event follows even when nothing was removed. */
    method RemoveItem(index: int)
      modifies this
      ensures config == old(config).(content := Splice(old(config.content), index))
      ensures events == old(events) + [config]
    {
      var items := ContentItems();
      items := Splice(items, index);
      config := config.(content := items);
      EmitChange();
    }

    /**
     * `_moveItem(index, direction)`: when the neighbour in that direction
     * exists the two items swap places and one event follows; otherwise
     * nothing changes and no event is dispatched.
     */
    method MoveItem(index: nat, direction: string)
      requires index < |config.content|
      modifies this
      ensures var target := MoveTarget(index, direction);
        && (0 <= target < |old(config.content)| ==>
              config == old(config).(content := Swapped(old(config.content), index, target))
              && events == old(events) + [config])
        && (!(0 <= target < |old(config.content)|) ==> config == old(config) && events == old(events))
    {
      var items := ContentItems();
      var newIndex := MoveTarget(index, direction);
      if 0 <= newIndex < |items| {
        items := Swapped(items, index, newIndex);
        config := config.(content := items);
        EmitChange();
      }
    }

    /**
     * `linePreview`: the keys of the preview's `lines` map in insertion
     * order, and at the same index the record of each line.
     */
    method LinePreview() returns (keys: seq<Value>, groups: seq<Preview>)
      ensures keys == LineKeys(config.content, |config.content|)
      ensures |groups| == |keys|
      ensures forall j :: 0 <= j < |keys| ==> groups[j] == PreviewGroup(config.content, |config.content|, keys[j])
    {
      var items := ContentItems();
      keys := [];
      groups := [];
      for i := 0 to |items|
        invariant keys == LineKeys(items, i)
        invariant Previewed(items, i, keys, groups)
      {
        keys, groups := PlacePreview(items, i, keys, groups);
      }
    }

    /** The line numbers `render` lists the preview under: the preview's keys, sorted. */
    method PreviewLineNumbers() returns (sorted: seq<Value>)
      ensures sorted == SortLines(LineKeys(config.content, |config.content|))
      ensures Sorted(sorted) && NoDuplicates(sorted)
      ensures forall i :: 0 <= i < |config.content| ==> LineKey(config.content[i]) in sorted
    {
      var keys, groups := LinePreview();
      sorted := SortLines(keys);
      SortLinesDistinct(keys);
    }
  }

  /** The blank item the editor appends has empty text, so the card does not show it. */
  lemma AddedItemNotShown(items: seq<Item>)
    ensures CardConfig.CardContent(ItemValues(items + [BlankItem])) == CardConfig.CardContent(ItemValues(items))
  {
    var vs := ItemValues(items);
    ItemValuesSnoc(items, BlankItem);
    BlankNotKept();
    CardConfig.CardContentAppend(vs, [ItemValue(BlankItem)]);
    CardConfig.CardContentSingle(ItemValue(BlankItem));
    assert vs + [] == vs;
  }

  /** The blank item's text is '', which the card's filter refuses. */
  lemma BlankNotKept()
    ensures !CardConfig.Kept(ItemValue(BlankItem))
  {
    assert Get(ItemValue(BlankItem).props, "text") == Str("");
  }
}
