/**
 * The card's `setConfig`: it rejects a configuration without a content
 * array, maps every entry to an item with defaults filled in, and filters
 * out the entries it could not use.
 */
module CardConfig {
  import opened Wrappers
  import opened JsValues
  import opened Content

  const InvalidText: Value := Str("Invalid Item")
  const ContentError: string := "Missing `content` in card config. Content should be an array of objects."

  /** An entry the card keeps: an object (not null) whose `text` is truthy and is not the placeholder text. */
  predicate Kept(v: Value): (b: bool)
    ensures b ==> v.Obj? && "text" in v.props && Truthy(v.props["text"]) && v.props["text"] != InvalidText
  {
    v.Obj? && Truthy(Get(v.props, "text")) && Get(v.props, "text") != InvalidText
  }

  /** A normalised card item: truthy text other than 'Invalid Item', and every default filled. */
  predicate WellFormed(it: Item) {
    Truthy(it.text) && it.text != InvalidText && Truthy(it.justify) && Truthy(it.line) && Truthy(it.centerPosition)
  }

  /**
   * The `.map` callback: an object with truthy text becomes an item with
   * `justify || 'flex-start'`, `line || 1` and `center_position || 50`;
   * anything else becomes the 'Invalid Item' placeholder.
   */
  function MapItem(v: Value): (it: Item)
    ensures Truthy(it.text) && Truthy(it.justify) && Truthy(it.line) && Truthy(it.centerPosition)
    ensures it.text == InvalidText <==> !Kept(v)
  {
    if v.Obj? && Truthy(Get(v.props, "text")) then
      Item(Get(v.props, "text"),
           Or(Get(v.props, "justify"), FlexStart),
           Or(Get(v.props, "line"), DefaultLine),
           Or(Get(v.props, "center_position"), DefaultPosition))
    else
      Item(InvalidText, FlexStart, DefaultLine, DefaultPosition)
  }

  function MapItems(vs: seq<Value>): (items: seq<Item>)
    ensures |items| == |vs|
    ensures forall i :: 0 <= i < |vs| ==> items[i] == MapItem(vs[i])
  {
    if vs == [] then [] else [MapItem(vs[0])] + MapItems(vs[1..])
  }

  /** The `.filter(item => item.text !== 'Invalid Item')` step. */
  function DropInvalid(items: seq<Item>): (r: seq<Item>)
    ensures |r| <= |items|
    ensures forall it :: it in r <==> it in items && it.text != InvalidText
  {
    if items == [] then []
    else if items[0].text == InvalidText then DropInvalid(items[1..])
    else [items[0]] + DropInvalid(items[1..])
  }

  /** The usable entries, mapped to items, in their order. */
  function CardContent(vs: seq<Value>): (r: seq<Item>)
    ensures |r| <= |vs|
    ensures forall it :: it in r ==> WellFormed(it)
    ensures forall i :: 0 <= i < |vs| && Kept(vs[i]) ==> MapItem(vs[i]) in r
    ensures forall it :: it in r ==> exists i :: 0 <= i < |vs| && Kept(vs[i]) && it == MapItem(vs[i])
  {
    DropInvalid(MapItems(vs))
  }

  /**
   * `setConfig(config)`: fails when `content` is missing or not an array;
   * otherwise keeps every other key and replaces `content` by the usable
   * entries, each with its defaults filled in.
   */
  function NormalizeCard(raw: map<string, Value>): (r: Result<Config>)
    ensures r.Failure? <==> !("content" in raw && raw["content"].Arr?)
    ensures r.Failure? ==> r.error == ContentError
    ensures r.Success? ==> r.value.rest == raw - {"content"}
    ensures r.Success? ==> |r.value.content| <= |raw["content"].elems|
    ensures r.Success? ==> forall it :: it in r.value.content ==> WellFormed(it)
  {
    if "content" in raw && raw["content"].Arr? then
      Success(Config(CardContent(raw["content"].elems), raw - {"content"}))
    else
      Failure(ContentError)
  }

  lemma {:induction false} DropInvalidAppend(a: seq<Item>, b: seq<Item>)
    ensures DropInvalid(a + b) == DropInvalid(a) + DropInvalid(b)
  {
    if a == [] {
      assert a + b == b;
    } else {
      assert (a + b)[0] == a[0] && (a + b)[1..] == a[1..] + b;
      DropInvalidAppend(a[1..], b);
    }
  }

  /**
   * Filtering keeps the relative order: the content of a concatenation is
   * the concatenation of the contents.
   */
  lemma CardContentAppend(a: seq<Value>, b: seq<Value>)
    ensures CardContent(a + b) == CardContent(a) + CardContent(b)
  {
    MapItemsAppend(a, b);
    DropInvalidAppend(MapItems(a), MapItems(b));
  }

  lemma MapItemsAppend(a: seq<Value>, b: seq<Value>)
    ensures MapItems(a + b) == MapItems(a) + MapItems(b)
  {
    var l, r := MapItems(a + b), MapItems(a) + MapItems(b);
    forall i | 0 <= i < |a + b| ensures l[i] == r[i] {
      if i < |a| {
        assert (a + b)[i] == a[i];
      } else {
        assert (a + b)[i] == b[i - |a|];
      }
    }
  }

  /**
   * A single entry survives exactly when it is `Kept`; then it becomes its
   * mapped item. Strings, null, numbers, arrays and objects with empty or
   * missing text are dropped.
   */
  lemma CardContentSingle(v: Value)
    ensures CardContent([v]) == if Kept(v) then [MapItem(v)] else []
  {
    assert MapItems([v]) == [MapItem(v)];
  }

  /**
   * A kept entry keeps its text and every truthy field; only a falsy
   * `justify`, `line` or `center_position` is replaced by its default
   * ('flex-start', 1, 50), so `center_position: 0` becomes 50.
   */
  lemma KeptFields(v: Value, field: string, default: Value)
    requires Kept(v)
    requires (field, default) in {("justify", FlexStart), ("line", DefaultLine), ("center_position", DefaultPosition)}
    ensures var it := MapItem(v);
      && it.text == Get(v.props, "text")
      && var f := if field == "justify" then it.justify else if field == "line" then it.line else it.centerPosition;
         f == if Truthy(Get(v.props, field)) then Get(v.props, field) else default
  {
  }

  /** A well-formed item survives a second pass unchanged. */
  lemma MapItemOfWellFormed(it: Item)
    requires WellFormed(it)
    ensures Kept(ItemValue(it)) && MapItem(ItemValue(it)) == it
  {
    var p := ItemValue(it).props;
    assert Get(p, "text") == it.text && Get(p, "justify") == it.justify;
    assert Get(p, "line") == it.line && Get(p, "center_position") == it.centerPosition;
  }

  lemma {:induction false} CardContentOfWellFormed(items: seq<Item>)
    requires forall it :: it in items ==> WellFormed(it)
    ensures CardContent(ItemValues(items)) == items
  {
    if items != [] {
      var vs := ItemValues(items);
      assert vs == [ItemValue(items[0])] + ItemValues(items[1..]);
      CardContentAppend([ItemValue(items[0])], ItemValues(items[1..]));
      CardContentSingle(ItemValue(items[0]));
      MapItemOfWellFormed(items[0]);
      CardContentOfWellFormed(items[1..]);
    }
  }

  /** Normalising the stored configuration again gives it back: `setConfig` is idempotent. */
  lemma NormalizeCardIdempotent(raw: map<string, Value>)
    requires NormalizeCard(raw).Success?
    ensures NormalizeCard(ConfigValue(NormalizeCard(raw).value)) == NormalizeCard(raw)
  {
    var c := NormalizeCard(raw).value;
    CardContentOfWellFormed(c.content);
    assert ConfigValue(c) - {"content"} == c.rest;
  }
}
