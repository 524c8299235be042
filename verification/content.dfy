/**
 * The data model both the card and its editor share: a normalised content
 * item and a normalised card configuration.
 */
module Content {
  import opened JsValues

  /**
   * One content item `{text, justify, line, center_position}` after
   * normalisation. The fields keep whatever value the configuration gave
   * (the normalisers only replace falsy values), so they are JavaScript values.
   */
  datatype Item = Item(text: Value, justify: Value, line: Value, centerPosition: Value)

  const FlexStart: Value := Str("flex-start")
  const DefaultLine: Value := Num(1.0)
  const DefaultPosition: Value := Num(50.0)

  /** `{ text: '', justify: 'flex-start', line: 1, center_position: 50 }`. */
  const BlankItem: Item := Item(Str(""), FlexStart, DefaultLine, DefaultPosition)

  /** The plain object a normalised item is stored as. */
  function ItemValue(it: Item): Value {
    Obj(map["text" := it.text, "justify" := it.justify, "line" := it.line, "center_position" := it.centerPosition])
  }

  function ItemValues(items: seq<Item>): (vs: seq<Value>)
    ensures |vs| == |items|
    ensures forall i :: 0 <= i < |items| ==> vs[i] == ItemValue(items[i])
  {
    if items == [] then [] else [ItemValue(items[0])] + ItemValues(items[1..])
  }

  lemma ItemValuesSnoc(items: seq<Item>, it: Item)
    ensures ItemValues(items + [it]) == ItemValues(items) + [ItemValue(it)]
  {
    assert forall i :: 0 <= i < |items| ==> (items + [it])[i] == items[i];
  }

  /**
   * A normalised configuration: the content list and every other top-level
   * key (`title`, `cascade_color`, `font_size`, `height`, ...) as given.
   */
  datatype Config = Config(content: seq<Item>, rest: map<string, Value>)

  /** `{ ...rest, content: [...] }`: the object a normalised configuration is stored as. */
  function ConfigValue(c: Config): (raw: map<string, Value>)
    ensures "content" in raw && raw["content"] == Arr(ItemValues(c.content))
    ensures raw - {"content"} == c.rest - {"content"}
  {
    c.rest["content" := Arr(ItemValues(c.content))]
  }
}
