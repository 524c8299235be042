/**
 * The editor's own `setConfig`: unlike the card's, it never fails and never
 * drops an entry. Every entry of a content array becomes an item, and
 * anything that is not a content array becomes an empty list.
 */
module EditorConfig {
  import opened JsValues
  import opened Content
  import CardConfig

  /**
   * The `.map` callback: a string `s` becomes `{ text: s }` with the default
   * justify, line and position; an object gets `text || ''` and the falsy
   * defaults; anything else becomes the blank item. An array is an object to
   * `typeof` too, but has none of the four properties, so it also reads as
   * the blank item.
   */
  function EditorItem(v: Value): (it: Item)
    ensures v.Str? ==> it == Item(v, FlexStart, DefaultLine, DefaultPosition)
    ensures v.Obj? ==> it.text == (if Truthy(Get(v.props, "text")) then Get(v.props, "text") else Str(""))
    ensures v.Obj? ==> it.justify == (if Truthy(Get(v.props, "justify")) then Get(v.props, "justify") else FlexStart)
    ensures v.Obj? ==> it.line == (if Truthy(Get(v.props, "line")) then Get(v.props, "line") else DefaultLine)
    ensures v.Obj? ==>
      it.centerPosition == (if Truthy(Get(v.props, "center_position")) then Get(v.props, "center_position") else DefaultPosition)
    ensures !v.Str? && !v.Obj? ==> it == BlankItem
    ensures EditorWellFormed(it)
  {
    if v.Str? then Item(v, FlexStart, DefaultLine, DefaultPosition)
    else if v.Obj? then
      Item(Or(Get(v.props, "text"), Str("")),
           Or(Get(v.props, "justify"), FlexStart),
           Or(Get(v.props, "line"), DefaultLine),
           Or(Get(v.props, "center_position"), DefaultPosition))
    else BlankItem
  }

  /** What the editor's items look like: a text that is truthy or '', and every default filled. */
  predicate EditorWellFormed(it: Item) {
    (Truthy(it.text) || it.text == Str("")) && Truthy(it.justify) && Truthy(it.line) && Truthy(it.centerPosition)
  }

  /** `config.content.map(...)`: one item per entry, in order. */
  function EditorContent(vs: seq<Value>): (items: seq<Item>)
    ensures |items| == |vs|
    ensures forall i :: 0 <= i < |vs| ==> items[i] == EditorItem(vs[i])
  {
    if vs == [] then [] else [EditorItem(vs[0])] + EditorContent(vs[1..])
  }

  /**
   * `setConfig(config)` of the editor: every other key as given, and
   * `content` the mapped array, or `[]` when it is missing or not an array.
   */
  function NormalizeEditor(raw: map<string, Value>): (c: Config)
    ensures c.rest == raw - {"content"}
    ensures !("content" in raw && raw["content"].Arr?) ==> c.content == []
    ensures "content" in raw && raw["content"].Arr? ==> c.content == EditorContent(raw["content"].elems)
  {
    if "content" in raw && raw["content"].Arr? then Config(EditorContent(raw["content"].elems), raw - {"content"})
    else Config([], raw - {"content"})
  }

  /** An item the editor produced comes back unchanged from a second pass. */
  lemma EditorItemOfWellFormed(it: Item)
    requires EditorWellFormed(it)
    ensures EditorItem(ItemValue(it)) == it
  {
    var p := ItemValue(it).props;
    assert Get(p, "text") == it.text && Get(p, "justify") == it.justify;
    assert Get(p, "line") == it.line && Get(p, "center_position") == it.centerPosition;
  }

  lemma {:induction false} EditorContentOfWellFormed(items: seq<Item>)
    requires forall i :: 0 <= i < |items| ==> EditorWellFormed(items[i])
    ensures EditorContent(ItemValues(items)) == items
  {
    var vs := ItemValues(items);
    forall i | 0 <= i < |items| ensures EditorContent(vs)[i] == items[i] {
      EditorItemOfWellFormed(items[i]);
    }
  }

  /** Applying the editor's `setConfig` to its own output changes nothing. */
  lemma NormalizeEditorIdempotent(raw: map<string, Value>)
    ensures NormalizeEditor(ConfigValue(NormalizeEditor(raw))) == NormalizeEditor(raw)
  {
    var c := NormalizeEditor(raw);
    EditorContentOfWellFormed(c.content);
    assert ConfigValue(c) - {"content"} == c.rest;
  }

  /**
   * The two normalisers disagree on entries without text: an object whose
   * text is missing or empty is dropped by the card but kept by the editor
   * with text ''; a string entry is dropped by the card but becomes an item
   * in the editor.
   */
  lemma EmptyTextDisagreement(v: Value)
    requires (v.Obj? && !Truthy(Get(v.props, "text"))) || v.Str?
    ensures CardConfig.CardContent([v]) == []
    ensures EditorContent([v]) == [EditorItem(v)]
    ensures v.Obj? ==> EditorItem(v).text == Str("")
  {
    CardConfig.CardContentSingle(v);
  }

  /** Wherever the card accepts a configuration, both keep the same other keys and the card keeps no more items. */
  lemma NormalizersAgreeOnRest(raw: map<string, Value>)
    requires CardConfig.NormalizeCard(raw).Success?
    ensures CardConfig.NormalizeCard(raw).value.rest == NormalizeEditor(raw).rest
    ensures |CardConfig.NormalizeCard(raw).value.content| <= |NormalizeEditor(raw).content|
  {
  }
}
