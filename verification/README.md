# data-cascade-card, modelled in Dafny

This project models two Home Assistant Lovelace components from the
`data-cascade-card` repository. The first is the **card**, which shows lines
of text whose `{{ ... }}` templates are filled in from Home Assistant state.
The second is its **visual editor**, which edits the card's `content` list.

The card side (`dist/data-cascade-card.js`) is modelled as follows:

- **Configuration.** `setConfig` turns a raw configuration into the stored
  one (`card_config.dfy`). It refuses a configuration without a `content`
  array. Every usable entry gets its defaults: `justify` `flex-start`,
  `line` 1 and `center_position` 50. Any other entry is dropped.
- **Expressions.** `_evaluateExpression` is in `expression.dfy`. The three
  expression forms are recognised by hand-written parsers that follow their
  regular expressions: `states('id')`, `state_attr('id', 'attr')` and a bare
  `domain.object_id`. `states` and `state_attr` are modelled as lookups in
  the `hass.states` map. A `| round(N)` filter and the `try`/`catch` around
  the lookups are included.
- **Templates.** `_renderTemplate` is in `template.dfy`. The global
  `/\{\{\s*(.*?)\s*\}\}/g` replace is a left-to-right scan:
  - `Tokens` cuts the text into copied characters and holes;
  - `Fill` replaces each hole by the text of its value.
- **Style resolvers.** `resolveFontSize` and `resolveCustomColor` are in
  `card_style.dfy`, with the font-size pattern written out as a predicate.
- **Rendering.** `render` is in `card.dfy`:
  - the `forEach` that groups items into a `Map` of lines, each with a
    start, center and end group;
  - the sort of the line numbers;
  - the row class `dc-row-N`;
  - the style errors a non-string `cascade_color` or `font_size` raises.

  The `Map` is modelled as its keys in insertion order plus the group stored
  for each key. The loop is a `for` loop whose body is the `forEach` callback
  (`PlaceItem`). Each group is specified by a function of the items placed so
  far (`LineGroup`).

The editor side (`dist/data-cascade-card-editor.js`) is modelled as follows:

- **Configuration.** The editor's own `setConfig` (`editor_config.dfy`)
  never fails and never drops an entry.
- **The editor element.** `editor.dfy` models it as a class with its
  configuration and a log of the configurations its `config-changed` events
  carried. It covers:
  - `contentItems` (`Editor.ContentItems`), `_valueChanged`, `_addItem`,
    `_removeItem` (with JavaScript `splice` semantics), `_moveItem` and
    `_emitChange`;
  - `linePreview`, a loop with the same map-as-keys-and-groups model as the
    card;
  - the sorted line numbers `render` lists.

Shared pieces:

- `line_layout.dfy` holds the line key `item.line || 1` and the two
  `switch` statements that choose a group. They differ on `space-evenly`.
  It also holds the positions of the items in each group, the line keys in
  insertion order, and the numeric sort.
- `js_values.dfy` and `js_text.dfy` hold the JavaScript semantics the
  components rely on: truthiness, `||`, `??`, `String(v)`, and `trim`
  with JavaScript's white-space set.

What the properties say, briefly:

- Both normalisers are idempotent.
- The parsers read back every call they are shown.
- Every item appears exactly once, in its own line and group, in source
  order, both in the card's rows and in the editor's preview.
- The rows are sorted and the line keys are distinct.
- An accepted font size cannot break out of its CSS rule.
- Editing operations change exactly what they name, emit exactly one event,
  and can be undone (swap twice, splice and re-insert).

Behaviours a reader of the card's options might expect that the code does
not have:

- A `content` string is not split on newlines. The card refuses it, and
  the editor replaces it by an empty list.
- `setConfig` does not coerce `line` to a positive integer and does not
  clamp `center_position`. Only the editor's input handlers do, and they
  clamp the position only.
- `{{ bogus syntax }}` renders as '' rather than as an "Error:" text. No
  lookup throws for it, and `undefined ?? ""` is ''
  (`Expression.EvaluateBogusSyntax`).
- `space-evenly` goes to the start group in the card and to the end group
  in the editor's preview (`LineLayout.BucketsDisagreeOnlyOnSpaceEvenly`).
- An object entry without text is dropped by the card but kept with text
  '' by the editor. A plain string entry is dropped by the card but becomes
  an item in the editor (`EditorConfig.EmptyTextDisagreement`).

Three behaviours the model shows, all as written in the code:

- An item whose text is literally `Invalid Item` is dropped by the card's
  filter along with the placeholders.
- A negative position typed into the editor is clamped to 0. Because 0 is
  falsy, the card then centres that item at 50%, not at the left edge
  (`DataCascadeEditor.NegativePositionCentred`).
- The blank item `_addItem` appends is not shown by the card
  (`DataCascadeEditor.AddedItemNotShown`).

## Model

| member | source | states |
|---|---|---|
| JsText.Trim | dist/data-cascade-card.js:61 | the trimmed text is empty exactly when the input is all white space, and otherwise starts and ends with a non-space character |
| JsText.TrimUnchanged | dist/data-cascade-card.js:61 | text without outer white space is its own trim |
| JsText.TrimIdempotent | dist/data-cascade-card.js:61 | trimming twice is trimming once |
| JsText.TrimStartPadded | dist/data-cascade-card.js:61 | leading white space in front of text that starts with a non-space character is removed, and nothing else |
| JsText.TrimEndPadded | dist/data-cascade-card.js:61 | trailing white space after text that ends with a non-space character is removed, and nothing else |
| JsText.TrimPadded | dist/data-cascade-card.js:61 | white space on both sides of text without outer white space trims back to that text |
| JsValues.Or | dist/data-cascade-card.js:118 | `v \|\| d` is one of its operands, truthy exactly when either operand is, and `v` whenever `v` is truthy |
| JsValues.Coalesce | dist/data-cascade-card.js:72 | `v ?? d` is one of its operands, nullish only when both are, and `v` whenever `v` is not nullish |
| JsValues.ToText | dist/data-cascade-card.js:86 | a string converts to itself and an empty array to ''; only '', a number or an array can convert to '' |
| CardConfig.MapItem | dist/data-cascade-card.js:17-28 | every mapped item has truthy text, justify, line and position; its text is 'Invalid Item' exactly when the entry is not an object with truthy text other than 'Invalid Item' |
| CardConfig.MapItems | dist/data-cascade-card.js:17-28 | one mapped item per entry, in order |
| CardConfig.DropInvalid | dist/data-cascade-card.js:29 | keeps exactly the items whose text is not 'Invalid Item', and never lengthens the list |
| CardConfig.Kept | dist/data-cascade-card.js:18-29 | a kept entry is an object whose `text` property is present, truthy and not 'Invalid Item' |
| CardConfig.CardContent | dist/data-cascade-card.js:17-29 | no more items than entries; every item well formed; every kept entry's item is present, and every item is the item of some kept entry |
| CardConfig.NormalizeCard | dist/data-cascade-card.js:11-35 | fails with the content error exactly when `content` is missing or not an array; otherwise keeps every other key, keeps no more items than entries, and every kept item is well formed |
| CardConfig.DropInvalidAppend | dist/data-cascade-card.js:29 | the filter distributes over concatenation |
| CardConfig.MapItemsAppend | dist/data-cascade-card.js:17-28 | the map distributes over concatenation |
| CardConfig.CardContentAppend | dist/data-cascade-card.js:17-29 | normalising two entry lists one after the other equals normalising them together |
| CardConfig.CardContentSingle | dist/data-cascade-card.js:17-29 | a single entry survives exactly when it is kept, as its mapped item |
| CardConfig.KeptFields | dist/data-cascade-card.js:21-23 | a kept entry's justify, line and position are its own when truthy and the default otherwise |
| CardConfig.MapItemOfWellFormed | dist/data-cascade-card.js:17-28 | a well-formed item is kept and mapped to itself |
| CardConfig.CardContentOfWellFormed | dist/data-cascade-card.js:17-29 | normalising the values of well-formed items gives them back |
| CardConfig.NormalizeCardIdempotent | dist/data-cascade-card.js:11-35 | normalising a stored configuration again gives it back |
| Expression.States | dist/data-cascade-card.js:38-40 | throws exactly when `hass.states` is missing; never nullish; 'unknown' for a missing entity |
| Expression.StateAttr | dist/data-cascade-card.js:42-44 | throws exactly when `hass.states` is missing; `undefined` when the entity or the attribute is missing |
| Expression.IsEntityId | dist/data-cascade-card.js:67 | an entity id has at least three characters, neither starts nor ends with the dot, and holds only letters, digits, `_` and dots |
| Expression.ParseStates | dist/data-cascade-card.js:63 | a match starts `states(`, and the text is the call rebuilt from its quotes and argument |
| Expression.ParseStatesCall | dist/data-cascade-card.js:63 | every `states` call is parsed back to its argument |
| Expression.Quoted | dist/data-cascade-card.js:65 | a quoted argument splits the text into quote, argument, quote and rest |
| Expression.QuotedOf | dist/data-cascade-card.js:65 | every quoted argument followed by any rest is read back |
| Expression.ParseAttrArgs | dist/data-cascade-card.js:65 | a match is two quoted arguments separated by a comma and white space, then `)` |
| Expression.AttrArgsParts | dist/data-cascade-card.js:65 | the pieces the parser finds rebuild the text it was given |
| Expression.ParseStateAttr | dist/data-cascade-card.js:65 | a match starts `state_attr(` and the rest has the argument shape |
| Expression.ParseStateAttrCall | dist/data-cascade-card.js:65 | every `state_attr` call is parsed back to its two arguments |
| Expression.ParseAttrArgsOf | dist/data-cascade-card.js:65 | every argument list of that shape is parsed back |
| Expression.EntityIdShape | dist/data-cascade-card.js:67 | a text with a dot is an entity id exactly when the part before it is a non-empty run of `[a-z_]` and the part after a non-empty run of `[a-z0-9_]` |
| Expression.EntityIdChars | dist/data-cascade-card.js:67 | an entity id holds only letters, digits, `_` and the dot |
| Expression.NotEntityIdAt | dist/data-cascade-card.js:67 | any other character rules the text out as an entity id |
| Expression.EntityIdNotCall | dist/data-cascade-card.js:63-67 | an entity id is neither a `states` nor a `state_attr` call |
| Expression.RoundDigits | dist/data-cascade-card.js:69 | a match is `round(` digits `)` and yields their decimal value |
| Expression.RoundDigitsOf | dist/data-cascade-card.js:69-70 | every `round(N)` filter is read back as N |
| Expression.CallAndFilter | dist/data-cascade-card.js:61 | neither part holds `|`, and the filter is absent exactly when the expression has no `|` |
| Expression.CallAndFilterPipe | dist/data-cascade-card.js:61 | for pipe-free `a` and `b`, `a\|b` splits into the trimmed `a` and the trimmed `b`, whatever white space they carry |
| Expression.CallAndFilterDropsRest | dist/data-cascade-card.js:61 | a third `\|` segment is ignored: `a\|b\|rest` splits as `a\|b` does |
| Expression.CallAndFilterNoPipe | dist/data-cascade-card.js:61 | text without `\|` is the trimmed call, with no filter |
| Expression.TrimIsSlice | dist/data-cascade-card.js:61 | trimming introduces no character |
| Expression.SplitAtPipe | dist/data-cascade-card.js:61 | `call|filter` is split at its pipe back into call and filter |
| Expression.Evaluate | dist/data-cascade-card.js:58-77 | never `undefined` or `null`; '' for blank text |
| Expression.Lookup | dist/data-cascade-card.js:62-67 | throws exactly when `hass.states` is missing and the call is one of the three forms; a `states` call gives the `states` result; text of none of the forms looks up `undefined` |
| Expression.Filtered | dist/data-cascade-card.js:68-71 | success stays success and an error stays the same error; without a filter nothing changes; the result changes only under a `round(N)` filter |
| Expression.EvaluateCall | dist/data-cascade-card.js:59-72 | non-blank text shows the lookup of its call with its filter applied |
| Expression.EvaluateError | dist/data-cascade-card.js:61-76 | a pipe-free expression whose lookup throws shows "Error: " followed by the message |
| Expression.Shown | dist/data-cascade-card.js:72-76 | never nullish; a non-nullish value is shown as it is; an error as "Error: " and its message |
| Expression.NoPipeCall | dist/data-cascade-card.js:61 | a text without `|` and outer spaces is the call, with no filter |
| Expression.EvaluatePlainCall | dist/data-cascade-card.js:58-72 | such a text shows the looked-up value |
| Expression.LookupStatesCall | dist/data-cascade-card.js:63-67 | a `states` call is looked up with `states(ID)` only |
| Expression.StatesPrefix | dist/data-cascade-card.js:63-67 | text starting `states(` is neither a `state_attr` call nor an entity id |
| Expression.NotStateAttr | dist/data-cascade-card.js:65 | text without `_` at the sixth place is not a `state_attr` call |
| Expression.LookupStateAttrCall | dist/data-cascade-card.js:65-67 | a `state_attr` call is looked up with `state_attr(ID, ATTR)` only |
| Expression.StateAttrPrefix | dist/data-cascade-card.js:63-67 | text starting `state_attr(` is neither a `states` call nor an entity id |
| Expression.LookupEntityId | dist/data-cascade-card.js:67 | a bare entity id is looked up as `states(id)` |
| Expression.EvaluateStatesCall | dist/data-cascade-card.js:58-72 | `{{ states('id') }}` shows the entity's state |
| Expression.EvaluateStateAttrCall | dist/data-cascade-card.js:58-72 | `{{ state_attr('id', 'attr') }}` shows the attribute, or '' when it is missing |
| Expression.EvaluateEntityShorthand | dist/data-cascade-card.js:67 | a bare entity id shows the same as `states('id')` |
| Expression.EvaluateFiltered | dist/data-cascade-card.js:61-72 | `call\|filter`, with any white space around either part, shows the lookup of the trimmed call with the trimmed filter applied |
| Expression.EvaluateDropsRest | dist/data-cascade-card.js:61-72 | anything after a second `\|` does not change what is shown |
| Expression.EvaluatePadded | dist/data-cascade-card.js:61-72 | white space around a call and a filter without outer white space changes nothing |
| Expression.EvaluateRoundedState | dist/data-cascade-card.js:68-72 | with `hass.states` present and any white space around call and filter, `states('id') \| round(N)` shows the number the engine's `round` gives for the state and N (engines whose `round` returns a number, as the card's does) |
| Expression.ShownRounded | dist/data-cascade-card.js:70-72 | a successful lookup under `round(N)` shows exactly the number the engine's `round` gives for it (engines whose `round` returns a number) |
| Expression.EvaluateUnrecognised | dist/data-cascade-card.js:58-72 | non-blank text whose call is none of the three forms, and whose filter is absent or not `round(N)`, shows '' |
| Expression.LookupUnrecognised | dist/data-cascade-card.js:62-67 | such text looks up `undefined` |
| Expression.BogusSyntaxUnrecognised | dist/data-cascade-card.js:63-67 | "bogus syntax" is none of the three forms |
| Expression.EvaluateBogusSyntax | dist/data-cascade-card.js:58-72 | "bogus syntax" shows '', not an error |
| Template.CloseFrom | dist/data-cascade-card.js:86 | the lazy capture ends where `\s*\}\}` matches |
| Template.CloseFromFirst | dist/data-cascade-card.js:86 | it ends at the first such place, with no line terminator before it |
| Template.MatchAt | dist/data-cascade-card.js:86 | a match at `{{` ends after a `}}` inside the text |
| Template.MatchCaptures | dist/data-cascade-card.js:86 | what a match captures has no line terminator, no `}}` and no outer white space |
| Template.CaptureOf | dist/data-cascade-card.js:86 | the text between the opening spaces and the first close is such a capture |
| Template.FillAppend | dist/data-cascade-card.js:86 | the replacement works piece by piece |
| Template.FillLits | dist/data-cascade-card.js:86 | characters outside a match are copied |
| Template.TokensNoClose | dist/data-cascade-card.js:86 | text without `}}` has no match |
| Template.Tokens | dist/data-cascade-card.js:86 | never more pieces than characters, none exactly for '', and every hole holds a capture: no line terminator, no `}}`, no outer white space |
| Template.Fill | dist/data-cascade-card.js:86 | pieces that are all copied characters fill to exactly those characters |
| Template.HoleText | dist/data-cascade-card.js:86 | a blank hole gives ''; a pipe-free hole whose lookup throws gives "Error: " and the message |
| Template.RenderTemplate | dist/data-cascade-card.js:84-87 | '' for anything that is not a string, and for '' |
| Template.RenderPlainText | dist/data-cascade-card.js:84-87 | a template without `}}` renders as itself |
| Template.RenderUnmatched | dist/data-cascade-card.js:84-87 | a `{{` the pattern cannot match at (a line break before `}}`, or no `}}`) is copied through and the scan resumes at the next character |
| Template.TokensAppend | dist/data-cascade-card.js:86 | a prefix in which no `{{` starts is copied character by character |
| Template.RenderPrefix | dist/data-cascade-card.js:84-87 | such a prefix is rendered as it is, in front of the rest |
| Template.TokensReplace | dist/data-cascade-card.js:86 | `{{ expr }}` is one hole holding `expr`, and the scan resumes after `}}` |
| Template.RenderReplace | dist/data-cascade-card.js:84-87 | `{{ expr }}` is replaced by the text of the expression's value, followed by the rest rendered |
| Template.MatchAtReplace | dist/data-cascade-card.js:86 | the match at `{{ w1 expr w2 }}` captures exactly `expr` and ends after the `}}` |
| Template.MatchAtParts | dist/data-cascade-card.js:86 | a match laid out as opening spaces, capture, spaces and `}}` is found as such |
| Template.MatchAtEmpty | dist/data-cascade-card.js:86 | `{{` white space `}}` captures nothing |
| Template.MatchAtCapture | dist/data-cascade-card.js:86 | a non-empty capture between spaces is found |
| Template.CaptureEnds | dist/data-cascade-card.js:86 | the lazy capture stops right after the expression |
| CardStyle.LowerAll | dist/data-cascade-card.js:103 | the `i` flag's ASCII case folding, character by character |
| CardStyle.SizeEnd | dist/data-cascade-card.js:103 | the greedy `[\d.]+` run ends at the first other character |
| CardStyle.UnitChars | dist/data-cascade-card.js:103 | every unit is lower-case letters and `%` |
| CardStyle.FontSizeSafe | dist/data-cascade-card.js:103-105 | an accepted size holds only digits, dots, white space, letters and `%` |
| CardStyle.FontSizeAccepted | dist/data-cascade-card.js:103 | every number, white space and unit in any case is accepted |
| CardStyle.FontSizeRefused | dist/data-cascade-card.js:103 | `px`, `12`, `12px;` and '' are refused |
| CardStyle.IsFontSize | dist/data-cascade-card.js:103 | an accepted size has at least two characters, starts with a digit or a dot, and does not end with one |
| CardStyle.FontRule | dist/data-cascade-card.js:105 | the rule holds the size verbatim as the `font-size` value, with fixed text of 49 characters around it |
| CardStyle.SizeRule | dist/data-cascade-card.js:104-108 | the rule is non-empty exactly for an accepted size, and then the font-size rule |
| CardStyle.ResolveFontSize | dist/data-cascade-card.js:100-109 | throws exactly for a truthy non-string; '' when falsy; for a string, a rule exactly when the trimmed value is accepted, and that rule carries the trimmed value |
| CardStyle.ColorRule | dist/data-cascade-card.js:94-97 | the host rule holds `property: value` verbatim, the chosen property then the value |
| CardStyle.ResolveCustomColor | dist/data-cascade-card.js:90-98 | throws exactly for a truthy non-string; '' when falsy; otherwise the colour rules, assigning to the user override exactly when the trimmed value starts `var(` |
| LineLayout.LineKey | dist/data-cascade-card.js:118 | the key is truthy: the item's line when truthy, 1 otherwise |
| LineLayout.CardBucket | dist/data-cascade-card.js:125-142 | 'center' exactly goes to the centre; 'flex-end', 'space-between' and 'space-around' exactly go to the end; every other value, string or not, to the start |
| LineLayout.EditorBucket | dist/data-cascade-card-editor.js:53-68 | as the card's, with 'space-evenly' also going to the end |
| LineLayout.BucketsDisagreeOnlyOnSpaceEvenly | dist/data-cascade-card.js:125-142 | the card's and the editor's switch agree on every justify except 'space-evenly', which the card puts at the start and the editor at the end |
| LineLayout.Positions | dist/data-cascade-card.js:117-143 | the positions of one line's group are strictly increasing, and a position is there exactly when the item goes to that line and group |
| LineLayout.PositionsStep | dist/data-cascade-card.js:117-143 | one more item adds its index to its own group only |
| LineLayout.PositionsAbsent | dist/data-cascade-card.js:119-121 | a line no item went to has no positions |
| LineLayout.PlacedExactlyOnce | dist/data-cascade-card.js:117-143 | every item is in its own line and group, and in no other |
| LineLayout.LineKeys | dist/data-cascade-card.js:116-121 | the map's keys are distinct and include every item's line key |
| LineLayout.LineKeysFrom | dist/data-cascade-card.js:116-121 | every key is some item's line key |
| LineLayout.LineKeysStep | dist/data-cascade-card.js:119-121 | a new line key is appended, an existing one changes nothing |
| LineLayout.IndexOf | dist/data-cascade-card.js:119-122 | `has` fails exactly for an absent key; `get` finds the key's own index |
| LineLayout.Insert | dist/data-cascade-card.js:146 | inserting keeps the keys sorted and adds exactly the one key |
| LineLayout.SortLines | dist/data-cascade-card.js:146 | the sorted keys are in comparator order and a permutation of the keys |
| LineLayout.SortLinesDistinct | dist/data-cascade-card.js:146 | sorting distinct keys keeps them distinct and keeps exactly the same keys |
| LineLayout.SortedLinesAscend | dist/data-cascade-card.js:146 | numeric keys come out strictly ascending |
| LineLayout.RowIndex | dist/data-cascade-card.js:149 | with JavaScript's truncating `%`: the index lies in [1, 8) for a line of at least 1 and in (-6, 1] below that, differs from the line by a multiple of 7, and is integral when the line is |
| LineLayout.TruncatedSevenths | dist/data-cascade-card.js:149 | the quotient of JavaScript's `%` by 7: it leaves a remainder in [0, 7) for a non-negative dividend and in (-7, 0] for a negative one |
| LineLayout.RowIndexStyled | dist/data-cascade-card.js:149 | an integral line of at least 1 gets one of the seven indexes 1 to 7 |
| LineLayout.RowIndexOf | dist/data-cascade-card.js:149 | a key gets an index exactly when `Number(key)` is modelled for it (numbers, booleans, null), and then the index of that number |
| LineLayout.RowIndexExamples | dist/data-cascade-card.js:149 | `true` gets 1, 1.5 gets 1.5, 9 gets 2, -1 gets -1, and the string "3" gets none in the model |
| DataCascadeCard.RenderAll | dist/data-cascade-card.js:123 | one rendered text per item, that item's rendered template |
| DataCascadeCard.Push | dist/data-cascade-card.js:125-142 | the text joins the group the card's switch selects, and no other group |
| DataCascadeCard.Texts | dist/data-cascade-card.js:127 | the texts pushed at the given positions, in order |
| DataCascadeCard.Centers | dist/data-cascade-card.js:130-133 | the centred entries pushed at the given positions, in order |
| DataCascadeCard.CenterOf | dist/data-cascade-card.js:130-133 | the entry keeps the rendered text; its position is the item's when truthy and 50 otherwise, so always truthy |
| DataCascadeCard.LineGroup | dist/data-cascade-card.js:117-143 | no items give empty groups; every start and end text and every centred entry comes from an earlier item of that line in that group |
| DataCascadeCard.TextsInBucket | dist/data-cascade-card.js:125-142 | each start or end text is the rendered text of an item of that line and group |
| DataCascadeCard.CentersInBucket | dist/data-cascade-card.js:129-134 | each centred entry is the entry of an item of that line in the centre group |
| DataCascadeCard.LineGroupStep | dist/data-cascade-card.js:117-143 | placing an item changes only its own line's group, by the switch |
| DataCascadeCard.TextsSnoc | dist/data-cascade-card.js:127 | one more position adds its text at the end |
| DataCascadeCard.CentersSnoc | dist/data-cascade-card.js:130-133 | one more position adds its centred entry at the end |
| DataCascadeCard.NewLineEmpty | dist/data-cascade-card.js:119-121 | a new line starts with empty groups |
| DataCascadeCard.PushStep | dist/data-cascade-card.js:122-142 | pushing onto the item's own line takes the map from `i` to `i + 1` items |
| DataCascadeCard.AddLineStep | dist/data-cascade-card.js:119-121 | `lines.set` of a new line with empty groups keeps the map correct |
| DataCascadeCard.PlaceItem | dist/data-cascade-card.js:117-143 | one callback turns the map after `i` items into the map after `i + 1` |
| DataCascadeCard.GroupCardLines | dist/data-cascade-card.js:116-143 | the loop ends with the distinct line keys in insertion order and each line's groups |
| DataCascadeCard.GroupOf | dist/data-cascade-card.js:148 | the group stored under the key |
| DataCascadeCard.GroupOfLine | dist/data-cascade-card.js:148 | looking a line up gives that line's group |
| DataCascadeCard.Rows | dist/data-cascade-card.js:146-149 | one row per distinct line key; each row's key is a line key and its class index is that key's |
| DataCascadeCard.LayOutRows | dist/data-cascade-card.js:116-165 | grouping, sorting and looking up give the rows `Rows` defines |
| DataCascadeCard.CardView | dist/data-cascade-card.js:112-169 | nothing is shown exactly when the configuration or `hass` is missing; rendering throws, with the `trim` error, exactly when a colour or font size is truthy and not a string |
| DataCascadeCard.RowsKeys | dist/data-cascade-card.js:146-147 | the rows' keys are distinct, in sorted order, and are line keys of the items |
| DataCascadeCard.RowsCover | dist/data-cascade-card.js:146-147 | every item's line has a row |
| DataCascadeCard.RowsPlace | dist/data-cascade-card.js:116-165 | every item's rendered text is in some row, in the group its justify selects |
| DataCascadeCard.GroupShows | dist/data-cascade-card.js:125-142 | the group of an item's line holds its text in the selected group |
| DataCascadeCard.RowsAscend | dist/data-cascade-card.js:146 | with numeric lines, the rows run in strictly ascending line order |
| DataCascadeCard.RowStyleOfLine | dist/data-cascade-card.js:149 | a row whose key is a number or `true` naming an integral line of at least 1 gets one of the seven row styles |
| DataCascadeCard.ViewShowsEveryItem | dist/data-cascade-card.js:112-165 | once the card is shown, every configured item's rendered template is in the row of its line |
| DataCascadeCard.DrawnRows | dist/data-cascade-card.js:147-169 | a drawn view carries the rows of the configured items' rendered texts |
| DataCascadeCard.Card.constructor | dist/data-cascade-card.js:3-9 | a new card has no configuration and no `hass` |
| DataCascadeCard.Card.SetConfig | dist/data-cascade-card.js:11-35 | an accepted configuration is stored normalised; a refused one returns the error and leaves the card unchanged |
| DataCascadeCard.Card.SetHass | dist/data-cascade-card.js:6 | the new `hass` is stored and the configuration kept |
| DataCascadeCard.Card.Render | dist/data-cascade-card.js:112-169 | the view `render` produces is the one `CardView` defines for the current state |
| EditorConfig.EditorItem | dist/data-cascade-card-editor.js:13-26 | a string becomes an item with the defaults; an object gets `text \|\| ''` and the defaults for falsy fields; anything else the blank item; the result is always well formed |
| EditorConfig.EditorContent | dist/data-cascade-card-editor.js:12-28 | one item per entry, in order |
| EditorConfig.NormalizeEditor | dist/data-cascade-card-editor.js:10-35 | keeps every other key; content is the mapped array, or empty when it is not an array |
| EditorConfig.EditorItemOfWellFormed | dist/data-cascade-card-editor.js:13-26 | a well-formed item maps to itself |
| EditorConfig.EditorContentOfWellFormed | dist/data-cascade-card-editor.js:12-28 | the values of well-formed items map back to them |
| EditorConfig.NormalizeEditorIdempotent | dist/data-cascade-card-editor.js:10-35 | normalising the stored configuration again gives it back |
| EditorConfig.EmptyTextDisagreement | dist/data-cascade-card-editor.js:13-26 | an entry without text is dropped by the card but kept, with text '', by the editor |
| EditorConfig.NormalizersAgreeOnRest | dist/data-cascade-card-editor.js:10-35 | where the card accepts a configuration, both keep the same other keys and the card keeps no more items |
| DataCascadeEditor.LineValue | dist/data-cascade-card-editor.js:79-80 | a truthy integral line: the parsed number when it is non-zero, 1 otherwise |
| DataCascadeEditor.PositionValue | dist/data-cascade-card-editor.js:81-85 | a position in [0, 100]: the parsed number when inside, clamped when outside, 50 when unparsable or 0 |
| DataCascadeEditor.Edited | dist/data-cascade-card-editor.js:87-90 | the item with exactly the named field replaced by the converted value |
| DataCascadeEditor.EditedFields | dist/data-cascade-card-editor.js:87-90 | other fields are unchanged, and a second edit of the same field overrides the first |
| DataCascadeEditor.EditedWellFormed | dist/data-cascade-card-editor.js:74-90 | an edit keeps an editor item well formed, given a non-empty justify and a position that is not negative |
| DataCascadeEditor.NegativePositionCentred | dist/data-cascade-card-editor.js:82-84 | a negative position is stored as 0, which the card and the editor read back as 50 |
| DataCascadeEditor.Splice | dist/data-cascade-card-editor.js:108 | `splice(index, 1)` removes the indexed item, counts a negative index from the end, removes the first item for an index before the start, and leaves the list alone for an index past its end |
| DataCascadeEditor.SpliceReinsert | dist/data-cascade-card-editor.js:106-111 | putting the removed item back restores the list |
| DataCascadeEditor.Swapped | dist/data-cascade-card-editor.js:118 | the two places exchange their items, nothing else changes, and the multiset is kept |
| DataCascadeEditor.SwappedTwice | dist/data-cascade-card-editor.js:118 | swapping twice restores the list |
| DataCascadeEditor.MoveBack | dist/data-cascade-card-editor.js:113-122 | moving up and then down again restores the list |
| DataCascadeEditor.MoveTarget | dist/data-cascade-card-editor.js:115 | the target is the next place up or down, and up exactly for 'up' |
| DataCascadeEditor.PushPreview | dist/data-cascade-card-editor.js:53-68 | the tagged item joins the group the editor's switch selects, and no other |
| DataCascadeEditor.PreviewBucket | dist/data-cascade-card-editor.js:43-71 | each group of a preview line is the tagged items at that group's positions |
| DataCascadeEditor.PreviewGroup | dist/data-cascade-card-editor.js:43-71 | every tagged item in a group is the item at its `originalIndex`, placed before the end, in that line and group; and every such item is there |
| DataCascadeEditor.TagsInBucket | dist/data-cascade-card-editor.js:51-68 | a group's tags are exactly the items of that line and group, each with its own index |
| DataCascadeEditor.TagsStep | dist/data-cascade-card-editor.js:51 | one more item adds itself, tagged with its index, to its own group only |
| DataCascadeEditor.PreviewGroupStep | dist/data-cascade-card-editor.js:45-69 | placing an item changes only its own line's record, by the switch |
| DataCascadeEditor.NewPreviewEmpty | dist/data-cascade-card-editor.js:47-49 | a new line starts with an empty record |
| DataCascadeEditor.PushPreviewStep | dist/data-cascade-card-editor.js:50-68 | pushing onto the item's own line takes the preview from `i` to `i + 1` items |
| DataCascadeEditor.AddPreviewLineStep | dist/data-cascade-card-editor.js:47-49 | adding a new line with an empty record keeps the preview correct |
| DataCascadeEditor.PlacePreview | dist/data-cascade-card-editor.js:45-69 | one callback turns the preview after `i` items into the preview after `i + 1` |
| DataCascadeEditor.PreviewPlacesOnce | dist/data-cascade-card-editor.js:43-71 | every item is in the preview once, tagged with its own index, in its line and group, and in no other group |
| DataCascadeEditor.PreviewInOrder | dist/data-cascade-card-editor.js:43-71 | within a group, items keep their list order |
| DataCascadeEditor.Editor.constructor | dist/data-cascade-card-editor.js:10-35 | the editor starts with the normalised configuration and no events |
| DataCascadeEditor.Editor.SetConfig | dist/data-cascade-card-editor.js:10-35 | the configuration is replaced by the normalised one and no event is sent |
| DataCascadeEditor.Editor.ContentItems | dist/data-cascade-card-editor.js:38-40 | the stored content list, which is always an array once configured |
| DataCascadeEditor.Editor.EmitChange | dist/data-cascade-card-editor.js:124-129 | one event carrying the current configuration is logged |
| DataCascadeEditor.Editor.ValueChanged | dist/data-cascade-card-editor.js:74-93 | exactly the indexed item is edited, then one event is sent |
| DataCascadeEditor.Editor.AddItem | dist/data-cascade-card-editor.js:95-104 | the blank item is appended, then one event is sent |
| DataCascadeEditor.Editor.RemoveItem | dist/data-cascade-card-editor.js:106-111 | the list is spliced at the index, then one event is sent, even when nothing was removed |
| DataCascadeEditor.Editor.MoveItem | dist/data-cascade-card-editor.js:113-122 | when the target place exists, the two items are swapped and one event is sent; otherwise nothing changes and no event is sent |
| DataCascadeEditor.Editor.LinePreview | dist/data-cascade-card-editor.js:43-71 | the loop ends with the distinct line keys in insertion order and each line's record |
| DataCascadeEditor.Editor.PreviewLineNumbers | dist/data-cascade-card-editor.js:143-144 | the sorted preview keys: in order, distinct, and covering every item's line |
| DataCascadeEditor.AddedItemNotShown | dist/data-cascade-card-editor.js:95-104 | the item `_addItem` appends is dropped by the card's normaliser |

## Left out

- Lit templates, the DOM, CSS layout and the `customElements` and `window.customCards` registrations are not modelled. The card's view is a record of what it would draw.
- Numbers are exact reals. `Math.round`, `Math.pow`, `Number(value)` and the formatting of numbers as text come from a `Numerics` parameter standing for the floating-point engine, so rounding results are not computed. The card's `round` always returns a number (NaN included); `Expression.NumericRound` states that of an engine, and the rounding lemmas assume it.
- `parseInt` and `parseFloat` in the editor's handlers are inputs to the edit. The model takes the parsed number, or none when the text does not parse. `Infinity` is not modelled.
- `console.error` and `console.warn` output is not modelled.
- LineLayout.RowIndexOf: a string key (e.g. "3") or an object gets no index, whereas JavaScript converts numeric strings with `Number()` and so gives "3" the class `dc-row-3`. Such keys only arise in a configuration written by hand, since both normalisers pass `line` through unchanged.
- Line keys that are strings or objects are kept out of the numeric sort. JavaScript would coerce a string such as "2" to 2 in `a - b`. The model lets such keys compare equal to everything.
- LineLayout.SortLines: the order of keys the comparator ranks equal is that of a stable insertion sort. The engine's `Array.prototype.sort` is stable as well, but keys without a number are not ordered the way the engine would order them.
- Object keys in the line map are compared by content. JavaScript compares objects by identity, so two equal-looking object keys would be two lines there.
- DataCascadeEditor.Editor.ValueChanged: requires an index inside the list. With an index past the end, the source writes a new entry and leaves holes in the array.
- DataCascadeEditor.Editor.MoveItem: requires an index inside the list, which the editor's buttons always pass.
- Calls made before the first `setConfig` are not modelled. The editor is constructed with its first configuration.
- The event log stores a snapshot of the configuration. The source sends the live `_config` object, so listeners that keep it would see later edits.
- The inline handlers of the editor's `render` (title, colour, font size, height) are not modelled. They set one key and call `_emitChange`, as `EmitChange` states.
- The wording of JavaScript's error messages is not modelled. The `trim` TypeError and the read of `hass.states` on a missing object each carry one fixed message.
- `hass.states` is a map of entity ids. Keys inherited from `Object.prototype` are not modelled.
- The card renders every item before grouping. In the source the rendering is interleaved with the grouping, which is the same because rendering has no side effects.
- CardStyle.ResolveFontSize: the third postcondition speaks of truthy string values only. Other values are covered by the first two postconditions.
