# DRSS (Dynamic Reactive StyleSheets), modelled in Dafny

DRSS generates a stylesheet from JavaScript. Each `DRSS.select(query, state)` registers a
selector, and `.ruleset(hook)` gives it rule sets. A hook is either a fixed style dictionary or
a function of `(element, index, props)`. When the engine is initialized, or when the global
properties change, `update()` clears the generated `<style>` element and renders every
selector in registration order. Rendering a selector does the following:

- It visits the selector's matched elements in document order.
- It merges the dictionaries of the selector's rule sets, last write winning. Each key goes
  through `camelToDash`.
- It gives the element a `data-drssid` id. The id is reused if the element already has one,
  and otherwise comes from the global counter.
- It appends a CSS rule: `[data-drssid="ID"]{k:v;...}` for a plain selector. A state selector
  emits `[data-drssid="ID"]:s1,[data-drssid="ID"]:s2{...}`, followed by
  `@media print{[data-drssid="ID"]{...}}` when `printing` is one of its states.

The project has these modules:

- `CamelToDash` (`camel_to_dash.dfy`). The camel-case to hyphen conversion of
  `src/camelToDash.ts`, as a loop method proved against the recursive function `Dashed`. It
  also proves the function's algebra: distribution over concatenation, length, fixed points,
  idempotence, and worked examples.
- `CamelToDashJs` (`camel_to_dash_js.dfy`). The JavaScript twin `src/camelToDash.js`, whose
  parameter defaults to `""`.
- `Decimal` (`decimal.dfy`). `Number.prototype.toString` on the id counter's values, with its
  round trip and injectivity.
- `Style` (`style.dfy`). Rule sets and hooks, and the merged style object: an association
  list in which a key keeps its first position and takes its last value. Also the loop that
  builds it.
- `CssText` (`css_text.dfy`). Rule text for plain and state selectors. The comma trimming is
  written out as the JavaScript `substring`/`lastIndexOf` pair and proved equal to a
  comma-join.
- `Rendering` (`rendering.dfy`). The specification of render passes as functions of the id
  state (`Tagging`: the counter and every element's id). It proves id reuse, id allocation and
  id uniqueness, and that a re-render is stable.
- `Drss` (`drss.dfy`). The classes `Selector` (with `StateSelector` folded in) and `Engine`
  (the static `DRSS` class), whose methods update fields and loop as the source does, in the
  source's order within each iteration (hooks first, then the id). The methods that render
  (`Ruleset`, `Render`, `RenderElementsTo`, `RenderStep`, `RuleText`, `Update`, `SetProps`,
  `Initialize`) are proved against the `Rendering` functions. `GetNextId`, `Select`,
  `GetProps` and the constructors state their effect directly.

The document is a parameter:

- `Dom` maps a query to its matches in document order.
- Elements are handles (`Elem = nat`).
- The `data-drssid` attributes are the engine's `dataset` map.
- The `<style id="drssHead">` element is the string field `sheet`.

`getProps()` is the function `Drss.Engine.GetProps`, which returns the current bag as a value.

Two points where the code and a prose reading of it disagree. The model follows the code in
both:

- `select(q, [])` creates a state selector. `[]` is truthy, and `StateSelector` accepts an
  empty list, so state lists may be empty. That selector's rule is the bare body `{...}`.
- With `printing` among the states, the rule still lists `[data-drssid="ID"]:printing`, and
  the `@media print` block is added after it. It does not replace the `:printing` selector.

## Model

| member | source | states |
|---|---|---|
| CamelToDash.ToLower | src/camelToDash.ts:10-11 | `toLowerCase` on one character: the result is never upper case; it equals the input exactly when the input is not upper case; an upper-case letter becomes the character 32 code points above it |
| CamelToDash.DashChar | src/camelToDash.ts:10-11 | one loop step: an upper-case character becomes `-` and its lower-case form, anything else is copied |
| CamelToDash.CamelToDash | src/camelToDash.ts:6-14 | the loop returns `Dashed(camel)`, whose length is the input length plus the number of capitals, and which contains no capital |
| CamelToDash.DashedAppend | src/camelToDash.ts:7-13 | the conversion distributes over concatenation |
| CamelToDash.DashedCons | src/camelToDash.ts:8-12 | read left to right: the first character's replacement comes first |
| CamelToDash.DashedLength | src/camelToDash.ts:8-12 | output length is input length plus one per upper-case letter |
| CamelToDash.CountUpperZero | src/camelToDash.ts:10 | no hyphen is added exactly when the input has no upper-case letter |
| CamelToDash.DashedNoUpper | src/camelToDash.ts:11 | the output contains no upper-case letter |
| CamelToDash.DashedFixedPoint | src/camelToDash.ts:10-11 | a string is returned unchanged if and only if it has no upper-case letter |
| CamelToDash.DashedIdempotent | src/camelToDash.ts:11 | converting twice is the same as converting once |
| CamelToDash.DashedLeadingUpper | src/camelToDash.ts:10 | a leading capital also gets a hyphen: the output starts with `-` and its lower-case form |
| CamelToDash.DashedTwoWords | src/camelToDash.ts:8-12 | a lower-case head, one capital, a lower-case tail: only the capital is replaced |
| CamelToDash.DashedCamelExamples | src/camelToDash.ts:6-14 | `fontFamily` gives `font-family` and `backgroundColor` gives `background-color` |
| CamelToDash.DashedVendorTail | src/camelToDash.ts:6-14 | `ebkitTransform` gives `ebkit-transform` (the tail of the vendor example) |
| CamelToDash.DashedVendorExample | src/camelToDash.ts:10 | `WebkitTransform` gives `-webkit-transform` |
| CamelToDash.DashedLowerExamples | src/camelToDash.ts:10-11 | `color` and `background-color` map to themselves |
| CamelToDashJs.CamelToDashDefault | src/camelToDash.js:1-9 | no argument gives `""`; a string gives `Dashed` of it, with length plus one per capital, and a string without capitals comes back unchanged |
| Decimal.DigitChar | src/index.ts:78 | a digit value below 10 is written as the decimal digit that reads back as that value |
| Decimal.DigitValue | src/index.ts:78 | a decimal digit reads back as a value below 10 |
| Decimal.NatToString | src/index.ts:78 | `toString()` of a counter value is a non-empty decimal numeral without a leading zero (only 0 starts with `0`) |
| Decimal.ValueOfNatToString | src/index.ts:78 | reading back the numeral gives the counter value (round trip) |
| Decimal.NatToStringInjective | src/index.ts:78 | two counter values give the same id text if and only if they are equal |
| Style.ToRuleSet | src/index.ts:36-47 | an object argument becomes a hook that returns that object for every element, index and props; a function argument is the hook itself |
| Style.Find | src/index.ts:72 | the position of a key in the style object is its first occurrence, or the end when absent |
| Style.LookupSameKeys | src/index.ts:72 | two style objects with the same key order find every key at the same position |
| Style.PutSpec | src/index.ts:72 | `style[key] = value` sets that key's value, changes no other key, keeps keys distinct, keeps the key order, and appends a new key at the end |
| Style.PutAllLookup | src/index.ts:70-73 | after a whole dictionary is written, each key holds its last written value, or its earlier value when the dictionary lacks it |
| Style.PutAllDistinct | src/index.ts:70-73 | writing a dictionary keeps keys distinct |
| Style.PutAllKeepsOrder | src/index.ts:70-73 | writing a dictionary never moves or drops an existing key |
| Style.PutAllAppend | src/index.ts:67-74 | writing two dictionaries one after the other is writing their concatenation |
| Style.DashKeysAppend | src/index.ts:72 | renaming keys through `camelToDash` distributes over concatenation |
| Style.MergedStyleFlat | src/index.ts:65-74 | the merge over all rule sets is one write of every hook's entries, in rule-set order, with dashed keys |
| Style.MergedStyleLastWins | src/index.ts:65-74 | the merged style has each dashed property once, holding the value of the last rule set (and last entry) that wrote it |
| Style.MergedStyleCollision | src/index.ts:65-74 | `backgroundColor: red` then `background-color: blue` collapse into the single entry `background-color: blue` |
| Style.BuildStyle | src/index.ts:64-74 | the nested merge loops compute `MergedStyle`, with distinct keys |
| CssText.LastIndexOf | src/index.ts:130 | JavaScript `lastIndexOf`: -1 when absent, otherwise the last position holding the character |
| CssText.Clamp | src/index.ts:130 | a `substring` bound is clamped into `0..length`, and a bound already in range is kept |
| CssText.StateSelectorsTrailingComma | src/index.ts:126-128 | for a non-empty state list, the loop's text is the comma-joined selector list plus one trailing comma |
| CssText.TrimmedStateSelectors | src/index.ts:124-130 | `substring(0, lastIndexOf(","))` removes exactly the trailing comma, and gives `""` for no states |
| CssText.StateRuleShape | src/index.ts:124-146 | a state rule is the comma-joined `[data-drssid="ID"]:s` list, then the body, then the `@media print` block exactly when `printing` is a state; no states gives the bare body |
| CssText.JoinedBeforeAfter | src/index.ts:126-130 | states `before`, `after` give the selector list `[data-drssid="ID"]:before,[data-drssid="ID"]:after`, with no trailing comma |
| CssText.StateRuleBeforeAfter | src/index.ts:124-146 | states `before`, `after` give `[data-drssid="ID"]:before,[data-drssid="ID"]:after{...}` |
| CssText.AppendDeclarations | src/index.ts:83-85 | the loop appends `key:value;` for every entry of the style, in order |
| CssText.PlainRuleText | src/index.ts:81-86 | a plain rule is `[data-drssid="ID"]{` + the declarations + `}` |
| CssText.StateRuleText | src/index.ts:124-146 | the state-rule loops build the comma-joined list, the body and, with `printing`, the media block |
| Rendering.TagElementSpec | src/index.ts:78-89 | a tagged element keeps its id and consumes no counter value; an untagged one gets the counter's value and the counter moves on by one; existing ids stay and ids stay unique |
| Rendering.RenderFirstAfter | src/index.ts:60-90 | the ids a render leaves behind depend only on the matched elements, tagged in order |
| Rendering.RenderElementsAfter | src/index.ts:60-90 | rendering all matches tags exactly them, in order |
| Rendering.TagAllExtends | src/index.ts:78-89 | tagging a list of elements keeps every existing id and keeps ids unique numerals below the counter |
| Rendering.TagAllCount | src/index.ts:78-89 | after tagging, exactly the old and the listed elements have ids, and the counter advanced once per newly tagged element |
| Rendering.TagAllSpec | src/index.ts:78-89 | the previous two combined |
| Rendering.RenderSelectorWellTagged | src/index.ts:59-91 | rendering one selector keeps ids unique numerals below the counter |
| Rendering.RenderAllTagging | src/index.ts:167-176 | a whole update keeps every existing id, adds one counter value per newly tagged element and keeps ids unique, even when several selectors match one element |
| Rendering.RenderFirstStable | src/index.ts:78 | rendering again from a state that holds the ids already given reproduces the same text and allocates nothing |
| Rendering.RenderAllStable | src/index.ts:167-176 | the same for a whole update |
| Rendering.RenderAllIdempotent | src/index.ts:167-176 | a second update over an unchanged document regenerates the same sheet and assigns no new id |
| Rendering.EmptyRuleSetsEmptyBody | src/index.ts:81-86 | a plain selector with no rule sets emits `[data-drssid="ID"]{}` |
| Drss.SelectedStates | src/index.ts:184-190 | `state ? StateSelector : Selector`: no state or `""` gives a plain selector; a string gives one state; a list, even an empty one, gives those states |
| Drss.OverlayLookup | src/index.ts:207-210 | `setProps` overwrites exactly the given keys with their last given value and leaves every other key as it was |
| Drss.Selector.constructor | src/index.ts:27-29 | a new selector has its query, its states and no rule sets |
| Drss.Selector.Ruleset | src/index.ts:36-53 | appends the rule set; if initialized, renders only this selector onto the end of the sheet without clearing it; otherwise the sheet and ids are untouched; returns the same selector |
| Drss.Selector.Render | src/index.ts:59-91 | appends exactly `RenderSelector`'s text to the sheet, leaves the ids it specifies, and keeps ids unique |
| Drss.Selector.RenderElementsTo | src/index.ts:60-90 | the render loop over the matches, given the selector's rule text function, appends the rules of `RenderElements` in order and leaves its ids |
| Drss.Selector.RenderStep | src/index.ts:61-89 | one element, in the source's order: merge the hooks' styles, then reuse the element's id or draw the next one, append its rule, record its id |
| Drss.Selector.RuleText | src/index.ts:80-85 | given the element's merged style and its id, the plain rule text (or, at lines 113-146, the state rule text) equals the selector's rule text function `RuleOf(Data(), props)`, that is `RuleFor` |
| Drss.Engine.constructor | src/index.ts:158-161 | no selectors, empty props, not initialized, counter 0, empty sheet, no ids |
| Drss.Engine.GetNextId | src/index.ts:260-263 | returns the counter's value and increments it by exactly one |
| Drss.Engine.Update | src/index.ts:167-176 | not initialized: nothing changes; otherwise the sheet is exactly every selector's render, in registration order, starting from an empty sheet |
| Drss.Engine.Select | src/index.ts:184-193 | creates a fresh selector with the selected states and no rule sets, appends it to the selectors and returns it |
| Drss.Engine.GetProps | src/index.ts:199-201 | returns the engine's current property bag, as left by the constructor and every `setProps` so far (as a value) |
| Drss.Engine.SetProps | src/index.ts:207-212 | the bag becomes `Overlay(old bag, value)`, then `update` runs |
| Drss.Engine.Initialize | src/index.ts:217-224 | the first call sets the flag and updates; later calls change nothing |

## Left out

- The `MutationObserver` and `resize` listeners installed by `initialize`. These are event
  plumbing. Each call to `Update` renders against the `Dom` it is given.
- `_getStyleElement`'s DOM calls. The stylesheet is the field `sheet`, which exists from the
  start. In the source, the element is created by the first initialized `update()`
  (src/index.ts:169), which `initialize()` runs (src/index.ts:223), even when no selector
  matches anything. Render also looks it up once per element, finding it already there.
- `document.querySelectorAll` is the `Dom` parameter. Elements are opaque handles. CSS
  selector matching is not modelled.
- `data-drssid` attributes that the engine did not write one element at a time. This covers
  attributes written into the HTML by hand, and elements copied with `cloneNode` from an
  element that was already rendered, so that two elements carry the same id. In the model,
  `dataset` starts empty and only rendering writes it, one element at a time. The uniqueness
  invariant `WellTagged` therefore holds only because such copies cannot arise in the model.
- Aliasing of the state list. `StateSelector` keeps the caller's array itself
  (src/index.ts:105), so changing that array after `select` changes later renders.
  `Drss.Selector.states` is an immutable value, fixed when the selector is created.
- Aliasing of a static rule set. `ruleset(dict)` installs a hook that returns the caller's
  object itself (src/index.ts:41), so editing that object later changes the next `update()`.
  `Style.StaticStyle` captures the dictionary's value at the time of the call.
- Drss.Engine.GetNextId: the counter is an unbounded `nat`. JavaScript numbers lose integer
  precision above 2^53, which the model does not capture.
- Style values are strings. JavaScript's coercion of numeric style values to text
  (floating-point formatting) is not modelled.
- Hooks that throw, hooks that mutate the `props` object they receive, and hooks that read
  state other than their arguments: the element's attributes (such as `node.dataset`), which
  earlier renders may have changed, or the window (such as `window.innerWidth`). Hooks are pure
  functions of (element, index, props), so the model cannot show a window resize or an
  attribute change altering the sheet.
- Queries that see the engine's own writes. A render queries the document when it starts
  (src/index.ts:60, 110), after earlier selectors of the same `update()` have written
  `data-drssid` attributes (src/index.ts:89, 149). A query such as `p:not([data-drssid])` can
  therefore match fewer elements for a later selector, or in a later `update()`. In the model,
  `Rendering.Dom` is one fixed function of the query for a whole pass. `Drss.Engine.Update`'s
  postcondition and `Rendering.RenderAllIdempotent` hold for query results that do not depend
  on the `data-drssid` attributes, and the model does not capture queries that do.
- Keys that are not ordinary own properties. Assigning to `"__proto__"` on a plain object
  (src/index.ts:72, 118, 209) creates no own property, so `for...in` never lists the key and
  nothing is emitted. `Style.Put` and `Drss.Overlay` store such a key like any other, so the
  model would emit `__proto__:x;`.
- HTML re-parsing of the sheet. `sheet.innerHTML +=` (src/index.ts:88, 148) re-parses the
  text as HTML, which turns carriage returns into line feeds and NUL into U+FFFD. The model
  appends the rule text unchanged.
- `toLowerCase` on non-ASCII characters. Case mapping covers `A`-`Z` only.
- JavaScript objects enumerate integer-like keys (such as `"0"`) before other keys. The
  association-list model keeps insertion order for every key, including those.
- `typeof null === "object"`, by which `ruleset(null)` would install a hook returning `null`.
  Hook arguments are a dictionary or a function.
- `Selector.elements`, a field the source declares and never uses.
- `src/index.js` (an older variant that writes inline styles), `test/style.js` (a usage
  script), `rollup.config.mjs` (build configuration) and `src/types.ts` (type aliases, folded
  into `Style.RuleSet`, `Style.Dict` and `Style.Props`) are not part of this model.
- Drss.Engine.GetProps returns the `props` field as a value. The source returns
  the live object, and aliasing between a caller's copy and the engine's bag is not modelled,
  because `Props` is a value.
