/**
 * The CSS text `Selector.render` and `StateSelector.render` emit for one
 * element (src/index.ts:80-88 and 124-148).
 */
module CssText {
  import opened Style

  /** `[data-drssid="ID"]`: the attribute selector that targets one element. */
  function AttrSelector(id: string): string
  {
    "[data-drssid=\"" + id + "\"]"
  }

  /** `key:value;` for every entry of the style, in key order. */
  function Declarations(style: Style): string
  {
    if style == [] then ""
    else Declarations(style[..|style| - 1]) + style[|style| - 1].0 + ":" + style[|style| - 1].1 + ";"
  }

  function Block(style: Style): string
  {
    "{" + Declarations(style) + "}"
  }

  /** The rule a plain selector emits for one element. */
  function PlainRule(id: string, style: Style): string
  {
    AttrSelector(id) + Block(style)
  }

  /** What the state loop accumulates: `[data-drssid="ID"]:state,` per state. */
  function StateSelectors(id: string, states: seq<string>): string
  {
    if states == [] then ""
    else StateSelectors(id, states[..|states| - 1]) + AttrSelector(id) + ":" + states[|states| - 1] + ","
  }

  /** `String.prototype.lastIndexOf` for one character; -1 when absent. */
  function LastIndexOf(s: string, c: char): (r: int)
    ensures -1 <= r < |s|
    ensures r >= 0 ==> s[r] == c
    ensures forall i :: r < i < |s| ==> s[i] != c
  {
    if s == [] then -1
    else if s[|s| - 1] == c then |s| - 1
    else LastIndexOf(s[..|s| - 1], c)
  }

  function Clamp(x: int, len: nat): (r: nat)
    ensures r <= len
    ensures 0 <= x <= len ==> r == x
  {
    if x < 0 then 0 else if x > len then len else x
  }

  /** `String.prototype.substring`: both ends clamped to the string, swapped when reversed. */
  function Substring(s: string, start: int, end: int): string
  {
    var a, b := Clamp(start, |s|), Clamp(end, |s|);
    if a <= b then s[a..b] else s[b..a]
  }

  /** The `@media print` rule added when "printing" is among the states. */
  function MediaPrint(id: string, style: Style): string
  {
    "@media print{" + AttrSelector(id) + Block(style) + "}"
  }

  /** The rule a state selector emits for one element, built as the source builds it. */
  function StateRule(id: string, states: seq<string>, style: Style): string
  {
    var list := StateSelectors(id, states);
    Substring(list, 0, LastIndexOf(list, ','))
      + Block(style)
      + (if "printing" in states then MediaPrint(id, style) else "")
  }

  /** One `[data-drssid="ID"]:state` per state, separated by commas, none at the end. */
  function JoinedSelectors(id: string, states: seq<string>): string
  {
    if states == [] then ""
    else if |states| == 1 then AttrSelector(id) + ":" + states[0]
    else JoinedSelectors(id, states[..|states| - 1]) + "," + AttrSelector(id) + ":" + states[|states| - 1]
  }

  /** The accumulated list is the joined selector plus one trailing comma. */
  lemma {:induction false} StateSelectorsTrailingComma(id: string, states: seq<string>)
    requires states != []
    ensures StateSelectors(id, states) == JoinedSelectors(id, states) + ","
  {
    var ss := states[..|states| - 1];
    if ss != [] {
      StateSelectorsTrailingComma(id, ss);
    }
  }

  /**
   * Cutting at the last comma drops exactly the trailing one; with no
   * states the list is empty, lastIndexOf gives -1 and nothing is left.
   */
  lemma TrimmedStateSelectors(id: string, states: seq<string>)
    ensures var list := StateSelectors(id, states);
            Substring(list, 0, LastIndexOf(list, ',')) == JoinedSelectors(id, states)
  {
    if states != [] {
      StateSelectorsTrailingComma(id, states);
      var list := StateSelectors(id, states);
      assert list[|list| - 1] == ',';
      assert LastIndexOf(list, ',') == |list| - 1;
      assert list[..|list| - 1] == JoinedSelectors(id, states);
    }
  }

  /**
   * A state rule is the comma-joined selector list and the block, followed,
   * not replaced, by the print-media rule when "printing" is a state.
   */
  lemma StateRuleShape(id: string, states: seq<string>, style: Style)
    ensures StateRule(id, states, style)
         == JoinedSelectors(id, states) + Block(style)
            + (if "printing" in states then MediaPrint(id, style) else "")
    ensures states == [] ==> StateRule(id, states, style) == Block(style)
  {
    TrimmedStateSelectors(id, states);
  }

  /** The selector list of `["before", "after"]`. */
  lemma JoinedBeforeAfter(id: string)
    ensures JoinedSelectors(id, ["before", "after"]) == AttrSelector(id) + ":before," + AttrSelector(id) + ":after"
  {
    var a := AttrSelector(id);
    assert ["before", "after"][..1] == ["before"];
    assert JoinedSelectors(id, ["before"]) == a + ":" + "before";
    assert a + ":" + "before" + "," == a + ":before,";
    assert a + ":" + "after" == a + ":after";
  }

  /** `["before", "after"]` yields one compound selector for both pseudo-elements. */
  lemma StateRuleBeforeAfter(id: string, style: Style)
    ensures StateRule(id, ["before", "after"], style)
         == AttrSelector(id) + ":before," + AttrSelector(id) + ":after" + Block(style)
  {
    var states := ["before", "after"];
    StateRuleShape(id, states, style);
    assert "printing" != states[0] && "printing" != states[1];
    JoinedBeforeAfter(id);
  }

  /** The declaration loop (src/index.ts:83-85): one `key:value;` per style entry, appended in order. */
  method AppendDeclarations(str: string, style: Style) returns (r: string)
    ensures r == str + Declarations(style)
  {
    r := str;
    for j := 0 to |style|
      invariant r == str + Declarations(style[..j])
    {
      r := r + style[j].0 + ":" + style[j].1 + ";";
      assert style[..j + 1][..j] == style[..j];
    }
    assert style[..|style|] == style;
  }

  /** The text `Selector.render` appends for one element (src/index.ts:81-86). */
  method PlainRuleText(id: string, style: Style) returns (r: string)
    ensures r == AttrSelector(id) + "{" + Declarations(style) + "}"
  {
    r := AppendDeclarations(AttrSelector(id) + "{", style);
    r := r + "}";
  }

  /** The text `StateSelector.render` appends for one element (src/index.ts:124-146). */
  method StateRuleText(id: string, states: seq<string>, style: Style) returns (r: string)
    ensures r == JoinedSelectors(id, states) + Block(style)
                 + (if "printing" in states then MediaPrint(id, style) else "")
  {
    var list := "";
    for k := 0 to |states|
      invariant list == StateSelectors(id, states[..k])
    {
      list := list + AttrSelector(id) + ":" + states[k] + ",";
      assert states[..k + 1][..k] == states[..k];
    }
    assert states[..|states|] == states;
    // remove the last comma
    var selectors := Substring(list, 0, LastIndexOf(list, ','));
    TrimmedStateSelectors(id, states);
    var body := AppendDeclarations("{", style);
    r := selectors + (body + "}");
    if "printing" in states {
      var printing := AppendDeclarations("@media print{" + AttrSelector(id) + "{", style);
      printing := printing + "}}";
      assert printing == MediaPrint(id, style);
      r := r + printing;
    }
  }
}
