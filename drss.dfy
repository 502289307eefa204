/**
 * The DRSS engine of src/index.ts: the registered selectors, the global
 * property bag, the lifecycle flag, the id counter and the generated
 * stylesheet, with the operations that change them. The document is outside
 * the model: each operation that renders is handed the document's query
 * engine (`dom`) as it is at that moment, and the `data-drssid` attributes
 * are kept in the engine's `dataset` map, which only rendering writes.
 */
module Drss {
  import opened Wrappers
  import opened Decimal
  import opened Style
  import opened CssText
  import opened Rendering

  /** The optional second argument of `DRSS.select`. */
  datatype StateArg = NoState | OneState(state: string) | StateList(states: seq<string>)

  /**
   * The states of the selector `select` creates (src/index.ts:188-190, 104-105):
   * a missing state or the empty string, being falsy, gives a plain selector; a
   * single state becomes a one-element list; a list, even an empty one, being
   * truthy, is kept as given.
   */
  function SelectedStates(arg: StateArg): (r: Option<seq<string>>)
    ensures r.None? <==> arg.NoState? || arg == OneState("")
    ensures arg.OneState? && arg.state != "" ==> r == Some([arg.state])
    ensures arg.StateList? ==> r == Some(arg.states)
  {
    match arg
    case NoState => None
    case OneState(s) => if s == "" then None else Some([s])
    case StateList(ss) => Some(ss)
  }

  /** The property bag once every entry of `d` has been assigned into `m` in order (src/index.ts:208-210). */
  function Overlay(m: Props, d: Dict): Props
  {
    if d == [] then m else Overlay(m, d[..|d| - 1])[d[|d| - 1].0 := d[|d| - 1].1]
  }

  /** Keys of `d` take their last value in `d`; every other key keeps its old value. */
  lemma {:induction false} OverlayLookup(m: Props, d: Dict, k: string)
    ensures k in Overlay(m, d) <==> k in m || LastWrite(d, k).Some?
    ensures LastWrite(d, k).Some? ==> Overlay(m, d)[k] == LastWrite(d, k).value
    ensures LastWrite(d, k).None? && k in m ==> Overlay(m, d)[k] == m[k]
  {
    if d != [] {
      OverlayLookup(m, d[..|d| - 1], k);
    }
  }

  /** A selector's view as its render sees it, for every registered selector. */
  function Snapshot(sels: seq<Selector>): seq<SelectorData>
    reads sels
  {
    seq(|sels|, i reads sels requires 0 <= i < |sels| => sels[i].Data())
  }

  /** class Selector and class StateSelector: `states` is None for a plain selector. */
  class Selector {
    const query: string
    const states: Option<seq<string>>
    var ruleSets: seq<RuleSet>

    constructor (query: string, states: Option<seq<string>>)
      ensures this.query == query && this.states == states && ruleSets == []
    {
      this.query := query;
      this.states := states;
      ruleSets := [];
    }

    function Data(): SelectorData
      reads this
    {
      SelectorData(query, states, ruleSets)
    }

    /**
     * `ruleset(hook)`: appends a rule set; once the engine is initialized,
     * renders this selector alone onto the end of the sheet, without clearing it.
     */
    method Ruleset(drss: Engine, arg: HookArg, dom: Dom) returns (self: Selector)
      requires drss.Valid()
      modifies this, drss
      ensures self == this
      ensures ruleSets == old(ruleSets) + [ToRuleSet(arg)]
      ensures drss.Valid()
      ensures drss.selectors == old(drss.selectors) && drss.props == old(drss.props)
      ensures drss.initialized == old(drss.initialized)
      ensures !drss.initialized ==> drss.sheet == old(drss.sheet) && drss.Tags() == old(drss.Tags())
      ensures drss.initialized ==>
                var o := RenderSelector(Data(), drss.props, dom, old(drss.Tags()));
                drss.sheet == old(drss.sheet) + o.text && drss.Tags() == o.after
    {
      ruleSets := ruleSets + [ToRuleSet(arg)];
      if drss.initialized {
        Render(drss, drss.props, dom);
      }
      self := this;
    }

    /** `render(props)`: appends one rule per matched element and tags each element. */
    method Render(drss: Engine, props: Props, dom: Dom)
      requires drss.Valid()
      modifies drss`sheet, drss`dataset, drss`nextId
      ensures drss.Valid()
      ensures var o := RenderSelector(Data(), props, dom, old(drss.Tags()));
              drss.sheet == old(drss.sheet) + o.text && drss.Tags() == o.after
    {
      ghost var start := drss.Tags();
      RenderElementsTo(drss, RuleOf(Data(), props), Data(), props, dom(query));
      RenderSelectorWellTagged(Data(), props, dom, start);
    }

    /** The loop of `render`: one rule per matched element, in document order. */
    method RenderElementsTo(drss: Engine, ghost rule: RuleFn, ghost sel: SelectorData, props: Props, all: seq<Elem>)
      requires sel == Data()
      requires forall e, i, id {:trigger RuleFor(sel, props, e, i, id)} :: rule(e, i, id) == RuleFor(sel, props, e, i, id)
      modifies drss`sheet, drss`dataset, drss`nextId
      ensures var o := RenderElements(rule, all, old(drss.Tags()));
              drss.sheet == old(drss.sheet) + o.text && drss.Tags() == o.after
    {
      ghost var base, start := drss.sheet, drss.Tags();
      ghost var acc := Output("", start);
      for i := 0 to |all|
        invariant acc == RenderFirst(rule, all, i, start)
        invariant drss.sheet == base + acc.text
        invariant drss.nextId == acc.after.nextId && drss.dataset == acc.after.ids
      {
        acc := RenderStep(drss, rule, sel, props, all[i], i, base, acc);
      }
    }

    /**
     * One iteration of the render loop, for `node`, the `i`-th match, in the source's
     * order: merge the hooks' styles, reuse or allocate its id, append its rule, record its id.
     */
    method RenderStep(drss: Engine, ghost rule: RuleFn, ghost sel: SelectorData, props: Props, node: Elem, i: nat,
                      ghost base: string, ghost prev: Output)
      returns (ghost next: Output)
      requires sel == Data()
      requires forall e, i, id {:trigger RuleFor(sel, props, e, i, id)} :: rule(e, i, id) == RuleFor(sel, props, e, i, id)
      requires drss.sheet == base + prev.text
      requires drss.nextId == prev.after.nextId && drss.dataset == prev.after.ids
      modifies drss`sheet, drss`dataset, drss`nextId
      ensures next == Output(prev.text + rule(node, i, ElementId(prev.after, node)), TagElement(prev.after, node))
      ensures drss.sheet == base + next.text
      ensures drss.nextId == next.after.nextId && drss.dataset == next.after.ids
    {
      var style := BuildStyle(ruleSets, node, i, props);
      var nodeId: string;
      if node in drss.dataset {
        nodeId := drss.dataset[node];
      } else {
        var n := drss.GetNextId();
        nodeId := NatToString(n);
      }
      assert nodeId == ElementId(prev.after, node);
      var text := RuleText(rule, sel, props, node, i, nodeId, style);
      drss.sheet := drss.sheet + text;
      drss.dataset := drss.dataset[node := nodeId];
      next := Output(prev.text + text, TagElement(prev.after, node));
    }

    /**
     * The rule text for `node`, the `i`-th match, once its merged style and its id are
     * known: the plain or the state rule. `rule` is this selector's rule text function,
     * `RuleOf(Data(), props)`, passed so that callers need not unfold it.
     */
    method RuleText(ghost rule: RuleFn, ghost sel: SelectorData, props: Props, node: Elem, i: nat, nodeId: string,
                    style: Style)
      returns (text: string)
      requires sel == Data()
      requires forall e, i, id {:trigger RuleFor(sel, props, e, i, id)} :: rule(e, i, id) == RuleFor(sel, props, e, i, id)
      requires style == MergedStyle(ruleSets, node, i, props)
      ensures text == rule(node, i, nodeId)
    {
      match states {
        case None =>
          text := PlainRuleText(nodeId, style);
        case Some(ss) =>
          text := StateRuleText(nodeId, ss, style);
          StateRuleShape(nodeId, ss, style);
      }
      assert text == RuleFor(sel, props, node, i, nodeId);
    }
  }

  /** class DRSS, as one engine object instead of static fields. */
  class Engine {
    var selectors: seq<Selector>
    var props: Props
    var initialized: bool
    var nextId: nat
    /** The text of the generated `<style id="drssHead">` element. */
    var sheet: string
    /** The `data-drssid` attribute of every element of the document that has one. */
    var dataset: map<Elem, string>

    function Tags(): Tagging
      reads this
    {
      Tagging(nextId, dataset)
    }

    /** Ids in the document are distinct numerals, all below the counter. */
    predicate Valid()
      reads this
    {
      WellTagged(Tags())
    }

    constructor ()
      ensures Valid()
      ensures selectors == [] && props == map[] && !initialized
      ensures nextId == 0 && sheet == "" && dataset == map[]
    {
      selectors := [];
      props := map[];
      initialized := false;
      nextId := 0;
      sheet := "";
      dataset := map[];
    }

    /** `getNextId()`: hands out the counter's value and moves it on by one. */
    method GetNextId() returns (id: nat)
      modifies this`nextId
      ensures id == old(nextId) && nextId == old(nextId) + 1
    {
      nextId := nextId + 1;
      id := nextId - 1;
    }

    /** `update()`: when initialized, clears the sheet and renders every selector in order. */
    method Update(dom: Dom)
      requires Valid()
      modifies this
      ensures Valid()
      ensures selectors == old(selectors) && props == old(props) && initialized == old(initialized)
      ensures !initialized ==> sheet == old(sheet) && Tags() == old(Tags())
      ensures initialized ==> Output(sheet, Tags()) == RenderAll(Snapshot(selectors), props, dom, old(Tags()))
    {
      if !initialized {
        return;
      }
      sheet := "";
      ghost var snapshot := Snapshot(selectors);
      for k := 0 to |selectors|
        invariant Valid()
        invariant selectors == old(selectors) && props == old(props) && initialized
        invariant Snapshot(selectors) == snapshot
        invariant Output(sheet, Tags()) == RenderAll(snapshot[..k], props, dom, old(Tags()))
      {
        selectors[k].Render(this, props, dom);
        assert snapshot[..k + 1][..k] == snapshot[..k];
      }
      assert snapshot[..|selectors|] == snapshot;
    }

    /** `select(query, state)`: registers a new selector at the end and returns it. */
    method Select(query: string, state: StateArg) returns (sel: Selector)
      modifies this
      ensures fresh(sel)
      ensures sel.query == query && sel.states == SelectedStates(state) && sel.ruleSets == []
      ensures selectors == old(selectors) + [sel]
      ensures props == old(props) && initialized == old(initialized)
      ensures sheet == old(sheet) && Tags() == old(Tags())
    {
      sel := new Selector(query, SelectedStates(state));
      selectors := selectors + [sel];
    }

    /** `getProps()`: the current property bag, as a value. */
    function GetProps(): (r: Props)
      reads this
      ensures r == props
    {
      props
    }

    /** `setProps(value)`: overwrites the given keys, keeps the others, then updates. */
    method SetProps(value: Dict, dom: Dom)
      requires Valid()
      modifies this
      ensures props == Overlay(old(props), value)
      ensures Valid()
      ensures selectors == old(selectors) && initialized == old(initialized)
      ensures !initialized ==> sheet == old(sheet) && Tags() == old(Tags())
      ensures initialized ==> Output(sheet, Tags()) == RenderAll(Snapshot(selectors), props, dom, old(Tags()))
    {
      for j := 0 to |value|
        invariant props == Overlay(old(props), value[..j])
        invariant selectors == old(selectors) && initialized == old(initialized)
        invariant sheet == old(sheet) && Tags() == old(Tags())
      {
        props := props[value[j].0 := value[j].1];
        assert value[..j + 1][..j] == value[..j];
      }
      assert value[..|value|] == value;
      Update(dom);
    }

    /** `initialize()`: the first call sets the flag and updates; later calls do nothing. */
    method Initialize(dom: Dom)
      requires Valid()
      modifies this
      ensures initialized && Valid()
      ensures selectors == old(selectors) && props == old(props)
      ensures old(initialized) ==> sheet == old(sheet) && Tags() == old(Tags())
      ensures !old(initialized) ==> Output(sheet, Tags()) == RenderAll(Snapshot(selectors), props, dom, old(Tags()))
    {
      if !initialized {
        initialized := true;
        Update(dom);
      }
    }
  }
}
