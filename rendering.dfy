/**
 * What a render pass of src/index.ts computes, as functions of the state it
 * reads: for each matched element the merged style, the element's id (reused
 * or freshly drawn from the counter) and the rule text appended to the sheet.
 */
module Rendering {
  import opened Wrappers
  import opened Decimal
  import opened Style
  import opened CssText

  /** The id counter `_nextId` and every element's `data-drssid` attribute. */
  datatype Tagging = Tagging(nextId: nat, ids: map<Elem, string>)

  /** The text a render appends to the sheet and the tagging it leaves behind. */
  datatype Output = Output(text: string, after: Tagging)

  /** A selector as it renders: `states` is None for a plain selector. */
  datatype SelectorData = SelectorData(query: string, states: Option<seq<string>>, ruleSets: seq<RuleSet>)

  /** The document's query engine at render time: matches of a query, in document order. */
  type Dom = string -> seq<Elem>

  /** The id an element renders with (src/index.ts:78): its existing id, else the counter's value in decimal. */
  function ElementId(t: Tagging, e: Elem): string
  {
    if e in t.ids then t.ids[e] else NatToString(t.nextId)
  }

  /** The tagging once the element's id has been drawn and written back to it (src/index.ts:78, 89). */
  function TagElement(t: Tagging, e: Elem): Tagging
  {
    Tagging(if e in t.ids then t.nextId else t.nextId + 1, t.ids[e := ElementId(t, e)])
  }

  /** The rule text emitted for element `e`, the `i`-th match, once its id is known. */
  function RuleFor(sel: SelectorData, props: Props, e: Elem, i: nat, id: string): string
  {
    var style := MergedStyle(sel.ruleSets, e, i, props);
    match sel.states
    case None => PlainRule(id, style)
    case Some(states) => StateRule(id, states, style)
  }

  /** How a selector turns a match, its index and its id into rule text. */
  type RuleFn = (Elem, nat, string) -> string

  /** The rule text function of selector `sel` under the global properties `props`. */
  function RuleOf(sel: SelectorData, props: Props): RuleFn
  {
    (e: Elem, i: nat, id: string) => RuleFor(sel, props, e, i, id)
  }

  /** The first `n` iterations of the render loop over the matches `elems`. */
  function RenderFirst(rule: RuleFn, elems: seq<Elem>, n: nat, t: Tagging): Output
    requires n <= |elems|
  {
    if n == 0 then Output("", t)
    else
      var prev := RenderFirst(rule, elems, n - 1, t);
      var e := elems[n - 1];
      Output(prev.text + rule(e, n - 1, ElementId(prev.after, e)), TagElement(prev.after, e))
  }

  /** Rendering all the matches `elems`, in order. */
  function RenderElements(rule: RuleFn, elems: seq<Elem>, t: Tagging): Output
  {
    RenderFirst(rule, elems, |elems|, t)
  }

  /** `render(props)` of one selector. */
  function RenderSelector(sel: SelectorData, props: Props, dom: Dom, t: Tagging): Output
  {
    RenderElements(RuleOf(sel, props), dom(sel.query), t)
  }

  /** Every selector rendered in registration order, each appending to the text of the ones before. */
  function RenderAll(sels: seq<SelectorData>, props: Props, dom: Dom, t: Tagging): Output
  {
    if sels == [] then Output("", t)
    else
      var prev := RenderAll(sels[..|sels| - 1], props, dom, t);
      var o := RenderSelector(sels[|sels| - 1], props, dom, prev.after);
      Output(prev.text + o.text, o.after)
  }

  /** Every id of `small` is still in `big`, unchanged. */
  predicate Extends(big: Tagging, small: Tagging)
  {
    forall e :: e in small.ids ==> e in big.ids && big.ids[e] == small.ids[e]
  }

  /** Every id is a numeral below the counter, and no two elements share one. */
  predicate WellTagged(t: Tagging)
  {
    && (forall e :: e in t.ids ==> IsNumeral(t.ids[e]) && ValueOf(t.ids[e]) < t.nextId)
    && (forall e1, e2 :: e1 in t.ids && e2 in t.ids && t.ids[e1] == t.ids[e2] ==> e1 == e2)
  }

  /**
   * A tagged element keeps its id and consumes none; an untagged one gets the
   * counter's value and the counter moves on by one. Ids stay unique.
   */
  lemma TagElementSpec(t: Tagging, e: Elem)
    ensures e in t.ids ==> TagElement(t, e) == t
    ensures e !in t.ids ==> TagElement(t, e) == Tagging(t.nextId + 1, t.ids[e := NatToString(t.nextId)])
    ensures Extends(TagElement(t, e), t)
    ensures WellTagged(t) ==> WellTagged(TagElement(t, e))
  {
    var t' := TagElement(t, e);
    if e in t.ids {
      assert t.ids[e := t.ids[e]] == t.ids;
    } else if WellTagged(t) {
      ValueOfNatToString(t.nextId);
    }
  }

  lemma ExtendsTransitive(a: Tagging, b: Tagging, c: Tagging)
    requires Extends(a, b) && Extends(b, c)
    ensures Extends(a, c)
  {
  }

  /** The tagging after `elems` have been tagged one after the other. */
  function TagAll(t: Tagging, elems: seq<Elem>): Tagging
  {
    if elems == [] then t else TagElement(TagAll(t, elems[..|elems| - 1]), elems[|elems| - 1])
  }

  /** What rendering does to ids depends only on the matched elements. */
  lemma {:induction false} RenderFirstAfter(rule: RuleFn, elems: seq<Elem>, n: nat, t: Tagging)
    requires n <= |elems|
    ensures RenderFirst(rule, elems, n, t).after == TagAll(t, elems[..n])
  {
    if n > 0 {
      RenderFirstAfter(rule, elems, n - 1, t);
      assert elems[..n][..n - 1] == elems[..n - 1];
    }
  }

  lemma RenderElementsAfter(rule: RuleFn, elems: seq<Elem>, t: Tagging)
    ensures RenderElements(rule, elems, t).after == TagAll(t, elems)
  {
    RenderFirstAfter(rule, elems, |elems|, t);
    assert elems[..|elems|] == elems;
  }

  /** Tagging a list of elements keeps every existing id and keeps ids unique. */
  lemma {:induction false} TagAllExtends(t: Tagging, elems: seq<Elem>)
    ensures Extends(TagAll(t, elems), t)
    ensures WellTagged(t) ==> WellTagged(TagAll(t, elems))
  {
    if elems != [] {
      var prev := TagAll(t, elems[..|elems| - 1]);
      TagAllExtends(t, elems[..|elems| - 1]);
      TagElementSpec(prev, elems[|elems| - 1]);
      ExtendsTransitive(TagElement(prev, elems[|elems| - 1]), prev, t);
    }
  }

  /**
   * Tagging a list of elements tags exactly the listed elements, and draws
   * one counter value per element that was untagged.
   */
  lemma {:induction false} TagAllCount(t: Tagging, elems: seq<Elem>)
    ensures forall x :: x in TagAll(t, elems).ids <==> x in t.ids || x in elems
    ensures TagAll(t, elems).nextId == t.nextId + (|TagAll(t, elems).ids| - |t.ids|)
  {
    if elems != [] {
      var elems' := elems[..|elems| - 1];
      var e := elems[|elems| - 1];
      TagAllCount(t, elems');
      var prev := TagAll(t, elems');
      TagElementSpec(prev, e);
      assert elems == elems' + [e];
      if e !in prev.ids {
        var ids := prev.ids[e := NatToString(prev.nextId)];
        assert ids.Keys == prev.ids.Keys + {e};
        assert |ids| == |prev.ids| + 1;
      }
    }
  }

  /** Rendering one selector keeps the id state well formed. */
  lemma RenderSelectorWellTagged(sel: SelectorData, props: Props, dom: Dom, t: Tagging)
    requires WellTagged(t)
    ensures WellTagged(RenderSelector(sel, props, dom, t).after)
  {
    RenderElementsAfter(RuleOf(sel, props), dom(sel.query), t);
    TagAllSpec(t, dom(sel.query));
  }

  lemma TagAllSpec(t: Tagging, elems: seq<Elem>)
    ensures Extends(TagAll(t, elems), t)
    ensures forall x :: x in TagAll(t, elems).ids <==> x in t.ids || x in elems
    ensures TagAll(t, elems).nextId == t.nextId + (|TagAll(t, elems).ids| - |t.ids|)
    ensures WellTagged(t) ==> WellTagged(TagAll(t, elems))
  {
    TagAllExtends(t, elems);
    TagAllCount(t, elems);
  }

  /**
   * A whole pass keeps every existing id, draws one counter value per newly
   * tagged element and keeps ids unique.
   */
  lemma {:induction false} RenderAllTagging(sels: seq<SelectorData>, props: Props, dom: Dom, t: Tagging)
    ensures Extends(RenderAll(sels, props, dom, t).after, t)
    ensures t.ids.Keys <= RenderAll(sels, props, dom, t).after.ids.Keys
    ensures RenderAll(sels, props, dom, t).after.nextId
         == t.nextId + (|RenderAll(sels, props, dom, t).after.ids| - |t.ids|)
    ensures WellTagged(t) ==> WellTagged(RenderAll(sels, props, dom, t).after)
  {
    if sels != [] {
      var sels' := sels[..|sels| - 1];
      var sel := sels[|sels| - 1];
      RenderAllTagging(sels', props, dom, t);
      var prev := RenderAll(sels', props, dom, t);
      RenderElementsAfter(RuleOf(sel, props), dom(sel.query), prev.after);
      TagAllSpec(prev.after, dom(sel.query));
      ExtendsTransitive(TagAll(prev.after, dom(sel.query)), prev.after, t);
    }
  }

  /**
   * Rendering again from any tagging that already holds the ids a render
   * assigned reproduces the same text and changes no id and no counter.
   */
  lemma {:induction false} RenderFirstStable(rule: RuleFn, elems: seq<Elem>, n: nat, t: Tagging, u: Tagging)
    requires n <= |elems|
    requires Extends(u, RenderFirst(rule, elems, n, t).after)
    ensures RenderFirst(rule, elems, n, u) == Output(RenderFirst(rule, elems, n, t).text, u)
  {
    if n > 0 {
      var e := elems[n - 1];
      var prev := RenderFirst(rule, elems, n - 1, t);
      TagElementSpec(prev.after, e);
      ExtendsTransitive(u, TagElement(prev.after, e), prev.after);
      RenderFirstStable(rule, elems, n - 1, t, u);
      assert ElementId(u, e) == ElementId(prev.after, e);
      TagElementSpec(u, e);
    }
  }

  lemma {:induction false} RenderAllStable(sels: seq<SelectorData>, props: Props, dom: Dom, t: Tagging, u: Tagging)
    requires Extends(u, RenderAll(sels, props, dom, t).after)
    ensures RenderAll(sels, props, dom, u) == Output(RenderAll(sels, props, dom, t).text, u)
  {
    if sels != [] {
      var sels' := sels[..|sels| - 1];
      var sel := sels[|sels| - 1];
      var prev := RenderAll(sels', props, dom, t);
      RenderElementsAfter(RuleOf(sel, props), dom(sel.query), prev.after);
      TagAllSpec(prev.after, dom(sel.query));
      ExtendsTransitive(u, RenderAll(sels, props, dom, t).after, prev.after);
      RenderAllStable(sels', props, dom, t, u);
      RenderFirstStable(RuleOf(sel, props), dom(sel.query), |dom(sel.query)|, prev.after, u);
    }
  }

  /**
   * A second pass over an unchanged document regenerates the same sheet and
   * assigns no new id: ids are stable across re-renders.
   */
  lemma RenderAllIdempotent(sels: seq<SelectorData>, props: Props, dom: Dom, t: Tagging)
    ensures var o := RenderAll(sels, props, dom, t);
            RenderAll(sels, props, dom, o.after) == o
  {
    RenderAllStable(sels, props, dom, t, RenderAll(sels, props, dom, t).after);
  }

  /** A selector without rule sets still tags its elements and emits an empty body. */
  lemma EmptyRuleSetsEmptyBody(query: string, props: Props, e: Elem, i: nat, id: string)
    ensures RuleOf(SelectorData(query, None, []), props)(e, i, id) == AttrSelector(id) + "{}"
  {
  }
}
