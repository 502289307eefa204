/**
 * Rule sets and the merged style object of src/index.ts: every hook of a
 * selector is evaluated for an element and the dictionaries it returns are
 * merged into one JavaScript object, keys passed through camelToDash.
 */
module Style {
  import opened Wrappers
  import opened CamelToDash

  /** A handle on a DOM element. */
  type Elem = nat

  /** The global property bag; values are modelled as text. */
  type Props = map<string, string>

  /** A style dictionary as a hook returns it, keys in enumeration order. */
  type Dict = seq<(string, string)>

  /** A style hook: called with the element, its index among the matches and the global props. */
  type Hook = (Elem, nat, Props) -> Dict

  /** class RuleSet (src/index.ts:4-16): holds one hook. */
  datatype RuleSet = RuleSet(hook: Hook)

  /** What `Selector.ruleset` accepts: a static dictionary or a hook. */
  datatype HookArg = StaticStyle(dict: Dict) | ComputedStyle(f: Hook)

  /** A static dictionary becomes a hook that returns it whatever it is called with. */
  function ToRuleSet(arg: HookArg): (r: RuleSet)
    ensures arg.StaticStyle? ==> forall e, i, p :: r.hook(e, i, p) == arg.dict
    ensures arg.ComputedStyle? ==> r.hook == arg.f
  {
    match arg
    case StaticStyle(d) => RuleSet((e: Elem, i: nat, p: Props) => d)
    case ComputedStyle(f) => RuleSet(f)
  }

  /**
   * The `style` object being built: a JavaScript object, so each key sits
   * where it was first inserted and holds the value written last.
   */
  type Style = seq<(string, string)>

  function KeysOf(s: Style): seq<string>
  {
    seq(|s|, i requires 0 <= i < |s| => s[i].0)
  }

  predicate DistinctKeys(s: Style) {
    forall i, j :: 0 <= i < j < |s| ==> s[i].0 != s[j].0
  }

  /** Position of key `k` in `s`, or `|s|` when it is absent. */
  function Find(s: Style, k: string): (r: nat)
    ensures r <= |s|
    ensures r < |s| ==> s[r].0 == k
    ensures forall i :: 0 <= i < r ==> s[i].0 != k
  {
    if s == [] then 0 else if s[0].0 == k then 0 else 1 + Find(s[1..], k)
  }

  /** `style[k]`. */
  function Lookup(s: Style, k: string): Option<string>
  {
    var j := Find(s, k);
    if j < |s| then Some(s[j].1) else None
  }

  lemma LookupSameKeys(s: Style, t: Style, k: string)
    requires KeysOf(s) == KeysOf(t)
    ensures Find(s, k) == Find(t, k)
  {
    assert |s| == |KeysOf(s)| == |t|;
    assert forall i :: 0 <= i < |s| ==> s[i].0 == KeysOf(s)[i] == KeysOf(t)[i] == t[i].0;
  }

  /** Property assignment on the style object (src/index.ts:72): overwrite in place, or append a new key. */
  function Put(s: Style, k: string, v: string): Style
  {
    var j := Find(s, k);
    if j < |s| then s[j := (k, v)] else s + [(k, v)]
  }

  /**
   * An assignment: `k` now holds `v`, no other key changes, an existing key
   * keeps its position and a new key goes at the end.
   */
  lemma PutSpec(s: Style, k: string, v: string)
    ensures DistinctKeys(s) ==> DistinctKeys(Put(s, k, v))
    ensures Lookup(Put(s, k, v), k) == Some(v)
    ensures forall k' :: k' != k ==> Lookup(Put(s, k, v), k') == Lookup(s, k')
    ensures Lookup(s, k).Some? ==> KeysOf(Put(s, k, v)) == KeysOf(s)
    ensures Lookup(s, k).None? ==> KeysOf(Put(s, k, v)) == KeysOf(s) + [k]
  {
    var j := Find(s, k);
    var r := Put(s, k, v);
    if j < |s| {
      assert KeysOf(r) == KeysOf(s);
      LookupSameKeys(s, r, k);
      forall k' | k' != k ensures Lookup(r, k') == Lookup(s, k') {
        LookupSameKeys(s, r, k');
      }
    } else {
      assert KeysOf(r) == KeysOf(s) + [k];
      assert forall i :: 0 <= i < |s| ==> r[i] == s[i];
      assert r[|s|].0 == k;
      assert Find(r, k) == |s|;
      forall k' | k' != k ensures Lookup(r, k') == Lookup(s, k') {
        var a := Find(s, k');
        if a < |s| {
          assert r[a] == s[a];
        } else {
          assert r[|s|].0 != k';
        }
      }
    }
  }

  /** Assign every entry of `d` in turn, in order (src/index.ts:70-73). */
  function PutAll(s: Style, d: Dict): Style
  {
    if d == [] then s else Put(PutAll(s, d[..|d| - 1]), d[|d| - 1].0, d[|d| - 1].1)
  }

  /** The value of the last entry of `d` with key `k`. */
  function LastWrite(d: Dict, k: string): Option<string>
  {
    if d == [] then None
    else if d[|d| - 1].0 == k then Some(d[|d| - 1].1)
    else LastWrite(d[..|d| - 1], k)
  }

  /** `d` with every key passed through camelToDash. */
  function DashKeys(d: Dict): Dict
  {
    seq(|d|, i requires 0 <= i < |d| => (Dashed(d[i].0), d[i].1))
  }

  /** After assigning `d`, a key holds its last value in `d`, or its old value when `d` lacks it. */
  lemma {:induction false} PutAllLookup(s: Style, d: Dict, k: string)
    ensures Lookup(PutAll(s, d), k) == if LastWrite(d, k).Some? then LastWrite(d, k) else Lookup(s, k)
  {
    if d != [] {
      PutAllLookup(s, d[..|d| - 1], k);
      PutSpec(PutAll(s, d[..|d| - 1]), d[|d| - 1].0, d[|d| - 1].1);
    }
  }

  /** Assignment never creates a second entry for a key. */
  lemma {:induction false} PutAllDistinct(s: Style, d: Dict)
    requires DistinctKeys(s)
    ensures DistinctKeys(PutAll(s, d))
  {
    if d != [] {
      PutAllDistinct(s, d[..|d| - 1]);
      PutSpec(PutAll(s, d[..|d| - 1]), d[|d| - 1].0, d[|d| - 1].1);
    }
  }

  /** Keys already present keep their positions; new keys go at the end. */
  lemma {:induction false} PutAllKeepsOrder(s: Style, d: Dict)
    ensures KeysOf(s) <= KeysOf(PutAll(s, d))
  {
    if d != [] {
      PutAllKeepsOrder(s, d[..|d| - 1]);
      PutSpec(PutAll(s, d[..|d| - 1]), d[|d| - 1].0, d[|d| - 1].1);
    }
  }

  lemma {:induction false} PutAllAppend(s: Style, d1: Dict, d2: Dict)
    ensures PutAll(s, d1 + d2) == PutAll(PutAll(s, d1), d2)
    decreases |d2|
  {
    if d2 == [] {
      assert d1 + d2 == d1;
    } else {
      var d2' := d2[..|d2| - 1];
      assert (d1 + d2)[..|d1 + d2| - 1] == d1 + d2';
      assert (d1 + d2)[|d1 + d2| - 1] == d2[|d2| - 1];
      PutAllAppend(s, d1, d2');
    }
  }

  /** The merged style of one element: every rule set's dictionary, in registration order. */
  function MergedStyle(rs: seq<RuleSet>, e: Elem, i: nat, p: Props): Style
  {
    if rs == [] then []
    else PutAll(MergedStyle(rs[..|rs| - 1], e, i, p), DashKeys(rs[|rs| - 1].hook(e, i, p)))
  }

  /** Everything the hooks return for one element, one dictionary after the other. */
  function AllEntries(rs: seq<RuleSet>, e: Elem, i: nat, p: Props): Dict
  {
    if rs == [] then [] else AllEntries(rs[..|rs| - 1], e, i, p) + rs[|rs| - 1].hook(e, i, p)
  }

  lemma DashKeysAppend(d1: Dict, d2: Dict)
    ensures DashKeys(d1 + d2) == DashKeys(d1) + DashKeys(d2)
  {
  }

  /** Merging rule set by rule set is the same as assigning all returned entries in one go. */
  lemma {:induction false} MergedStyleFlat(rs: seq<RuleSet>, e: Elem, i: nat, p: Props)
    ensures MergedStyle(rs, e, i, p) == PutAll([], DashKeys(AllEntries(rs, e, i, p)))
  {
    if rs != [] {
      var rs' := rs[..|rs| - 1];
      MergedStyleFlat(rs', e, i, p);
      DashKeysAppend(AllEntries(rs', e, i, p), rs[|rs| - 1].hook(e, i, p));
      PutAllAppend([], DashKeys(AllEntries(rs', e, i, p)), DashKeys(rs[|rs| - 1].hook(e, i, p)));
    }
  }

  /**
   * Last write wins per dashed property name: the merged style has one entry
   * per name, holding the value of the last returned entry whose key dashes to it.
   */
  lemma MergedStyleLastWins(rs: seq<RuleSet>, e: Elem, i: nat, p: Props)
    ensures DistinctKeys(MergedStyle(rs, e, i, p))
    ensures forall k :: Lookup(MergedStyle(rs, e, i, p), k) == LastWrite(DashKeys(AllEntries(rs, e, i, p)), k)
  {
    MergedStyleFlat(rs, e, i, p);
    PutAllDistinct([], DashKeys(AllEntries(rs, e, i, p)));
    forall k ensures Lookup(MergedStyle(rs, e, i, p), k) == LastWrite(DashKeys(AllEntries(rs, e, i, p)), k) {
      PutAllLookup([], DashKeys(AllEntries(rs, e, i, p)), k);
    }
  }

  /** `backgroundColor` then `background-color`: one `background-color` entry, the later value. */
  lemma MergedStyleCollision(e: Elem, i: nat, p: Props)
    ensures MergedStyle([ToRuleSet(StaticStyle([("backgroundColor", "red")])),
                         ToRuleSet(StaticStyle([("background-color", "blue")]))], e, i, p)
         == [("background-color", "blue")]
  {
    DashedCamelExamples();
    DashedLowerExamples();
    var d1, d2 := [("backgroundColor", "red")], [("background-color", "blue")];
    var rs := [ToRuleSet(StaticStyle(d1)), ToRuleSet(StaticStyle(d2))];
    assert rs[..1][..0] == [];
    assert rs[..1][0].hook(e, i, p) == d1;
    assert rs[1].hook(e, i, p) == d2;
    var red := [("background-color", "red")];
    assert DashKeys(d1) == red;
    assert DashKeys(d2) == [("background-color", "blue")];
    assert red[..0] == [];
    assert MergedStyle(rs[..1], e, i, p) == Put([], "background-color", "red") == red;
    assert Find(red, "background-color") == 0;
    assert [("background-color", "blue")][..0] == [];
    assert MergedStyle(rs, e, i, p) == Put(red, "background-color", "blue");
  }

  /** The merge loops of `Selector.render` for one element. */
  method BuildStyle(rs: seq<RuleSet>, node: Elem, i: nat, props: Props) returns (style: Style)
    ensures style == MergedStyle(rs, node, i, props)
    ensures DistinctKeys(style)
  {
    style := [];
    for r := 0 to |rs|
      invariant style == MergedStyle(rs[..r], node, i, props)
    {
      var dict := rs[r].hook(node, i, props);
      ghost var before := style;
      for j := 0 to |dict|
        invariant style == PutAll(before, DashKeys(dict[..j]))
      {
        var key := CamelToDash.CamelToDash(dict[j].0);
        style := Put(style, key, dict[j].1);
        assert DashKeys(dict[..j + 1])[..j] == DashKeys(dict[..j]);
      }
      assert dict[..|dict|] == dict;
      assert rs[..r + 1][..r] == rs[..r];
    }
    assert rs[..|rs|] == rs;
    MergedStyleLastWins(rs, node, i, props);
  }
}
