/**
 * camelToDash (src/camelToDash.ts): turns a camel-cased style property name
 * into its hyphenated CSS form, one character at a time.
 * Case mapping is modelled for ASCII only.
 */
module CamelToDash {

  /** The characters whose `toLowerCase()` differs from themselves (ASCII). */
  predicate IsUpper(c: char) {
    'A' <= c <= 'Z'
  }

  /** `String.prototype.toLowerCase` on one ASCII character. */
  function ToLower(c: char): (r: char)
    ensures !IsUpper(r)
    ensures r == c <==> !IsUpper(c)
    ensures IsUpper(c) ==> r as int == c as int + 32
  {
    if IsUpper(c) then (c as int + 32) as char else c
  }

  /** What the loop body appends for one input character. */
  function DashChar(c: char): (r: string)
    ensures IsUpper(c) ==> r == ['-', ToLower(c)]
    ensures !IsUpper(c) ==> r == [c]
  {
    (if ToLower(c) != c then "-" else "") + [ToLower(c)]
  }

  /** The conversion, as the value the loop has built after reading all of `s`. */
  function Dashed(s: string): string
  {
    if s == [] then [] else Dashed(s[..|s| - 1]) + DashChar(s[|s| - 1])
  }

  function CountUpper(s: string): nat
  {
    if s == [] then 0 else CountUpper(s[..|s| - 1]) + (if IsUpper(s[|s| - 1]) then 1 else 0)
  }

  predicate NoUpper(s: string) {
    forall i :: 0 <= i < |s| ==> !IsUpper(s[i])
  }

  /** The conversion distributes over concatenation. */
  lemma {:induction false} DashedAppend(a: string, b: string)
    ensures Dashed(a + b) == Dashed(a) + Dashed(b)
    decreases |b|
  {
    if b == [] {
      assert a + b == a;
    } else {
      var b' := b[..|b| - 1];
      assert (a + b)[..|a + b| - 1] == a + b';
      assert (a + b)[|a + b| - 1] == b[|b| - 1];
      DashedAppend(a, b');
    }
  }

  /** Read left to right: the first character's replacement comes first. */
  lemma DashedCons(c: char, s: string)
    ensures Dashed([c] + s) == DashChar(c) + Dashed(s)
  {
    DashedAppend([c], s);
    assert [c][..0] == [];
  }

  /** Output length is input length plus one hyphen per upper-case letter. */
  lemma {:induction false} DashedLength(s: string)
    ensures |Dashed(s)| == |s| + CountUpper(s)
  {
    if s != [] {
      DashedLength(s[..|s| - 1]);
    }
  }

  lemma {:induction false} CountUpperZero(s: string)
    ensures CountUpper(s) == 0 <==> NoUpper(s)
  {
    if s != [] {
      var s' := s[..|s| - 1];
      CountUpperZero(s');
      assert NoUpper(s) ==> NoUpper(s');
      assert NoUpper(s') && !IsUpper(s[|s| - 1]) ==> NoUpper(s);
    }
  }

  /** The output never contains an upper-case letter. */
  lemma {:induction false} DashedNoUpper(s: string)
    ensures NoUpper(Dashed(s))
  {
    if s != [] {
      DashedNoUpper(s[..|s| - 1]);
    }
  }

  /** A name is left unchanged exactly when it has no upper-case letter. */
  lemma {:induction false} DashedFixedPoint(s: string)
    ensures Dashed(s) == s <==> NoUpper(s)
  {
    if NoUpper(s) {
      if s != [] {
        var s' := s[..|s| - 1];
        assert NoUpper(s');
        DashedFixedPoint(s');
        assert s' + [s[|s| - 1]] == s;
      }
    } else {
      DashedLength(s);
      CountUpperZero(s);
    }
  }

  /** Converting twice gives the same as converting once. */
  lemma DashedIdempotent(s: string)
    ensures Dashed(Dashed(s)) == Dashed(s)
  {
    DashedNoUpper(s);
    DashedFixedPoint(Dashed(s));
  }

  /** A leading capital also gets a hyphen. */
  lemma DashedLeadingUpper(s: string)
    requires |s| > 0 && IsUpper(s[0])
    ensures |Dashed(s)| >= 2 && Dashed(s)[..2] == ['-', ToLower(s[0])]
  {
    assert s == [s[0]] + s[1..];
    DashedCons(s[0], s[1..]);
  }

  /** A lower-case head followed by one capitalised word. */
  lemma DashedTwoWords(head: string, c: char, tail: string)
    requires NoUpper(head) && NoUpper(tail) && IsUpper(c)
    ensures Dashed(head + [c] + tail) == head + ['-', ToLower(c)] + tail
  {
    DashedAppend(head + [c], tail);
    DashedAppend(head, [c]);
    DashedFixedPoint(head);
    DashedFixedPoint(tail);
    assert [c][..0] == [];
  }

  /** Property names from the example stylesheet: one inner capital. */
  lemma DashedCamelExamples()
    ensures Dashed("fontFamily") == "font-family"
    ensures Dashed("backgroundColor") == "background-color"
  {
    assert "fontFamily" == "font" + ['F'] + "amily";
    DashedTwoWords("font", 'F', "amily");
    assert "font" + ['-', 'f'] + "amily" == "font-family";
    assert "backgroundColor" == "background" + ['C'] + "olor";
    DashedTwoWords("background", 'C', "olor");
    assert "background" + ['-', 'c'] + "olor" == "background-color";
  }

  lemma DashedVendorTail()
    ensures Dashed("ebkitTransform") == "ebkit-transform"
  {
    assert "ebkitTransform" == "ebkit" + ['T'] + "ransform";
    DashedTwoWords("ebkit", 'T', "ransform");
    assert "ebkit" + ['-', 't'] + "ransform" == "ebkit-transform";
  }

  /** A leading capital gets a hyphen too. */
  lemma DashedVendorExample()
    ensures Dashed("WebkitTransform") == "-webkit-transform"
  {
    assert "WebkitTransform" == ['W'] + "ebkitTransform";
    DashedCons('W', "ebkitTransform");
    assert DashChar('W') == "-w";
    DashedVendorTail();
    assert "-w" + "ebkit-transform" == "-webkit-transform";
  }

  /** Names without capitals, already dashed or not, map to themselves. */
  lemma DashedLowerExamples()
    ensures Dashed("color") == "color"
    ensures Dashed("background-color") == "background-color"
  {
    DashedFixedPoint("color");
    DashedFixedPoint("background-color");
  }

  /** camelToDash(camel): the loop of src/camelToDash.ts. */
  method CamelToDash(camel: string) returns (dash: string)
    ensures dash == Dashed(camel)
    ensures |dash| == |camel| + CountUpper(camel)
    ensures NoUpper(dash)
  {
    dash := "";
    for i := 0 to |camel|
      invariant dash == Dashed(camel[..i])
    {
      var ch := camel[i];
      if ToLower(ch) != ch {
        dash := dash + "-";
      }
      dash := dash + [ToLower(ch)];
      assert camel[..i + 1][..i] == camel[..i];
    }
    assert camel[..|camel|] == camel;
    DashedLength(camel);
    DashedNoUpper(camel);
  }
}
