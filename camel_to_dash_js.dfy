/**
 * camelToDash (src/camelToDash.js): the plain-JavaScript twin of the
 * TypeScript helper. Its parameter defaults to "" when the caller passes
 * nothing; `None` stands for that missing argument.
 */
module CamelToDashJs {
  import opened Wrappers
  import opened CamelToDash

  /** The string the function works on once the default parameter is applied. */
  function Argument(camel: Option<string>): string
  {
    match camel
    case None => ""
    case Some(s) => s
  }

  method CamelToDashDefault(camel: Option<string>) returns (dash: string)
    ensures camel.None? ==> dash == ""
    ensures camel.Some? ==> dash == Dashed(camel.value)
    ensures |dash| == |Argument(camel)| + CountUpper(Argument(camel))
    ensures NoUpper(Argument(camel)) ==> dash == Argument(camel)
  {
    var s := Argument(camel);
    dash := "";
    for i := 0 to |s|
      invariant dash == Dashed(s[..i])
    {
      var ch := s[i];
      if ToLower(ch) != ch {
        dash := dash + "-";
      }
      dash := dash + [ToLower(ch)];
      assert s[..i + 1][..i] == s[..i];
    }
    assert s[..|s|] == s;
    DashedLength(s);
    DashedFixedPoint(s);
  }
}
