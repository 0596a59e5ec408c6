/** JavaScript value semantics that the handlers lean on: `undefined`, truthiness of
    request fields, and the two `includes` methods (on arrays and on strings). */
module JsValues {

  /** A value that may be `undefined` (or `null`) in JavaScript. */
  datatype Option<+T> = None | Some(value: T)

  /** `!x` for a request field that is either missing or a string: missing values
      and the empty string are falsy, every other string is truthy. */
  predicate Falsy(x: Option<string>)
  {
    x.None? || x.value == ""
  }

  /** `Array.prototype.includes` on an array of strings (SameValueZero is plain
      equality for strings). */
  predicate ArrayIncludes(items: seq<string>, x: string)
  {
    x in items
  }

  /** `pat` occurs in `text` at position `i`. */
  predicate OccursAt(text: string, pat: string, i: int)
  {
    0 <= i && i + |pat| <= |text| && text[i..i + |pat|] == pat
  }

  /** `String.prototype.includes`: a left-to-right scan for `pat` inside `text`. */
  function StringIncludes(text: string, pat: string): (r: bool)
    ensures r <==> exists i :: OccursAt(text, pat, i)
    decreases |text|
  {
    if |pat| <= |text| && text[..|pat|] == pat then
      assert OccursAt(text, pat, 0);
      true
    else if |text| == 0 then
      assert forall i :: !OccursAt(text, pat, i);
      false
    else
      var rest := StringIncludes(text[1..], pat);
      assert forall i :: OccursAt(text[1..], pat, i) <==> OccursAt(text, pat, i + 1);
      assert !OccursAt(text, pat, 0);
      assert forall i :: OccursAt(text, pat, i) ==> i == 0 || OccursAt(text[1..], pat, i - 1);
      rest
  }
}
