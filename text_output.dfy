/**
 * Text results (OutputTextResult in the canvas view, print/wrapInTitle in the
 * older SVG renderer): a title that falls back to `result <i>`, and a value
 * shown in the error style when it is an error.
 */
module TextOutput {
  import opened Values

  /** JavaScript truthiness of an optional title: absent and "" are both falsy. */
  predicate Truthy(title: Option<string>) {
    title.Some? && title.value != ""
  }

  /** `result.title || \`result ${i}\`` */
  function DefaultTitle(title: Option<string>, i: nat): string {
    if Truthy(title) then title.value else "result " + NatToString(i)
  }

  /** A title block as OutputTextResult lays it out: the heading text, the value, and whether it gets the error style. */
  datatype TextBlock = TextBlock(heading: string, val: Value, isError: bool)

  /** OutputTextResult: heading `<title>: `, the value, error style exactly for error values. */
  function OutputTextResult(title: Option<string>, i: nat, val: Value): TextBlock {
    TextBlock(DefaultTitle(title, i) + ": ", val, val.Error?)
  }

  /**
   * A text result always carries a non-empty title: the given one when it is
   * truthy, and otherwise one that names its index, different for every index.
   */
  lemma DefaultTitleNamesResult(title: Option<string>, i: nat, j: nat)
    ensures DefaultTitle(title, i) != ""
    ensures Truthy(title) ==> DefaultTitle(title, i) == title.value
    ensures !Truthy(title) && i != j ==> DefaultTitle(title, i) != DefaultTitle(title, j)
  {
    if !Truthy(title) && i != j {
      var p := "result ";
      if DefaultTitle(title, i) == DefaultTitle(title, j) {
        assert NatToString(i) == DefaultTitle(title, i)[|p|..];
        assert NatToString(j) == DefaultTitle(title, j)[|p|..];
        NatToStringInjective(i, j);
      }
    }
  }
}
