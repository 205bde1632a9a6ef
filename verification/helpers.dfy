/**
 * `selectRow` from the selector helpers. The deprecated `selectRow` exported
 * by the filterRows and selectRows modules is the same code preceded by a
 * deprecation notice on the console, so this definition models all three.
 */
module Helpers {
  import opened Results
  import opened Values
  import opened Selectors

  const BadSelectRow := "Bad arguments for `selectRow`"

  /** `selectRow(selector, key, value)` applied to the rows the selector yields.
      A `None` key is an undefined key. */
  function SelectRow(selector: SelectorArg, key: Option<string>, value: Value, rows: seq<Entity>)
    : (r: Result<Selected, SelectorError>)
    ensures selector.UndefinedSelector? || key.None? || value.Undefined? ==> r == Success(Text(BadSelectRow))
    ensures selector.NonFunctionSelector? && key.Some? && !value.Undefined? ==> r == Failure(SelectorNotCallable)
    ensures selector.FunctionSelector? && key.Some? && !value.Undefined? ==>
      var found := Matches(rows, key.value, value);
      && (r == Success(Nothing) <==> found == [])
      && (|found| == 1 ==> r == Success(Row(found[0])))
      && (|found| >= 2 ==> r == Success(Rows(found)))
  {
    if selector.UndefinedSelector? || key.None? || value.Undefined? then Success(Text(BadSelectRow))
    else if selector.NonFunctionSelector? then Failure(SelectorNotCallable)
    else
      match Group(rows, key.value, value)
      case None => Success(Nothing)
      case Some(result) => if |result| == 1 then Success(Row(result[0])) else Success(Rows(result))
  }
}
