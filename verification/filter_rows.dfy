/**
 * `filterRow` and `filterRows`: look the rows up by key and value after
 * checking the arguments; an invalid argument is an error, and `filterRow`
 * refuses more than one match.
 */
module FilterRows {
  import opened Results
  import opened Values
  import opened Selectors

  /** `checkInput`: the first failing guard, or `None` when the arguments pass. */
  function CheckInput(selector: SelectorArg, key: KeyArg, value: Value): (r: Option<SelectorError>)
    ensures r.None? <==> selector.FunctionSelector? && key.StringKey? && !value.Undefined?
    ensures !selector.FunctionSelector? ==> r == Some(SelectorNotFunction)
    ensures selector.FunctionSelector? && !key.StringKey? ==> r == Some(KeyNotString)
    ensures selector.FunctionSelector? && key.StringKey? && value.Undefined? ==> r == Some(ValueUndefined)
  {
    if !selector.FunctionSelector? then Some(SelectorNotFunction)
    else if !key.StringKey? then Some(KeyNotString)
    else if value.Undefined? then Some(ValueUndefined)
    else None
  }

  /** `filterRow(selector, key, value)` applied to the rows the selector yields:
      the empty record when nothing matches, the row when one does, an error
      when several do. */
  function FilterRow(selector: SelectorArg, key: KeyArg, value: Value, rows: seq<Entity>)
    : (r: Result<Entity, SelectorError>)
    ensures CheckInput(selector, key, value).Some? ==> r == Failure(CheckInput(selector, key, value).value)
    ensures CheckInput(selector, key, value).None? ==>
      var found := Matches(rows, key.name, value);
      && (found == [] ==> r == Success(map[]))
      && (|found| == 1 ==> r == Success(found[0]))
      && (r.Failure? <==> |found| >= 2)
      && (r.Failure? ==> r.error == MoreThanOneRow)
  {
    match CheckInput(selector, key, value)
    case Some(e) => Failure(e)
    case None =>
      match Group(rows, key.name, value)
      case None => Success(map[])
      case Some(results) =>
        if |results| == 1 then Success(results[0])
        else if |results| == 0 then Success(map[])
        else Failure(MoreThanOneRow)
  }

  /** `filterRows(selector, key, value)` applied to the rows the selector yields:
      every matching row in order, or the empty array. */
  function FilterRows(selector: SelectorArg, key: KeyArg, value: Value, rows: seq<Entity>)
    : (r: Result<seq<Entity>, SelectorError>)
    ensures CheckInput(selector, key, value).Some? ==> r == Failure(CheckInput(selector, key, value).value)
    ensures CheckInput(selector, key, value).None? ==> r == Success(Matches(rows, key.name, value))
  {
    match CheckInput(selector, key, value)
    case Some(e) => Failure(e)
    case None =>
      match Group(rows, key.name, value)
      case None => Success([])
      case Some(results) => Success(results)
  }

  /** The two variants agree whenever `filterRow` succeeds with a match:
      `filterRows` then yields exactly that one row. */
  lemma FilterRowIsSingletonOfFilterRows(selector: SelectorArg, key: KeyArg, value: Value, rows: seq<Entity>)
    requires FilterRows(selector, key, value, rows).Success?
    requires |FilterRows(selector, key, value, rows).value| <= 1
    ensures FilterRow(selector, key, value, rows).Success?
    ensures FilterRows(selector, key, value, rows).value == [] ||
            FilterRows(selector, key, value, rows).value == [FilterRow(selector, key, value, rows).value]
  {
  }
}
