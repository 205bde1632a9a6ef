/**
 * `selectRows`: look the rows up by key and value, unwrapping a single match
 * unless an array was asked for.
 */
module SelectRows {
  import opened Results
  import opened Values
  import opened Selectors

  /** `selectRows(selector, key, value, outputType)` applied to the rows the
      selector yields, as written: the third guard tests `key` again, which the
      second guard has already made a string, so an undefined `value` is never
      refused. `arrayOutput` is `outputType === Array`. */
  function SelectRows(selector: SelectorArg, key: KeyArg, value: Value, arrayOutput: bool, rows: seq<Entity>)
    : (r: Result<Selected, SelectorError>)
    ensures !selector.FunctionSelector? ==> r == Failure(SelectorNotFunction)
    ensures selector.FunctionSelector? && !key.StringKey? ==> r == Failure(KeyNotString)
    ensures selector.FunctionSelector? && key.StringKey? ==>
      var found := Matches(rows, key.name, value);
      && (found == [] <==> r == Success(Nothing))
      && (|found| == 1 && !arrayOutput ==> r == Success(Row(found[0])))
      && (|found| == 1 && arrayOutput ==> r == Success(Rows(found)))
      && (|found| >= 2 ==> r == Success(Rows(found)))
  {
    if !selector.FunctionSelector? then Failure(SelectorNotFunction)
    else if !key.StringKey? then Failure(KeyNotString)
    else if key.UndefinedKey? then Failure(ValueUndefined)
    else
      match Group(rows, key.name, value)
      case None => Success(Nothing)
      case Some(result) =>
        if |result| == 1 && !arrayOutput then Success(Row(result[0])) else Success(Rows(result))
  }

  /** The guard meant for `value` never fires: with an undefined value the
      lookup goes ahead, and returns the rows that lack the key. */
  lemma SelectRowsAcceptsUndefinedValue(key: string, rows: seq<Entity>)
    ensures SelectRows(FunctionSelector, StringKey(key), Undefined, true, rows).Success?
    ensures SelectRows(FunctionSelector, StringKey(key), Undefined, true, [map[]]) == Success(Rows([map[]]))
  {
    var empty: Entity := map[];
    assert Matches([empty], key, Undefined) == [empty] by {
      assert Lookup(empty, key) == Undefined;
      assert [empty][1..] == [];
    }
  }

  /** `selectRows` with the third guard testing `value`, as its error message
      says it should. */
  function SelectRowsChecked(selector: SelectorArg, key: KeyArg, value: Value, arrayOutput: bool, rows: seq<Entity>)
    : (r: Result<Selected, SelectorError>)
    ensures r.Failure? <==> !selector.FunctionSelector? || !key.StringKey? || value.Undefined?
    ensures selector.FunctionSelector? && key.StringKey? && value.Undefined? ==> r == Failure(ValueUndefined)
    ensures !value.Undefined? ==> r == SelectRows(selector, key, value, arrayOutput, rows)
  {
    if !selector.FunctionSelector? then Failure(SelectorNotFunction)
    else if !key.StringKey? then Failure(KeyNotString)
    else if value.Undefined? then Failure(ValueUndefined)
    else
      match Group(rows, key.name, value)
      case None => Success(Nothing)
      case Some(result) =>
        if |result| == 1 && !arrayOutput then Success(Row(result[0])) else Success(Rows(result))
  }
}
