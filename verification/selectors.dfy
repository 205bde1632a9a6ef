/**
 * What the row selectors share: how their arguments look to the guards, what
 * a selector yields, and `_.groupBy(rows, key)[value]`.
 *
 * A selector is modelled by the rows it yields: each combinator takes those
 * rows as a parameter, and the selector argument itself only matters to the
 * guards that check whether it is a function.
 */
module Selectors {
  import opened Results
  import opened Values
  import opened Seqs

  /** A selector argument: `undefined`, a function, or some other value. */
  datatype SelectorArg = UndefinedSelector | FunctionSelector | NonFunctionSelector

  /** A key argument: `undefined`, a string, or some other value. */
  datatype KeyArg = UndefinedKey | StringKey(name: string) | NonStringKey

  datatype SelectorError =
    | SelectorNotFunction  // "`selector` should be a function."
    | KeyNotString         // "`key` should be a string."
    | ValueUndefined       // "`value` should be defined."
    | MoreThanOneRow       // "Your selector should not return more than 1 row."
    | SelectorNotCallable  // the TypeError thrown by calling a selector that is not a function

  /** What a selector yields: `undefined`, one row, an array of rows, or a string. */
  datatype Selected = Nothing | Row(row: Entity) | Rows(rows: seq<Entity>) | Text(text: string)

  /** Is `row` filed under `value` when the rows are grouped by `key`? */
  function FiledUnder(key: string, value: Value): Entity -> bool
  {
    row => PropertyKey(Lookup(row, key)) == PropertyKey(value)
  }

  /** The rows filed under `value`, in their original order. */
  function Matches(rows: seq<Entity>, key: string, value: Value): (r: seq<Entity>)
    ensures forall i :: 0 <= i < |r| ==> r[i] in rows && PropertyKey(Lookup(r[i], key)) == PropertyKey(value)
    ensures forall i :: 0 <= i < |rows| && PropertyKey(Lookup(rows[i], key)) == PropertyKey(value) ==> rows[i] in r
  {
    FilterMembers(rows, FiledUnder(key, value));
    Filter(rows, FiledUnder(key, value))
  }

  /** `_.groupBy(rows, key)[value]`: the group of rows filed under `value`, which
      is absent (`undefined`) rather than empty when no row is. */
  function Group(rows: seq<Entity>, key: string, value: Value): (r: Option<seq<Entity>>)
    ensures r.None? <==> forall i :: 0 <= i < |rows| ==> PropertyKey(Lookup(rows[i], key)) != PropertyKey(value)
    ensures r.Some? ==> r.value == Matches(rows, key, value) && |r.value| > 0
  {
    var g := Matches(rows, key, value);
    if g == [] then None
    else
      assert g[0] in rows && PropertyKey(Lookup(g[0], key)) == PropertyKey(value);
      assert exists i :: 0 <= i < |rows| && rows[i] == g[0];
      Some(g)
  }

  /** Grouping files keys by their string form, so a row whose key holds a
      number is found under that number's string (the number 1 under "1", -1
      under "-1"), and a row lacking the key is found under `undefined`. */
  lemma GroupComparesStringForms(rows: seq<Entity>, key: string, i: nat)
    requires i < |rows|
    ensures Lookup(rows[i], key).Num? ==>
      rows[i] in Matches(rows, key, Str(PropertyKey(Lookup(rows[i], key))))
    ensures Lookup(rows[i], key).Num? && Lookup(rows[i], key).n >= 0 ==>
      rows[i] in Matches(rows, key, Str(NatToDecimal(Lookup(rows[i], key).n)))
    ensures key !in rows[i] ==> rows[i] in Matches(rows, key, Undefined)
  {
  }
}
