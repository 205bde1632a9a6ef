/**
 * `extendRows`: a left join. Every row of the first collection is copied and
 * given, under `destKey`, the last row of the second collection that the
 * predicate pairs it with. The selector helpers export the same code.
 */
module ExtendRows {
  import opened Results
  import opened Values
  import opened Seqs
  import opened Selectors

  const BadExtendRows := "Bad arguments for `extendRows`"

  /** `predicate(row1, key1, row2, key2)`. */
  type JoinPredicate = (Entity, string, Entity, string) -> bool

  /** The optional predicate argument: omitted, a function, or another value. */
  datatype PredicateArg = NoPredicate | PredicateFunction(f: JoinPredicate) | NonFunctionPredicate

  predicate ValidArguments(selector1: SelectorArg, key1: KeyArg, selector2: SelectorArg, key2: KeyArg,
                           destKey: KeyArg, pred: PredicateArg)
  {
    selector1.FunctionSelector? && selector2.FunctionSelector? &&
    key1.StringKey? && key2.StringKey? && destKey.StringKey? && !pred.NonFunctionPredicate?
  }

  /** The default pairing: `Number(row1[key1]) === Number(row2[key2])`. */
  function DefaultJoin(row1: Entity, key1: string, row2: Entity, key2: string): (r: bool)
    ensures r ==> key1 in row1 && key2 in row2
    ensures r <==> NumericEquals(Lookup(row2, key2), Lookup(row1, key1))
  {
    NumericEqualsIsPartialEquivalence(Lookup(row1, key1), Lookup(row2, key2), Lookup(row1, key1));
    NumericEqualsIsPartialEquivalence(Lookup(row2, key2), Lookup(row1, key1), Lookup(row2, key2));
    NumericEquals(Lookup(row1, key1), Lookup(row2, key2))
  }

  /** The pairing in force: the given predicate, or the default when none is given. */
  function PairingOf(pred: PredicateArg): JoinPredicate
    requires !pred.NonFunctionPredicate?
  {
    match pred
    case NoPredicate => DefaultJoin
    case PredicateFunction(f) => f
  }

  function PairsWith(row1: Entity, key1: string, key2: string, p: JoinPredicate): Entity -> bool
  {
    row2 => p(row1, key1, row2, key2)
  }

  /** `rows2.filter(row2 => predicate(row1, key1, row2, key2)).pop()`, as the value
      stored under `destKey`. */
  function Partner(row1: Entity, key1: string, rows2: seq<Entity>, key2: string, p: JoinPredicate): (v: Value)
    ensures v == Undefined <==> forall j :: 0 <= j < |rows2| ==> !p(row1, key1, rows2[j], key2)
    ensures v.Obj? || v == Undefined
    ensures v.Obj? ==>
      exists j :: 0 <= j < |rows2| && rows2[j] == v.fields && p(row1, key1, rows2[j], key2) &&
        forall j' :: j < j' < |rows2| ==> !p(row1, key1, rows2[j'], key2)
  {
    LastOfFilter(rows2, PairsWith(row1, key1, key2, p));
    match Last(Filter(rows2, PairsWith(row1, key1, key2, p)))
    case None => Undefined
    case Some(row2) => Obj(row2)
  }

  /** `extendRows(selector1, key1, selector2, key2, destKey, pred)` applied
      to the rows the two selectors yield. */
  function ExtendRows(selector1: SelectorArg, key1: KeyArg, selector2: SelectorArg, key2: KeyArg,
                      destKey: KeyArg, pred: PredicateArg, rows1: seq<Entity>, rows2: seq<Entity>)
    : (r: Selected)
    ensures r.Text? <==> !ValidArguments(selector1, key1, selector2, key2, destKey, pred)
    ensures r.Text? || r.Rows?
    ensures r.Text? ==> r.text == BadExtendRows
    ensures r.Rows? ==>
      && |r.rows| == |rows1|
      && forall i :: 0 <= i < |rows1| ==>
           && r.rows[i].Keys == rows1[i].Keys + {destKey.name}
           && (forall k :: k in rows1[i] && k != destKey.name ==> r.rows[i][k] == rows1[i][k])
           && r.rows[i][destKey.name] == Partner(rows1[i], key1.name, rows2, key2.name, PairingOf(pred))
  {
    if !ValidArguments(selector1, key1, selector2, key2, destKey, pred) then Text(BadExtendRows)
    else
      var p := PairingOf(pred);
      Rows(seq(|rows1|, i requires 0 <= i < |rows1| =>
        rows1[i][destKey.name := Partner(rows1[i], key1.name, rows2, key2.name, p)]))
  }

  /** Without a predicate, a row is paired with the last row whose `key2` is
      numerically equal to its `key1`; a row with no such partner gets `undefined`. */
  lemma DefaultPairingIsNumericEquality(row1: Entity, key1: string, rows2: seq<Entity>, key2: string)
    ensures Partner(row1, key1, rows2, key2, PairingOf(NoPredicate)) == Undefined <==>
      forall j :: 0 <= j < |rows2| ==> !NumericEquals(Lookup(row1, key1), Lookup(rows2[j], key2))
    ensures key1 !in row1 ==> Partner(row1, key1, rows2, key2, PairingOf(NoPredicate)) == Undefined
  {
  }
}
