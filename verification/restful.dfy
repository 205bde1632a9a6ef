/**
 * The restful reducer: one transition per HTTP verb over an ordered collection
 * of entities (`retrieve` for GET, `create` for POST, `updateOrCreate` for PUT,
 * `update` for PATCH, `delete_` for DELETE).
 *
 * The schema object the reducer builds entities with is a parameter `schema`:
 * `schema(fields, false)` stands for `new SchemaObject(fields).toObject()` and
 * `schema(fields, true)` for the same with `{setUndefined: true}`.
 * A thrown error is a `Failure`.
 */
module Restful {
  import opened Results
  import opened Values
  import opened Seqs
  import opened SortBy

  datatype RestError =
    | IdInBody   // create: "body should not provide an id when creating an entity."
    | MissingId  // updateOrCreate, update: "Params should provide an id when updating an entity."

  /** `predicate(entity, params, idKey)`: does the entity match the request? */
  type Predicate = (Entity, Entity, string) -> bool

  /** `new SchemaObject(fields, {setUndefined: fillNull}).toObject()`. */
  type Schema = (Entity, bool) -> Entity

  /** `defaultPredicate`: `Number(entity[idKey]) === Number(params[idKey])`. */
  function DefaultPredicate(entity: Entity, params: Entity, idKey: string): (r: bool)
    ensures r ==> idKey in entity && idKey in params
    ensures r <==> NumericEquals(Lookup(params, idKey), Lookup(entity, idKey))
  {
    NumericEqualsIsPartialEquivalence(Lookup(entity, idKey), Lookup(params, idKey), Lookup(entity, idKey));
    NumericEqualsIsPartialEquivalence(Lookup(params, idKey), Lookup(entity, idKey), Lookup(params, idKey));
    NumericEquals(Lookup(entity, idKey), Lookup(params, idKey))
  }

  /** The default predicate compares ids as numbers, so a string id matches the
      number it spells, a `null` id matches 0, and an entity without an id
      never matches. */
  lemma DefaultPredicateIsNumeric(entity: Entity, params: Entity, idKey: string)
    ensures idKey !in entity ==> !DefaultPredicate(entity, params, idKey)
    ensures DefaultPredicate(map[idKey := Null], map[idKey := Num(0)], idKey)
    ensures DefaultPredicate(map[idKey := Str("12")], map[idKey := Num(12)], idKey)
  {
    assert DecimalValue("12") == 12 by {
      assert "12"[..1] == "1";
      assert "1"[..0] == "";
    }
  }

  function Selects(params: Entity, idKey: string, pred: Predicate): Entity -> bool
  {
    e => pred(e, params, idKey)
  }

  /** The entities the request selects, in order. */
  function Matching(state: seq<Entity>, params: Entity, idKey: string, pred: Predicate): seq<Entity>
  {
    Filter(state, Selects(params, idKey, pred))
  }

  /** What `_.remove(copy, entity => predicate(entity, params, idKey))` leaves in the copy. */
  function Remaining(state: seq<Entity>, params: Entity, idKey: string, pred: Predicate): seq<Entity>
  {
    Filter(state, Not(Selects(params, idKey, pred)))
  }

  /** `state.filter(entity => predicate(entity, params, idKey)).pop()`. */
  function LastMatch(state: seq<Entity>, params: Entity, idKey: string, pred: Predicate): (r: Option<Entity>)
    ensures r.None? <==> forall i :: 0 <= i < |state| ==> !pred(state[i], params, idKey)
    ensures r.Some? ==>
      exists i :: 0 <= i < |state| && state[i] == r.value && pred(state[i], params, idKey) &&
        forall j :: i < j < |state| ==> !pred(state[j], params, idKey)
  {
    LastOfFilter(state, Selects(params, idKey, pred));
    Last(Matching(state, params, idKey, pred))
  }

  // ---------------------------------------------------------------- GET

  /** `retrieve`: the collection, stably sorted by id. */
  function Retrieve(state: seq<Entity>, idKey: string): (r: seq<Entity>)
    ensures Sorted(r, idKey)
    ensures multiset(r) == multiset(state)
    ensures forall k :: WithRank(r, idKey, k) == WithRank(state, idKey, k)
  {
    assert forall k :: WithRank(SortById(state, idKey), idKey, k) == WithRank(state, idKey, k) by {
      forall k ensures WithRank(SortById(state, idKey), idKey, k) == WithRank(state, idKey, k) {
        SortByIsStable(state, idKey, k);
      }
    }
    SortById(state, idKey)
  }

  /** GET places a `null` id after a string id and after a numeric id, even
      when the `null` id was stored first. */
  lemma RetrieveScenario(n: Entity, t: Entity, z: Entity)
    requires n == map["id" := Num(7)]
    requires t == map["id" := Str("a")]
    requires z == map["id" := Null]
    ensures Retrieve([z, t], "id") == [t, z]
    ensures Retrieve([z, n], "id") == [n, z]
  {
    assert Rank(z, "id") == NullId && Rank(t, "id") == TextId("a") && Rank(n, "id") == NumberId(7);
    RetrieveTwo(z, t, "id");
    RetrieveTwo(z, n, "id");
  }

  /** GET on two entities swaps them exactly when the first has the larger id. */
  lemma RetrieveTwo(a: Entity, c: Entity, idKey: string)
    ensures Retrieve([a, c], idKey) == if RankLe(Rank(a, idKey), Rank(c, idKey)) then [a, c] else [c, a]
  {
    assert Retrieve([a, c], idKey) == SortById([a] + [c], idKey) by {
      assert [a, c] == [a] + [c];
    }
    SortTwo(a, c, idKey);
  }

  // ---------------------------------------------------------------- POST

  /** `_.max(state.map(entity => entity[idKey]))` over the numeric ids;
      `None` when no entity has one. */
  function MaxId(state: seq<Entity>, idKey: string): (r: Option<int>)
    ensures r.None? <==> forall i :: 0 <= i < |state| ==> !Lookup(state[i], idKey).Num?
    ensures r.Some? ==> exists i :: 0 <= i < |state| && Lookup(state[i], idKey) == Num(r.value)
    ensures r.Some? ==> forall i :: 0 <= i < |state| && Lookup(state[i], idKey).Num? ==>
      Lookup(state[i], idKey).n <= r.value
  {
    if state == [] then None
    else
      var rest := MaxId(state[1..], idKey);
      assert forall i :: 1 <= i < |state| ==> state[i] == state[1..][i - 1];
      match Lookup(state[0], idKey)
      case Num(n) => if rest.Some? && rest.value > n then rest else Some(n)
      case _ => rest
  }

  /** The id `create` assigns: the largest id plus one, or `NaN`
      (`undefined + 1`) when no entity has a numeric id. */
  function NextId(state: seq<Entity>, idKey: string): (v: Value)
    ensures v == NaN <==> forall i :: 0 <= i < |state| ==> !Lookup(state[i], idKey).Num?
    ensures v.Num? || v == NaN
    ensures v.Num? ==> forall i :: 0 <= i < |state| && Lookup(state[i], idKey).Num? ==>
      Lookup(state[i], idKey).n < v.n
    ensures v.Num? ==> exists i :: 0 <= i < |state| && Lookup(state[i], idKey) == Num(v.n - 1)
  {
    match MaxId(state, idKey)
    case None => NaN
    case Some(m) => Num(m + 1)
  }

  /** The entity `create` adds: the body with the new id, through the schema. */
  function Created(state: seq<Entity>, body: Entity, schema: Schema, idKey: string): Entity
  {
    schema(body[idKey := NextId(state, idKey)], false)
  }

  /** `create`: refuses a body that names an id; otherwise adds one entity and
      re-sorts. */
  function Create(state: seq<Entity>, body: Entity, schema: Schema, idKey: string): (r: Result<seq<Entity>, RestError>)
    ensures r.Failure? <==> Truthy(Lookup(body, idKey))
    ensures r.Failure? ==> r.error == IdInBody
    ensures r.Success? ==> Sorted(r.value, idKey)
    ensures r.Success? ==> multiset(r.value) == multiset(state) + multiset{Created(state, body, schema, idKey)}
  {
    if Truthy(Lookup(body, idKey)) then Failure(IdInBody)
    else Success(SortById(state + [Created(state, body, schema, idKey)], idKey))
  }

  // ---------------------------------------------------------------- PUT

  /** The entity PUT hands to the schema when `existing` matches:
      `{...existing, ...body}` with every field of `existing` that the body does
      not resend, except the id, set to `null`. */
  function PutCandidate(existing: Entity, body: Entity, idKey: string): Entity
  {
    map k | k in existing.Keys + body.Keys ::
      if k in body then body[k] else if k == idKey then existing[k] else Null
  }

  /** PUT replaces: the body's fields win, every other field is nulled except
      the id, and no field appears that neither map had. */
  lemma PutCandidateFields(existing: Entity, body: Entity, idKey: string)
    ensures PutCandidate(existing, body, idKey).Keys == existing.Keys + body.Keys
    ensures forall k :: k in body ==> PutCandidate(existing, body, idKey)[k] == body[k]
    ensures forall k :: k in existing && k !in body && k != idKey ==> PutCandidate(existing, body, idKey)[k] == Null
    ensures idKey in existing && idKey !in body ==> PutCandidate(existing, body, idKey)[idKey] == existing[idKey]
  {
  }

  /** Resending the same body to the candidate changes nothing. */
  lemma PutCandidateIdempotent(existing: Entity, body: Entity, idKey: string)
    ensures PutCandidate(PutCandidate(existing, body, idKey), body, idKey) == PutCandidate(existing, body, idKey)
  {
  }

  /** Lines 107-118 of the PUT branch: spread, then write `null` field by field
      into every key of `existing` that the body does not resend. */
  method NullFill(existing: Entity, body: Entity, idKey: string) returns (updated: Entity)
    ensures updated == PutCandidate(existing, body, idKey)
  {
    updated := existing + body;
    var unsent := existing.Keys - body.Keys;
    while unsent != {}
      invariant unsent <= existing.Keys - body.Keys
      invariant updated.Keys == existing.Keys + body.Keys
      invariant forall k :: k in updated ==>
        updated[k] == if k in body then body[k] else if k == idKey || k in unsent then existing[k] else Null
      decreases unsent
    {
      var key :| key in unsent;
      if key != idKey {
        updated := updated[key := Null];
      }
      unsent := unsent - {key};
    }
  }

  /** `updateOrCreate` as a function of its inputs. */
  function Put(state: seq<Entity>, params: Entity, body: Entity, schema: Schema, idKey: string, pred: Predicate)
    : (r: Result<seq<Entity>, RestError>)
    ensures r.Failure? <==> !Truthy(Lookup(params, idKey))
    ensures r.Failure? ==> r.error == MissingId
  {
    if !Truthy(Lookup(params, idKey)) then Failure(MissingId)
    else
      match LastMatch(state, params, idKey, pred)
      case None => Success(state + [schema(body[idKey := Lookup(params, idKey)], false)])
      case Some(existing) =>
        Success(SortById(Remaining(state, params, idKey, pred) + [schema(PutCandidate(existing, body, idKey), true)], idKey))
  }

  /** PUT on an id nothing matches creates: the old state, unsorted, followed by
      one entity built from the body with the id taken from the params. */
  lemma PutWithoutMatchAppends(state: seq<Entity>, params: Entity, body: Entity, schema: Schema, idKey: string, pred: Predicate)
    requires Truthy(Lookup(params, idKey))
    requires forall i :: 0 <= i < |state| ==> !pred(state[i], params, idKey)
    ensures Put(state, params, body, schema, idKey, pred)
         == Success(state + [schema(body[idKey := params[idKey]], false)])
  {
  }

  /** PUT on a matched id replaces: every matching entity goes, one entity built
      from the last match goes in, the rest stays, and the result is sorted. */
  lemma {:induction false} PutWithMatchReplaces(state: seq<Entity>, params: Entity, body: Entity, schema: Schema, idKey: string, pred: Predicate)
    requires Truthy(Lookup(params, idKey))
    requires exists i :: 0 <= i < |state| && pred(state[i], params, idKey)
    ensures Put(state, params, body, schema, idKey, pred).Success?
    ensures var r := Put(state, params, body, schema, idKey, pred).value;
      exists i :: 0 <= i < |state| && pred(state[i], params, idKey) &&
        (forall j :: i < j < |state| ==> !pred(state[j], params, idKey)) &&
        Sorted(r, idKey) &&
        multiset(r) == multiset(Remaining(state, params, idKey, pred))
                       + multiset{schema(PutCandidate(state[i], body, idKey), true)}
  {
    var m := LastMatch(state, params, idKey, pred);
    var i :| 0 <= i < |state| && state[i] == m.value && pred(state[i], params, idKey) &&
      forall j :: i < j < |state| ==> !pred(state[j], params, idKey);
    var kept := Remaining(state, params, idKey, pred);
    var r := SortById(kept + [schema(PutCandidate(state[i], body, idKey), true)], idKey);
    assert Put(state, params, body, schema, idKey, pred) == Success(r);
  }

  /** The state a match leaves: exactly the entities the request does not
      select, and together with the selected ones, all of the old state. */
  lemma RemainingIsComplement(state: seq<Entity>, params: Entity, idKey: string, pred: Predicate)
    ensures forall i :: 0 <= i < |Remaining(state, params, idKey, pred)| ==>
      !pred(Remaining(state, params, idKey, pred)[i], params, idKey)
    ensures forall i :: 0 <= i < |state| && !pred(state[i], params, idKey) ==>
      state[i] in Remaining(state, params, idKey, pred)
    ensures multiset(Matching(state, params, idKey, pred)) + multiset(Remaining(state, params, idKey, pred))
         == multiset(state)
  {
    FilterMembers(state, Not(Selects(params, idKey, pred)));
    FilterPartition(state, Selects(params, idKey, pred));
  }

  // ---------------------------------------------------------------- shared by PUT, PATCH, DELETE

  /** Stands for `_.remove(copy, entity => predicate(entity, params, idKey))`
      on the copy `state.slice(0)`, which removes the matching entities in place
      (the removed ones it returns are unused): compacts the kept entities to the
      front of the array and returns how many there are. */
  method RemoveMatching(a: array<Entity>, params: Entity, idKey: string, pred: Predicate) returns (n: nat)
    modifies a
    ensures n <= a.Length
    ensures a[..n] == Remaining(old(a[..]), params, idKey, pred)
  {
    ghost var s := a[..];
    var keep := Not(Selects(params, idKey, pred));
    n := 0;
    var i := 0;
    while i < a.Length
      invariant n <= i <= a.Length
      invariant a[..n] == Filter(s[..i], keep)
      invariant forall j :: i <= j < a.Length ==> a[j] == s[j]
    {
      FilterPrefixStep(s, i, keep);
      assert keep(s[i]) == !pred(s[i], params, idKey);
      if !pred(a[i], params, idKey) {
        a[n] := a[i];
        assert a[..n + 1] == a[..n] + [s[i]];
        n := n + 1;
      }
      i := i + 1;
    }
    assert s[..a.Length] == s;
  }

  /** `state.slice(0)`. */
  method Copy(state: seq<Entity>) returns (a: array<Entity>)
    ensures fresh(a)
    ensures a[..] == state
  {
    a := new Entity[|state|](i requires 0 <= i < |state| => state[i]);
  }

  /** `updateOrCreate`, handling PUT. */
  method UpdateOrCreate(state: seq<Entity>, params: Entity, body: Entity, schema: Schema, idKey: string, pred: Predicate)
    returns (r: Result<seq<Entity>, RestError>)
    ensures r == Put(state, params, body, schema, idKey, pred)
  {
    if !Truthy(Lookup(params, idKey)) {
      return Failure(MissingId);
    }
    var existing := LastMatch(state, params, idKey, pred);
    if existing.None? {
      return Success(state + [schema(body[idKey := params[idKey]], false)]);
    }
    var updated := NullFill(existing.value, body, idKey);
    var sanitized := schema(updated, true);
    var copy := Copy(state);
    var n := RemoveMatching(copy, params, idKey, pred);
    return Success(SortById(copy[..n] + [sanitized], idKey));
  }

  // ---------------------------------------------------------------- PATCH

  /** `update` as a function of its inputs. */
  function Patch(state: seq<Entity>, params: Entity, body: Entity, schema: Schema, idKey: string, pred: Predicate)
    : (r: Result<seq<Entity>, RestError>)
    ensures r.Failure? <==> !Truthy(Lookup(params, idKey))
    ensures r.Failure? ==> r.error == MissingId
  {
    if !Truthy(Lookup(params, idKey)) then Failure(MissingId)
    else
      match LastMatch(state, params, idKey, pred)
      case None => Success(state)
      case Some(existing) =>
        Success(SortById(Remaining(state, params, idKey, pred) + [schema(existing + body, false)], idKey))
  }

  /** PATCH never creates: on an id nothing matches the state is returned as it is. */
  lemma PatchWithoutMatchIsNoop(state: seq<Entity>, params: Entity, body: Entity, schema: Schema, idKey: string, pred: Predicate)
    requires Truthy(Lookup(params, idKey))
    requires forall i :: 0 <= i < |state| ==> !pred(state[i], params, idKey)
    ensures Patch(state, params, body, schema, idKey, pred) == Success(state)
  {
  }

  /** PATCH on a matched id merges: the body's fields win, every field the body
      does not resend keeps its value from the last match, all matches are
      replaced by the merged entity and the result is sorted. */
  lemma {:induction false} PatchWithMatchMerges(state: seq<Entity>, params: Entity, body: Entity, schema: Schema, idKey: string, pred: Predicate)
    requires Truthy(Lookup(params, idKey))
    requires exists i :: 0 <= i < |state| && pred(state[i], params, idKey)
    ensures Patch(state, params, body, schema, idKey, pred).Success?
    ensures var r := Patch(state, params, body, schema, idKey, pred).value;
      exists i :: 0 <= i < |state| && pred(state[i], params, idKey) &&
        (forall j :: i < j < |state| ==> !pred(state[j], params, idKey)) &&
        Sorted(r, idKey) &&
        multiset(r) == multiset(Remaining(state, params, idKey, pred)) + multiset{schema(state[i] + body, false)}
  {
    var m := LastMatch(state, params, idKey, pred);
    var i :| 0 <= i < |state| && state[i] == m.value && pred(state[i], params, idKey) &&
      forall j :: i < j < |state| ==> !pred(state[j], params, idKey);
    var kept := Remaining(state, params, idKey, pred);
    var r := SortById(kept + [schema(state[i] + body, false)], idKey);
    assert Patch(state, params, body, schema, idKey, pred) == Success(r);
  }

  /** The PUT/PATCH contrast on one entity: `{num: 4, title: "t4", body: "b4"}`
      updated with `{title: "t4 updated"}` loses its body under PUT and keeps it
      under PATCH. */
  lemma PutNullsWherePatchKeeps(existing: Entity, params: Entity, sent: Entity)
    requires existing == map["num" := Num(4), "title" := Str("t4"), "body" := Str("b4")]
    requires params == map["num" := Num(4)]
    requires sent == map["title" := Str("t4 updated")]
    ensures Put([existing], params, sent, KeepFields, "num", DefaultPredicate)
         == Success([map["num" := Num(4), "title" := Str("t4 updated"), "body" := Null]])
    ensures Patch([existing], params, sent, KeepFields, "num", DefaultPredicate)
         == Success([map["num" := Num(4), "title" := Str("t4 updated"), "body" := Str("b4")]])
  {
    assert Lookup(existing, "num") == Num(4) && Lookup(params, "num") == Num(4);
    OnlyEntityMatches(existing, params, "num", DefaultPredicate);
    assert PutCandidate(existing, sent, "num") == map["num" := Num(4), "title" := Str("t4 updated"), "body" := Null] by {
      assert PutCandidate(existing, sent, "num").Keys == {"num", "title", "body"};
    }
    assert existing + sent == map["num" := Num(4), "title" := Str("t4 updated"), "body" := Str("b4")];
    SortOne(map["num" := Num(4), "title" := Str("t4 updated"), "body" := Null], "num");
    SortOne(map["num" := Num(4), "title" := Str("t4 updated"), "body" := Str("b4")], "num");
  }

  lemma OnlyEntityMatches(e: Entity, params: Entity, idKey: string, pred: Predicate)
    requires pred(e, params, idKey)
    ensures LastMatch([e], params, idKey, pred) == Some(e)
    ensures Remaining([e], params, idKey, pred) == []
  {
    FilterSingleton(e, Selects(params, idKey, pred));
    FilterSingleton(e, Not(Selects(params, idKey, pred)));
  }

  lemma SortOne(e: Entity, idKey: string)
    ensures SortById([] + [e], idKey) == [e]
  {
    assert [] + [e] == [e] && [e][1..] == [];
  }

  /** `update`, handling PATCH. */
  method Update(state: seq<Entity>, params: Entity, body: Entity, schema: Schema, idKey: string, pred: Predicate)
    returns (r: Result<seq<Entity>, RestError>)
    ensures r == Patch(state, params, body, schema, idKey, pred)
  {
    if !Truthy(Lookup(params, idKey)) {
      return Failure(MissingId);
    }
    var existing := LastMatch(state, params, idKey, pred);
    if existing.None? {
      return Success(state);
    }
    var sanitized := schema(existing.value + body, false);
    var copy := Copy(state);
    var n := RemoveMatching(copy, params, idKey, pred);
    return Success(SortById(copy[..n] + [sanitized], idKey));
  }

  // ---------------------------------------------------------------- writing the same entity again

  /** After PUT or PATCH has replaced the matches with `n`, and `n` still
      matches the request, `n` is the only entity the request selects. */
  lemma {:induction false} WrittenIsOnlyMatch(state: seq<Entity>, params: Entity, idKey: string, pred: Predicate, n: Entity)
    requires pred(n, params, idKey)
    ensures var r := SortById(Remaining(state, params, idKey, pred) + [n], idKey);
      Matching(r, params, idKey, pred) == [n] && LastMatch(r, params, idKey, pred) == Some(n)
  {
    var sel := Selects(params, idKey, pred);
    var kept := Remaining(state, params, idKey, pred);
    var r := SortById(kept + [n], idKey);
    assert Filter(kept, sel) == [] by {
      RemainingIsComplement(state, params, idKey, pred);
      LastOfFilter(kept, sel);
    }
    var found := Filter(r, sel);
    assert multiset(found) == multiset{n} by {
      FilterAppend(kept, [n], sel);
      FilterSingleton(n, sel);
      FilterOfPermutation(r, kept + [n], sel);
    }
    assert found == [n] by {
      assert |found| == 1 && found[0] in multiset(found);
    }
  }

  /** Writing the same entity again over a state that already holds it in
      place of the matches gives that state back, provided it still matches. */
  lemma RewriteIsFixpoint(state: seq<Entity>, params: Entity, idKey: string, pred: Predicate, n: Entity)
    requires pred(n, params, idKey)
    ensures var r := SortById(Remaining(state, params, idKey, pred) + [n], idKey);
      SortById(Remaining(r, params, idKey, pred) + [n], idKey) == r
  {
    var r := SortById(Remaining(state, params, idKey, pred) + [n], idKey);
    var again := SortById(Remaining(r, params, idKey, pred) + [n], idKey);
    forall k ensures WithRank(again, idKey, k) == WithRank(r, idKey, k) {
      RewriteRankClass(state, params, idKey, pred, n, k);
    }
    SortedUnique(again, r, idKey);
  }

  /** `RewriteIsFixpoint` one rank class at a time. */
  lemma RewriteRankClass(state: seq<Entity>, params: Entity, idKey: string, pred: Predicate, n: Entity, k: IdRank)
    requires pred(n, params, idKey)
    ensures var r := SortById(Remaining(state, params, idKey, pred) + [n], idKey);
      WithRank(SortById(Remaining(r, params, idKey, pred) + [n], idKey), idKey, k) == WithRank(r, idKey, k)
  {
    var keep := Not(Selects(params, idKey, pred));
    var kept := Remaining(state, params, idKey, pred);
    var r := SortById(kept + [n], idKey);
    var left := Remaining(r, params, idKey, pred);
    var single := WithRank([n], idKey, k);
    assert Filter(single, keep) == [] by {
      FilterSingleton(n, HasRank(idKey, k));
      FilterSingleton(n, keep);
      assert !keep(n);
    }
    calc {
      WithRank(SortById(left + [n], idKey), idKey, k);
      { SortByIsStable(left + [n], idKey, k); }
      WithRank(left + [n], idKey, k);
      { FilterAppend(left, [n], HasRank(idKey, k)); }
      WithRank(left, idKey, k) + single;
      { RankClassOfRemaining(state, params, idKey, pred, n, k); }
      WithRank(kept, idKey, k) + Filter(single, keep) + single;
      WithRank(kept, idKey, k) + single;
      { FilterAppend(kept, [n], HasRank(idKey, k)); }
      WithRank(kept + [n], idKey, k);
      { SortByIsStable(kept + [n], idKey, k); }
      WithRank(r, idKey, k);
    }
  }

  /** Within one rank class, removing the matches again from the rewritten
      state leaves what the first removal left. */
  lemma RankClassOfRemaining(state: seq<Entity>, params: Entity, idKey: string, pred: Predicate, n: Entity, k: IdRank)
    ensures var kept := Remaining(state, params, idKey, pred);
      WithRank(Remaining(SortById(kept + [n], idKey), params, idKey, pred), idKey, k)
      == WithRank(kept, idKey, k) + Filter(WithRank([n], idKey, k), Not(Selects(params, idKey, pred)))
  {
    var keep := Not(Selects(params, idKey, pred));
    var kept := Remaining(state, params, idKey, pred);
    var r := SortById(kept + [n], idKey);
    var has := HasRank(idKey, k);
    FilterCommute(r, keep, has);
    SortByIsStable(kept + [n], idKey, k);
    FilterAppend(kept, [n], has);
    FilterAppend(WithRank(kept, idKey, k), WithRank([n], idKey, k), keep);
    assert Filter(WithRank(kept, idKey, k), keep) == WithRank(kept, idKey, k) by {
      FilterCommute(kept, has, keep);
      FilterIdempotent(state, keep);
    }
  }

  /** PATCH is idempotent: sending the same request twice leaves the state
      the first one produced, as long as the schema gives the entity it built
      back when the body is merged into it again while that entity still
      matches. An entity that no longer matches makes the second PATCH find
      nothing, which leaves the state as it is. */
  lemma PatchIsIdempotent(state: seq<Entity>, params: Entity, body: Entity, schema: Schema, idKey: string, pred: Predicate)
    requires LastMatch(state, params, idKey, pred).Some? ==>
      var n := schema(LastMatch(state, params, idKey, pred).value + body, false);
      pred(n, params, idKey) ==> schema(n + body, false) == n
    ensures var once := Patch(state, params, body, schema, idKey, pred);
      once.Success? ==> Patch(once.value, params, body, schema, idKey, pred) == once
  {
    if Truthy(Lookup(params, idKey)) && LastMatch(state, params, idKey, pred).Some? {
      var n := schema(LastMatch(state, params, idKey, pred).value + body, false);
      if pred(n, params, idKey) {
        WrittenIsOnlyMatch(state, params, idKey, pred, n);
        RewriteIsFixpoint(state, params, idKey, pred, n);
      } else {
        WrittenMismatchLeavesNoMatch(state, params, idKey, pred, n);
      }
    }
  }

  /** An entity written in place of the matches that does not match the
      request itself leaves nothing for the request to select. */
  lemma WrittenMismatchLeavesNoMatch(state: seq<Entity>, params: Entity, idKey: string, pred: Predicate, n: Entity)
    requires !pred(n, params, idKey)
    ensures LastMatch(SortById(Remaining(state, params, idKey, pred) + [n], idKey), params, idKey, pred).None?
  {
    var kept := Remaining(state, params, idKey, pred);
    var keep := Not(Selects(params, idKey, pred));
    FilterMembers(state, keep);
    assert forall i :: 0 <= i < |kept + [n]| ==> keep((kept + [n])[i]) by {
      forall i | 0 <= i < |kept + [n]| ensures keep((kept + [n])[i]) {
        if i < |kept| {
          assert (kept + [n])[i] == kept[i];
        }
      }
    }
    AllOfPermutation(SortById(kept + [n], idKey), kept + [n], keep);
  }

  /** With a schema that keeps the fields it is given, PATCH is idempotent for
      every body and every predicate: merging the body a second time changes
      nothing. */
  lemma PatchIsIdempotentForPlainSchema(state: seq<Entity>, params: Entity, body: Entity, idKey: string, pred: Predicate)
    ensures var once := Patch(state, params, body, KeepFields, idKey, pred);
      once.Success? ==> Patch(once.value, params, body, KeepFields, idKey, pred) == once
  {
    var m := LastMatch(state, params, idKey, pred);
    if m.Some? {
      var n := m.value + body;
      assert n + body == n;
    }
    PatchIsIdempotent(state, params, body, KeepFields, idKey, pred);
  }

  /** PUT on an id that matches is idempotent, under the same conditions on
      the entity the schema builds from the candidate. */
  lemma PutIsIdempotentOnMatch(state: seq<Entity>, params: Entity, body: Entity, schema: Schema, idKey: string, pred: Predicate)
    requires LastMatch(state, params, idKey, pred).Some?
    requires var n := schema(PutCandidate(LastMatch(state, params, idKey, pred).value, body, idKey), true);
      pred(n, params, idKey) && schema(PutCandidate(n, body, idKey), true) == n
    ensures var once := Put(state, params, body, schema, idKey, pred);
      once.Success? ==> Put(once.value, params, body, schema, idKey, pred) == once
  {
    if Truthy(Lookup(params, idKey)) {
      var n := schema(PutCandidate(LastMatch(state, params, idKey, pred).value, body, idKey), true);
      WrittenIsOnlyMatch(state, params, idKey, pred, n);
      RewriteIsFixpoint(state, params, idKey, pred, n);
    }
  }

  /** With a schema that keeps the fields it is given and the default
      predicate, PUT on a matching id is idempotent whenever an id the body
      names is numerically the id of the request. */
  lemma PutIsIdempotentOnMatchForPlainSchema(state: seq<Entity>, params: Entity, body: Entity, idKey: string)
    requires idKey in body ==> NumericEquals(body[idKey], Lookup(params, idKey))
    requires exists i :: 0 <= i < |state| && DefaultPredicate(state[i], params, idKey)
    ensures var once := Put(state, params, body, KeepFields, idKey, DefaultPredicate);
      once.Success? ==> Put(once.value, params, body, KeepFields, idKey, DefaultPredicate) == once
  {
    var existing := LastMatch(state, params, idKey, DefaultPredicate).value;
    PlainCandidateStillMatches(existing, params, body, idKey);
    PutIsIdempotentOnMatch(state, params, body, KeepFields, idKey, DefaultPredicate);
  }

  /** The candidate PUT builds from a matching entity keeps its id, or takes
      one from the body that is numerically the same, so it still matches, and
      resending the body to it changes nothing. */
  lemma PlainCandidateStillMatches(existing: Entity, params: Entity, body: Entity, idKey: string)
    requires idKey in body ==> NumericEquals(body[idKey], Lookup(params, idKey))
    requires DefaultPredicate(existing, params, idKey)
    ensures DefaultPredicate(PutCandidate(existing, body, idKey), params, idKey)
    ensures PutCandidate(PutCandidate(existing, body, idKey), body, idKey) == PutCandidate(existing, body, idKey)
  {
    DefaultPredicateIsNumeric(existing, params, idKey);
    PutCandidateFields(existing, body, idKey);
    PutCandidateIdempotent(existing, body, idKey);
    var id := Lookup(params, idKey);
    if idKey in body {
      assert Lookup(PutCandidate(existing, body, idKey), idKey) == body[idKey];
      NumericEqualsIsPartialEquivalence(id, body[idKey], id);
    } else {
      assert Lookup(PutCandidate(existing, body, idKey), idKey) == Lookup(existing, idKey);
    }
  }

  /** As written, PUT on an id nothing matches appends without sorting, so the
      same PUT sent twice gives two different states: on `[{id: 5}]`, PUT of
      `{title: "x"}` at id 3 appends `{id: 3, title: "x"}` last, and sending it
      again replaces that entity and sorts it first. */
  lemma PutCreateIsNotIdempotent(a: Entity, c: Entity, params: Entity, body: Entity)
    requires a == map["id" := Num(5)]
    requires params == map["id" := Num(3)]
    requires body == map["title" := Str("x")]
    requires c == map["id" := Num(3), "title" := Str("x")]
    ensures Put([a], params, body, KeepFields, "id", DefaultPredicate) == Success([a, c])
    ensures Put([a, c], params, body, KeepFields, "id", DefaultPredicate) == Success([c, a])
    ensures [a, c] != [c, a]
  {
    assert Lookup(params, "id") == Num(3) && Lookup(a, "id") == Num(5) && Lookup(c, "id") == Num(3);
    assert !DefaultPredicate(a, params, "id") && DefaultPredicate(c, params, "id");
    assert body["id" := params["id"]] == c;
    assert PutCandidate(c, body, "id") == c by {
      PutCandidateFields(c, body, "id");
    }
    PutOnAbsentAppends(a, c, params, body);
    PutOnPresentSorts(a, c, params, body);
  }

  lemma PutOnAbsentAppends(a: Entity, c: Entity, params: Entity, body: Entity)
    requires "id" in params && Truthy(params["id"])
    requires !DefaultPredicate(a, params, "id")
    requires c == body["id" := params["id"]]
    ensures Put([a], params, body, KeepFields, "id", DefaultPredicate) == Success([a, c])
  {
    assert [a] + [c] == [a, c];
    PutWithoutMatchAppends([a], params, body, KeepFields, "id", DefaultPredicate);
  }

  lemma PutOnPresentSorts(a: Entity, c: Entity, params: Entity, body: Entity)
    requires Truthy(Lookup(params, "id"))
    requires !DefaultPredicate(a, params, "id") && DefaultPredicate(c, params, "id")
    requires PutCandidate(c, body, "id") == c
    requires Rank(c, "id") == NumberId(3) && Rank(a, "id") == NumberId(5)
    ensures Put([a, c], params, body, KeepFields, "id", DefaultPredicate) == Success([c, a])
  {
    SecondOfTwoMatches(a, c, params, "id", DefaultPredicate);
    assert KeepFields(PutCandidate(c, body, "id"), true) == c;
    SortTwo(a, c, "id");
  }

  lemma SecondOfTwoMatches(a: Entity, c: Entity, params: Entity, idKey: string, pred: Predicate)
    requires !pred(a, params, idKey) && pred(c, params, idKey)
    ensures LastMatch([a, c], params, idKey, pred) == Some(c)
    ensures Remaining([a, c], params, idKey, pred) == [a]
  {
    var sel := Selects(params, idKey, pred);
    assert [a, c] == [a] + [c];
    FilterCons(a, [c], sel);
    FilterSingleton(c, sel);
    FilterCons(a, [c], Not(sel));
    FilterSingleton(c, Not(sel));
  }

  /** `updateOrCreate` with its create branch built like its replace branch:
      the new entity goes through the schema in null-fill mode and the result is
      sorted, so that every successful PUT leaves the collection sorted by id. */
  function PutSorted(state: seq<Entity>, params: Entity, body: Entity, schema: Schema, idKey: string, pred: Predicate)
    : (r: Result<seq<Entity>, RestError>)
    ensures r.Failure? <==> !Truthy(Lookup(params, idKey))
    ensures r.Failure? ==> r.error == MissingId
    ensures r.Success? ==> Sorted(r.value, idKey)
    ensures LastMatch(state, params, idKey, pred).Some? ==> r == Put(state, params, body, schema, idKey, pred)
  {
    if !Truthy(Lookup(params, idKey)) then Failure(MissingId)
    else
      match LastMatch(state, params, idKey, pred)
      case None => Success(SortById(state + [schema(body[idKey := Lookup(params, idKey)], true)], idKey))
      case Some(existing) =>
        Success(SortById(Remaining(state, params, idKey, pred) + [schema(PutCandidate(existing, body, idKey), true)], idKey))
  }

  /** The fields the corrected PUT hands to the schema: the candidate built
      from the last match, or the body with the id from the params. */
  function PutFields(state: seq<Entity>, params: Entity, body: Entity, idKey: string, pred: Predicate): Entity
  {
    match LastMatch(state, params, idKey, pred)
    case None => body[idKey := Lookup(params, idKey)]
    case Some(existing) => PutCandidate(existing, body, idKey)
  }

  /** The corrected PUT is idempotent on both branches, as long as the entity
      the schema builds still matches the request and the schema gives it back
      when the same body is resent to it. */
  lemma PutSortedIsIdempotent(state: seq<Entity>, params: Entity, body: Entity, schema: Schema, idKey: string, pred: Predicate)
    requires var n := schema(PutFields(state, params, body, idKey, pred), true);
      pred(n, params, idKey) && schema(PutCandidate(n, body, idKey), true) == n
    ensures var once := PutSorted(state, params, body, schema, idKey, pred);
      once.Success? ==> PutSorted(once.value, params, body, schema, idKey, pred) == once
  {
    if Truthy(Lookup(params, idKey)) {
      var n := schema(PutFields(state, params, body, idKey, pred), true);
      if LastMatch(state, params, idKey, pred).None? {
        DeleteOfAbsentIsNoop(state, params, idKey, pred);
      }
      WrittenIsOnlyMatch(state, params, idKey, pred, n);
      RewriteIsFixpoint(state, params, idKey, pred, n);
    }
  }

  /** With a schema that keeps the fields it is given and the default
      predicate, the corrected PUT is idempotent whenever the params give a
      numeric id and an id the body names is that very id. */
  lemma PutSortedIsIdempotentForPlainSchema(state: seq<Entity>, params: Entity, body: Entity, idKey: string)
    requires idKey in body ==> body[idKey] == Lookup(params, idKey)
    requires ToNumber(Lookup(params, idKey)).Some?
    ensures var once := PutSorted(state, params, body, KeepFields, idKey, DefaultPredicate);
      once.Success? ==> PutSorted(once.value, params, body, KeepFields, idKey, DefaultPredicate) == once
  {
    var m := LastMatch(state, params, idKey, DefaultPredicate);
    if m.Some? {
      NumericEqualsIsPartialEquivalence(Lookup(params, idKey), Lookup(params, idKey), Lookup(params, idKey));
      PlainCandidateStillMatches(m.value, params, body, idKey);
    } else {
      var n := body[idKey := Lookup(params, idKey)];
      NumericEqualsIsPartialEquivalence(Lookup(params, idKey), Lookup(params, idKey), Lookup(params, idKey));
      assert Lookup(n, idKey) == Lookup(params, idKey);
      assert PutCandidate(n, body, idKey) == n;
    }
    PutSortedIsIdempotent(state, params, body, KeepFields, idKey, DefaultPredicate);
  }

  /** Every field of `names` that `fields` lacks, added as `null`. */
  function Fill(fields: Entity, names: set<string>): Entity
  {
    map k | k in fields.Keys + names :: if k in fields then fields[k] else Null
  }

  /** A schema that keeps the fields it is given and, in null-fill mode, sets
      every field it defines (`names`) that the entity lacks to `null`, as a
      schema with `{setUndefined: true}` does. */
  function FillingSchema(names: set<string>): Schema
  {
    (fields: Entity, fillNull: bool) => if fillNull then Fill(fields, names) else fields
  }

  /** With a null-filling schema and the default predicate, the corrected PUT
      is idempotent whenever the params give a numeric id and an id the body
      names is that very id. */
  lemma PutSortedIsIdempotentForFillingSchema(state: seq<Entity>, params: Entity, body: Entity, names: set<string>, idKey: string)
    requires idKey in body ==> body[idKey] == Lookup(params, idKey)
    requires ToNumber(Lookup(params, idKey)).Some?
    ensures var once := PutSorted(state, params, body, FillingSchema(names), idKey, DefaultPredicate);
      once.Success? ==> PutSorted(once.value, params, body, FillingSchema(names), idKey, DefaultPredicate) == once
  {
    var m := LastMatch(state, params, idKey, DefaultPredicate);
    var fields := PutFields(state, params, body, idKey, DefaultPredicate);
    NumericEqualsIsPartialEquivalence(Lookup(params, idKey), Lookup(params, idKey), Lookup(params, idKey));
    if m.Some? {
      PutCandidateFields(m.value, body, idKey);
      if idKey in body {
        assert Lookup(fields, idKey) == Lookup(params, idKey);
      } else {
        assert Lookup(fields, idKey) == Lookup(m.value, idKey);
      }
    } else {
      assert Lookup(fields, idKey) == Lookup(params, idKey);
    }
    FilledCandidate(fields, body, idKey, names);
    PutSortedIsIdempotent(state, params, body, FillingSchema(names), idKey, DefaultPredicate);
  }

  /** Fields that agree with the body on its keys and are `null` elsewhere
      except at the id stay as they are when filled, and resending the body to
      them changes nothing. */
  lemma FilledCandidate(fields: Entity, body: Entity, idKey: string, names: set<string>)
    requires forall k :: k in body ==> k in fields && fields[k] == body[k]
    requires forall k :: k in fields && k !in body && k != idKey ==> fields[k] == Null
    requires idKey in fields
    ensures Lookup(Fill(fields, names), idKey) == Lookup(fields, idKey)
    ensures PutCandidate(Fill(fields, names), body, idKey) == Fill(fields, names)
    ensures Fill(Fill(fields, names), names) == Fill(fields, names)
  {
    var n := Fill(fields, names);
    assert PutCandidate(n, body, idKey).Keys == n.Keys;
  }

  // ---------------------------------------------------------------- DELETE

  /** `delete_`, handling DELETE: never fails; removes every entity the request
      selects and keeps the others in their order. */
  method Delete(state: seq<Entity>, params: Entity, idKey: string, pred: Predicate) returns (r: seq<Entity>)
    ensures r == Remaining(state, params, idKey, pred)
  {
    var copy := Copy(state);
    var n := RemoveMatching(copy, params, idKey, pred);
    r := copy[..n];
  }

  /** Deleting twice is deleting once. */
  lemma DeleteIsIdempotent(state: seq<Entity>, params: Entity, idKey: string, pred: Predicate)
    ensures Remaining(Remaining(state, params, idKey, pred), params, idKey, pred) == Remaining(state, params, idKey, pred)
  {
    FilterIdempotent(state, Not(Selects(params, idKey, pred)));
  }

  /** Deleting an id nothing matches is a no-op. */
  lemma DeleteOfAbsentIsNoop(state: seq<Entity>, params: Entity, idKey: string, pred: Predicate)
    requires forall i :: 0 <= i < |state| ==> !pred(state[i], params, idKey)
    ensures Remaining(state, params, idKey, pred) == state
  {
    FilterKeepsAll(state, Not(Selects(params, idKey, pred)));
  }

  /** Deleting keeps the survivors' relative order, so a sorted state stays sorted. */
  lemma {:induction false} DeleteKeepsOrder(state: seq<Entity>, params: Entity, idKey: string, pred: Predicate)
    requires Sorted(state, idKey)
    ensures Sorted(Remaining(state, params, idKey, pred), idKey)
  {
    if state != [] {
      var rest := state[1..];
      DeleteKeepsOrder(rest, params, idKey, pred);
      var kept := Remaining(rest, params, idKey, pred);
      FilterMembers(rest, Not(Selects(params, idKey, pred)));
      forall j | 0 <= j < |kept| ensures RankLe(Rank(state[0], idKey), Rank(kept[j], idKey)) {
        var k :| 0 <= k < |rest| && rest[k] == kept[j];
        assert state[k + 1] == kept[j];
      }
    }
  }

  // ---------------------------------------------------------------- scenarios

  /** A schema that keeps the fields it is given. */
  function KeepFields(fields: Entity, fillNull: bool): Entity
  {
    fields
  }

  /** POST on `[{id: 1, title: "a"}, {id: 2, title: "b"}]` with `{title: "c"}`
      assigns id 3 and puts the new entity last. */
  lemma CreateScenario(a: Entity, b: Entity, c: Entity, body: Entity)
    requires a == map["id" := Num(1), "title" := Str("a")]
    requires b == map["id" := Num(2), "title" := Str("b")]
    requires c == map["id" := Num(3), "title" := Str("c")]
    requires body == map["title" := Str("c")]
    ensures Create([a, b], body, KeepFields, "id") == Success([a, b, c])
  {
    assert Lookup(body, "id") == Undefined;
    ScenarioCreated(a, b, c, body);
    ScenarioSorted(a, b, c);
    assert [a, b] + [c] == [a, b, c];
    CreateAppendsLargest([a, b], body, KeepFields, "id");
  }

  /** `create` keeps numeric ids unique: the id it assigns is larger than
      every numeric id already present, provided the schema keeps it. */
  lemma CreateKeepsIdsDistinct(state: seq<Entity>, body: Entity, schema: Schema, idKey: string)
    requires DistinctIds(state, idKey)
    requires Lookup(Created(state, body, schema, idKey), idKey) == NextId(state, idKey)
    ensures Create(state, body, schema, idKey).Success? ==> DistinctIds(Create(state, body, schema, idKey).value, idKey)
  {
    var c := Created(state, body, schema, idKey);
    var s := state + [c];
    forall i, j | 0 <= i < j < |s| && Lookup(s[i], idKey).Num? ensures Lookup(s[i], idKey) != Lookup(s[j], idKey) {
      if j == |state| {
        assert s[i] == state[i] && s[j] == c;
      } else {
        assert s[i] == state[i] && s[j] == state[j];
      }
    }
    SortKeepsIdsDistinct(s, idKey);
  }

  /** When the new entity already sorts last, `create` appends it. */
  lemma CreateAppendsLargest(state: seq<Entity>, body: Entity, schema: Schema, idKey: string)
    requires !Truthy(Lookup(body, idKey))
    requires Sorted(state + [Created(state, body, schema, idKey)], idKey)
    ensures Create(state, body, schema, idKey) == Success(state + [Created(state, body, schema, idKey)])
  {
    SortedIsFixpoint(state + [Created(state, body, schema, idKey)], idKey);
  }

  lemma ScenarioCreated(a: Entity, b: Entity, c: Entity, body: Entity)
    requires a == map["id" := Num(1), "title" := Str("a")]
    requires b == map["id" := Num(2), "title" := Str("b")]
    requires c == map["id" := Num(3), "title" := Str("c")]
    requires body == map["title" := Str("c")]
    ensures Created([a, b], body, KeepFields, "id") == c
  {
    assert [a, b][1..] == [b];
    assert [b][1..] == [];
    assert Lookup(a, "id") == Num(1) && Lookup(b, "id") == Num(2);
    assert MaxId([b], "id") == Some(2);
    assert MaxId([a, b], "id") == Some(2);
    assert body["id" := Num(3)] == c;
  }

  lemma ScenarioSorted(a: Entity, b: Entity, c: Entity)
    requires a == map["id" := Num(1), "title" := Str("a")]
    requires b == map["id" := Num(2), "title" := Str("b")]
    requires c == map["id" := Num(3), "title" := Str("c")]
    ensures Sorted([a, b, c], "id")
  {
    assert Rank(a, "id") == NumberId(1) && Rank(b, "id") == NumberId(2) && Rank(c, "id") == NumberId(3);
  }

  /** DELETE of id 2 on `[{id: 1, ...}, {id: 2, ...}, {id: 3, ...}]` leaves ids 1 and 3. */
  lemma DeleteScenario()
    ensures var a := map["id" := Num(1), "title" := Str("a")];
      var b := map["id" := Num(2), "title" := Str("b")];
      var c := map["id" := Num(3), "title" := Str("c")];
      Remaining([a, b, c], map["id" := Num(2)], "id", DefaultPredicate) == [a, c]
  {
    var a := map["id" := Num(1), "title" := Str("a")];
    var b := map["id" := Num(2), "title" := Str("b")];
    var c := map["id" := Num(3), "title" := Str("c")];
    var params := map["id" := Num(2)];
    var sel := Selects(params, "id", DefaultPredicate);
    var keep := Not(sel);
    assert Lookup(params, "id") == Num(2);
    assert Lookup(a, "id") == Num(1) && Lookup(b, "id") == Num(2) && Lookup(c, "id") == Num(3);
    assert !DefaultPredicate(a, params, "id") && DefaultPredicate(b, params, "id") && !DefaultPredicate(c, params, "id");
    assert sel(a) == DefaultPredicate(a, params, "id") && sel(b) == DefaultPredicate(b, params, "id");
    assert sel(c) == DefaultPredicate(c, params, "id");
    assert keep(a) == !sel(a) && keep(b) == !sel(b) && keep(c) == !sel(c);
    assert [a, b, c][1..] == [b, c];
    assert [b, c][1..] == [c];
    assert [c][1..] == [];
    assert keep(a) && !keep(b) && keep(c);
  }
}
