/** The key-value supplier's partial-update builder (`Dynamo._update`): from a
    comma-separated key spec and a comma-separated `target=source` spec it
    builds the `set ...` update expression, with the placeholders `:a` to `:z`,
    and for each record the `Key` map and the `ExpressionAttributeValues` map
    of one `update_item` call. */
module UpdateExpression {
  import opened Text
  import opened Values
  import opened Effects

  /** The number of letters in `string.ascii_lowercase`. */
  const LetterCount: nat := 26

  /** The `i`-th lower-case ASCII letter. */
  function Letter(i: nat): char
    requires i < LetterCount
  {
    ('a' as int + i) as char
  }

  /** The `i`-th placeholder: a colon followed by the `i`-th letter. */
  function Placeholder(i: nat): string
    requires i < LetterCount
  {
    [':', Letter(i)]
  }

  /** The placeholders `:a` to `:z`, in order. */
  function Placeholders(): seq<string> {
    seq(LetterCount, i requires 0 <= i < LetterCount => Placeholder(i))
  }

  function Min(a: nat, b: nat): nat {
    if a <= b then a else b
  }

  /** Python 2's `zip` of two lists: pairs up to the shorter one. */
  function Zip<A, B>(xs: seq<A>, ys: seq<B>): (z: seq<(A, B)>)
    ensures |z| == Min(|xs|, |ys|)
    ensures forall i :: 0 <= i < |z| ==> z[i] == (xs[i], ys[i])
    decreases |xs|
  {
    if xs == [] || ys == [] then [] else [(xs[0], ys[0])] + Zip(xs[1..], ys[1..])
  }

  /** The expression spec split on commas, and each piece split on `=`. */
  function Pieces(expression: string): seq<seq<string>> {
    var parts := Split(expression, ',');
    seq(|parts|, i requires 0 <= i < |parts| => Split(parts[i], '='))
  }

  /** What `_update` computes once for all records: the key columns, the
      `(target, placeholder)` pairs of the set clause and the
      `(source, placeholder)` pairs of the value map. */
  datatype Plan = Plan(keys: seq<Column>, assignments: seq<(Column, string)>,
                       bindings: seq<(Column, string)>)

  /** The steps of `_update` before its loop. An absent key or expression
      fails on `.split` (`AttributeError`); a pair without `=` fails on
      `exp[1]` (`IndexError`), even past the 26th pair. */
  function BuildPlan(key: Option<string>, expression: Option<string>): Result<Plan> {
    if key.None? || expression.None? then Err(AttributeError)
    else
      var pieces := Pieces(expression.value);
      if exists i :: 0 <= i < |pieces| && |pieces[i]| < 2 then Err(IndexError)
      else
        var targets := seq(|pieces|, i requires 0 <= i < |pieces| => pieces[i][0]);
        var sources := seq(|pieces|, i requires 0 <= i < |pieces| && |pieces[i]| >= 2 => pieces[i][1]);
        Ok(Plan(Split(key.value, ','), Zip(targets, Placeholders()), Zip(sources, Placeholders())))
  }

  /** One assignment of the set clause: the target, ` = `, the placeholder. */
  function Assignment(a: (Column, string)): string {
    a.0 + " = " + a.1
  }

  function Assignments(plan: Plan): seq<string> {
    seq(|plan.assignments|, i requires 0 <= i < |plan.assignments| => Assignment(plan.assignments[i]))
  }

  /** The update expression: `set ` followed by the assignments, separated
      by commas. */
  function SetClause(plan: Plan): string {
    "set " + Join(Assignments(plan), ',')
  }

  /** Whether a record has every column the plan reads. */
  predicate HasColumns(plan: Plan, item: Record) {
    && (forall k :: k in plan.keys ==> k in item)
    && (forall i :: 0 <= i < |plan.bindings| ==> plan.bindings[i].0 in item)
  }

  /** The `Key` map: each key column to the record's value. */
  function KeyOf(keys: seq<Column>, item: Record): Record
    requires forall k :: k in keys ==> k in item
  {
    map k | k in keys :: item[k]
  }

  /** The value map: each binding's placeholder to the record's value for
      its source column; a later pair overwrites an earlier one with the same
      placeholder. */
  function ValuesOf(bindings: seq<(Column, string)>, item: Record): map<string, Value>
    requires forall i :: 0 <= i < |bindings| ==> bindings[i].0 in item
    decreases |bindings|
  {
    if bindings == [] then map[]
    else
      var last := bindings[|bindings| - 1];
      ValuesOf(bindings[..|bindings| - 1], item)[last.1 := item[last.0]]
  }

  /** The `update_item` call `_update` makes for one record, or the
      `KeyError` of a column the record lacks. */
  function Request(plan: Plan, item: Record): Result<Call> {
    if !HasColumns(plan, item) then Err(KeyError)
    else Ok(UpdateItem(KeyOf(plan.keys, item), SetClause(plan), ValuesOf(plan.bindings, item)))
  }

  predicate DistinctPlaceholders(bindings: seq<(Column, string)>) {
    forall i, j :: 0 <= i < j < |bindings| ==> bindings[i].1 != bindings[j].1
  }

  /** A plan keeps the key columns of the key spec, and pairs the first
      min(n, 26) of the n expression pairs, in order, with `:a`, `:b`, ... by
      position; later pairs are dropped. It is built exactly when both specs
      are given and every pair has a `=`. */
  lemma PlanFromSpecs(key: Option<string>, expression: Option<string>)
    ensures BuildPlan(key, expression).Ok? <==>
              key.Some? && expression.Some? &&
              forall i :: 0 <= i < |Pieces(expression.value)| ==> |Pieces(expression.value)[i]| >= 2
    ensures BuildPlan(key, expression).Ok? ==>
              var plan := BuildPlan(key, expression).value;
              var pieces := Pieces(expression.value);
              && plan.keys == Split(key.value, ',')
              && |plan.assignments| == |plan.bindings| == Min(|pieces|, LetterCount)
              && (forall i :: 0 <= i < |plan.assignments| ==>
                    && plan.assignments[i] == (pieces[i][0], Placeholder(i))
                    && plan.bindings[i] == (pieces[i][1], Placeholder(i)))
  {
  }

  /** The placeholders of one statement are all different, in the set clause
      and in the value map alike. */
  lemma PlanPlaceholdersDistinct(key: Option<string>, expression: Option<string>)
    requires BuildPlan(key, expression).Ok?
    ensures DistinctPlaceholders(BuildPlan(key, expression).value.assignments)
    ensures DistinctPlaceholders(BuildPlan(key, expression).value.bindings)
  {
    var plan := BuildPlan(key, expression).value;
    forall i, j | 0 <= i < j < |plan.bindings|
      ensures plan.bindings[i].1 != plan.bindings[j].1
      ensures plan.assignments[i].1 != plan.assignments[j].1
    {
      assert plan.bindings[i].1[1] == Letter(i);
      assert plan.bindings[j].1[1] == Letter(j);
    }
  }

  /** Splitting the set clause after `set ` on commas gives one
      `<target> = :<letter>` per used pair, in order: no target contains a
      comma, so no assignment spills into the next. */
  lemma SetClauseLists(key: Option<string>, expression: Option<string>)
    requires BuildPlan(key, expression).Ok?
    ensures var plan := BuildPlan(key, expression).value;
            var pieces := Pieces(expression.value);
            && SetClause(plan)[..4] == "set "
            && Split(SetClause(plan)[4..], ',') == Assignments(plan)
            && |Assignments(plan)| == Min(|pieces|, LetterCount)
            && forall i :: 0 <= i < |Assignments(plan)| ==>
                 Assignments(plan)[i] == pieces[i][0] + " = " + Placeholder(i)
  {
    var plan := BuildPlan(key, expression).value;
    var pieces := Pieces(expression.value);
    var parts := Split(expression.value, ',');
    var texts := Assignments(plan);
    forall i | 0 <= i < |texts| ensures ',' !in texts[i] {
      var target := pieces[i][0];
      assert texts[i] == target + " = " + Placeholder(i);
      if ',' in target {
        SplitPiecesFromString(parts[i], '=', 0, ',');
        assert false;
      }
    }
    SplitJoin(texts, ',');
    assert SetClause(plan)[4..] == Join(texts, ',');
  }

  lemma {:induction false} ValuesOfKeys(bindings: seq<(Column, string)>, item: Record)
    requires forall i :: 0 <= i < |bindings| ==> bindings[i].0 in item
    ensures ValuesOf(bindings, item).Keys == set i | 0 <= i < |bindings| :: bindings[i].1
    decreases |bindings|
  {
    if bindings != [] {
      var n := |bindings| - 1;
      var init := bindings[..n];
      ValuesOfKeys(init, item);
      assert forall i :: 0 <= i < n ==> init[i] == bindings[i];
      assert (set i | 0 <= i < |bindings| :: bindings[i].1)
          == (set i | 0 <= i < n :: init[i].1) + {bindings[n].1};
    }
  }

  lemma {:induction false} ValuesOfContents(bindings: seq<(Column, string)>, item: Record)
    requires forall i :: 0 <= i < |bindings| ==> bindings[i].0 in item
    requires DistinctPlaceholders(bindings)
    ensures forall i :: 0 <= i < |bindings| ==>
              bindings[i].1 in ValuesOf(bindings, item) && ValuesOf(bindings, item)[bindings[i].1] == item[bindings[i].0]
    decreases |bindings|
  {
    if bindings != [] {
      var n := |bindings| - 1;
      var init, last := bindings[..n], bindings[n];
      ValuesOfContents(init, item);
      forall i | 0 <= i < |bindings|
        ensures bindings[i].1 in ValuesOf(bindings, item) && ValuesOf(bindings, item)[bindings[i].1] == item[bindings[i].0]
      {
        if i < n {
          assert bindings[i] == init[i] && bindings[i].1 != last.1;
        }
      }
    }
  }

  /** For each record the call is made exactly when the record has every
      column the plan reads; its `Key` maps exactly the key columns to the
      record's values, its update expression is the plan's set clause, and
      its value map sends each used placeholder to the record's value for the
      paired source column. */
  lemma RequestContents(key: Option<string>, expression: Option<string>, item: Record)
    requires BuildPlan(key, expression).Ok?
    ensures var plan := BuildPlan(key, expression).value;
            && (Request(plan, item).Ok? <==> HasColumns(plan, item))
            && (HasColumns(plan, item) ==>
                  var call := Request(plan, item).value;
                  && call.UpdateItem?
                  && call.key.Keys == (set k | k in plan.keys)
                  && (forall k :: k in plan.keys ==> call.key[k] == item[k])
                  && call.expression == SetClause(plan)
                  && call.values.Keys == (set i | 0 <= i < |plan.bindings| :: plan.bindings[i].1)
                  && (forall i :: 0 <= i < |plan.bindings| ==>
                        call.values[plan.bindings[i].1] == item[plan.bindings[i].0]))
  {
    var plan := BuildPlan(key, expression).value;
    if HasColumns(plan, item) {
      PlanPlaceholdersDistinct(key, expression);
      ValuesOfKeys(plan.bindings, item);
      ValuesOfContents(plan.bindings, item);
    }
  }

  predicate Plain(s: string) {
    ',' !in s && '=' !in s
  }

  lemma TwoPairPieces(t1: string, s1: string, t2: string, s2: string)
    requires Plain(t1) && Plain(s1) && Plain(t2) && Plain(s2)
    ensures Pieces(t1 + "=" + s1 + "," + t2 + "=" + s2) == [[t1, s1], [t2, s2]]
  {
    var p1, p2 := t1 + "=" + s1, t2 + "=" + s2;
    var e := t1 + "=" + s1 + "," + t2 + "=" + s2;
    assert e == p1 + "," + p2 == Join([p1, p2], ',');
    SplitJoin([p1, p2], ',');
    assert p1 == Join([t1, s1], '=');
    SplitJoin([t1, s1], '=');
    assert p2 == Join([t2, s2], '=');
    SplitJoin([t2, s2], '=');
    var parts := Split(e, ',');
    assert parts == [p1, p2];
    assert Pieces(e)[0] == [t1, s1];
    assert Pieces(e)[1] == [t2, s2];
  }

  /** A key spec with one column and an expression spec with two pairs give
      two pairs bound to `:a` and `:b` in that order. */
  lemma TwoPairPlan(k: string, t1: string, s1: string, t2: string, s2: string)
    requires ',' !in k
    requires Plain(t1) && Plain(s1) && Plain(t2) && Plain(s2)
    ensures BuildPlan(Some(k), Some(t1 + "=" + s1 + "," + t2 + "=" + s2))
              == Ok(Plan([k], [(t1, ":a"), (t2, ":b")], [(s1, ":a"), (s2, ":b")]))
    ensures SetClause(BuildPlan(Some(k), Some(t1 + "=" + s1 + "," + t2 + "=" + s2)).value)
              == "set " + t1 + " = :a," + t2 + " = :b"
  {
    var e := t1 + "=" + s1 + "," + t2 + "=" + s2;
    TwoPairPieces(t1, s1, t2, s2);
    SplitWithoutSeparator(k, ',');
    PlanFromSpecs(Some(k), Some(e));
    var plan := BuildPlan(Some(k), Some(e)).value;
    assert Placeholder(0) == ":a" && Placeholder(1) == ":b";
    assert plan.assignments == [(t1, ":a"), (t2, ":b")];
    assert plan.bindings == [(s1, ":a"), (s2, ":b")];
    assert " = " + ":a" == " = :a" && " = " + ":b" == " = :b";
    assert Assignment(plan.assignments[0]) == t1 + " = :a";
    assert Assignment(plan.assignments[1]) == t2 + " = :b";
    assert Assignments(plan) == [t1 + " = :a", t2 + " = :b"];
    assert Join(Assignments(plan), ',') == t1 + " = :a" + "," + t2 + " = :b";
  }

  /** The literal facts the documented example rests on, one lemma each so
      that each string comparison is checked on its own. */
  lemma StatusCountNames()
    ensures Plain("status") && Plain("new_status") && Plain("count") && Plain("new_count") && ',' !in "id"
  {
  }

  lemma StatusCountExpression()
    ensures "status=new_status,count=new_count"
              == "status" + "=" + "new_status" + "," + "count" + "=" + "new_count"
  {
    assert "status" + "=" + "new_status" == "status=new_status";
    assert "," + "count" + "=" + "new_count" == ",count=new_count";
  }

  lemma StatusCountClause()
    ensures "set status = :a,count = :b" == "set " + "status" + " = :a," + "count" + " = :b"
  {
    assert "set " + "status" == "set status";
    assert " = :a," + "count" + " = :b" == " = :a,count = :b";
  }

  /** The documented example: key `id` and expression
      `status=new_status,count=new_count` give two pairs bound to `:a` and
      `:b` in that order, and the set clause `set status = :a,count = :b`. */
  lemma StatusCountExample(key: string, expression: string)
    requires key == "id" && expression == "status=new_status,count=new_count"
    ensures BuildPlan(Some(key), Some(expression))
              == Ok(Plan(["id"], [("status", ":a"), ("count", ":b")],
                         [("new_status", ":a"), ("new_count", ":b")]))
    ensures SetClause(BuildPlan(Some(key), Some(expression)).value) == "set status = :a,count = :b"
  {
    StatusCountNames();
    StatusCountExpression();
    StatusCountClause();
    TwoPairPlan(key, "status", "new_status", "count", "new_count");
  }
}
