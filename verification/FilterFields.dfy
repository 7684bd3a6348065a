/** What field paths denote, and what the comparison operators mean on the values found there. */
module FilterFields {
  import opened Wrappers
  import opened FilterSyntax
  import opened FilterEval

  // ---------------------------------------------------------------- paths

  predicate DotFree(parts: seq<string>) {
    forall i | 0 <= i < |parts| :: '.' !in parts[i]
  }

  /** Parts joined by dots. */
  function Join(parts: seq<string>): string
    requires parts != []
  {
    if |parts| == 1 then parts[0] else parts[0] + "." + Join(parts[1..])
  }

  lemma {:induction false} SplitWithoutDots(p: string)
    requires '.' !in p
    ensures SplitDots(p) == [p]
  {
    if p == "" {
    } else {
      SplitWithoutDots(p[1..]);
      assert [p[0]] + p[1..] == p;
    }
  }

  lemma {:induction false} SplitAtDot(p: string, rest: string)
    requires '.' !in p
    ensures SplitDots(p + "." + rest) == [p] + SplitDots(rest)
  {
    var path := p + "." + rest;
    if p == "" {
      assert path[1..] == rest;
    } else {
      SplitAtDot(p[1..], rest);
      assert path[1..] == p[1..] + "." + rest;
      assert [p[0]] + p[1..] == p;
    }
  }

  lemma {:induction false} SplitJoin(parts: seq<string>)
    requires parts != [] && DotFree(parts)
    ensures SplitDots(Join(parts)) == parts
  {
    if |parts| == 1 {
      SplitWithoutDots(parts[0]);
    } else {
      SplitJoin(parts[1..]);
      SplitAtDot(parts[0], Join(parts[1..]));
    }
  }

  /** Splitting loses nothing: it is the inverse of joining. */
  lemma {:induction false} JoinSplit(path: string)
    ensures DotFree(SplitDots(path)) && Join(SplitDots(path)) == path
  {
    if path == "" {
    } else {
      var rest := SplitDots(path[1..]);
      JoinSplit(path[1..]);
      if path[0] == '.' {
        assert ([""] + rest)[1..] == rest;
        assert "" + "." + path[1..] == path;
      } else {
        assert ([[path[0]] + rest[0]] + rest[1..])[1..] == rest[1..];
        assert [path[0]] + path[1..] == path;
      }
    }
  }

  /** The value reached from v by following the keys, one map at a time. */
  function Descend(v: Value, keys: seq<string>): Option<Value>
    decreases |keys|
  {
    if keys == [] then Some(v)
    else if v.Dict? && keys[0] in v.m then Descend(v.m[keys[0]], keys[1..])
    else None
  }

  lemma {:induction false} NavigateIsDescend(m: map<string, Value>, keys: seq<string>)
    ensures NavigateMap(m, keys) == Descend(Dict(m), keys)
    decreases |keys|
  {
    if keys != [] && keys[0] in m {
      if |keys| == 1 {
        assert Descend(m[keys[0]], keys[1..]) == Some(m[keys[0]]);
      } else if m[keys[0]].Dict? {
        NavigateIsDescend(m[keys[0]].m, keys[1..]);
      }
    }
  }

  /** A path into the state finds exactly the value its keys lead to, under either of its two names. */
  lemma {:induction false} StatePath(c: Client, root: string, keys: seq<string>)
    requires (root == "state" || root == "inner_state") && DotFree(keys)
    ensures GetField(c, Join([root] + keys)) == Descend(Dict(c.state), keys)
  {
    var parts := [root] + keys;
    SplitJoin(parts);
    assert parts[1..] == keys;
    NavigateIsDescend(c.state, keys);
  }

  /**
   * A label is found under its name up to the first dot: names without dots find their label, and
   * a label whose own name has a dot is out of reach.
   */
  lemma {:induction false} LabelPath(c: Client, name: string)
    ensures GetField(c, "labels." + name)
         == var key := SplitDots(name)[0]; if key in c.labels then Some(Str(c.labels[key])) else None
    ensures '.' !in name ==> SplitDots(name)[0] == name
    ensures '.' in name ==> SplitDots(name)[0] != name
  {
    SplitAtDot("labels", name);
    assert "labels" + "." + name == "labels." + name;
    if '.' !in name {
      SplitWithoutDots(name);
    } else {
      JoinSplit(name);
    }
  }

  /** The plain fields ignore whatever follows them in the path. */
  lemma {:induction false} PlainPath(c: Client, root: string, keys: seq<string>)
    requires '.' !in root && DotFree(keys)
    ensures var r := GetField(c, Join([root] + keys));
            && ((root == "client_id" || root == "id") ==> r == Some(Str(c.id)))
            && (root == "os" ==> r == Some(Str(c.os)))
            && (root == "active" ==> r == Some(Bool(c.active)))
            && (root == "labels" && keys == [] ==> r == Some(Labels(c.labels)))
            && (root !in ["client_id", "id", "os", "active", "labels", "state", "inner_state"] ==> r == None)
  {
    SplitJoin([root] + keys);
  }

  // ---------------------------------------------------------------- comparisons

  predicate Holds(rt: Runtime, field: string, op: FilterOp, v: Value, c: Client) {
    Evaluate(rt, Cond(field, op, v), c) == Ok(true)
  }

  /**
   * Between values that count as numbers: exactly one of less, equal and greater holds unless one
   * is NaN, when none does; the weak orderings are their unions; finite numbers compare as reals,
   * between the infinities.
   */
  lemma {:induction false} NumbersAreOrdered(rt: Runtime, field: string, v: Value, c: Client, x: Float, y: Float)
    requires GetField(c, field).Some? && v != Null && GetField(c, field).value != Null
    requires ToFloat(rt, GetField(c, field).value) == Some(x) && ToFloat(rt, v) == Some(y)
    ensures var lt, eq, gt := Holds(rt, field, OpLt, v, c), Holds(rt, field, OpEq, v, c), Holds(rt, field, OpGt, v, c);
            && (!x.NaN? && !y.NaN? ==> (lt || eq || gt))
            && (x.NaN? || y.NaN? ==> !lt && !eq && !gt)
            && !(lt && eq) && !(eq && gt) && !(lt && gt)
            && (Holds(rt, field, OpLte, v, c) <==> lt || eq)
            && (Holds(rt, field, OpGte, v, c) <==> gt || eq)
            && (x.Fin? && y.Fin? ==> (lt <==> x.r < y.r) && (eq <==> x.r == y.r) && (gt <==> x.r > y.r))
            && (x.NegInf? || y.PosInf? ==> !gt) && (x.PosInf? || y.NegInf? ==> !lt)
  {
    assert forall op | op in [OpLt, OpGt, OpLte, OpGte] ::
        EvalCondition(rt, FilterCondition(field, op, v), c) == NumericCompare(rt, GetField(c, field).value, op, v);
  }

  /** Where one side is no number, orderings fail, and equality is that of the printed texts. */
  lemma {:induction false} OthersCompareAsText(rt: Runtime, field: string, op: FilterOp, v: Value, c: Client)
    requires GetField(c, field).Some? && v != Null && GetField(c, field).value != Null
    requires ToFloat(rt, GetField(c, field).value).None? || ToFloat(rt, v).None?
    ensures (op.OpLt? || op.OpGt? || op.OpLte? || op.OpGte?) ==>
        Evaluate(rt, Cond(field, op, v), c) == Err(TypeMismatch)
    ensures Holds(rt, field, OpEq, v, c) <==> rt.sprint(GetField(c, field).value) == rt.sprint(v)
    ensures Holds(rt, field, OpNeq, v, c) <==> rt.sprint(GetField(c, field).value) != rt.sprint(v)
  {
    assert EvalCondition(rt, FilterCondition(field, op, v), c) == CompareValues(rt, GetField(c, field).value, op, v);
  }

  /** Conditions evaluate to their comparison with the field's value. */
  lemma {:induction false} ConditionIs(rt: Runtime, field: string, op: FilterOp, v: Value, c: Client)
    requires GetField(c, field).Some?
    ensures Evaluate(rt, Cond(field, op, v), c) == CompareValues(rt, GetField(c, field).value, op, v)
  {
    assert Evaluate(rt, Cond(field, op, v), c) == EvalCondition(rt, FilterCondition(field, op, v), c);
  }

  /** A condition on a field the client does not have is false, with every operator. */
  lemma {:induction false} UnknownNeverMatches(rt: Runtime, field: string, op: FilterOp, v: Value, c: Client)
    requires GetField(c, field) == None
    ensures Evaluate(rt, Cond(field, op, v), c) == Ok(false)
  {
    assert Evaluate(rt, Cond(field, op, v), c) == EvalCondition(rt, FilterCondition(field, op, v), c);
  }

  /** An operator beyond the ten is an error on any field the client has, and so is a node that is nothing. */
  lemma {:induction false} MalformedFails(
      rt: Runtime, field: string, text: string, v: Value, l: FilterNode, r: FilterNode, c: Client)
    ensures GetField(c, field).Some? ==> Evaluate(rt, Cond(field, OpOther(text), v), c) == Err(InvalidOperator)
    ensures Evaluate(rt, Node(None, LogicNone, l, r), c) == Err(InvalidFilter)
  {
    if GetField(c, field).Some? {
      ConditionIs(rt, field, OpOther(text), v, c);
    }
  }

  /** A null value equals only null, and cannot be ordered. */
  lemma {:induction false} NullEqualsNull(rt: Runtime, field: string, op: FilterOp, v: Value, c: Client)
    requires GetField(c, field).Some? && (GetField(c, field).value == Null || v == Null)
    ensures Holds(rt, field, OpEq, v, c) <==> GetField(c, field).value == v
    ensures Holds(rt, field, OpNeq, v, c) <==> GetField(c, field).value != v
    ensures op.OpLt? || op.OpGt? || op.OpLte? || op.OpGte? ==>
              Evaluate(rt, Cond(field, op, v), c) == Err(TypeMismatch)
  {
    ConditionIs(rt, field, OpEq, v, c);
    ConditionIs(rt, field, OpNeq, v, c);
    ConditionIs(rt, field, op, v, c);
  }

  /** Inequality is the opposite of equality, and neither fails. */
  lemma {:induction false} EqualityDecides(rt: Runtime, field: string, v: Value, c: Client)
    requires GetField(c, field).Some?
    ensures Evaluate(rt, Cond(field, OpEq, v), c) == Ok(Holds(rt, field, OpEq, v, c))
    ensures Evaluate(rt, Cond(field, OpNeq, v), c) == Ok(!Holds(rt, field, OpEq, v, c))
  {
    ConditionIs(rt, field, OpEq, v, c);
    ConditionIs(rt, field, OpNeq, v, c);
  }

  /** Where the conversion is exact, integers compare as integers. */
  lemma {:induction false} IntegersCompare(rt: Runtime, field: string, i: int, j: int, c: Client)
    requires GetField(c, field) == Some(Int(i))
    requires rt.intToFloat(i) == Fin(i as real) && rt.intToFloat(j) == Fin(j as real)
    ensures Holds(rt, field, OpLt, Int(j), c) <==> i < j
    ensures Holds(rt, field, OpLte, Int(j), c) <==> i <= j
    ensures Holds(rt, field, OpGt, Int(j), c) <==> i > j
    ensures Holds(rt, field, OpGte, Int(j), c) <==> i >= j
    ensures Holds(rt, field, OpEq, Int(j), c) <==> i == j
    ensures Holds(rt, field, OpNeq, Int(j), c) <==> i != j
  {
    NumbersAreOrdered(rt, field, Int(j), c, Fin(i as real), Fin(j as real));
    EqualityDecides(rt, field, Int(j), c);
  }

  /** Booleans count as one and zero: against booleans, and against integers whose conversion is exact. */
  lemma {:induction false} BooleansCompare(rt: Runtime, field: string, a: bool, b: bool, j: int, c: Client)
    requires GetField(c, field) == Some(Bool(a)) && rt.intToFloat(j) == Fin(j as real)
    ensures Holds(rt, field, OpEq, Bool(b), c) <==> a == b
    ensures Holds(rt, field, OpLt, Bool(b), c) <==> !a && b
    ensures Holds(rt, field, OpEq, Int(j), c) <==> j == if a then 1 else 0
  {
    var x := Fin(if a then 1.0 else 0.0);
    NumbersAreOrdered(rt, field, Bool(b), c, x, Fin(if b then 1.0 else 0.0));
    NumbersAreOrdered(rt, field, Int(j), c, x, Fin(j as real));
  }

  /** Texts that both parse as numbers compare as these numbers; otherwise they are equal when printed alike. */
  lemma {:induction false} TextsCompare(rt: Runtime, field: string, x: string, y: string, c: Client)
    requires GetField(c, field) == Some(Str(x))
    requires rt.sprint(Str(x)) == x && rt.sprint(Str(y)) == y
    ensures rt.parseFloat(x).None? || rt.parseFloat(y).None? ==>
              (Holds(rt, field, OpEq, Str(y), c) <==> x == y)
              && Evaluate(rt, Cond(field, OpLt, Str(y)), c) == Err(TypeMismatch)
    ensures rt.parseFloat(x).Some? && rt.parseFloat(y).Some?
            && rt.parseFloat(x).value.Fin? && rt.parseFloat(y).value.Fin? ==>
              var a, b := rt.parseFloat(x).value.r, rt.parseFloat(y).value.r;
              (Holds(rt, field, OpEq, Str(y), c) <==> a == b) && (Holds(rt, field, OpLt, Str(y), c) <==> a < b)
  {
    if rt.parseFloat(x).Some? && rt.parseFloat(y).Some? {
      NumbersAreOrdered(rt, field, Str(y), c, rt.parseFloat(x).value, rt.parseFloat(y).value);
    } else {
      OthersCompareAsText(rt, field, OpLt, Str(y), c);
    }
  }

  /** Lists and maps are no numbers: they cannot be ordered. */
  lemma {:induction false} CollectionsHaveNoOrder(rt: Runtime, field: string, op: FilterOp, v: Value, c: Client)
    requires GetField(c, field).Some? && (op.OpLt? || op.OpGt? || op.OpLte? || op.OpGte?)
    requires var x := GetField(c, field).value; x.List? || x.Strs? || x.Dict? || x.Labels?
    ensures Evaluate(rt, Cond(field, op, v), c) == Err(TypeMismatch)
  {
    ConditionIs(rt, field, op, v, c);
  }

  // ---------------------------------------------------------------- membership

  /** The values compare equal as `==` compares them. */
  predicate Same(rt: Runtime, x: Value, y: Value) {
    CompareValues(rt, x, OpEq, y) == Ok(true)
  }

  predicate SomeSame(rt: Runtime, x: Value, vs: seq<Value>) {
    exists i :: 0 <= i < |vs| && Same(rt, x, vs[i])
  }

  /** IN asks a list for an equal element, or a list of texts for the printed value; anything else is a mismatch. */
  lemma {:induction false} InMeans(rt: Runtime, field: string, v: Value, c: Client)
    requires GetField(c, field).Some?
    ensures var x, r := GetField(c, field).value, Evaluate(rt, Cond(field, OpIn, v), c);
            && (v.List? ==> r == Ok(SomeSame(rt, x, v.vs)))
            && (v.Strs? ==> r == Ok(rt.sprint(x) in v.ss))
            && (!v.List? && !v.Strs? ==> r == Err(TypeMismatch))
    ensures Evaluate(rt, Cond(field, OpNotIn, v), c) == Opposite(Evaluate(rt, Cond(field, OpIn, v), c))
  {
    ConditionIs(rt, field, OpIn, v, c);
    ConditionIs(rt, field, OpNotIn, v, c);
    var x := GetField(c, field).value;
    if v.List? {
      assert forall i | 0 <= i < |v.vs| :: Same(rt, x, v.vs[i]) == EqualsAny(rt, x, v.vs[i]);
    }
  }

  /** The other truth value, or the same error. */
  function Opposite(r: Outcome): Outcome {
    if r == Ok(true) then Ok(false) else if r == Ok(false) then Ok(true) else r
  }

  /** y stands somewhere in x. */
  ghost predicate Within(y: string, x: string) {
    exists before: string, after: string :: x == before + y + after
  }

  lemma {:induction false} WithinAt(x: string, y: string)
    ensures Within(y, x) <==> exists i :: 0 <= i <= |x| && y <= x[i..]
  {
    if i :| 0 <= i <= |x| && y <= x[i..] {
      assert x == x[..i] + y + x[i + |y|..];
    }
    if Within(y, x) {
      var before: string, after: string :| x == before + y + after;
      assert x[|before|..] == y + after;
    }
  }

  /**
   * CONTAINS asks a text for the other text anywhere in it, and a list for an equal element;
   * anything else is a mismatch.
   */
  lemma {:induction false} ContainsMeans(rt: Runtime, field: string, v: Value, c: Client)
    requires GetField(c, field).Some?
    ensures var x, r := GetField(c, field).value, Evaluate(rt, Cond(field, OpContains, v), c);
            && (x.Str? && v.Str? ==> r == Ok(Within(v.s, x.s)))
            && (x.List? ==> r == Ok(exists i :: 0 <= i < |x.vs| && Same(rt, x.vs[i], v)))
            && (!(x.Str? && v.Str?) && !x.List? ==> r == Err(TypeMismatch))
    ensures Evaluate(rt, Cond(field, OpNotContains, v), c) == Opposite(Evaluate(rt, Cond(field, OpContains, v), c))
  {
    ConditionIs(rt, field, OpContains, v, c);
    ConditionIs(rt, field, OpNotContains, v, c);
    var x := GetField(c, field).value;
    if x.Str? && v.Str? {
      WithinAt(x.s, v.s);
    }
    if x.List? {
      assert forall i | 0 <= i < |x.vs| :: Same(rt, x.vs[i], v) == EqualsAny(rt, x.vs[i], v);
    }
  }
}
