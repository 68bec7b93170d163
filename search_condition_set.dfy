/** IGCSearchConditionSet: leaf conditions joined by "and"/"or", plus one slot
    for a nested set. Compiling the set appends the nested set's compiled
    object to the set's own conditions array. */
module SearchConditionSets {
  import opened Wrappers
  import opened Json
  import opened SearchConditions

  const AND: string := "and"
  const OR: string := "or"

  /** The own state of one set: its conditions array and its join. */
  datatype Level = Level(conditions: seq<Json>, join: string)

  /** A compile's result together with the states of the chain of sets after it. */
  datatype Compiled = Compiled(result: Result<Json>, levels: seq<Level>)

  /** The object getConditionSetObject builds before any nested set is considered. */
  function SetObject(conditions: seq<Json>, join: string): (r: Json)
    ensures r.Obj?
    ensures |conditions| == 0 ==> r.fields == map[]
    ensures |conditions| > 0 ==>
              && r.fields.Keys == {"conditions", "operator"}
              && r.fields["conditions"] == Arr(conditions)
              && r.fields["operator"] == Str(join)
  {
    if |conditions| > 0 then Obj(map["conditions" := Arr(conditions), "operator" := Str(join)])
    else Obj(map[])
  }

  /** Compiling a chain of sets, outermost first, each the nested set of the one
      before. The nested set is compiled before the outer array is dereferenced,
      so its own side effects happen even when the outer set has no leaves. */
  function CompileChain(levels: seq<Level>): (c: Compiled)
    requires |levels| > 0
    ensures |c.levels| == |levels|
    ensures forall i :: 0 <= i < |levels| ==> c.levels[i].join == levels[i].join
    decreases |levels|
  {
    var l := levels[0];
    if |levels| == 1 then Compiled(Ok(SetObject(l.conditions, l.join)), levels)
    else
      var inner := CompileChain(levels[1..]);
      if inner.result.Err? then Compiled(inner.result, [l] + inner.levels)
      else if |l.conditions| == 0 then Compiled(Err(NullDereference), [l] + inner.levels)
      else
        var grown := l.conditions + [inner.result.value];
        Compiled(Ok(SetObject(grown, l.join)), [Level(grown, l.join)] + inner.levels)
  }

  /** With no leaves and no nested set the compiled object is empty. */
  lemma EmptySetCompilesToEmptyObject(join: string)
    ensures CompileChain([Level([], join)]) == Compiled(Ok(Obj(map[])), [Level([], join)])
  {
  }

  /** Without a nested set: "conditions" holds the leaves in order, "operator" the join,
      and compiling changes no state. */
  lemma FlatSetCompile(l: Level)
    requires |l.conditions| > 0
    ensures var c := CompileChain([l]);
      && c.levels == [l]
      && c.result.Ok? && c.result.value.fields.Keys == {"conditions", "operator"}
      && c.result.value.fields["conditions"] == Arr(l.conditions)
      && c.result.value.fields["operator"] == Str(l.join)
  {
  }

  /** With a nested set: its compiled object is the last element of "conditions",
      after the leaves; "operator" stays the outer join; the outer array grows by one. */
  lemma {:induction false} NestedSetCompile(levels: seq<Level>)
    requires |levels| >= 2 && |levels[0].conditions| > 0
    requires CompileChain(levels[1..]).result.Ok?
    ensures var c := CompileChain(levels); var n := CompileChain(levels[1..]).result.value;
      && c.result.Ok?
      && c.result.value.fields["conditions"] == Arr(levels[0].conditions + [n])
      && c.result.value.fields["operator"] == Str(levels[0].join)
      && c.levels[0] == Level(levels[0].conditions + [n], levels[0].join)
      && c.levels[1..] == CompileChain(levels[1..]).levels
  {
  }

  /** A nested set under a set without leaves fails (the Java code dereferences a
      missing "conditions" array), after the nested set itself was compiled. */
  lemma NestedWithoutLeavesFails(levels: seq<Level>)
    requires |levels| >= 2 && |levels[0].conditions| == 0
    ensures CompileChain(levels).result.Err?
    ensures CompileChain(levels).levels == [levels[0]] + CompileChain(levels[1..]).levels
  {
  }

  /** A nested set that has no nested set of its own is not changed by compiling. */
  lemma LeafChainUnchanged(inner: Level)
    ensures CompileChain([inner]).levels == [inner]
  {
  }

  /** Compiling twice lists the nested set twice: the first compile left its
      object in the outer array. */
  lemma {:induction false} CompileTwiceRepeatsNested(outer: Level, inner: Level)
    requires |outer.conditions| > 0
    ensures var n := SetObject(inner.conditions, inner.join);
      var first := CompileChain([outer, inner]);
      var second := CompileChain(first.levels);
      && first.result == Ok(SetObject(outer.conditions + [n], outer.join))
      && second.result == Ok(SetObject(outer.conditions + [n, n], outer.join))
      && second.levels == [Level(outer.conditions + [n, n], outer.join), inner]
  {
    var n := SetObject(inner.conditions, inner.join);
    assert [outer, inner][1..] == [inner];
    assert CompileChain([inner]) == Compiled(Ok(n), [inner]);
    var first := CompileChain([outer, inner]);
    assert first.levels == [Level(outer.conditions + [n], outer.join), inner];
    assert first.levels[1..] == [inner];
    assert outer.conditions + [n] + [n] == outer.conditions + [n, n];
  }

  /** The shape of a set of leaves [a] joined by "and" with a nested set of leaves
      [b] joined by "or". */
  lemma NestingScenario(a: Condition, b: Condition)
    ensures var c := CompileChain([Level([ConditionObject(a)], AND), Level([ConditionObject(b)], OR)]);
      && c.result.Ok?
      && c.result.value.fields["conditions"]
         == Arr([ConditionObject(a), SetObject([ConditionObject(b)], OR)])
      && c.result.value.fields["operator"] == Str(AND)
  {
    var levels := [Level([ConditionObject(a)], AND), Level([ConditionObject(b)], OR)];
    assert levels[1..] == [Level([ConditionObject(b)], OR)];
  }

  /** `chain` is a set followed by the sets its nested slots lead to, outermost
      first, ending at a set without a nested set. Java's compile of chain[0]
      terminates exactly when such a chain exists, in whatever order the sets
      were nested. */
  ghost predicate IsChain(chain: seq<ConditionSet>)
    reads set s | s in chain
  {
    && |chain| > 0
    && (forall i {:trigger chain[i].nested} :: 0 <= i < |chain| - 1 ==> chain[i].nested == chain[i + 1])
    && chain[|chain| - 1].nested == null
  }

  /** A chain never visits a set twice: following the nested slot from two
      positions holding the same set would reach the end at two positions. */
  lemma {:induction false} ChainIsDistinct(chain: seq<ConditionSet>, i: nat, j: nat)
    requires IsChain(chain) && i < j < |chain|
    ensures chain[i] != chain[j]
    decreases |chain| - j
  {
    if chain[i] == chain[j] {
      if j == |chain| - 1 {
        assert false;
      } else {
        assert chain[i + 1] == chain[i].nested == chain[j].nested == chain[j + 1];
        ChainIsDistinct(chain, i + 1, j + 1);
        assert false;
      }
    }
  }

  /** The tail of a chain is the chain of the first set's nested set. */
  lemma ChainTail(chain: seq<ConditionSet>)
    requires IsChain(chain) && |chain| > 1
    ensures IsChain(chain[1..]) && chain[1..][0] == chain[0].nested
    ensures chain[0] !in chain[1..]
  {
    forall k | 0 <= k < |chain| - 1
      ensures chain[1..][k] != chain[0]
    {
      ChainIsDistinct(chain, 0, k + 1);
    }
  }

  /** The own states of the sets of a chain, in order. */
  ghost function LevelsOf(chain: seq<ConditionSet>): (ls: seq<Level>)
    reads set s | s in chain
    ensures |ls| == |chain|
  {
    if chain == [] then [] else [Level(chain[0].conditions, chain[0].conditionJoin)] + LevelsOf(chain[1..])
  }

  /** Three one-leaf sets joined by "and", each nested in the one before. */
  lemma ThreeLevelCompile(a: Condition, b: Condition, c: Condition)
    ensures CompileChain([Level([ConditionObject(a)], AND), Level([ConditionObject(b)], AND),
                          Level([ConditionObject(c)], AND)]).result
            == Ok(SetObject([ConditionObject(a),
                             SetObject([ConditionObject(b), SetObject([ConditionObject(c)], AND)], AND)], AND))
  {
    var levels := [Level([ConditionObject(a)], AND), Level([ConditionObject(b)], AND), Level([ConditionObject(c)], AND)];
    var nc := SetObject([ConditionObject(c)], AND);
    var nb := SetObject([ConditionObject(b), nc], AND);
    var inner := [levels[1], levels[2]];
    assert levels[1..] == inner && inner[1..] == [levels[2]];
    assert CompileChain([levels[2]]).result == Ok(nc);
    assert [ConditionObject(b)] + [nc] == [ConditionObject(b), nc];
    assert CompileChain(inner).result == Ok(nb);
    assert [ConditionObject(a)] + [nb] == [ConditionObject(a), nb];
  }

  /** Sets nested top-down (a over b first, then b over c) compile like sets
      nested bottom-up: only the links in place at the compile matter. */
  method NestTopDown(a: Condition, b: Condition, c: Condition) returns (r: Result<Json>)
    ensures r == Ok(SetObject([ConditionObject(a),
                               SetObject([ConditionObject(b), SetObject([ConditionObject(c)], AND)], AND)], AND))
  {
    var sa, sb, sc := LinkTopDown(a, b, c);
    ThreeLevelCompile(a, b, c);
    r := sa.GetConditionSetObject([sa, sb, sc]);
  }

  /** Three new one-leaf sets, a over b first, then b over c: the chain a, b, c. */
  method LinkTopDown(a: Condition, b: Condition, c: Condition) returns (sa: ConditionSet, sb: ConditionSet, sc: ConditionSet)
    ensures fresh(sa) && fresh(sb) && fresh(sc)
    ensures IsChain([sa, sb, sc])
    ensures LevelsOf([sa, sb, sc]) == [Level([ConditionObject(a)], AND), Level([ConditionObject(b)], AND),
                                       Level([ConditionObject(c)], AND)]
  {
    sa := new ConditionSet.WithCondition(a);
    sb := new ConditionSet.WithCondition(b);
    sc := new ConditionSet.WithCondition(c);
    sa.AddNestedConditionSet(sb);
    sb.AddNestedConditionSet(sc);
    ThreeChain(sa, sb, sc);
  }

  /** Nesting null removes an earlier nesting: the set compiles as its leaves alone. */
  method UnnestClears(a: Condition, b: Condition) returns (r: Result<Json>)
    ensures r == Ok(SetObject([ConditionObject(a)], AND))
  {
    var sa := new ConditionSet.WithCondition(a);
    var sb := new ConditionSet.WithCondition(b);
    sa.AddNestedConditionSet(sb);
    sa.AddNestedConditionSet(null);
    assert LevelsOf([sa]) == [Level(sa.conditions, sa.conditionJoin)] + LevelsOf([sa][1..]);
    r := sa.GetConditionSetObject([sa]);
  }

  /** Three sets linked through their nested slots form a chain with their levels. */
  lemma ThreeChain(x: ConditionSet, y: ConditionSet, z: ConditionSet)
    requires x.nested == y && y.nested == z && z.nested == null
    ensures IsChain([x, y, z])
    ensures LevelsOf([x, y, z]) == [Level(x.conditions, x.conditionJoin), Level(y.conditions, y.conditionJoin),
                                    Level(z.conditions, z.conditionJoin)]
  {
    var chain := [x, y, z];
    assert chain[1..] == [y, z] && chain[1..][1..] == [z];
    assert chain[0].nested == chain[1] && chain[1].nested == chain[2];
    assert LevelsOf([z]) == [Level(z.conditions, z.conditionJoin)] + LevelsOf([z][1..]);
    assert LevelsOf([y, z]) == [Level(y.conditions, y.conditionJoin)] + LevelsOf([z]);
    assert LevelsOf(chain) == [Level(x.conditions, x.conditionJoin)] + LevelsOf([y, z]);
  }

  class ConditionSet {
    var conditions: seq<Json>
    var conditionJoin: string
    var nested: ConditionSet?

    /** new IGCSearchConditionSet(): no leaves, join "and", no nested set. */
    constructor ()
      ensures conditions == [] && conditionJoin == AND && nested == null
      ensures IsChain([this])
    {
      conditions := [];
      conditionJoin := AND;
      nested := null;
    }

    /** new IGCSearchConditionSet(condition): the default set with one leaf added. */
    constructor WithCondition(condition: Condition)
      ensures conditions == [ConditionObject(condition)] && conditionJoin == AND && nested == null
      ensures IsChain([this])
    {
      conditions := [ConditionObject(condition)];
      conditionJoin := AND;
      nested := null;
    }

    /** Number of leaves (and nested objects appended by earlier compiles). */
    function Size(): (n: nat)
      reads this
      ensures n == |conditions|
    {
      |conditions|
    }

    /** addCondition: the compiled leaf goes at the end; size grows by one. */
    method AddCondition(condition: Condition)
      modifies this`conditions
      ensures conditions == old(conditions) + [ConditionObject(condition)]
      ensures Size() == old(Size()) + 1
    {
      conditions := conditions + [ConditionObject(condition)];
    }

    /** setMatchAnyCondition: "or" for true, "and" for false; only the join changes. */
    method SetMatchAnyCondition(on: bool)
      modifies this`conditionJoin
      ensures conditionJoin == if on then OR else AND
    {
      conditionJoin := if on then OR else AND;
    }

    /** addNestedConditionSet: the single nested slot now holds `other`, replacing
        whatever it held; null empties it. */
    method AddNestedConditionSet(other: ConditionSet?)
      modifies this`nested
      ensures nested == other
    {
      nested := other;
    }

    /** getConditionSetObject: compiles the chain, appending each nested set's
        object to its parent's own array. */
    method GetConditionSetObject(ghost chain: seq<ConditionSet>) returns (r: Result<Json>)
      requires IsChain(chain) && chain[0] == this
      modifies set s | s in chain
      ensures forall i :: 0 <= i < |chain| ==> chain[i].nested == old(chain[i].nested)
      ensures Compiled(r, LevelsOf(chain)) == CompileChain(old(LevelsOf(chain)))
      decreases |chain|
    {
      if nested == null {
        if |chain| > 1 {
          assert false;
        }
        r := Ok(SetObject(conditions, conditionJoin));
        return;
      }
      ChainTail(chain);
      ghost var tail := chain[1..];
      ghost var before := LevelsOf(chain);
      assert before == [Level(conditions, conditionJoin)] + LevelsOf(tail);
      var inner := nested.GetConditionSetObject(tail);
      assert Compiled(inner, LevelsOf(tail)) == CompileChain(before[1..]);
      if inner.Err? {
        r := inner;
      } else if |conditions| == 0 {
        r := Err(NullDereference);
      } else {
        conditions := conditions + [inner.value];
        r := Ok(SetObject(conditions, conditionJoin));
      }
      assert LevelsOf(chain) == [Level(conditions, conditionJoin)] + LevelsOf(tail);
      forall i | 0 < i < |chain|
        ensures chain[i].nested == old(chain[i].nested)
      {
        assert chain[i] == tail[i - 1];
      }
    }
  }
}
