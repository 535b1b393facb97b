/**
 * Expression::any: the OR of a (possibly nested) array of expressions. The
 * array is flattened level by level, the joins are merged with the first
 * alias of a 5-tuple kept, the terms are parenthesised and joined with OR, and
 * each member's values and types are appended last first.
 */
module AnyCombinator {
  import opened Strings
  import opened Joiner
  import opened Expressions

  /** The expressions standing directly in an array, in order. */
  function Singles(items: seq<Item>): seq<Expression>
  {
    if items == [] then []
    else (if items[0].One? then [items[0].e] else []) + Singles(items[1..])
  }

  /** The inner arrays of an array, concatenated in order (ArrayUtility::mergeTwo). */
  function Children(items: seq<Item>): seq<Item>
  {
    if items == [] then []
    else (if items[0].Group? then items[0].items else []) + Children(items[1..])
  }

  /** The number of nodes of an array: each expression and each inner array counts once. */
  function Size(items: seq<Item>): nat
  {
    if items == [] then 0
    else (if items[0].Group? then 1 + Size(items[0].items) else 1) + Size(items[1..])
  }

  /** The expressions of a nested array in depth-first order: the reference view of its contents. */
  function Leaves(items: seq<Item>): seq<Expression>
  {
    if items == [] then []
    else (if items[0].Group? then Leaves(items[0].items) else [items[0].e]) + Leaves(items[1..])
  }

  lemma {:induction false} SinglesConcat(a: seq<Item>, b: seq<Item>)
    ensures Singles(a + b) == Singles(a) + Singles(b)
  {
    if a == [] {
      assert a + b == b;
    } else {
      assert (a + b)[0] == a[0] && (a + b)[1..] == a[1..] + b;
      SinglesConcat(a[1..], b);
      ConcatAssoc(if a[0].One? then [a[0].e] else [], Singles(a[1..]), Singles(b));
    }
  }

  lemma {:induction false} ChildrenConcat(a: seq<Item>, b: seq<Item>)
    ensures Children(a + b) == Children(a) + Children(b)
  {
    if a == [] {
      assert a + b == b;
    } else {
      assert (a + b)[0] == a[0] && (a + b)[1..] == a[1..] + b;
      ChildrenConcat(a[1..], b);
      ConcatAssoc(if a[0].Group? then a[0].items else [], Children(a[1..]), Children(b));
    }
  }

  lemma {:induction false} SizeConcat(a: seq<Item>, b: seq<Item>)
    ensures Size(a + b) == Size(a) + Size(b)
  {
    if a == [] {
      assert a + b == b;
    } else {
      assert (a + b)[1..] == a[1..] + b;
      SizeConcat(a[1..], b);
    }
  }

  lemma {:induction false} LeavesConcat(a: seq<Item>, b: seq<Item>)
    ensures Leaves(a + b) == Leaves(a) + Leaves(b)
  {
    if a == [] {
      assert a + b == b;
    } else {
      assert (a + b)[0] == a[0] && (a + b)[1..] == a[1..] + b;
      LeavesConcat(a[1..], b);
      ConcatAssoc(if a[0].Group? then Leaves(a[0].items) else [a[0].e], Leaves(a[1..]), Leaves(b));
    }
  }

  /** One flattening pass removes one node per item of the array. */
  lemma {:induction false} ChildrenSize(items: seq<Item>)
    ensures Size(Children(items)) + |items| == Size(items)
  {
    if items != [] {
      ChildrenSize(items[1..]);
      var here := if items[0].Group? then items[0].items else [];
      SizeConcat(here, Children(items[1..]));
    }
  }

  /** The flattening of `any`: this level's expressions, then the flattening of its inner arrays' contents. */
  function Flatten(items: seq<Item>): seq<Expression>
    decreases Size(items)
  {
    if items == [] then []
    else
      ChildrenSize(items);
      Singles(items) + Flatten(Children(items))
  }

  /** A level contributes its expressions here and its inner arrays' leaves below. */
  lemma {:induction false} LeavesSplit(items: seq<Item>)
    ensures multiset(Leaves(items)) == multiset(Singles(items)) + multiset(Leaves(Children(items)))
  {
    if items != [] {
      LeavesSplit(items[1..]);
      var here := if items[0].Group? then items[0].items else [];
      LeavesConcat(here, Children(items[1..]));
    }
  }

  /** Flattening keeps every expression of the nested array, each as often as it occurs; only the order changes. */
  lemma {:induction false} FlattenLeaves(items: seq<Item>)
    ensures multiset(Flatten(items)) == multiset(Leaves(items))
    decreases Size(items)
  {
    if items != [] {
      ChildrenSize(items);
      FlattenLeaves(Children(items));
      LeavesSplit(items);
    }
  }

  /** An array without inner arrays is flattened into its own expressions, in order. */
  lemma {:induction false} FlattenFlat(items: seq<Item>)
    requires forall i :: 0 <= i < |items| ==> items[i].One?
    ensures Flatten(items) == Leaves(items)
    ensures |Flatten(items)| == |items| && forall i :: 0 <= i < |items| ==> Flatten(items)[i] == items[i].e
  {
    if items != [] {
      FlatSingles(items);
      assert Children(items) == [] by {
        FlatChildren(items);
      }
    }
  }

  lemma {:induction false} FlatSingles(items: seq<Item>)
    requires forall i :: 0 <= i < |items| ==> items[i].One?
    ensures Singles(items) == Leaves(items)
    ensures |Singles(items)| == |items| && forall i :: 0 <= i < |items| ==> Singles(items)[i] == items[i].e
  {
    if items != [] {
      FlatSingles(items[1..]);
    }
  }

  lemma {:induction false} FlatChildren(items: seq<Item>)
    requires forall i :: 0 <= i < |items| ==> items[i].One?
    ensures Children(items) == []
  {
    if items != [] {
      FlatChildren(items[1..]);
    }
  }

  /** One pass of the flattening loop: the foreach over the current level. */
  method FlattenLevel(level: seq<Item>) returns (singles: seq<Expression>, next: seq<Item>)
    ensures singles == Singles(level) && next == Children(level)
  {
    singles, next := [], [];
    var i := 0;
    while i < |level|
      invariant 0 <= i <= |level|
      invariant next == Children(level[..i])
      invariant singles == Singles(level[..i])
    {
      assert level[..i + 1] == level[..i] + [level[i]];
      SinglesConcat(level[..i], [level[i]]);
      ChildrenConcat(level[..i], [level[i]]);
      assert [level[i]][1..] == [];
      match level[i] {
        case One(e) =>
          singles := singles + [e];
        case Group(xs) =>
          next := next + xs;
      }
      i := i + 1;
    }
    assert level[..i] == level;
  }

  /** The `while(count($expressions)>0)` loop of `any`. */
  method FlattenItems(items: seq<Item>) returns (flat: seq<Expression>)
    ensures flat == Flatten(items)
  {
    flat := [];
    var level := items;
    while |level| > 0
      invariant flat + Flatten(level) == Flatten(items)
      decreases Size(level)
    {
      var singles, next := FlattenLevel(level);
      ChildrenSize(level);
      assert Flatten(level) == singles + Flatten(next);
      flat := flat + singles;
      level := next;
    }
  }

  /** The joins of `m` with those of `j` whose 5-tuple `m` lacks (an existing alias is never replaced). */
  function MergeInto(m: Joins, j: Joins): (r: Joins)
    ensures r.Keys == m.Keys + j.Keys
    ensures forall k :: k in m ==> r[k] == m[k]
    ensures forall k :: k in j && k !in m ==> r[k] == j[k]
  {
    map k | k in m.Keys + j.Keys :: if k in m then m[k] else j[k]
  }

  /** The merged joins of the listed expressions, in order. */
  function MergeJoins(es: seq<Expression>): Joins
  {
    if es == [] then map[] else MergeInto(MergeJoins(es[..|es| - 1]), es[|es| - 1].joins)
  }

  /**
   * A 5-tuple is joined by the merge exactly when some member joins it, and
   * its alias is the one of the first member that does.
   */
  lemma {:induction false} MergeJoinsFirstWins(es: seq<Expression>, k: JoinPath)
    ensures k in MergeJoins(es) <==> exists i :: 0 <= i < |es| && k in es[i].joins
    ensures k in MergeJoins(es) ==> exists i :: 0 <= i < |es| && k in es[i].joins && MergeJoins(es)[k] == es[i].joins[k]
                                                && forall j :: 0 <= j < i ==> k !in es[j].joins
  {
    if es != [] {
      var init := es[..|es| - 1];
      MergeJoinsFirstWins(init, k);
      if k in MergeJoins(init) {
        var i :| 0 <= i < |init| && k in init[i].joins && MergeJoins(init)[k] == init[i].joins[k]
                 && forall j :: 0 <= j < i ==> k !in init[j].joins;
        assert es[i] == init[i];
        assert forall j :: 0 <= j < i ==> es[j] == init[j];
      } else {
        assert forall j :: 0 <= j < |init| ==> es[j] == init[j];
        if k in es[|es| - 1].joins {
          assert forall j :: 0 <= j < |es| - 1 ==> k !in es[j].joins;
        }
      }
    }
  }

  /** The inner foreach of `any` over one member's joins: the isset checks keep the first alias. */
  method MergeStep(merged: Joins, joins: Joins) returns (r: Joins)
    ensures r == MergeInto(merged, joins)
  {
    r := merged;
    var todo := joins.Keys;
    while todo != {}
      invariant todo <= joins.Keys
      invariant r.Keys == merged.Keys + (joins.Keys - todo)
      invariant forall k :: k in r ==> r[k] == if k in merged then merged[k] else joins[k]
      decreases |todo|
    {
      var k :| k in todo;
      if k !in r {
        r := r[k := joins[k]];
      }
      todo := todo - {k};
    }
  }

  /** "(t1) OR (t2) OR ...": each member's term in parentheses, in order. */
  function OrTerms(es: seq<Expression>): string
  {
    JoinWith(seq(|es|, i requires 0 <= i < |es| => "(" + es[i].term + ")"), " OR ")
  }

  lemma OrTermsSnoc(es: seq<Expression>, e: Expression)
    ensures OrTerms(es + [e]) == if es == [] then "(" + e.term + ")" else OrTerms(es) + " OR " + ("(" + e.term + ")")
  {
    var parts := seq(|es|, i requires 0 <= i < |es| => "(" + es[i].term + ")");
    assert seq(|es + [e]|, i requires 0 <= i < |es + [e]| => "(" + (es + [e])[i].term + ")") == parts + ["(" + e.term + ")"];
    JoinWithSnoc(parts, "(" + e.term + ")", " OR ");
  }

  /** The merged values: each member's values last first, members in order. */
  function RevValues(es: seq<Expression>): seq<string>
  {
    if es == [] then [] else RevValues(es[..|es| - 1]) + Reverse(es[|es| - 1].values)
  }

  function RevTypes(es: seq<Expression>): seq<char>
  {
    if es == [] then [] else RevTypes(es[..|es| - 1]) + Reverse(es[|es| - 1].valueTypes)
  }

  /** The number of values of all members. */
  function TotalValues(es: seq<Expression>): nat
  {
    if es == [] then 0 else TotalValues(es[..|es| - 1]) + es[|es| - 1].valueCount
  }

  /**
   * The class of the first flattened member; for an empty list PHP reads null
   * there, which the model writes as the empty class name.
   */
  function FirstClass(es: seq<Expression>): string
  {
    if es == [] then "" else es[0].entityClass
  }

  /** The result of `any` on its flattened members. */
  function AnyOf(es: seq<Expression>): Expression
  {
    NewExpression(FirstClass(es), MergeJoins(es), "(" + OrTerms(es) + ")", RevValues(es), RevTypes(es))
  }

  /** The values and types appended for one member: `for($i=ValueCount-1;$i>=0;$i--)`. */
  method AppendReversed(values: seq<string>, types: seq<char>, e: Expression) returns (values': seq<string>, types': seq<char>)
    requires e.valueCount == |e.values| == |e.valueTypes|
    ensures values' == values + Reverse(e.values) && types' == types + Reverse(e.valueTypes)
  {
    values', types' := values, types;
    var i := e.valueCount;
    while i > 0
      invariant 0 <= i <= e.valueCount
      invariant values' == values + Reverse(e.values[i..]) && types' == types + Reverse(e.valueTypes[i..])
    {
      assert e.values[i - 1..][1..] == e.values[i..];
      assert e.valueTypes[i - 1..][1..] == e.valueTypes[i..];
      values' := values' + [e.values[i - 1]];
      types' := types' + [e.valueTypes[i - 1]];
      i := i - 1;
    }
    assert e.values[0..] == e.values && e.valueTypes[0..] == e.valueTypes;
  }

  /** The corrected loop: one member's values and types appended in their own order. */
  method AppendInOrder(values: seq<string>, types: seq<char>, e: Expression) returns (values': seq<string>, types': seq<char>)
    requires e.valueCount == |e.values| == |e.valueTypes|
    ensures values' == values + e.values && types' == types + e.valueTypes
  {
    values', types' := values, types;
    var i := 0;
    while i < e.valueCount
      invariant 0 <= i <= e.valueCount
      invariant values' == values + e.values[..i] && types' == types + e.valueTypes[..i]
    {
      assert e.values[..i + 1] == e.values[..i] + [e.values[i]];
      assert e.valueTypes[..i + 1] == e.valueTypes[..i] + [e.valueTypes[i]];
      values' := values' + [e.values[i]];
      types' := types' + [e.valueTypes[i]];
      i := i + 1;
    }
    assert e.values[..i] == e.values && e.valueTypes[..i] == e.valueTypes;
  }

  /** The members of a nested array whose leaves all keep the marker invariant also do after flattening. */
  lemma FlattenBound(items: seq<Item>)
    requires forall e :: e in Leaves(items) ==> Bound(e)
    ensures forall e :: e in Flatten(items) ==> Bound(e)
  {
    FlattenLeaves(items);
    forall e | e in Flatten(items)
      ensures Bound(e)
    {
      assert e in multiset(Flatten(items));
    }
  }

  /** The specification functions of `any` on one more member. */
  lemma AnySnoc(es: seq<Expression>, e: Expression)
    ensures MergeJoins(es + [e]) == MergeInto(MergeJoins(es), e.joins)
    ensures RevValues(es + [e]) == RevValues(es) + Reverse(e.values)
    ensures RevTypes(es + [e]) == RevTypes(es) + Reverse(e.valueTypes)
    ensures InOrderValues(es + [e]) == InOrderValues(es) + e.values
    ensures InOrderTypes(es + [e]) == InOrderTypes(es) + e.valueTypes
  {
    assert (es + [e])[..|es + [e]| - 1] == es;
  }

  /**
   * The foreach of `any` over the flattened members, with each member's values
   * appended in their own order (the corrected form of the backward loop).
   */
  method Combine(flat: seq<Expression>) returns (r: Expression)
    requires forall e :: e in flat ==> Bound(e)
    ensures r == AnyOfInOrder(flat)
  {
    var cls := if |flat| > 0 then flat[0].entityClass else "";
    var merged: Joins := map[];
    var term := "(";
    var values: seq<string> := [];
    var types: seq<char> := [];
    var isFirst := true;
    var i := 0;
    while i < |flat|
      invariant 0 <= i <= |flat|
      invariant merged == MergeJoins(flat[..i])
      invariant term == "(" + OrTerms(flat[..i])
      invariant values == InOrderValues(flat[..i]) && types == InOrderTypes(flat[..i])
      invariant isFirst <==> i == 0
    {
      var e := flat[i];
      ghost var init := flat[..i];
      assert flat[..i + 1] == init + [e];
      AnySnoc(init, e);
      OrTermsSnoc(init, e);
      merged := MergeStep(merged, e.joins);
      var piece := "(" + e.term + ")";
      if !isFirst {
        ConcatAssoc("(", OrTerms(init), " OR ");
        ConcatAssoc("(", OrTerms(init) + " OR ", piece);
        term := term + " OR ";
      } else {
        assert term == "(";
        isFirst := false;
      }
      term := term + piece;
      assert e in flat;
      values, types := AppendInOrder(values, types, e);
      i := i + 1;
    }
    assert flat[..i] == flat;
    term := term + ")";
    r := NewExpression(cls, merged, term, values, types);
  }

  /** Expression::any, with the values in marker order. */
  method Any(items: seq<Item>) returns (r: Expression)
    requires forall e :: e in Leaves(items) ==> Bound(e)
    ensures r == AnyOfInOrder(Flatten(items))
  {
    var flat := FlattenItems(items);
    FlattenBound(items);
    r := Combine(flat);
  }

  lemma {:induction false} InOrderLengths(es: seq<Expression>)
    requires forall e :: e in es ==> Bound(e)
    ensures |InOrderValues(es)| == |InOrderTypes(es)| == TotalValues(es)
  {
    if es != [] {
      var init := es[..|es| - 1];
      assert forall e :: e in init ==> e in es;
      InOrderLengths(init);
      assert Bound(es[|es| - 1]);
    }
  }

  lemma {:induction false} RevLengths(es: seq<Expression>)
    requires forall e :: e in es ==> Bound(e)
    ensures |RevValues(es)| == |RevTypes(es)| == TotalValues(es)
  {
    if es != [] {
      var init := es[..|es| - 1];
      assert forall e :: e in init ==> e in es;
      RevLengths(init);
      assert Bound(es[|es| - 1]);
    }
  }

  /** Parentheses add no marker. */
  lemma ParenMarks(t: string)
    ensures Marks("(" + t + ")") == Marks(t)
  {
    assert Marks("(") == 0 && Marks(")") == 0;
    MarksConcat("(", t);
    MarksConcat("(" + t, ")");
  }

  /** Neither does the OR between two terms. */
  lemma OrMarks(a: string, b: string)
    ensures Marks(a + " OR " + b) == Marks(a) + Marks(b)
  {
    assert Marks(" OR ") == 0;
    MarksConcat(a, " OR ");
    MarksConcat(a + " OR ", b);
  }

  lemma {:induction false} OrTermsMarks(es: seq<Expression>)
    requires forall e :: e in es ==> Bound(e)
    ensures Marks(OrTerms(es)) == TotalValues(es)
  {
    if es != [] {
      var init, e := es[..|es| - 1], es[|es| - 1];
      assert es == init + [e];
      assert forall x :: x in init ==> x in es;
      assert Bound(e);
      OrTermsMarks(init);
      OrTermsSnoc(init, e);
      ParenMarks(e.term);
      if init != [] {
        OrMarks(OrTerms(init), "(" + e.term + ")");
      }
    }
  }

  /**
   * `any` keeps the marker invariant: its term has one marker per merged
   * value, and the count is the sum of the members' counts.
   */
  lemma AnyBound(es: seq<Expression>)
    requires forall e :: e in es ==> Bound(e)
    ensures Bound(AnyOfInOrder(es)) && AnyOfInOrder(es).valueCount == TotalValues(es)
    ensures Bound(AnyOf(es)) && AnyOf(es).valueCount == TotalValues(es)
  {
    RevLengths(es);
    InOrderLengths(es);
    OrTermsMarks(es);
    ParenMarks(OrTerms(es));
  }

  /** The merged expression joins exactly the members' 5-tuples, each under the first member's alias. */
  lemma AnyJoins(es: seq<Expression>, k: JoinPath)
    ensures k in AnyOfInOrder(es).joins <==> exists i :: 0 <= i < |es| && k in es[i].joins
    ensures k in AnyOfInOrder(es).joins ==> exists i :: 0 <= i < |es| && k in es[i].joins && AnyOfInOrder(es).joins[k] == es[i].joins[k]
                                                 && forall j :: 0 <= j < i ==> k !in es[j].joins
  {
    MergeJoinsFirstWins(es, k);
  }

  /**
   * The value order as evidently intended: each member's values in their own
   * order, members in order, so that the merged values follow the markers of
   * the merged term.
   */
  function InOrderValues(es: seq<Expression>): seq<string>
  {
    if es == [] then [] else InOrderValues(es[..|es| - 1]) + es[|es| - 1].values
  }

  function InOrderTypes(es: seq<Expression>): seq<char>
  {
    if es == [] then [] else InOrderTypes(es[..|es| - 1]) + es[|es| - 1].valueTypes
  }

  /** `any` with the members' values appended in order. */
  function AnyOfInOrder(es: seq<Expression>): Expression
  {
    NewExpression(FirstClass(es), MergeJoins(es), "(" + OrTerms(es) + ")", InOrderValues(es), InOrderTypes(es))
  }

  /**
   * With the corrected order, the OR of one expression binds exactly that
   * expression's values and types, and the OR of several binds the members'
   * values one member after the other.
   */
  lemma AnyOfInOrderKeepsMembers(es: seq<Expression>, e: Expression)
    requires forall x :: x in es + [e] ==> Bound(x)
    requires e.values != []
    ensures AnyOfInOrder(es + [e]).values == InOrderValues(es) + e.values
    ensures AnyOfInOrder(es + [e]).valueTypes == InOrderTypes(es) + e.valueTypes
    ensures AnyOfInOrder([e]).values == e.values && AnyOfInOrder([e]).valueTypes == e.valueTypes
  {
    assert e in es + [e];
    assert (es + [e])[..|es + [e]| - 1] == es;
    assert InOrderValues(es + [e]) == InOrderValues(es) + e.values;
    assert InOrderTypes(es + [e]) == InOrderTypes(es) + e.valueTypes;
    assert [e][..0] == [];
    assert InOrderValues([e]) == e.values && InOrderTypes([e]) == e.valueTypes;
  }

  /**
   * As written, `any` of a single between expression binds its upper bound
   * to the first marker, which the term reads as the lower bound.
   */
  lemma AnyReversesBetween(e: Expression, min: string, max: string, t: char)
    requires e.values == [min, max] && e.valueTypes == [t, t] && e.valueCount == 2
    requires min != max
    ensures AnyOf([e]).values == [max, min]
    ensures AnyOf([e]).values != e.values
    ensures AnyOfInOrder([e]).values == e.values
  {
    assert [e][..0] == [];
    assert Reverse(e.values) == [max, min];
    assert Reverse(e.valueTypes) == [t, t];
    assert RevValues([e]) == [max, min] && RevTypes([e]) == [t, t];
    assert InOrderValues([e]) == e.values && InOrderTypes([e]) == e.valueTypes;
  }
}
