/**
 * Criteria expressions: a WHERE fragment over one entity class, the joins it
 * needs, and the values bound to its "?" markers, as built by the static
 * constructors of Expression.
 */
module Expressions {
  import opened Wrappers
  import opened Strings
  import opened Metadata
  import opened Joiner
  import opened FieldLists

  // The messages of the exceptions thrown, named once so that the proofs compare names rather than texts.
  const OnlyProperties: string := "Only PROPERTY field types are allowed."
  const PropertyTypeNotSupported: string := "Property type is not supported."
  const NullNotAllowedForContains: string := "Null value is not allowed for contains expression."
  const ContainsNeedsString: string := "Value for contains expression must be a string."
  const ContainsNeedsProperty: string := "Only property fields are allowed in contains expression."
  const ContainsNeedsText: string := "Only text and email properties are allowed in contains expression."
  const UnsupportedFieldType: string := "The provided field is of unsupported field type."
  const MemberIdOnNonObject: string := "Call to a member function getID() on a non-object"
  const UndefinedSubEntityClass: string := "undefined class of the referenced sub-entity"

  /** EntityClass, Joins, Term, Values, ValueTypes, ValueCount. */
  datatype Expression = Expression(
    entityClass: string,
    joins: Joins,
    term: string,
    values: seq<string>,
    valueTypes: seq<char>,
    valueCount: nat)

  /**
   * What `equal` hands back and `any` accepts: an expression, or an array of
   * items (arrays may nest).
   */
  datatype Item = One(e: Expression) | Group(items: seq<Item>)

  /** The `?` markers in a string. */
  function Marks(s: string): nat
  {
    if s == [] then 0 else (if s[0] == '?' then 1 else 0) + Marks(s[1..])
  }

  lemma {:induction false} MarksConcat(a: string, b: string)
    ensures Marks(a + b) == Marks(a) + Marks(b)
  {
    if a == [] {
      assert a + b == b;
    } else {
      assert (a + b)[1..] == a[1..] + b;
      MarksConcat(a[1..], b);
    }
  }

  /** A name that can be written into a term without adding a marker. */
  predicate Plain(s: string)
  {
    '?' !in s
  }

  /** Every table, ID column, field and column name of the registry is plain. */
  ghost predicate PlainNames(reg: Registry)
  {
    forall c :: c in reg ==>
      && Plain(reg[c].table) && Plain(reg[c].idColumn)
      && (forall f :: f in reg[c].fields ==> Plain(f) && (ColumnOf(reg[c].fields[f]).Some? ==> Plain(ColumnOf(reg[c].fields[f]).value)))
  }

  /** The value conversion never yields a marker (only needed where a value is written inline). */
  ghost predicate PlainText(codec: Codec)
  {
    forall v, t :: Plain(codec.toText(v, t))
  }

  /**
   * The invariant every expression keeps: one type tag per value, ValueCount
   * is the number of values, and the term has exactly one marker per value.
   */
  predicate Bound(e: Expression)
  {
    e.valueCount == |e.values| == |e.valueTypes| && Marks(e.term) == e.valueCount
  }

  lemma {:induction false} PlainMarks(s: string)
    requires Plain(s)
    ensures Marks(s) == 0
  {
    if s != [] {
      assert forall i :: 0 <= i < |s[1..]| ==> s[1..][i] == s[i + 1];
      PlainMarks(s[1..]);
    }
  }

  /** Join aliases are "J" and digits, so they are plain. */
  lemma JoinNamePlain(n: nat)
    ensures Plain(JoinName(n))
  {
    var s := NatToString(n);
    assert JoinName(n) == "J" + s;
    forall i | 0 <= i < |JoinName(n)|
      ensures JoinName(n)[i] != '?'
    {
      if i > 0 {
        assert JoinName(n)[i] == s[i - 1];
      }
    }
  }

  /** A term "alias.name<suffix>" over plain names has the suffix's markers. */
  lemma TermMarks(alias: string, name: string, suffix: string)
    requires Plain(alias) && Plain(name)
    ensures Marks(alias + "." + name + suffix) == Marks(suffix)
  {
    PlainMarks(alias);
    PlainMarks(name);
    assert Marks(".") == 0;
    MarksConcat(alias, ".");
    MarksConcat(alias + ".", name);
    MarksConcat(alias + "." + name, suffix);
  }

  /** The markers of the fixed term endings. */
  lemma GreaterMarks() ensures Marks(" > ?") == 1 {}
  lemma EqualsMarks() ensures Marks("=?") == 1 {}
  lemma LikeMarks() ensures Marks(" LIKE ?") == 1 {}
  lemma IsNullMarks() ensures Marks(" IS NULL") == 0 {}
  /** The ending of a between term, " BETWEEN ? AND ?", written as its two halves. */
  const BetweenSuffix: string := " BETWEEN ?" + " AND ?"

  lemma BetweenMarks()
    ensures Marks(BetweenSuffix) == 2
  {
    assert Marks(" BETWEEN ?") == 1;
    assert Marks(" AND ?") == 1;
    MarksConcat(" BETWEEN ?", " AND ?");
  }

  /**
   * The private constructor: a null joins array becomes []; when the values
   * or the value types are null or empty, both become empty; ValueCount is
   * the number of values.
   */
  function NewExpression(cls: string, joins: Joins, term: string, values: seq<string>, valueTypes: seq<char>): (e: Expression)
    ensures e.entityClass == cls && e.joins == joins && e.term == term
    ensures values == [] || valueTypes == [] ==> e.values == [] && e.valueTypes == []
    ensures values != [] && valueTypes != [] ==> e.values == values && e.valueTypes == valueTypes
    ensures e.valueCount == |e.values|
  {
    if values == [] || valueTypes == [] then Expression(cls, joins, term, [], [], 0)
    else Expression(cls, joins, term, values, valueTypes, |values|)
  }

  /** The constructor keeps the marker invariant whenever its arguments agree with it. */
  lemma NewExpressionBound(cls: string, joins: Joins, term: string, values: seq<string>, valueTypes: seq<char>)
    requires |values| == |valueTypes| == Marks(term)
    ensures Bound(NewExpression(cls, joins, term, values, valueTypes))
  {
  }

  /** `if($parentClass===null) $parentClass=$criteriaClass;` */
  function ParentOr(criteria: string, parent: Option<string>): string
  {
    if parent.None? then criteria else parent.value
  }

  /**
   * The loose `$parentClass==null` of contains, startsWith and endsWith: an
   * empty class name counts as none. It agrees with the strict ParentOr
   * everywhere except on the empty name.
   */
  function LooseParentOr(criteria: string, parent: Option<string>): (p: string)
    ensures parent != Some("") ==> p == ParentOr(criteria, parent)
    ensures parent == Some("") ==> p == criteria
  {
    if parent.None? || parent.value == "" then criteria else parent.value
  }

  /**
   * `==` against `===`: an empty parent class name is replaced by the
   * criteria class in the LIKE builders and kept in every other builder;
   * on any other argument the two defaults agree.
   */
  lemma LooseAndStrictParent(criteria: string, parent: Option<string>)
    ensures LooseParentOr(criteria, Some("")) == criteria && ParentOr(criteria, Some("")) == ""
    ensures LooseParentOr(criteria, parent) != ParentOr(criteria, parent) <==> parent == Some("") && criteria != ""
  {
  }

  /** The join of a parent class's table onto the criteria class's table, ID to ID. */
  function ParentJoinPath(reg: Registry, criteria: string, parent: string): JoinPath
    requires criteria in reg && parent in reg
  {
    JoinPath(parent, INNER, reg[criteria].table, reg[criteria].idColumn, reg[parent].idColumn)
  }

  /** Where a parent's field is read from: a table or alias name, and the join that introduces it. */
  datatype Scope = Scope(termName: string, join: Joins)

  /**
   * The criteria class's own table without a join when the classes are the
   * same; otherwise the alias of the parent join and that join.
   */
  function ScopeOf(reg: Registry, criteria: string, parent: string, joinName: string): (s: Scope)
    requires criteria in reg && parent in reg
    ensures criteria == parent ==> s.join == map[] && s.termName == reg[criteria].table
    ensures criteria != parent ==>
      s.termName == joinName && s.join.Keys == {ParentJoinPath(reg, criteria, parent)} && s.join[ParentJoinPath(reg, criteria, parent)] == joinName
  {
    if criteria == parent then Scope(reg[parent].table, map[])
    else Scope(joinName, CreateJoin(parent, INNER, reg[criteria].table, reg[criteria].idColumn, reg[parent].idColumn, joinName))
  }

  /** Every alias a scope introduces is the alias its terms are written against. */
  lemma ScopeAliases(reg: Registry, criteria: string, parent: string, joinName: string)
    requires criteria in reg && parent in reg
    ensures var s := ScopeOf(reg, criteria, parent, joinName);
      s.join.Values <= {s.termName} && (criteria != parent ==> s.termName in s.join.Values)
  {
    var s := ScopeOf(reg, criteria, parent, joinName);
    if criteria != parent {
      assert s.join[ParentJoinPath(reg, criteria, parent)] == joinName;
    }
  }

  /** The alias a table holds for a key, or "" before it has one. */
  function AliasIn(names: map<JoinPath, string>, key: JoinPath): string
  {
    if key in names then names[key] else ""
  }

  /** INT, FLOAT, DATETIME, DATE and TIME: the property types above and between accept. */
  predicate Ordered(t: PropertyType)
  {
    t == INT || t == FLOAT || t == DATETIME || t == DATE || t == TIME
  }

  /** TEXT and EMAIL: the property types the LIKE expressions accept. */
  predicate Textual(t: PropertyType)
  {
    t == TEXT || t == EMAIL
  }

  /** The field descriptor `<parent>::<field>FieldType` and its siblings name; undefined constants are errors. */
  function FieldMetaOf(reg: Registry, parent: string, field: string): (r: Result<FieldMeta>)
    requires parent in reg
    ensures r.Ok? <==> field in reg[parent].fields
    ensures r.Ok? ==> r.value == reg[parent].fields[field]
  {
    if field in reg[parent].fields then Ok(reg[parent].fields[field])
    else Err("undefined constant " + parent + "::" + field + "FieldType")
  }

  /** The field checks of abovePrivate and between: a PROPERTY field of an ordered type. */
  function OrderedField(reg: Registry, parent: string, field: string): (r: Result<FieldMeta>)
    requires parent in reg
    ensures r.Ok? <==> field in reg[parent].fields && reg[parent].fields[field].Property? && Ordered(reg[parent].fields[field].propertyType)
    ensures r.Ok? ==> r.value == reg[parent].fields[field]
  {
    var m :- FieldMetaOf(reg, parent, field);
    if !m.Property? then Err(OnlyProperties)
    else if !Ordered(m.propertyType) then Err(PropertyTypeNotSupported)
    else Ok(m)
  }

  /** The expression of abovePrivate once the name written after the alias is fixed. */
  function AboveWith(criteria: string, s: Scope, name: string, t: PropertyType, codec: Codec, value: Value, prepare: bool): (e: Expression)
    ensures e.entityClass == criteria && e.joins == s.join
    ensures prepare ==> e.term == s.termName + "." + name + " > ?" && e.values == [codec.toText(value, t)] && e.valueTypes == [codec.stmtType(t)]
    ensures !prepare ==> e.term == s.termName + "." + name + " > '" + codec.toText(value, t) + "'" && e.values == [] && e.valueTypes == []
  {
    var valueS := codec.toText(value, t);
    if prepare then NewExpression(criteria, s.join, s.termName + "." + name + " > ?", [valueS], [codec.stmtType(t)])
    else NewExpression(criteria, s.join, s.termName + "." + name + " > '" + valueS + "'", [], [])
  }

  /**
   * abovePrivate (the corrected form): fails unless the field is a PROPERTY of
   * an ordered type; compares the field's column against the value, bound
   * when `prepare` holds and quoted inline otherwise; the expression belongs
   * to the criteria class.
   */
  function BuildAbove(reg: Registry, codec: Codec, criteria: string, parent: string, field: string, value: Value, prepare: bool, joinName: string): (r: Result<Expression>)
    requires criteria in reg && parent in reg
    ensures r.Ok? <==> OrderedField(reg, parent, field).Ok?
    ensures r.Ok? ==> r.value == AboveWith(criteria, ScopeOf(reg, criteria, parent, joinName), reg[parent].fields[field].column,
                                           reg[parent].fields[field].propertyType, codec, value, prepare)
  {
    var m :- OrderedField(reg, parent, field);
    Ok(AboveWith(criteria, ScopeOf(reg, criteria, parent, joinName), m.column, m.propertyType, codec, value, prepare))
  }

  /** abovePrivate as written: the field's name, not its column, follows the alias. */
  function BuildAboveAsWritten(reg: Registry, codec: Codec, criteria: string, parent: string, field: string, value: Value, prepare: bool, joinName: string): (r: Result<Expression>)
    requires criteria in reg && parent in reg
    ensures r.Ok? <==> OrderedField(reg, parent, field).Ok?
    ensures r.Ok? ==> r.value == AboveWith(criteria, ScopeOf(reg, criteria, parent, joinName), field,
                                           reg[parent].fields[field].propertyType, codec, value, prepare)
  {
    var m :- OrderedField(reg, parent, field);
    Ok(AboveWith(criteria, ScopeOf(reg, criteria, parent, joinName), field, m.propertyType, codec, value, prepare))
  }

  /** An above expression over plain names has one marker per bound value. */
  lemma AboveWithBound(criteria: string, s: Scope, name: string, t: PropertyType, codec: Codec, value: Value, prepare: bool)
    requires Plain(s.termName) && Plain(name) && (!prepare ==> PlainText(codec))
    ensures Bound(AboveWith(criteria, s, name, t, codec, value, prepare))
  {
    if prepare {
      GreaterMarks();
      TermMarks(s.termName, name, " > ?");
    } else {
      var v := codec.toText(value, t);
      PlainMarks(v);
      assert Marks(" > '") == 0 && Marks("'") == 0;
      MarksConcat(" > '", v);
      MarksConcat(" > '" + v, "'");
      TermMarks(s.termName, name, " > '" + v + "'");
      assert AboveWith(criteria, s, name, t, codec, value, prepare).term == s.termName + "." + name + (" > '" + v + "'");
    }
  }

  /** A built above expression keeps the marker invariant (inline values need a plain conversion). */
  lemma BuildAboveBound(reg: Registry, codec: Codec, criteria: string, parent: string, field: string, value: Value, prepare: bool, joinName: string)
    requires criteria in reg && parent in reg
    requires PlainNames(reg) && Plain(joinName) && (!prepare ==> PlainText(codec))
    ensures var r := BuildAbove(reg, codec, criteria, parent, field, value, prepare, joinName);
      r.Ok? ==> Bound(r.value)
  {
    if OrderedField(reg, parent, field).Ok? {
      var m := reg[parent].fields[field];
      var s := ScopeOf(reg, criteria, parent, joinName);
      assert Plain(m.column) by {
        assert ColumnOf(m).Some?;
      }
      AboveWithBound(criteria, s, m.column, m.propertyType, codec, value, prepare);
    }
  }

  /**
   * The column a corrected above expression compares is the field's column;
   * as written, whenever the two differ, the term instead names the field,
   * which is not a column of the table.
   */
  lemma AboveNamesField(reg: Registry, codec: Codec, criteria: string, parent: string, field: string, value: Value, joinName: string)
    requires criteria in reg && parent in reg
    requires OrderedField(reg, parent, field).Ok?
    requires reg[parent].fields[field].column != field
    ensures BuildAboveAsWritten(reg, codec, criteria, parent, field, value, true, joinName)
         != BuildAbove(reg, codec, criteria, parent, field, value, true, joinName)
  {
    var s := ScopeOf(reg, criteria, parent, joinName);
    var c := reg[parent].fields[field].column;
    var a := BuildAboveAsWritten(reg, codec, criteria, parent, field, value, true, joinName).value.term;
    var b := BuildAbove(reg, codec, criteria, parent, field, value, true, joinName).value.term;
    var n := |s.termName| + 1;
    assert a == s.termName + "." + field + " > ?";
    assert b == s.termName + "." + c + " > ?";
    if |field| == |c| {
      assert a[n..n + |field|] == field;
      assert b[n..n + |c|] == c;
    } else {
      assert |a| != |b|;
    }
  }

  /** The expression of between once the name written after the alias is fixed. */
  function BetweenWith(criteria: string, s: Scope, name: string, t: PropertyType, codec: Codec, min: Value, max: Value): (e: Expression)
    ensures e.entityClass == criteria && e.joins == s.join
    ensures e.term == s.termName + "." + name + BetweenSuffix
    ensures e.values == [codec.toText(min, t), codec.toText(max, t)]
    ensures e.valueTypes == [codec.stmtType(t), codec.stmtType(t)]
  {
    NewExpression(criteria, s.join, s.termName + "." + name + BetweenSuffix,
                  [codec.toText(min, t), codec.toText(max, t)], [codec.stmtType(t), codec.stmtType(t)])
  }

  /** between (the corrected form): an inclusive range over an ordered PROPERTY's column, both bounds bound. */
  function BuildBetween(reg: Registry, codec: Codec, criteria: string, parent: string, field: string, min: Value, max: Value, joinName: string): (r: Result<Expression>)
    requires criteria in reg && parent in reg
    ensures r.Ok? <==> OrderedField(reg, parent, field).Ok?
    ensures r.Ok? ==> r.value == BetweenWith(criteria, ScopeOf(reg, criteria, parent, joinName), reg[parent].fields[field].column,
                                             reg[parent].fields[field].propertyType, codec, min, max)
  {
    var m :- OrderedField(reg, parent, field);
    Ok(BetweenWith(criteria, ScopeOf(reg, criteria, parent, joinName), m.column, m.propertyType, codec, min, max))
  }

  /** between as written: the field's name, not its column, follows the alias. */
  function BuildBetweenAsWritten(reg: Registry, codec: Codec, criteria: string, parent: string, field: string, min: Value, max: Value, joinName: string): (r: Result<Expression>)
    requires criteria in reg && parent in reg
    ensures r.Ok? <==> OrderedField(reg, parent, field).Ok?
    ensures r.Ok? ==> r.value == BetweenWith(criteria, ScopeOf(reg, criteria, parent, joinName), field,
                                             reg[parent].fields[field].propertyType, codec, min, max)
  {
    var m :- OrderedField(reg, parent, field);
    Ok(BetweenWith(criteria, ScopeOf(reg, criteria, parent, joinName), field, m.propertyType, codec, min, max))
  }

  /** A between expression over plain names has its two markers for its two values. */
  lemma BetweenWithBound(criteria: string, s: Scope, name: string, t: PropertyType, codec: Codec, min: Value, max: Value)
    requires Plain(s.termName) && Plain(name)
    ensures Bound(BetweenWith(criteria, s, name, t, codec, min, max))
  {
    BetweenMarks();
    TermMarks(s.termName, name, BetweenSuffix);
  }

  lemma BuildBetweenBound(reg: Registry, codec: Codec, criteria: string, parent: string, field: string, min: Value, max: Value, joinName: string)
    requires criteria in reg && parent in reg
    requires PlainNames(reg) && Plain(joinName)
    ensures var r := BuildBetween(reg, codec, criteria, parent, field, min, max, joinName);
      r.Ok? ==> Bound(r.value)
  {
    if OrderedField(reg, parent, field).Ok? {
      var m := reg[parent].fields[field];
      var s := ScopeOf(reg, criteria, parent, joinName);
      assert Plain(m.column) by {
        assert ColumnOf(m).Some?;
      }
      BetweenWithBound(criteria, s, m.column, m.propertyType, codec, min, max);
    }
  }

  /** As written, between also names the field where its column differs. */
  lemma BetweenNamesField(reg: Registry, codec: Codec, criteria: string, parent: string, field: string, min: Value, max: Value, joinName: string)
    requires criteria in reg && parent in reg
    requires OrderedField(reg, parent, field).Ok?
    requires reg[parent].fields[field].column != field
    ensures BuildBetweenAsWritten(reg, codec, criteria, parent, field, min, max, joinName)
         != BuildBetween(reg, codec, criteria, parent, field, min, max, joinName)
  {
    var s := ScopeOf(reg, criteria, parent, joinName);
    var c := reg[parent].fields[field].column;
    var a := BuildBetweenAsWritten(reg, codec, criteria, parent, field, min, max, joinName).value.term;
    var b := BuildBetween(reg, codec, criteria, parent, field, min, max, joinName).value.term;
    var n := |s.termName| + 1;
    assert a == s.termName + "." + field + BetweenSuffix;
    assert b == s.termName + "." + c + BetweenSuffix;
    if |field| == |c| {
      assert a[n..n + |field|] == field;
      assert b[n..n + |c|] == c;
    } else {
      assert |a| != |b|;
    }
  }

  /** contains, startsWith and endsWith. */
  datatype LikeKind = Contains | StartsWith | EndsWith

  /** The LIKE pattern: the value with a `%` wildcard before it, after it, or both. */
  function Pattern(kind: LikeKind, v: string): (p: string)
    ensures |p| == |v| + (if kind == Contains then 2 else 1)
    ensures var off := if kind == StartsWith then 0 else 1; p[off..off + |v|] == v
    ensures kind != StartsWith ==> p[0] == '%'
    ensures kind != EndsWith ==> p[|p| - 1] == '%'
  {
    match kind
    case Contains => "%" + v + "%"
    case StartsWith => v + "%"
    case EndsWith => "%" + v
  }

  /**
   * contains / startsWith / endsWith: a null or non-string value, a field
   * that is not a PROPERTY, or a property that is not TEXT or EMAIL is an
   * error; otherwise the column is matched with LIKE against the bound
   * pattern, and the expression belongs to the parent class.
   */
  function BuildLike(reg: Registry, codec: Codec, criteria: string, parent: string, field: string, value: Value, kind: LikeKind, joinName: string): (r: Result<Expression>)
    requires criteria in reg && parent in reg
    ensures r.Ok? <==> value.Str? && field in reg[parent].fields && reg[parent].fields[field].Property?
                        && Textual(reg[parent].fields[field].propertyType)
    ensures r.Ok? ==>
      var m := reg[parent].fields[field];
      var s := ScopeOf(reg, criteria, parent, joinName);
      && r.value.entityClass == parent && r.value.joins == s.join
      && r.value.term == s.termName + "." + m.column + " LIKE ?"
      && r.value.values == [Pattern(kind, value.s)] && r.value.valueTypes == [codec.stmtType(m.propertyType)]
  {
    if value.Null? then Err(NullNotAllowedForContains)
    else if !value.Str? then Err(ContainsNeedsString)
    else
      var m :- FieldMetaOf(reg, parent, field);
      if !m.Property? then Err(ContainsNeedsProperty)
      else if !Textual(m.propertyType) then Err(ContainsNeedsText)
      else
        var s := ScopeOf(reg, criteria, parent, joinName);
        Ok(NewExpression(parent, s.join, s.termName + "." + m.column + " LIKE ?", [Pattern(kind, value.s)], [codec.stmtType(m.propertyType)]))
  }

  lemma BuildLikeBound(reg: Registry, codec: Codec, criteria: string, parent: string, field: string, value: Value, kind: LikeKind, joinName: string)
    requires criteria in reg && parent in reg
    requires PlainNames(reg) && Plain(joinName)
    ensures var r := BuildLike(reg, codec, criteria, parent, field, value, kind, joinName);
      r.Ok? ==> Bound(r.value)
  {
    var r := BuildLike(reg, codec, criteria, parent, field, value, kind, joinName);
    if r.Ok? {
      var m := reg[parent].fields[field];
      var s := ScopeOf(reg, criteria, parent, joinName);
      assert Plain(m.column) by {
        assert ColumnOf(m).Some?;
      }
      LikeMarks();
      TermMarks(s.termName, m.column, " LIKE ?");
    }
  }

  /**
   * equal with a null value: whatever the field's kind, its column IS NULL;
   * a field without a column constant is an error. Nothing is bound and the
   * expression belongs to the parent class.
   */
  function BuildEqualNull(reg: Registry, criteria: string, parent: string, field: string, joinName: string): (r: Result<Expression>)
    requires criteria in reg && parent in reg
    ensures r.Ok? <==> field in reg[parent].fields && ColumnOf(reg[parent].fields[field]).Some?
    ensures r.Ok? ==>
      var s := ScopeOf(reg, criteria, parent, joinName);
      && r.value.entityClass == parent && r.value.joins == s.join
      && r.value.term == s.termName + "." + ColumnOf(reg[parent].fields[field]).value + " IS NULL"
      && r.value.values == [] && r.value.valueTypes == []
  {
    var m :- FieldMetaOf(reg, parent, field);
    if ColumnOf(m).None? then Err("undefined constant " + parent + "::" + field + "Column")
    else
      var s := ScopeOf(reg, criteria, parent, joinName);
      Ok(NewExpression(parent, s.join, s.termName + "." + ColumnOf(m).value + " IS NULL", [], []))
  }

  lemma BuildEqualNullBound(reg: Registry, criteria: string, parent: string, field: string, joinName: string)
    requires criteria in reg && parent in reg
    requires PlainNames(reg) && Plain(joinName)
    ensures var r := BuildEqualNull(reg, criteria, parent, field, joinName);
      r.Ok? ==> Bound(r.value)
  {
    var r := BuildEqualNull(reg, criteria, parent, field, joinName);
    if r.Ok? {
      var c := ColumnOf(reg[parent].fields[field]).value;
      var s := ScopeOf(reg, criteria, parent, joinName);
      IsNullMarks();
      TermMarks(s.termName, c, " IS NULL");
    }
  }

  /** equal on a PROPERTY field with a non-null value: column=? with the converted value bound. */
  function BuildEqualProperty(reg: Registry, codec: Codec, criteria: string, parent: string, column: string, t: PropertyType, value: Value, joinName: string): (e: Expression)
    requires criteria in reg && parent in reg
    ensures var s := ScopeOf(reg, criteria, parent, joinName);
      && e.entityClass == parent && e.joins == s.join
      && e.term == s.termName + "." + column + "=?"
      && e.values == [codec.toText(value, t)] && e.valueTypes == [codec.stmtType(t)]
  {
    var s := ScopeOf(reg, criteria, parent, joinName);
    NewExpression(parent, s.join, s.termName + "." + column + "=?", [codec.toText(value, t)], [codec.stmtType(t)])
  }

  lemma BuildEqualPropertyBound(reg: Registry, codec: Codec, criteria: string, parent: string, column: string, t: PropertyType, value: Value, joinName: string)
    requires criteria in reg && parent in reg
    requires PlainNames(reg) && Plain(joinName) && Plain(column)
    ensures Bound(BuildEqualProperty(reg, codec, criteria, parent, column, t, value, joinName))
  {
    var e := BuildEqualProperty(reg, codec, criteria, parent, column, t, value, joinName);
    var s := ScopeOf(reg, criteria, parent, joinName);
    EqualsMarks();
    TermMarks(s.termName, column, "=?");
  }

  /** StrongEntity::IDField; StrongEntity is not part of this model, its ID field is named "ID". */
  const ID_FIELD := "ID"

  /** Every field of the list except the ID is null on the object. */
  predicate IdOnly(fields: seq<string>, obj: EntityValue)
  {
    forall i :: 0 <= i < |fields| && fields[i] != ID_FIELD ==> FieldValue(obj, fields[i]) == Null
  }

  /** The `$isOnlyIDNotNull` scan: stops at the first non-ID field that is not null. */
  method ScanIdOnly(fields: seq<string>, obj: EntityValue) returns (only: bool)
    ensures only <==> IdOnly(fields, obj)
  {
    only := true;
    var i := 0;
    while i < |fields|
      invariant 0 <= i <= |fields|
      invariant only <==> IdOnly(fields[..i], obj)
      invariant !only ==> !IdOnly(fields, obj)
      decreases |fields| - i, only
    {
      if fields[i] != ID_FIELD && FieldValue(obj, fields[i]) != Null {
        only := false;
        assert !IdOnly(fields, obj);
        return;
      }
      assert fields[..i + 1] == fields[..i] + [fields[i]];
      i := i + 1;
    }
    assert fields[..i] == fields;
  }

  /**
   * The ID-only case of equal on a MANY_TO_ONE field (corrected): the
   * referencing column equals the object's ID as an INT; the expression keeps
   * the mandatory parent join `joins` its term is written against.
   */
  function BuildIdOnly(codec: Codec, parent: string, joins: Joins, basePlace: string, column: string, obj: EntityValue): (e: Expression)
    ensures e.entityClass == parent && e.joins == joins
    ensures e.term == basePlace + "." + column + "=?"
    ensures e.values == [codec.toText(IdValue(obj), INT)] && e.valueTypes == [codec.stmtType(INT)]
  {
    NewExpression(parent, joins, basePlace + "." + column + "=?", [codec.toText(IdValue(obj), INT)], [codec.stmtType(INT)])
  }

  /** The ID-only case as written: the expression is built with `$join`, which is always null there. */
  function BuildIdOnlyAsWritten(codec: Codec, parent: string, joins: Joins, basePlace: string, column: string, obj: EntityValue): (e: Expression)
    ensures e == BuildIdOnly(codec, parent, map[], basePlace, column, obj)
  {
    NewExpression(parent, map[], basePlace + "." + column + "=?", [codec.toText(IdValue(obj), INT)], [codec.stmtType(INT)])
  }

  lemma BuildIdOnlyBound(codec: Codec, parent: string, joins: Joins, basePlace: string, column: string, obj: EntityValue)
    requires Plain(basePlace) && Plain(column)
    ensures Bound(BuildIdOnly(codec, parent, joins, basePlace, column, obj))
  {
    var e := BuildIdOnly(codec, parent, joins, basePlace, column, obj);
    EqualsMarks();
    TermMarks(basePlace, column, "=?");
  }

  /**
   * One field of the referenced object inside equal: a non-null PROPERTY
   * gives "alias.column=?" with its converted value; any other field gives
   * nothing.
   */
  function FieldEquality(reg: Registry, codec: Codec, target: string, f: string, obj: EntityValue, joins: Joins, alias: string): Option<Expression>
    requires target in reg
  {
    var fs := reg[target].fields;
    if f in fs && fs[f].Property? && FieldValue(obj, f) != Null then
      Some(NewExpression(target, joins, alias + "." + fs[f].column + "=?",
                         [codec.toText(FieldValue(obj, f), fs[f].propertyType)], [codec.stmtType(fs[f].propertyType)]))
    else None
  }

  /** The expressions of FieldEquality over a field list, in field order. */
  function FieldEqualities(reg: Registry, codec: Codec, target: string, fields: seq<string>, obj: EntityValue, joins: Joins, alias: string): seq<Expression>
    requires target in reg
  {
    if fields == [] then []
    else
      var rest := FieldEqualities(reg, codec, target, fields[..|fields| - 1], obj, joins, alias);
      match FieldEquality(reg, codec, target, fields[|fields| - 1], obj, joins, alias)
      case Some(e) => rest + [e]
      case None => rest
  }

  /**
   * An expression is among the field equalities exactly when some field of
   * the list yields it; there are never more of them than fields.
   */
  lemma {:induction false} FieldEqualitiesMembers(reg: Registry, codec: Codec, target: string, fields: seq<string>, obj: EntityValue, joins: Joins, alias: string, e: Expression)
    requires target in reg
    ensures e in FieldEqualities(reg, codec, target, fields, obj, joins, alias)
        <==> exists i :: 0 <= i < |fields| && FieldEquality(reg, codec, target, fields[i], obj, joins, alias) == Some(e)
    ensures |FieldEqualities(reg, codec, target, fields, obj, joins, alias)| <= |fields|
  {
    if fields != [] {
      var init := fields[..|fields| - 1];
      FieldEqualitiesMembers(reg, codec, target, init, obj, joins, alias, e);
      if e in FieldEqualities(reg, codec, target, fields, obj, joins, alias) {
        if e !in FieldEqualities(reg, codec, target, init, obj, joins, alias) {
          assert FieldEquality(reg, codec, target, fields[|fields| - 1], obj, joins, alias) == Some(e);
        } else {
          var i :| 0 <= i < |init| && FieldEquality(reg, codec, target, init[i], obj, joins, alias) == Some(e);
          assert fields[i] == init[i];
        }
      }
      if exists i :: 0 <= i < |fields| && FieldEquality(reg, codec, target, fields[i], obj, joins, alias) == Some(e) {
        var i :| 0 <= i < |fields| && FieldEquality(reg, codec, target, fields[i], obj, joins, alias) == Some(e);
        if i < |init| {
          assert init[i] == fields[i];
        }
      }
    }
  }

  /** Every field equality is over the target class, carries the given joins and keeps the marker invariant. */
  lemma {:induction false} FieldEqualitiesBound(reg: Registry, codec: Codec, target: string, fields: seq<string>, obj: EntityValue, joins: Joins, alias: string)
    requires target in reg
    requires PlainNames(reg) && Plain(alias)
    ensures forall e :: e in FieldEqualities(reg, codec, target, fields, obj, joins, alias) ==>
      Bound(e) && e.entityClass == target && e.joins == joins && |e.values| == 1
  {
    if fields != [] {
      FieldEqualitiesBound(reg, codec, target, fields[..|fields| - 1], obj, joins, alias);
      var f := fields[|fields| - 1];
      var fs := reg[target].fields;
      if f in fs && fs[f].Property? && FieldValue(obj, f) != Null {
        var e := FieldEquality(reg, codec, target, f, obj, joins, alias).value;
        assert Plain(fs[f].column) by {
          assert ColumnOf(fs[f]).Some?;
        }
        EqualsMarks();
        TermMarks(alias, fs[f].column, "=?");
      }
    }
  }

  /** The foreach over the referenced class's fields, collecting the equalities. */
  method CollectFieldEqualities(reg: Registry, codec: Codec, target: string, fields: seq<string>, obj: EntityValue, joins: Joins, alias: string)
    returns (es: seq<Expression>)
    requires target in reg
    ensures es == FieldEqualities(reg, codec, target, fields, obj, joins, alias)
  {
    es := [];
    var i := 0;
    while i < |fields|
      invariant 0 <= i <= |fields|
      invariant es == FieldEqualities(reg, codec, target, fields[..i], obj, joins, alias)
    {
      assert fields[..i + 1][..i] == fields[..i];
      var f := fields[i];
      var fs := reg[target].fields;
      if f in fs && fs[f].Property? && FieldValue(obj, f) != Null {
        es := es + [NewExpression(target, joins, alias + "." + fs[f].column + "=?",
                                  [codec.toText(FieldValue(obj, f), fs[f].propertyType)], [codec.stmtType(fs[f].propertyType)])];
      }
      i := i + 1;
    }
    assert fields[..i] == fields;
  }

  /**
   * The extra condition for a referenced sub-entity with an ID: the ID column
   * of the object's own class equals the ID, bound with the literal tag 'i'.
   */
  function SubIdEquality(reg: Registry, codec: Codec, target: string, obj: EntityValue, joins: Joins, alias: string): (e: Expression)
    requires obj.cls in reg && obj.id.Some?
    ensures e.entityClass == target && e.joins == joins
    ensures e.term == alias + "." + reg[obj.cls].idColumn + "=?"
    ensures e.values == [codec.toText(Num(obj.id.value), INT)] && e.valueTypes == ['i']
  {
    NewExpression(target, joins, alias + "." + reg[obj.cls].idColumn + "=?", [codec.toText(Num(obj.id.value), INT)], ['i'])
  }

  lemma SubIdEqualityBound(reg: Registry, codec: Codec, target: string, obj: EntityValue, joins: Joins, alias: string)
    requires obj.cls in reg && obj.id.Some?
    requires PlainNames(reg) && Plain(alias)
    ensures Bound(SubIdEquality(reg, codec, target, obj, joins, alias))
  {
    var e := SubIdEquality(reg, codec, target, obj, joins, alias);
    EqualsMarks();
    TermMarks(alias, reg[obj.cls].idColumn, "=?");
  }

  /** The joins `$joins` holds after the mandatory join of a MANY_TO_ONE equality that needs one. */
  function MandatoryJoins(reg: Registry, criteria: string, parent: string, alias: string): (j: Joins)
    requires criteria in reg && parent in reg
    ensures criteria == parent ==> j == map[]
    ensures criteria != parent ==> j == ScopeOf(reg, criteria, parent, alias).join
  {
    if criteria == parent then map[]
    else PutClass(map[], parent, CreateJoinArray(INNER, reg[criteria].table, reg[criteria].idColumn, reg[parent].idColumn, alias))
  }

  /**
   * The ID-only finding: with a parent join, the term as written is against
   * the mandatory join's alias, yet the expression carries no join giving
   * that alias; the corrected one carries exactly that join.
   */
  lemma IdOnlyDropsJoin(reg: Registry, codec: Codec, criteria: string, parent: string, alias: string, column: string, obj: EntityValue)
    requires criteria in reg && parent in reg && criteria != parent
    ensures var w := BuildIdOnlyAsWritten(codec, parent, MandatoryJoins(reg, criteria, parent, alias), alias, column, obj);
      w.joins == map[] && alias !in w.joins.Values
    ensures var c := BuildIdOnly(codec, parent, MandatoryJoins(reg, criteria, parent, alias), alias, column, obj);
      c.joins.Values == {alias} && c.joins.Keys == {ParentJoinPath(reg, criteria, parent)}
  {
    var c := BuildIdOnly(codec, parent, MandatoryJoins(reg, criteria, parent, alias), alias, column, obj);
    assert c.joins[ParentJoinPath(reg, criteria, parent)] == alias;
  }

  /** The ID-only expression with no join names an alias that no join of it introduces. */
  lemma IdOnlyAsWrittenExample()
    ensures var reg := map["Student" := ClassMeta("Student", "ID", [], map[], None),
                           "User" := ClassMeta("User", "ID", [], map[], None)];
      var w := BuildIdOnlyAsWritten(Codec((v, t) => "1", t => 'i'), "User", MandatoryJoins(reg, "Student", "User", "J1"), "J1", "Address", EntityValue("Address", false, Some(1), map[]));
      w.term == "J1.Address=?" && w.joins == map[]
  {
  }

  /** The value of equal: one expression, or for a MANY_TO_ONE field an array of them. */
  function Expressions(es: seq<Expression>): (it: Item)
    ensures it.Group? && |it.items| == |es|
    ensures forall i :: 0 <= i < |es| ==> it.items[i] == One(es[i])
  {
    Group(seq(|es|, i requires 0 <= i < |es| => One(es[i])))
  }

  /**
   * The builders that use Joiner. Each checks its field first (an error leaves
   * the alias table as it was), then, when the parent class differs from the
   * criteria class, takes the parent join's alias from the table.
   */

  /** The scope of the parent class's fields, allocating the parent join's alias when the classes differ. */
  method ResolveScope(names: JoinNames, reg: Registry, criteria: string, parent: string) returns (s: Scope)
    requires names.Valid() && criteria in reg && parent in reg
    modifies names
    ensures names.Valid()
    ensures criteria == parent ==> names.names == old(names.names) && names.counter == old(names.counter)
    ensures criteria != parent ==>
      Allocated(old(names.names), old(names.counter), names.names, names.counter, ParentJoinPath(reg, criteria, parent), s.termName)
    ensures s == ScopeOf(reg, criteria, parent, AliasIn(names.names, ParentJoinPath(reg, criteria, parent)))
  {
    if criteria == parent {
      s := ScopeOf(reg, criteria, parent, AliasIn(names.names, ParentJoinPath(reg, criteria, parent)));
    } else {
      var joinName := names.GetJoinName(parent, INNER, reg[criteria].table, reg[criteria].idColumn, reg[parent].idColumn);
      s := ScopeOf(reg, criteria, parent, joinName);
    }
  }

  /** The alias state after a builder: untouched on error or without a parent join, one allocation otherwise. */
  ghost predicate AfterBuild<T>(r: Result<T>, reg: Registry, criteria: string, parent: string,
                                 before: map<JoinPath, string>, counterBefore: nat, after: map<JoinPath, string>, counterAfter: nat)
    requires criteria in reg && parent in reg
  {
    && (r.Err? || criteria == parent ==> after == before && counterAfter == counterBefore)
    && (r.Ok? && criteria != parent ==>
          Allocated(before, counterBefore, after, counterAfter, ParentJoinPath(reg, criteria, parent), AliasIn(after, ParentJoinPath(reg, criteria, parent))))
  }

  /** abovePrivate with the parent resolved strictly (`===null`). */
  method AbovePrivate(names: JoinNames, reg: Registry, codec: Codec, criteria: string, field: string, value: Value, prepare: bool, parentClass: Option<string>)
    returns (r: Result<Expression>)
    requires names.Valid() && criteria in reg && ParentOr(criteria, parentClass) in reg
    modifies names
    ensures names.Valid()
    ensures var p := ParentOr(criteria, parentClass);
      && r == BuildAbove(reg, codec, criteria, p, field, value, prepare, AliasIn(names.names, ParentJoinPath(reg, criteria, p)))
      && AfterBuild(r, reg, criteria, p, old(names.names), old(names.counter), names.names, names.counter)
  {
    var p := ParentOr(criteria, parentClass);
    var m := OrderedField(reg, p, field);
    if m.Err? {
      return Err(m.msg);
    }
    var s := ResolveScope(names, reg, criteria, p);
    r := Ok(AboveWith(criteria, s, m.value.column, m.value.propertyType, codec, value, prepare));
  }

  /** above: the value is bound. */
  method Above(names: JoinNames, reg: Registry, codec: Codec, criteria: string, field: string, value: Value, parentClass: Option<string>)
    returns (r: Result<Expression>)
    requires names.Valid() && criteria in reg && ParentOr(criteria, parentClass) in reg
    modifies names
    ensures names.Valid()
    ensures var p := ParentOr(criteria, parentClass);
      && r == BuildAbove(reg, codec, criteria, p, field, value, true, AliasIn(names.names, ParentJoinPath(reg, criteria, p)))
      && AfterBuild(r, reg, criteria, p, old(names.names), old(names.counter), names.names, names.counter)
  {
    r := AbovePrivate(names, reg, codec, criteria, field, value, true, parentClass);
  }

  /** after: the given date-time is bound. */
  method After(names: JoinNames, reg: Registry, codec: Codec, criteria: string, field: string, dateTime: Value, parentClass: Option<string>)
    returns (r: Result<Expression>)
    requires names.Valid() && criteria in reg && ParentOr(criteria, parentClass) in reg
    modifies names
    ensures names.Valid()
    ensures var p := ParentOr(criteria, parentClass);
      && r == BuildAbove(reg, codec, criteria, p, field, dateTime, true, AliasIn(names.names, ParentJoinPath(reg, criteria, p)))
      && AfterBuild(r, reg, criteria, p, old(names.names), old(names.counter), names.names, names.counter)
  {
    r := AbovePrivate(names, reg, codec, criteria, field, dateTime, true, parentClass);
  }

  /** afterNow: the current date-time (a parameter, since the clock is not modelled) is written inline. */
  method AfterNow(names: JoinNames, reg: Registry, codec: Codec, criteria: string, field: string, now: Value, parentClass: Option<string>)
    returns (r: Result<Expression>)
    requires names.Valid() && criteria in reg && ParentOr(criteria, parentClass) in reg
    modifies names
    ensures names.Valid()
    ensures var p := ParentOr(criteria, parentClass);
      && r == BuildAbove(reg, codec, criteria, p, field, now, false, AliasIn(names.names, ParentJoinPath(reg, criteria, p)))
      && AfterBuild(r, reg, criteria, p, old(names.names), old(names.counter), names.names, names.counter)
  {
    r := AbovePrivate(names, reg, codec, criteria, field, now, false, parentClass);
  }

  /** between, with the parent resolved strictly. */
  method Between(names: JoinNames, reg: Registry, codec: Codec, criteria: string, field: string, min: Value, max: Value, parentClass: Option<string>)
    returns (r: Result<Expression>)
    requires names.Valid() && criteria in reg && ParentOr(criteria, parentClass) in reg
    modifies names
    ensures names.Valid()
    ensures var p := ParentOr(criteria, parentClass);
      && r == BuildBetween(reg, codec, criteria, p, field, min, max, AliasIn(names.names, ParentJoinPath(reg, criteria, p)))
      && AfterBuild(r, reg, criteria, p, old(names.names), old(names.counter), names.names, names.counter)
  {
    var p := ParentOr(criteria, parentClass);
    var m := OrderedField(reg, p, field);
    if m.Err? {
      return Err(m.msg);
    }
    var s := ResolveScope(names, reg, criteria, p);
    r := Ok(BetweenWith(criteria, s, m.value.column, m.value.propertyType, codec, min, max));
  }

  /** contains, startsWith and endsWith, with the parent resolved loosely (`==null`). */
  method Like(names: JoinNames, reg: Registry, codec: Codec, criteria: string, field: string, value: Value, kind: LikeKind, parentClass: Option<string>)
    returns (r: Result<Expression>)
    requires names.Valid() && criteria in reg && LooseParentOr(criteria, parentClass) in reg
    modifies names
    ensures names.Valid()
    ensures var p := LooseParentOr(criteria, parentClass);
      && r == BuildLike(reg, codec, criteria, p, field, value, kind, AliasIn(names.names, ParentJoinPath(reg, criteria, p)))
      && AfterBuild(r, reg, criteria, p, old(names.names), old(names.counter), names.names, names.counter)
  {
    var p := LooseParentOr(criteria, parentClass);
    var probe := BuildLike(reg, codec, criteria, p, field, value, kind, "");
    if probe.Err? {
      return Err(probe.msg);
    }
    var s := ResolveScope(names, reg, criteria, p);
    r := BuildLike(reg, codec, criteria, p, field, value, kind, s.termName);
    if criteria == p {
      assert r == BuildLike(reg, codec, criteria, p, field, value, kind, AliasIn(names.names, ParentJoinPath(reg, criteria, p)));
    }
  }

  /**
   * equal. A null value gives the IS NULL test; a PROPERTY field the "=?"
   * test; a MANY_TO_ONE field an array: the ID test alone when the referenced
   * (non-sub-entity) object has nothing but its ID set, otherwise one test per
   * non-null property of the referenced class over the join of its table,
   * plus the ID test for a referenced sub-entity with an ID. Other field
   * kinds, and a MANY_TO_ONE value that is not an object, are errors.
   */
  method Equal(names: JoinNames, reg: Registry, codec: Codec, criteria: string, field: string, value: Value, parentClass: Option<string>)
    returns (r: Result<Item>)
    requires names.Valid() && WellFormed(reg) && criteria in reg && ParentOr(criteria, parentClass) in reg
    modifies names
    ensures names.Valid()
    ensures var p := ParentOr(criteria, parentClass);
      var alias := AliasIn(names.names, ParentJoinPath(reg, criteria, p));
      && (value == Null ==>
            && r.Ok? == BuildEqualNull(reg, criteria, p, field, alias).Ok?
            && (r.Ok? ==> r.value == One(BuildEqualNull(reg, criteria, p, field, alias).value))
            && AfterBuild(r, reg, criteria, p, old(names.names), old(names.counter), names.names, names.counter))
      && (value != Null && field in reg[p].fields && reg[p].fields[field].Property? ==>
            && r.Ok?
            && r.value == One(BuildEqualProperty(reg, codec, criteria, p, reg[p].fields[field].column, reg[p].fields[field].propertyType, value, alias))
            && AfterBuild(r, reg, criteria, p, old(names.names), old(names.counter), names.names, names.counter))
      && (value != Null && !(field in reg[p].fields && (reg[p].fields[field].Property? || reg[p].fields[field].ManyToOne?)) ==>
            r.Err? && names.names == old(names.names) && names.counter == old(names.counter))
      && (value != Null && field in reg[p].fields && reg[p].fields[field].ManyToOne? ==>
            && (!value.Obj? ==> r.Err?)
            && (value.Obj? && !(value.entity.isSub && value.entity.id.Some? && value.entity.cls !in reg) ==> r.Ok?)
            && (r.Ok? ==> EqualManyToOne(reg, codec, criteria, p, reg[p].fields[field], value.entity, alias, names.names, r.value))
            && EqualManyToOneNames(reg, criteria, p, reg[p].fields[field], ReachesTarget(reg, reg[p].fields[field], value, r),
                                   old(names.names), old(names.counter), names.names, names.counter))
  {
    var p := ParentOr(criteria, parentClass);
    if value == Null {
      var probe := BuildEqualNull(reg, criteria, p, field, "");
      if probe.Err? {
        return Err(probe.msg);
      }
      var s := ResolveScope(names, reg, criteria, p);
      var e := BuildEqualNull(reg, criteria, p, field, s.termName);
      assert criteria == p ==> e == BuildEqualNull(reg, criteria, p, field, AliasIn(names.names, ParentJoinPath(reg, criteria, p)));
      return Ok(One(e.value));
    }
    if field !in reg[p].fields {
      return Err("undefined constant " + p + "::" + field + "FieldType");
    }
    var m := reg[p].fields[field];
    match m {
      case Property(column, t) =>
        var s := ResolveScope(names, reg, criteria, p);
        var e := BuildEqualProperty(reg, codec, criteria, p, column, t, value, s.termName);
        assert criteria == p ==> e == BuildEqualProperty(reg, codec, criteria, p, column, t, value, AliasIn(names.names, ParentJoinPath(reg, criteria, p)));
        return Ok(One(e));
      case ManyToOne(column, target) =>
        r := EqualManyToOneStep(names, reg, codec, criteria, p, m, value);
      case _ =>
        return Err(UnsupportedFieldType);
    }
  }

  /**
   * The tests over the referenced class when the object has more than its ID
   * set (or is a sub-entity): the join of the referenced table at `basePlace`
   * under the alias the table `after` holds for it, one test per non-null
   * property, and the ID test for a sub-entity with an ID.
   */
  ghost predicate TargetTests(reg: Registry, codec: Codec, m: FieldMeta, basePlace: string, mandatory: Joins, obj: EntityValue,
                              after: map<JoinPath, string>, it: Item)
    requires m.ManyToOne? && m.target in reg
  {
    var key := JoinPath(m.target, INNER, basePlace, m.column, reg[m.target].idColumn);
    var tAlias := AliasIn(after, key);
    var joins := PutClass(mandatory, m.target, CreateJoinArray(INNER, basePlace, m.column, reg[m.target].idColumn, tAlias));
    var es := FieldEqualities(reg, codec, m.target, FieldListOf(reg, m.target), obj, joins, tAlias);
    && key in after
    && (obj.isSub && obj.id.Some? ==> obj.cls in reg && it == Expressions(es + [SubIdEquality(reg, codec, m.target, obj, joins, tAlias)]))
    && (!(obj.isSub && obj.id.Some?) ==> it == Expressions(es))
  }

  /**
   * What a successful MANY_TO_ONE equality hands back, given the parent
   * join's alias and the alias table afterwards.
   */
  ghost predicate EqualManyToOne(reg: Registry, codec: Codec, criteria: string, parent: string, m: FieldMeta, obj: EntityValue,
                                 alias: string, after: map<JoinPath, string>, it: Item)
    requires criteria in reg && parent in reg && m.ManyToOne? && m.target in reg
  {
    var basePlace := if criteria == parent then reg[criteria].table else alias;
    var mandatory := MandatoryJoins(reg, criteria, parent, alias);
    if !obj.isSub && IdOnly(FieldListOf(reg, m.target), obj) then
      it == One(BuildIdOnly(codec, parent, mandatory, basePlace, m.column, obj))
    else
      TargetTests(reg, codec, m, basePlace, mandatory, obj, after, it)
  }

  /**
   * The alias table after the MANY_TO_ONE branch of equal: join 1/2 is
   * looked up whenever the classes differ, join 2/2 only when the branch
   * goes on to the tests over the referenced class (`reachesTarget`), and
   * nothing else is allocated.
   */
  ghost predicate EqualManyToOneNames(reg: Registry, criteria: string, parent: string, m: FieldMeta, reachesTarget: bool,
                                      before: map<JoinPath, string>, counterBefore: nat,
                                      after: map<JoinPath, string>, counterAfter: nat)
    requires criteria in reg && parent in reg && m.ManyToOne? && m.target in reg
  {
    var pk := ParentJoinPath(reg, criteria, parent);
    var mid := if criteria == parent then before else AllocNames(before, counterBefore, pk);
    var counterMid := if criteria == parent then counterBefore else AllocCounter(before, counterBefore, pk);
    var basePlace := if criteria == parent then reg[criteria].table else AliasIn(mid, pk);
    var tk := JoinPath(m.target, INNER, basePlace, m.column, reg[m.target].idColumn);
    if reachesTarget then after == AllocNames(mid, counterMid, tk) && counterAfter == AllocCounter(mid, counterMid, tk)
    else after == mid && counterAfter == counterMid
  }

  /** Whether a MANY_TO_ONE equality took join 2/2: it succeeded other than by the ID-only test. */
  ghost predicate ReachesTarget(reg: Registry, m: FieldMeta, value: Value, r: Result<Item>)
    requires m.ManyToOne? && m.target in reg
  {
    r.Ok? && value.Obj? && !(!value.entity.isSub && IdOnly(FieldListOf(reg, m.target), value.entity))
  }

  /** Join 2/2 of a MANY_TO_ONE equality and the tests over the referenced class. */
  method JoinTarget(names: JoinNames, reg: Registry, codec: Codec, m: FieldMeta, basePlace: string, mandatory: Joins, obj: EntityValue)
    returns (it: Item)
    requires names.Valid() && m.ManyToOne? && m.target in reg
    requires obj.isSub && obj.id.Some? ==> obj.cls in reg
    modifies names
    ensures names.Valid()
    ensures Allocated(old(names.names), old(names.counter), names.names, names.counter,
                      JoinPath(m.target, INNER, basePlace, m.column, reg[m.target].idColumn), AliasIn(names.names, JoinPath(m.target, INNER, basePlace, m.column, reg[m.target].idColumn)))
    ensures TargetTests(reg, codec, m, basePlace, mandatory, obj, names.names, it)
  {
    var tAlias := names.GetJoinName(m.target, INNER, basePlace, m.column, reg[m.target].idColumn);
    var joins := PutClass(mandatory, m.target, CreateJoinArray(INNER, basePlace, m.column, reg[m.target].idColumn, tAlias));
    var es := CollectFieldEqualities(reg, codec, m.target, FieldListOf(reg, m.target), obj, joins, tAlias);
    if obj.isSub && obj.id.Some? {
      es := es + [SubIdEquality(reg, codec, m.target, obj, joins, tAlias)];
    }
    it := Expressions(es);
  }

  /** The MANY_TO_ONE branch of equal. */
  method EqualManyToOneStep(names: JoinNames, reg: Registry, codec: Codec, criteria: string, parent: string, m: FieldMeta, value: Value)
    returns (r: Result<Item>)
    requires names.Valid() && WellFormed(reg) && criteria in reg && parent in reg
    requires m.ManyToOne? && m.target in reg
    modifies names
    ensures names.Valid()
    ensures !value.Obj? ==> r.Err?
    ensures r.Ok? ==> value.Obj? && EqualManyToOne(reg, codec, criteria, parent, m, value.entity, AliasIn(names.names, ParentJoinPath(reg, criteria, parent)), names.names, r.value)
    ensures value.Obj? && !(value.entity.isSub && value.entity.id.Some? && value.entity.cls !in reg) ==> r.Ok?
    ensures EqualManyToOneNames(reg, criteria, parent, m, ReachesTarget(reg, m, value, r),
                                old(names.names), old(names.counter), names.names, names.counter)
  {
    var basePlace := reg[criteria].table;
    var mandatory: Joins := map[];
    ghost var before, counterBefore := names.names, names.counter;
    if criteria != parent {
      var mName := names.GetJoinName(parent, INNER, reg[criteria].table, reg[criteria].idColumn, reg[parent].idColumn);
      AllocatedDetermined(before, counterBefore, names.names, names.counter, ParentJoinPath(reg, criteria, parent), mName);
      mandatory := PutClass(map[], parent, CreateJoinArray(INNER, reg[criteria].table, reg[criteria].idColumn, reg[parent].idColumn, mName));
      basePlace := mName;
    }
    ghost var pk := ParentJoinPath(reg, criteria, parent);
    ghost var alias := AliasIn(names.names, pk);
    assert criteria != parent ==> basePlace == alias && pk in names.names;
    assert mandatory == MandatoryJoins(reg, criteria, parent, alias);
    if !value.Obj? {
      return Err(MemberIdOnNonObject);
    }
    var obj := value.entity;
    if !obj.isSub {
      var only := ScanIdOnly(FieldListOf(reg, m.target), obj);
      if only {
        return Ok(One(BuildIdOnly(codec, parent, mandatory, basePlace, m.column, obj)));
      }
    }
    if obj.isSub && obj.id.Some? && obj.cls !in reg {
      return Err(UndefinedSubEntityClass);
    }
    ghost var namesMid, counterMid := names.names, names.counter;
    var it := JoinTarget(names, reg, codec, m, basePlace, mandatory, obj);
    ghost var tk := JoinPath(m.target, INNER, basePlace, m.column, reg[m.target].idColumn);
    AllocatedDetermined(namesMid, counterMid, names.names, names.counter, tk, AliasIn(names.names, tk));
    if criteria != parent {
      var key := JoinPath(m.target, INNER, basePlace, m.column, reg[m.target].idColumn);
      AllocatedKeeps(namesMid, counterMid, names.names, names.counter, key, AliasIn(names.names, key), pk);
    }
    r := Ok(it);
  }
}
