/**
 * The statement building of FieldEntity: the SELECT of prepareSelectQuery,
 * the INSERT/UPDATE of performQuery, the transaction flags of the list
 * operations and the order of the loading steps of createInstance. The
 * database is an abstract event log; the session is a map.
 */
module FieldEntities {
  import opened Wrappers
  import opened Strings
  import opened Metadata
  import opened FieldLists

  // The messages of the exceptions thrown, named once so that the proofs compare names rather than texts.
  const ManyToManyNotLoadable: string := "ManyToMany field is currently not yet supported for loading from here."
  const FieldTypeNotSupported: string := "FieldType is not supported."
  const CriteriaClassMismatch: string := "Criterias BaseEntityClass is different than the called child class."
  const IdOnNonObject: string := "Call to getID() on a non-object."
  const IdNotSet: string := "Field does not have a set ID."
  const ParentNotObject: string := "Call to save() with a non-object parent."
  const NoParentClass: string := "Call to undefined method getParentEntityClass()."
  const StatementFailed: string := "The statement failed."
  const IdNotNull: string := "The provided objects ID is not null. Call Update function instead."
  const IdNull: string := "The provided objects ID is null. Call Save function instead."
  const ClassMismatch: string := "Type of the provided object is not the same as the called class."
  const QueryTypeNotSupported: string := "Query type is not supported."

  /** shouldAddToSession: only a full load (no field list, no ignore list, with one-to-many lists) is cached. */
  predicate ShouldAddToSession(fields: Option<seq<string>>, fieldsToIgnore: Option<seq<string>>, inclOneToMany: bool)
  {
    fields.None? && fieldsToIgnore.None? && inclOneToMany
  }

  /** `empty($fields)`: no list at all or an empty one. */
  predicate NoFields(fields: Option<seq<string>>)
  {
    fields.None? || fields.value == []
  }

  /** The effective field list: the given one, or the class's own list when none is given. */
  function EffectiveFields(reg: Registry, cls: string, fields: Option<seq<string>>): (fs: seq<string>)
    requires cls in reg
    ensures NoFields(fields) ==> fs == FieldListOf(reg, cls)
    ensures !NoFields(fields) ==> fs == fields.value
  {
    if NoFields(fields) then FieldListOf(reg, cls) else fields.value
  }

  /** `$fieldsToIgnore!=null && in_array($field,$fieldsToIgnore)`. */
  predicate Ignored(fieldsToIgnore: Option<seq<string>>, f: string)
  {
    fieldsToIgnore.Some? && f in fieldsToIgnore.value
  }

  /** PHP's `empty()` on a string: the empty string and "0". */
  predicate PhpEmpty(s: string)
  {
    s == "" || s == "0"
  }

  // ---------------------------------------------------------------------
  // prepareSelectQuery
  // ---------------------------------------------------------------------

  /** One `{Field, Class, Identifier}` entry of `$oneToManyListsToLoad`. */
  datatype OneToManyList = OneToManyList(field: string, cls: string, identifier: string)

  /** What the field loop of prepareSelectQuery collects. */
  datatype SelectPlan = SelectPlan(
    columns: seq<string>,
    manyToOne: seq<(string, string)>,
    oneToMany: seq<OneToManyList>,
    parentFields: seq<string>)

  /** The part of a Criteria that prepareSelectQuery reads after `prepare()`. */
  datatype CriteriaParts = CriteriaParts(baseEntityClass: string, preparedJoins: string, preparedRestrictions: string)

  /** The query and the three out-parameters; `fieldsOfParent` is None when the call leaves it untouched. */
  datatype SelectQuery = SelectQuery(
    query: string,
    manyToOne: seq<(string, string)>,
    oneToMany: seq<OneToManyList>,
    fieldsOfParent: Option<seq<string>>)

  /** One select-list entry `<table>.<column> AS <field>`. */
  function SelectColumn(table: string, column: string, field: string): string
  {
    table + "." + column + " AS " + field
  }

  /** A field the loop sends to the parent: not ignored, and without a FieldType of its own. */
  predicate ToParent(meta: ClassMeta, f: string, fieldsToIgnore: Option<seq<string>>, routeParent: bool)
  {
    !Ignored(fieldsToIgnore, f) && routeParent && f !in meta.fields
  }

  /** A field the loop selects: not ignored, and a PROPERTY or MANY_TO_ONE field of the class. */
  predicate Selected(meta: ClassMeta, f: string, fieldsToIgnore: Option<seq<string>>)
  {
    !Ignored(fieldsToIgnore, f) && f in meta.fields && (meta.fields[f].Property? || meta.fields[f].ManyToOne?)
  }

  /** A field the loop throws on: undefined FieldType, MANY_TO_MANY, or an unknown kind. */
  predicate RejectedForSelect(meta: ClassMeta, f: string, fieldsToIgnore: Option<seq<string>>, routeParent: bool)
  {
    && !Ignored(fieldsToIgnore, f)
    && !ToParent(meta, f, fieldsToIgnore, routeParent)
    && (f !in meta.fields || meta.fields[f].ManyToMany? || meta.fields[f].UnknownKind?)
  }

  /** One iteration of the field loop of prepareSelectQuery. */
  function SelectStep(meta: ClassMeta, p: SelectPlan, f: string, fieldsToIgnore: Option<seq<string>>,
                      inclOneToMany: bool, routeParent: bool): Result<SelectPlan>
  {
    if Ignored(fieldsToIgnore, f) then Ok(p)
    else if routeParent && f !in meta.fields then Ok(p.(parentFields := p.parentFields + [f]))
    else if f !in meta.fields then Err("undefined constant " + f + "FieldType")
    else
      match meta.fields[f]
      case Property(c, _) => Ok(p.(columns := p.columns + [SelectColumn(meta.table, c, f)]))
      case ManyToOne(c, t) =>
        Ok(p.(columns := p.columns + [SelectColumn(meta.table, c, f)], manyToOne := p.manyToOne + [(f, t)]))
      case OneToMany(t, id) =>
        if inclOneToMany then Ok(p.(oneToMany := p.oneToMany + [OneToManyList(f, t, id)])) else Ok(p)
      case ManyToMany(_, _) => Err(ManyToManyNotLoadable)
      case UnknownKind(_) => Err(FieldTypeNotSupported)
  }

  /** The field loop over a whole list, stopping at the first field it throws on. */
  function SelectPlanOf(meta: ClassMeta, fields: seq<string>, fieldsToIgnore: Option<seq<string>>,
                        inclOneToMany: bool, routeParent: bool): Result<SelectPlan>
  {
    if fields == [] then Ok(SelectPlan([], [], [], []))
    else
      var p :- SelectPlanOf(meta, fields[..|fields| - 1], fieldsToIgnore, inclOneToMany, routeParent);
      SelectStep(meta, p, fields[|fields| - 1], fieldsToIgnore, inclOneToMany, routeParent)
  }

  /** The select list starts with `<table>.<IDcolumn> AS <parentFieldName>` for a sub-entity. */
  function SelectHead(meta: ClassMeta, parentFieldName: Option<string>): seq<string>
  {
    if parentFieldName.Some? then [SelectColumn(meta.table, meta.idColumn, parentFieldName.value)] else []
  }

  /** "SELECT " and the comma-separated select list, with the plan it came from. */
  function SelectListOf(meta: ClassMeta, fields: seq<string>, fieldsToIgnore: Option<seq<string>>,
                        inclOneToMany: bool, routeParent: bool, parentFieldName: Option<string>): Result<(string, SelectPlan)>
  {
    var p :- SelectPlanOf(meta, fields, fieldsToIgnore, inclOneToMany, routeParent);
    Ok(("SELECT " + JoinWith(SelectHead(meta, parentFieldName) + p.columns, ","), p))
  }

  /** The criteria's prepared joins and ` WHERE ` restrictions, each only when not empty. */
  function CriteriaTail(criteria: Option<CriteriaParts>): string
  {
    if criteria.None? then ""
    else
      (if PhpEmpty(criteria.value.preparedJoins) then "" else " " + criteria.value.preparedJoins) +
      (if PhpEmpty(criteria.value.preparedRestrictions) then "" else " WHERE " + criteria.value.preparedRestrictions)
  }

  /**
   * prepareSelectQuery. `parentFieldName` is Some exactly for a sub-entity;
   * fields without an own FieldType go to the parent only when the caller
   * named the fields.
   */
  function SelectQueryOf(reg: Registry, cls: string, criteria: Option<CriteriaParts>, fields: Option<seq<string>>,
                         fieldsToIgnore: Option<seq<string>>, inclOneToMany: bool, parentFieldName: Option<string>): Result<SelectQuery>
    requires cls in reg
  {
    if criteria.Some? && criteria.value.baseEntityClass != cls then
      Err(CriteriaClassMismatch)
    else
      var routeParent := parentFieldName.Some? && !NoFields(fields);
      SelectQueryFrom(reg[cls], criteria, EffectiveFields(reg, cls, fields), fieldsToIgnore, inclOneToMany, routeParent,
                      parentFieldName)
  }

  /** prepareSelectQuery once the criteria check passed and the field list is chosen. */
  function SelectQueryFrom(meta: ClassMeta, criteria: Option<CriteriaParts>, list: seq<string>,
                           fieldsToIgnore: Option<seq<string>>, inclOneToMany: bool, routeParent: bool,
                           parentFieldName: Option<string>): Result<SelectQuery>
  {
    var sl :- SelectListOf(meta, list, fieldsToIgnore, inclOneToMany, routeParent, parentFieldName);
    Ok(SelectQuery(sl.0 + " FROM " + meta.table + CriteriaTail(criteria),
                   sl.1.manyToOne, sl.1.oneToMany,
                   if routeParent then Some(sl.1.parentFields) else None))
  }

  /** Once the loop has thrown on a prefix, the whole loop throws the same. */
  lemma {:induction false} SelectPlanPrefixErr(meta: ClassMeta, fields: seq<string>, k: nat, fieldsToIgnore: Option<seq<string>>,
                                               inclOneToMany: bool, routeParent: bool)
    requires k <= |fields|
    requires SelectPlanOf(meta, fields[..k], fieldsToIgnore, inclOneToMany, routeParent).Err?
    ensures SelectPlanOf(meta, fields, fieldsToIgnore, inclOneToMany, routeParent) ==
            SelectPlanOf(meta, fields[..k], fieldsToIgnore, inclOneToMany, routeParent)
    decreases |fields| - k
  {
    if k < |fields| {
      assert fields[..k + 1][..k] == fields[..k];
      SelectPlanPrefixErr(meta, fields, k + 1, fieldsToIgnore, inclOneToMany, routeParent);
    } else {
      assert fields[..k] == fields;
    }
  }

  /** The loop throws exactly when some field of the list is rejected. */
  lemma {:induction false} SelectPlanErrIff(meta: ClassMeta, fields: seq<string>, fieldsToIgnore: Option<seq<string>>,
                                            inclOneToMany: bool, routeParent: bool)
    ensures SelectPlanOf(meta, fields, fieldsToIgnore, inclOneToMany, routeParent).Err? <==>
            exists i :: 0 <= i < |fields| && RejectedForSelect(meta, fields[i], fieldsToIgnore, routeParent)
  {
    if fields != [] {
      var init := fields[..|fields| - 1];
      SelectPlanErrIff(meta, init, fieldsToIgnore, inclOneToMany, routeParent);
      if exists i :: 0 <= i < |init| && RejectedForSelect(meta, init[i], fieldsToIgnore, routeParent) {
        var i :| 0 <= i < |init| && RejectedForSelect(meta, init[i], fieldsToIgnore, routeParent);
        assert fields[i] == init[i];
      }
      if exists i :: 0 <= i < |fields| && RejectedForSelect(meta, fields[i], fieldsToIgnore, routeParent) {
        var i :| 0 <= i < |fields| && RejectedForSelect(meta, fields[i], fieldsToIgnore, routeParent);
        if i < |init| {
          assert init[i] == fields[i];
        }
      }
    }
  }

  // What a loop that did not throw collected, entry by entry.

  /** The select columns are those of the selected fields. */
  lemma {:induction false} SelectPlanColumns(meta: ClassMeta, fields: seq<string>, fieldsToIgnore: Option<seq<string>>,
                                             inclOneToMany: bool, routeParent: bool, x: string)
    requires SelectPlanOf(meta, fields, fieldsToIgnore, inclOneToMany, routeParent).Ok?
    ensures x in SelectPlanOf(meta, fields, fieldsToIgnore, inclOneToMany, routeParent).value.columns <==>
            exists i :: 0 <= i < |fields| && Selected(meta, fields[i], fieldsToIgnore) &&
              x == SelectColumn(meta.table, ColumnOf(meta.fields[fields[i]]).value, fields[i])
  {
    if fields != [] {
      var init := fields[..|fields| - 1];
      var n := |fields| - 1;
      SelectPlanColumns(meta, init, fieldsToIgnore, inclOneToMany, routeParent, x);
      forall i | 0 <= i < |init|
        ensures init[i] == fields[i]
      {
      }
      var p := SelectPlanOf(meta, fields, fieldsToIgnore, inclOneToMany, routeParent).value;
      var q := SelectPlanOf(meta, init, fieldsToIgnore, inclOneToMany, routeParent).value;
      assert p == SelectStep(meta, q, fields[n], fieldsToIgnore, inclOneToMany, routeParent).value;
      if x in p.columns && x !in q.columns {
        assert Selected(meta, fields[n], fieldsToIgnore);
      }
    }
  }

  /** The many-to-one entries are the fields of that kind that are not ignored, with their target class. */
  lemma {:induction false} SelectPlanManyToOne(meta: ClassMeta, fields: seq<string>, fieldsToIgnore: Option<seq<string>>,
                                               inclOneToMany: bool, routeParent: bool, m: (string, string))
    requires SelectPlanOf(meta, fields, fieldsToIgnore, inclOneToMany, routeParent).Ok?
    ensures m in SelectPlanOf(meta, fields, fieldsToIgnore, inclOneToMany, routeParent).value.manyToOne <==>
            exists i :: 0 <= i < |fields| && fields[i] == m.0 && !Ignored(fieldsToIgnore, m.0) &&
              m.0 in meta.fields && meta.fields[m.0].ManyToOne? && meta.fields[m.0].target == m.1
  {
    if fields != [] {
      var init := fields[..|fields| - 1];
      var n := |fields| - 1;
      SelectPlanManyToOne(meta, init, fieldsToIgnore, inclOneToMany, routeParent, m);
      forall i | 0 <= i < |init|
        ensures init[i] == fields[i]
      {
      }
      var p := SelectPlanOf(meta, fields, fieldsToIgnore, inclOneToMany, routeParent).value;
      var q := SelectPlanOf(meta, init, fieldsToIgnore, inclOneToMany, routeParent).value;
      assert p == SelectStep(meta, q, fields[n], fieldsToIgnore, inclOneToMany, routeParent).value;
      if m in p.manyToOne && m !in q.manyToOne {
        assert fields[n] == m.0;
      }
    }
  }

  /** The one-to-many entries, only with inclOneToMany. */
  lemma {:induction false} SelectPlanOneToMany(meta: ClassMeta, fields: seq<string>, fieldsToIgnore: Option<seq<string>>,
                                               inclOneToMany: bool, routeParent: bool, o: OneToManyList)
    requires SelectPlanOf(meta, fields, fieldsToIgnore, inclOneToMany, routeParent).Ok?
    ensures o in SelectPlanOf(meta, fields, fieldsToIgnore, inclOneToMany, routeParent).value.oneToMany <==>
            inclOneToMany &&
            (exists i :: 0 <= i < |fields| && fields[i] == o.field && !Ignored(fieldsToIgnore, o.field) &&
               o.field in meta.fields && meta.fields[o.field] == OneToMany(o.cls, o.identifier))
  {
    if fields != [] {
      var init := fields[..|fields| - 1];
      var n := |fields| - 1;
      SelectPlanOneToMany(meta, init, fieldsToIgnore, inclOneToMany, routeParent, o);
      forall i | 0 <= i < |init|
        ensures init[i] == fields[i]
      {
      }
      var p := SelectPlanOf(meta, fields, fieldsToIgnore, inclOneToMany, routeParent).value;
      var q := SelectPlanOf(meta, init, fieldsToIgnore, inclOneToMany, routeParent).value;
      assert p == SelectStep(meta, q, fields[n], fieldsToIgnore, inclOneToMany, routeParent).value;
      if o in p.oneToMany && o !in q.oneToMany {
        assert fields[n] == o.field;
      }
    }
  }

  /** The fields left to the parent, only when routing to it. */
  lemma {:induction false} SelectPlanParentFields(meta: ClassMeta, fields: seq<string>, fieldsToIgnore: Option<seq<string>>,
                                                  inclOneToMany: bool, routeParent: bool, x: string)
    requires SelectPlanOf(meta, fields, fieldsToIgnore, inclOneToMany, routeParent).Ok?
    ensures x in SelectPlanOf(meta, fields, fieldsToIgnore, inclOneToMany, routeParent).value.parentFields <==>
            exists i :: 0 <= i < |fields| && fields[i] == x && ToParent(meta, x, fieldsToIgnore, routeParent)
  {
    if fields != [] {
      var init := fields[..|fields| - 1];
      var n := |fields| - 1;
      SelectPlanParentFields(meta, init, fieldsToIgnore, inclOneToMany, routeParent, x);
      forall i | 0 <= i < |init|
        ensures init[i] == fields[i]
      {
      }
      var p := SelectPlanOf(meta, fields, fieldsToIgnore, inclOneToMany, routeParent).value;
      var q := SelectPlanOf(meta, init, fieldsToIgnore, inclOneToMany, routeParent).value;
      assert p == SelectStep(meta, q, fields[n], fieldsToIgnore, inclOneToMany, routeParent).value;
      if x in p.parentFields && x !in q.parentFields {
        assert fields[n] == x;
      }
    }
  }

  /** No one-to-many entries without inclOneToMany, no parent fields without routing. */
  lemma {:induction false} SelectPlanEmptyParts(meta: ClassMeta, fields: seq<string>, fieldsToIgnore: Option<seq<string>>,
                                                inclOneToMany: bool, routeParent: bool)
    requires SelectPlanOf(meta, fields, fieldsToIgnore, inclOneToMany, routeParent).Ok?
    ensures !inclOneToMany ==> SelectPlanOf(meta, fields, fieldsToIgnore, inclOneToMany, routeParent).value.oneToMany == []
    ensures !routeParent ==> SelectPlanOf(meta, fields, fieldsToIgnore, inclOneToMany, routeParent).value.parentFields == []
  {
    if fields != [] {
      SelectPlanEmptyParts(meta, fields[..|fields| - 1], fieldsToIgnore, inclOneToMany, routeParent);
    }
  }

  /** prepareSelectQuery throws exactly on a criteria of another class or on a rejected field of the effective list. */
  lemma SelectQueryErrIff(reg: Registry, cls: string, criteria: Option<CriteriaParts>, fields: Option<seq<string>>,
                          fieldsToIgnore: Option<seq<string>>, inclOneToMany: bool, parentFieldName: Option<string>)
    requires cls in reg
    ensures var fs := EffectiveFields(reg, cls, fields);
      var routeParent := parentFieldName.Some? && !NoFields(fields);
      SelectQueryOf(reg, cls, criteria, fields, fieldsToIgnore, inclOneToMany, parentFieldName).Err? <==>
        (criteria.Some? && criteria.value.baseEntityClass != cls) ||
        (exists i :: 0 <= i < |fs| && RejectedForSelect(reg[cls], fs[i], fieldsToIgnore, routeParent))
  {
    var routeParent := parentFieldName.Some? && !NoFields(fields);
    SelectPlanErrIff(reg[cls], EffectiveFields(reg, cls, fields), fieldsToIgnore, inclOneToMany, routeParent);
  }

  /** One select-list entry appended with the `$isFirst` comma logic (a sub-entity's list never starts empty). */
  method AppendColumn(query: string, isFirst: bool, parentFieldName: Option<string>, head: seq<string>,
                      columns: seq<string>, column: string) returns (query': string, isFirst': bool)
    requires head == [] <==> parentFieldName.None?
    requires query == "SELECT " + JoinWith(head + columns, ",")
    requires parentFieldName.None? ==> (isFirst <==> columns == [])
    ensures query' == "SELECT " + JoinWith(head + (columns + [column]), ",")
    ensures parentFieldName.None? ==> !isFirst'
  {
    JoinWithSnoc(head + columns, column, ",");
    assert head + (columns + [column]) == (head + columns) + [column];
    query', isFirst' := query, isFirst;
    if parentFieldName.None? && isFirst {
      isFirst' := false;
    } else {
      query' := query' + ",";
    }
    query' := query' + column;
  }

  /** `SelectPlanOf` over one more field is one more `SelectStep`. */
  lemma SelectPlanSnoc(meta: ClassMeta, fields: seq<string>, i: nat, fieldsToIgnore: Option<seq<string>>,
                       inclOneToMany: bool, routeParent: bool, p: SelectPlan)
    requires i < |fields|
    requires SelectPlanOf(meta, fields[..i], fieldsToIgnore, inclOneToMany, routeParent) == Ok(p)
    ensures SelectPlanOf(meta, fields[..i + 1], fieldsToIgnore, inclOneToMany, routeParent) ==
            SelectStep(meta, p, fields[i], fieldsToIgnore, inclOneToMany, routeParent)
  {
    assert fields[..i + 1][..i] == fields[..i];
  }

  /** One iteration of the field loop, on the query text and the lists collected so far. */
  method SelectIteration(meta: ClassMeta, p: SelectPlan, query: string, isFirst: bool, head: seq<string>,
                         parentFieldName: Option<string>, f: string, fieldsToIgnore: Option<seq<string>>,
                         inclOneToMany: bool, routeParent: bool)
    returns (r: Result<(SelectPlan, string, bool)>)
    requires head == [] <==> parentFieldName.None?
    requires query == "SELECT " + JoinWith(head + p.columns, ",")
    requires parentFieldName.None? ==> (isFirst <==> p.columns == [])
    ensures var step := SelectStep(meta, p, f, fieldsToIgnore, inclOneToMany, routeParent);
      && (r.Ok? <==> step.Ok?)
      && (r.Err? ==> r.msg == step.msg)
      && (r.Ok? ==> r.value.0 == step.value && r.value.1 == "SELECT " + JoinWith(head + r.value.0.columns, ",") &&
                    (parentFieldName.None? ==> (r.value.2 <==> r.value.0.columns == [])))
  {
    if Ignored(fieldsToIgnore, f) {
      return Ok((p, query, isFirst));
    }
    if routeParent && f !in meta.fields {
      return Ok((p.(parentFields := p.parentFields + [f]), query, isFirst));
    }
    if f !in meta.fields {
      return Err("undefined constant " + f + "FieldType");
    }
    match meta.fields[f] {
      case Property(c, _) =>
        var column := SelectColumn(meta.table, c, f);
        var q, first := AppendColumn(query, isFirst, parentFieldName, head, p.columns, column);
        var p' := p.(columns := p.columns + [column]);
        assert SelectStep(meta, p, f, fieldsToIgnore, inclOneToMany, routeParent) == Ok(p');
        r := Ok((p', q, first));
      case ManyToOne(c, t) =>
        var column := SelectColumn(meta.table, c, f);
        var q, first := AppendColumn(query, isFirst, parentFieldName, head, p.columns, column);
        var p' := p.(columns := p.columns + [column], manyToOne := p.manyToOne + [(f, t)]);
        assert SelectStep(meta, p, f, fieldsToIgnore, inclOneToMany, routeParent) == Ok(p');
        r := Ok((p', q, first));
      case OneToMany(t, id) =>
        if inclOneToMany {
          r := Ok((p.(oneToMany := p.oneToMany + [OneToManyList(f, t, id)]), query, isFirst));
        } else {
          r := Ok((p, query, isFirst));
        }
      case ManyToMany(_, _) =>
        r := Err(ManyToManyNotLoadable);
      case UnknownKind(_) =>
        r := Err(FieldTypeNotSupported);
    }
  }

  /** The field loop of prepareSelectQuery, stopping at the first field it throws on. */
  method SelectLoop(meta: ClassMeta, fields: seq<string>, fieldsToIgnore: Option<seq<string>>,
                    inclOneToMany: bool, routeParent: bool, parentFieldName: Option<string>)
    returns (r: Result<(string, SelectPlan)>)
    ensures r == SelectListOf(meta, fields, fieldsToIgnore, inclOneToMany, routeParent, parentFieldName)
  {
    var head := SelectHead(meta, parentFieldName);
    var query := "SELECT " + JoinWith(head, ",");
    var isFirst := true;
    var p := SelectPlan([], [], [], []);
    var i := 0;
    while i < |fields|
      invariant 0 <= i <= |fields|
      invariant SelectPlanOf(meta, fields[..i], fieldsToIgnore, inclOneToMany, routeParent) == Ok(p)
      invariant query == "SELECT " + JoinWith(head + p.columns, ",")
      invariant parentFieldName.None? ==> (isFirst <==> p.columns == [])
    {
      SelectPlanSnoc(meta, fields, i, fieldsToIgnore, inclOneToMany, routeParent, p);
      var next := SelectIteration(meta, p, query, isFirst, head, parentFieldName, fields[i],
                                  fieldsToIgnore, inclOneToMany, routeParent);
      if next.Err? {
        SelectPlanPrefixErr(meta, fields, i + 1, fieldsToIgnore, inclOneToMany, routeParent);
        return Err(next.msg);
      }
      p, query, isFirst := next.value.0, next.value.1, next.value.2;
      i := i + 1;
    }
    assert fields[..i] == fields;
    r := Ok((query, p));
  }

  /** The tail of prepareSelectQuery: the criteria's joins and restrictions when not empty. */
  method AppendCriteria(query: string, criteria: Option<CriteriaParts>) returns (q: string)
    ensures q == query + CriteriaTail(criteria)
  {
    q := query;
    if criteria.Some? {
      var c := criteria.value;
      ghost var joins := if PhpEmpty(c.preparedJoins) then "" else " " + c.preparedJoins;
      ghost var restrictions := if PhpEmpty(c.preparedRestrictions) then "" else " WHERE " + c.preparedRestrictions;
      if !PhpEmpty(c.preparedJoins) {
        q := q + (" " + c.preparedJoins);
      }
      assert q == query + joins;
      if !PhpEmpty(c.preparedRestrictions) {
        q := q + (" WHERE " + c.preparedRestrictions);
      }
      assert q == (query + joins) + restrictions;
      ConcatAssoc(query, joins, restrictions);
    }
  }

  /** The select list, the FROM clause and the criteria's tail, for a chosen field list. */
  method BuildSelectQuery(meta: ClassMeta, criteria: Option<CriteriaParts>, list: seq<string>,
                          fieldsToIgnore: Option<seq<string>>, inclOneToMany: bool, routeParent: bool,
                          parentFieldName: Option<string>) returns (r: Result<SelectQuery>)
    ensures r == SelectQueryFrom(meta, criteria, list, fieldsToIgnore, inclOneToMany, routeParent, parentFieldName)
  {
    var sl := SelectLoop(meta, list, fieldsToIgnore, inclOneToMany, routeParent, parentFieldName);
    if sl.Err? {
      return Err(sl.msg);
    }
    var query := AppendCriteria(sl.value.0 + " FROM " + meta.table, criteria);
    var plan := sl.value.1;
    r := Ok(SelectQuery(query, plan.manyToOne, plan.oneToMany, if routeParent then Some(plan.parentFields) else None));
  }

  /**
   * prepareSelectQuery against the static field-list table: the class's own
   * list is fetched (and memoized) only when no fields are named and the
   * criteria check passed.
   */
  method PrepareSelectQuery(tables: StaticTables, cls: string, criteria: Option<CriteriaParts>, fields: Option<seq<string>>,
                            fieldsToIgnore: Option<seq<string>>, inclOneToMany: bool, parentFieldName: Option<string>)
    returns (r: Result<SelectQuery>)
    requires tables.Valid() && cls in tables.reg
    modifies tables`fieldLists
    ensures tables.Valid()
    ensures r == SelectQueryOf(tables.reg, cls, criteria, fields, fieldsToIgnore, inclOneToMany, parentFieldName)
    ensures tables.fieldLists == old(tables.fieldLists) ||
            tables.fieldLists == old(tables.fieldLists)[cls := FieldListOf(tables.reg, cls)]
  {
    if criteria.Some? && criteria.value.baseEntityClass != cls {
      return Err(CriteriaClassMismatch);
    }
    var list: seq<string>;
    var routeParent := parentFieldName.Some?;
    if NoFields(fields) {
      list := tables.GetFieldList(cls);
      routeParent := false;
    } else {
      list := fields.value;
    }
    var reg := tables.reg;
    assert list == EffectiveFields(reg, cls, fields);
    assert routeParent == (parentFieldName.Some? && !NoFields(fields));
    assert SelectQueryOf(reg, cls, criteria, fields, fieldsToIgnore, inclOneToMany, parentFieldName) ==
           SelectQueryFrom(reg[cls], criteria, list, fieldsToIgnore, inclOneToMany, routeParent, parentFieldName);
    r := BuildSelectQuery(reg[cls], criteria, list, fieldsToIgnore, inclOneToMany, routeParent, parentFieldName);
  }

  // ---------------------------------------------------------------------
  // performQuery
  // ---------------------------------------------------------------------

  /** QueryTypeEnum; `OtherQueryType` is any other code. */
  datatype QueryType = INSERT | UPDATE | OtherQueryType(code: int)

  /** The calls performQuery makes on the database and on the parent class, in order. */
  datatype DbEvent =
    | BeginTransaction
    | CommitTransaction
    | RollbackTransaction
    /** `$parentClass::save($parentEntity,false,false)`. */
    | SaveParent(parentClass: string, parent: Value)
    /** `MySQL::prepareAndExecuteStatement`: the query, the type-tag string and the bound values. */
    | PreparedStatement(query: string, types: seq<char>, values: seq<Value>)
    /** `MySQL::insert` of a statement with nothing to bind. */
    | PlainInsert(query: string)
    /** `$parentEntityClass::update($parent,false,false,$fieldsForParent,true)`. */
    | UpdateParent(parentClass: string, parent: Value, fields: Option<seq<string>>)

  /** The column list, type tags and bound values built so far, and the fields left to the parent. */
  datatype Binding = Binding(columns: seq<string>, types: seq<char>, values: seq<Value>, parentFields: seq<string>)

  /** The statement performQuery sends. */
  datatype Statement = Statement(query: string, types: seq<char>, values: seq<Value>)

  /**
   * What performQuery learns from outside the code modelled here: the
   * exception the nested save of a sub-entity's parent throws (None when it
   * returns), the parent's ID after that save, whether the database accepts
   * the statement, the ID it generates, and the exception the nested parent
   * update throws.
   */
  datatype Answers = Answers(parentSave: Option<string>, savedParentId: Option<int>, executes: bool, autoId: int,
                             parentUpdate: Option<string>)

  /** What performQuery ends with: the entity (its ID set after an INSERT) or the exception, and every call it made. */
  datatype Outcome = Outcome(result: Result<EntityValue>, log: seq<DbEvent>)

  /** The argument checks made before anything is sent. */
  function CheckError(qt: QueryType, calledClass: string, e: EntityValue): (err: Option<string>)
    ensures err.None? <==> ((qt == INSERT && LooseNullId(e.id)) || (qt == UPDATE && !LooseNullId(e.id))) && e.cls == calledClass
  {
    match qt
    case INSERT =>
      if !LooseNullId(e.id) then Some(IdNotNull)
      else if e.cls != calledClass then Some(ClassMismatch)
      else None
    case UPDATE =>
      if LooseNullId(e.id) then Some(IdNull)
      else if e.cls != calledClass then Some(ClassMismatch)
      else None
    case OtherQueryType(_) => Some(QueryTypeNotSupported)
  }

  /** A column of the statement: `<column>` in an INSERT, `<column>=?` in an UPDATE. */
  function Assignment(qt: QueryType, column: string): string
  {
    if qt == UPDATE then column + "=?" else column
  }

  /** An INSERT leaves out every field whose value is loosely null. */
  predicate SkippedForInsert(qt: QueryType, e: EntityValue, f: string)
  {
    qt == INSERT && LooseNull(FieldValue(e, f))
  }

  /** A field the loop binds: not skipped, and a PROPERTY or MANY_TO_ONE field of the class. */
  predicate BoundField(meta: ClassMeta, qt: QueryType, e: EntityValue, f: string)
  {
    !SkippedForInsert(qt, e, f) && f in meta.fields && (meta.fields[f].Property? || meta.fields[f].ManyToOne?)
  }

  /**
   * A field the loop throws on: an undefined FieldType not left to the
   * parent, an unknown kind, or a MANY_TO_ONE value that is neither null
   * nor an object with an ID.
   */
  predicate RejectedForBinding(meta: ClassMeta, qt: QueryType, e: EntityValue, f: string, useFieldsOfParent: bool)
  {
    && !SkippedForInsert(qt, e, f)
    && !(useFieldsOfParent && f !in meta.fields)
    && (|| f !in meta.fields
        || meta.fields[f].UnknownKind?
        || (meta.fields[f].ManyToOne? && FieldValue(e, f) != Null &&
              (!FieldValue(e, f).Obj? || LooseNullId(FieldValue(e, f).entity.id))))
  }

  /** One iteration of the field loop of performQuery. */
  function BindStep(meta: ClassMeta, codec: Codec, qt: QueryType, e: EntityValue, b: Binding, f: string,
                    useFieldsOfParent: bool): Result<Binding>
  {
    var v := FieldValue(e, f);
    if SkippedForInsert(qt, e, f) then Ok(b)
    else if useFieldsOfParent && f !in meta.fields then Ok(b.(parentFields := b.parentFields + [f]))
    else if f !in meta.fields then Err("undefined constant " + f + "FieldType")
    else
      match meta.fields[f]
      case Property(c, t) =>
        Ok(b.(columns := b.columns + [Assignment(qt, c)], types := b.types + [codec.stmtType(t)],
              values := b.values + [Str(codec.toText(v, t))]))
      case ManyToOne(c, _) =>
        if v == Null then
          Ok(b.(columns := b.columns + [Assignment(qt, c)], types := b.types + [codec.stmtType(INT)], values := b.values + [Null]))
        else if !v.Obj? then Err(IdOnNonObject)
        else if LooseNullId(v.entity.id) then Err(IdNotSet)
        else
          Ok(b.(columns := b.columns + [Assignment(qt, c)], types := b.types + [codec.stmtType(INT)],
                values := b.values + [Num(v.entity.id.value)]))
      case OneToMany(_, _) => Ok(b)
      case ManyToMany(_, _) => Ok(b)
      case UnknownKind(_) => Err(FieldTypeNotSupported)
  }

  /** The field loop over a whole list, from the binding `start`, stopping at the first field it throws on. */
  function BindOf(meta: ClassMeta, codec: Codec, qt: QueryType, e: EntityValue, fields: seq<string>,
                  useFieldsOfParent: bool, start: Binding): Result<Binding>
  {
    if fields == [] then Ok(start)
    else
      var b :- BindOf(meta, codec, qt, e, fields[..|fields| - 1], useFieldsOfParent, start);
      BindStep(meta, codec, qt, e, b, fields[|fields| - 1], useFieldsOfParent)
  }

  /** `getID()` of the parent after its save, as a bound value. */
  function IdOf(id: Option<int>): Value
  {
    if id.Some? then Num(id.value) else Null
  }

  /** A sub-entity's INSERT starts with its ID column, bound to the saved parent's ID with tag 'i'. */
  function HeadBinding(meta: ClassMeta, qt: QueryType, savedParentId: Option<int>): Binding
  {
    if meta.parent.Some? && qt == INSERT then Binding([meta.idColumn], ['i'], [IdOf(savedParentId)], [])
    else Binding([], [], [], [])
  }

  /** The statement text before the column list. */
  function StatementPrefix(meta: ClassMeta, qt: QueryType): string
  {
    if qt == INSERT then "INSERT INTO " + meta.table + " (" else "UPDATE " + meta.table + " SET "
  }

  /** A sub-entity's INSERT saves the parent first; its parent field must hold an object. */
  function ParentSave(meta: ClassMeta, qt: QueryType, e: EntityValue): Result<seq<DbEvent>>
  {
    if meta.parent.Some? && qt == INSERT then
      var parent := FieldValue(e, meta.parent.value.parentFieldName);
      if parent.Obj? then Ok([SaveParent(meta.parent.value.parentClass, parent)])
      else Err(ParentNotObject)
    else Ok([])
  }

  /** The statement for the binding, or None for an UPDATE with nothing bound. */
  function StatementOf(meta: ClassMeta, codec: Codec, qt: QueryType, e: EntityValue, b: Binding): (s: Option<Statement>)
    ensures qt == INSERT ==> s.Some? && s.value.types == b.types && s.value.values == b.values
    ensures qt != INSERT ==> (s.None? <==> b.values == [])
    ensures s.Some? ==> |s.value.types| - |s.value.values| == |b.types| - |b.values|
  {
    if qt == INSERT then
      Some(Statement(StatementPrefix(meta, qt) + JoinWith(b.columns, ",") + ") VALUES (" + Placeholders(|b.values|) + ")",
                     b.types, b.values))
    else if b.values == [] then None
    else
      Some(Statement(StatementPrefix(meta, qt) + JoinWith(b.columns, ",") + " WHERE " + meta.table + "." + meta.idColumn + "=?",
                     b.types + [codec.stmtType(INT)], b.values + [IdValue(e)]))
  }

  /** A statement with values goes through a prepared statement, one without through `MySQL::insert`. */
  function ExecEvent(s: Statement): DbEvent
  {
    if s.values == [] then PlainInsert(s.query) else PreparedStatement(s.query, s.types, s.values)
  }

  /**
   * The parent update after an UPDATE with updateParents, unless an explicit
   * field list left nothing to the parent; a class without a parent link
   * has no parent class to call.
   */
  function ParentUpdate(meta: ClassMeta, qt: QueryType, e: EntityValue, updateParents: bool, useFieldsOfParent: bool,
                        parentFields: seq<string>): Result<seq<DbEvent>>
  {
    if qt == UPDATE && updateParents && !(useFieldsOfParent && parentFields == []) then
      if meta.parent.None? then Err(NoParentClass)
      else
        Ok([UpdateParent(meta.parent.value.parentClass, FieldValue(e, meta.parent.value.parentFieldName),
                         if useFieldsOfParent then Some(parentFields) else None)])
    else Ok([])
  }

  /**
   * The rest of performQuery once the fields are bound: the statement (none
   * for an UPDATE with nothing bound), a rollback when it fails, the
   * generated ID of a non-sub-entity's INSERT, the parent update and the
   * commit.
   */
  function Finish(meta: ClassMeta, codec: Codec, qt: QueryType, e: EntityValue, b: Binding, log: seq<DbEvent>,
                  commit: bool, updateParents: bool, useFieldsOfParent: bool, db: Answers): Outcome
  {
    var st := StatementOf(meta, codec, qt, e, b);
    var log' := log + (if st.Some? then [ExecEvent(st.value)] else []);
    if st.Some? && !db.executes then Outcome(Err(StatementFailed), log' + [RollbackTransaction])
    else
      var e' := if st.Some? && qt == INSERT && meta.parent.None? then e.(id := Some(db.autoId)) else e;
      var pu := ParentUpdate(meta, qt, e, updateParents, useFieldsOfParent, b.parentFields);
      if pu.Err? then Outcome(Err(pu.msg), log')
      else if pu.value != [] && db.parentUpdate.Some? then Outcome(Err(db.parentUpdate.value), log' + pu.value)
      else Outcome(Ok(e'), log' + pu.value + (if commit then [CommitTransaction] else []))
  }

  /**
   * performQuery once its argument checks passed: the transaction start, a
   * sub-entity's parent save, the field loop over `fields` (`explicit` when
   * the caller named them) and `Finish`.
   */
  function AfterChecks(meta: ClassMeta, codec: Codec, qt: QueryType, e: EntityValue, fields: seq<string>, explicit: bool,
                       beginTransaction: bool, commit: bool, updateParents: bool,
                       db: Answers): Outcome
  {
    var log0 := if beginTransaction then [BeginTransaction] else [];
    var ps := ParentSave(meta, qt, e);
    if ps.Err? then Outcome(Err(ps.msg), log0)
    else if ps.value != [] && db.parentSave.Some? then Outcome(Err(db.parentSave.value), log0 + ps.value)
    else
      var useFieldsOfParent := updateParents && explicit;
      AfterBinding(meta, codec, qt, e, BindOf(meta, codec, qt, e, fields, useFieldsOfParent, HeadBinding(meta, qt, db.savedParentId)),
                   log0 + ps.value, commit, updateParents, useFieldsOfParent, db)
  }

  /** What follows the field loop: the exception it threw, or `Finish` on its binding. */
  function AfterBinding(meta: ClassMeta, codec: Codec, qt: QueryType, e: EntityValue, bound: Result<Binding>, log: seq<DbEvent>,
                        commit: bool, updateParents: bool, useFieldsOfParent: bool, db: Answers): Outcome
  {
    if bound.Err? then Outcome(Err(bound.msg), log)
    else Finish(meta, codec, qt, e, bound.value, log, commit, updateParents, useFieldsOfParent, db)
  }

  /** performQuery, with the answers of the database and of the nested parent calls in `db`. */
  function PerformQueryOf(reg: Registry, codec: Codec, qt: QueryType, calledClass: string, e: EntityValue,
                          fields: Option<seq<string>>, beginTransaction: bool, commit: bool, updateParents: bool,
                          db: Answers): Outcome
    requires calledClass in reg
  {
    var err := CheckError(qt, calledClass, e);
    if err.Some? then Outcome(Err(err.value), [])
    else
      AfterChecks(reg[calledClass], codec, qt, e, EffectiveFields(reg, calledClass, fields), !NoFields(fields),
                  beginTransaction, commit, updateParents, db)
  }

  lemma {:induction false} BindCounts(meta: ClassMeta, codec: Codec, qt: QueryType, e: EntityValue, fields: seq<string>,
                                      useFieldsOfParent: bool, start: Binding)
    requires |start.columns| == |start.types| == |start.values|
    requires BindOf(meta, codec, qt, e, fields, useFieldsOfParent, start).Ok?
    ensures var b := BindOf(meta, codec, qt, e, fields, useFieldsOfParent, start).value;
      |b.columns| == |b.types| == |b.values|
  {
    if fields != [] {
      BindCounts(meta, codec, qt, e, fields[..|fields| - 1], useFieldsOfParent, start);
    }
  }

  /** Once the loop has thrown on a prefix, the whole loop throws the same. */
  lemma {:induction false} BindPrefixErr(meta: ClassMeta, codec: Codec, qt: QueryType, e: EntityValue, fields: seq<string>,
                                         k: nat, useFieldsOfParent: bool, start: Binding)
    requires k <= |fields|
    requires BindOf(meta, codec, qt, e, fields[..k], useFieldsOfParent, start).Err?
    ensures BindOf(meta, codec, qt, e, fields, useFieldsOfParent, start) == BindOf(meta, codec, qt, e, fields[..k], useFieldsOfParent, start)
    decreases |fields| - k
  {
    if k < |fields| {
      assert fields[..k + 1][..k] == fields[..k];
      BindPrefixErr(meta, codec, qt, e, fields, k + 1, useFieldsOfParent, start);
    } else {
      assert fields[..k] == fields;
    }
  }

  /** `BindOf` over one more field is one more `BindStep`. */
  lemma BindSnoc(meta: ClassMeta, codec: Codec, qt: QueryType, e: EntityValue, fields: seq<string>, i: nat,
                 useFieldsOfParent: bool, start: Binding, b: Binding)
    requires i < |fields|
    requires BindOf(meta, codec, qt, e, fields[..i], useFieldsOfParent, start) == Ok(b)
    ensures BindOf(meta, codec, qt, e, fields[..i + 1], useFieldsOfParent, start) ==
            BindStep(meta, codec, qt, e, b, fields[i], useFieldsOfParent)
  {
    assert fields[..i + 1][..i] == fields[..i];
  }

  /** The loop throws exactly when some field of the list is rejected. */
  lemma {:induction false} BindErrIff(meta: ClassMeta, codec: Codec, qt: QueryType, e: EntityValue, fields: seq<string>,
                                      useFieldsOfParent: bool, start: Binding)
    ensures BindOf(meta, codec, qt, e, fields, useFieldsOfParent, start).Err? <==>
            exists i :: 0 <= i < |fields| && RejectedForBinding(meta, qt, e, fields[i], useFieldsOfParent)
  {
    if fields != [] {
      var init := fields[..|fields| - 1];
      BindErrIff(meta, codec, qt, e, init, useFieldsOfParent, start);
      if exists i :: 0 <= i < |init| && RejectedForBinding(meta, qt, e, init[i], useFieldsOfParent) {
        var i :| 0 <= i < |init| && RejectedForBinding(meta, qt, e, init[i], useFieldsOfParent);
        assert fields[i] == init[i];
      }
      if exists i :: 0 <= i < |fields| && RejectedForBinding(meta, qt, e, fields[i], useFieldsOfParent) {
        var i :| 0 <= i < |fields| && RejectedForBinding(meta, qt, e, fields[i], useFieldsOfParent);
        if i < |init| {
          assert init[i] == fields[i];
        }
      }
    }
  }

  /**
   * What a loop that did not throw bound: beyond the start, exactly the
   * columns of the bound fields (so an INSERT has none of a loosely null
   * field), and the fields left to the parent.
   */
  lemma {:induction false} BindMembers(meta: ClassMeta, codec: Codec, qt: QueryType, e: EntityValue, fields: seq<string>,
                                       useFieldsOfParent: bool, start: Binding, x: string)
    requires BindOf(meta, codec, qt, e, fields, useFieldsOfParent, start).Ok?
    ensures var b := BindOf(meta, codec, qt, e, fields, useFieldsOfParent, start).value;
      && (x in b.columns <==>
            x in start.columns ||
            exists i :: 0 <= i < |fields| && BoundField(meta, qt, e, fields[i]) &&
              x == Assignment(qt, ColumnOf(meta.fields[fields[i]]).value))
      && (x in b.parentFields <==>
            x in start.parentFields ||
            exists i :: 0 <= i < |fields| && fields[i] == x && !SkippedForInsert(qt, e, x) && useFieldsOfParent && x !in meta.fields)
  {
    if fields != [] {
      var init := fields[..|fields| - 1];
      var f := fields[|fields| - 1];
      BindMembers(meta, codec, qt, e, init, useFieldsOfParent, start, x);
      forall i | 0 <= i < |init|
        ensures init[i] == fields[i]
      {
      }
      var b := BindOf(meta, codec, qt, e, fields, useFieldsOfParent, start).value;
      var a := BindOf(meta, codec, qt, e, init, useFieldsOfParent, start).value;
      assert b == BindStep(meta, codec, qt, e, a, f, useFieldsOfParent).value;
      var n := |fields| - 1;
      if x in b.columns && !(x in a.columns) {
        assert BoundField(meta, qt, e, fields[n]);
      }
      if x in b.parentFields && !(x in a.parentFields) {
        assert fields[n] == x;
      }
    }
  }

  /** One column appended with the `$isFirst` comma logic of performQuery, then `=?` for an UPDATE. */
  method AppendAssignment(prefix: string, query: string, isFirst: bool, columns: seq<string>, qt: QueryType, column: string)
    returns (query': string, isFirst': bool)
    requires query == prefix + JoinWith(columns, ",")
    requires isFirst <==> columns == []
    ensures query' == prefix + JoinWith(columns + [Assignment(qt, column)], ",")
    ensures !isFirst'
  {
    var a := Assignment(qt, column);
    JoinWithSnoc(columns, a, ",");
    query', isFirst' := query, isFirst;
    if !isFirst {
      query' := query' + ",";
    } else {
      isFirst' := false;
    }
    ghost var before := query';
    query' := query' + column;
    if qt == UPDATE {
      ConcatAssoc(before, column, "=?");
      query' := query' + "=?";
    }
    assert query' == before + a;
    if isFirst {
      assert before == prefix;
    } else {
      var j := JoinWith(columns, ",");
      ConcatAssoc(prefix, j, ",");
      ConcatAssoc(prefix, j + ",", a);
    }
  }

  /** One iteration of the field loop of performQuery, on the statement text and the binding so far. */
  method BindIteration(meta: ClassMeta, codec: Codec, qt: QueryType, e: EntityValue, b: Binding, prefix: string,
                       query: string, isFirst: bool, f: string, useFieldsOfParent: bool)
    returns (r: Result<(Binding, string, bool)>)
    requires query == prefix + JoinWith(b.columns, ",")
    requires isFirst <==> b.columns == []
    ensures var step := BindStep(meta, codec, qt, e, b, f, useFieldsOfParent);
      && (r.Ok? <==> step.Ok?)
      && (r.Err? ==> r.msg == step.msg)
      && (r.Ok? ==> r.value.0 == step.value && r.value.1 == prefix + JoinWith(r.value.0.columns, ",") &&
                    (r.value.2 <==> r.value.0.columns == []))
  {
    var v := FieldValue(e, f);
    if qt == INSERT && LooseNull(v) {
      return Ok((b, query, isFirst));
    }
    if useFieldsOfParent && f !in meta.fields {
      return Ok((b.(parentFields := b.parentFields + [f]), query, isFirst));
    }
    if f !in meta.fields {
      return Err("undefined constant " + f + "FieldType");
    }
    match meta.fields[f] {
      case Property(c, t) =>
        var q, first := AppendAssignment(prefix, query, isFirst, b.columns, qt, c);
        r := Ok((b.(columns := b.columns + [Assignment(qt, c)], types := b.types + [codec.stmtType(t)],
                    values := b.values + [Str(codec.toText(v, t))]), q, first));
      case ManyToOne(c, _) =>
        var q, first := AppendAssignment(prefix, query, isFirst, b.columns, qt, c);
        var types := b.types + [codec.stmtType(INT)];
        if v == Null {
          r := Ok((b.(columns := b.columns + [Assignment(qt, c)], types := types, values := b.values + [Null]), q, first));
        } else if !v.Obj? {
          r := Err(IdOnNonObject);
        } else if LooseNullId(v.entity.id) {
          r := Err(IdNotSet);
        } else {
          r := Ok((b.(columns := b.columns + [Assignment(qt, c)], types := types,
                      values := b.values + [Num(v.entity.id.value)]), q, first));
        }
      case OneToMany(_, _) =>
        r := Ok((b, query, isFirst));
      case ManyToMany(_, _) =>
        r := Ok((b, query, isFirst));
      case UnknownKind(_) =>
        r := Err(FieldTypeNotSupported);
    }
  }

  /**
   * The statement head and the field loop of performQuery: a sub-entity's
   * INSERT starts with its ID column, then every field is bound in order.
   */
  method BindLoop(meta: ClassMeta, codec: Codec, qt: QueryType, e: EntityValue, fields: seq<string>,
                  useFieldsOfParent: bool, savedParentId: Option<int>)
    returns (r: Result<(string, Binding)>)
    ensures var bo := BindOf(meta, codec, qt, e, fields, useFieldsOfParent, HeadBinding(meta, qt, savedParentId));
      && (r.Ok? <==> bo.Ok?)
      && (r.Err? ==> r.msg == bo.msg)
      && (r.Ok? ==> r.value.1 == bo.value && r.value.0 == StatementPrefix(meta, qt) + JoinWith(bo.value.columns, ","))
  {
    var prefix := StatementPrefix(meta, qt);
    var query := prefix;
    var isFirst := true;
    var b := Binding([], [], [], []);
    if meta.parent.Some? && qt == INSERT {
      isFirst := false;
      query := query + meta.idColumn;
      b := Binding([meta.idColumn], ['i'], [IdOf(savedParentId)], []);
    }
    ghost var start := b;
    assert start == HeadBinding(meta, qt, savedParentId);
    var i := 0;
    while i < |fields|
      invariant 0 <= i <= |fields|
      invariant BindOf(meta, codec, qt, e, fields[..i], useFieldsOfParent, start) == Ok(b)
      invariant query == prefix + JoinWith(b.columns, ",")
      invariant isFirst <==> b.columns == []
    {
      BindSnoc(meta, codec, qt, e, fields, i, useFieldsOfParent, start, b);
      var next := BindIteration(meta, codec, qt, e, b, prefix, query, isFirst, fields[i], useFieldsOfParent);
      if next.Err? {
        BindPrefixErr(meta, codec, qt, e, fields, i + 1, useFieldsOfParent, start);
        return Err(next.msg);
      }
      b, query, isFirst := next.value.0, next.value.1, next.value.2;
      i := i + 1;
    }
    assert fields[..i] == fields;
    r := Ok((query, b));
  }

  /** The `?` list of an INSERT: one per bound value, comma-separated. */
  method PlaceholderList(n: nat) returns (s: string)
    ensures s == Placeholders(n)
  {
    s := "";
    var isFirst := true;
    var i := 0;
    while i < n
      invariant 0 <= i <= n
      invariant s == Placeholders(i)
      invariant isFirst <==> i == 0
    {
      if !isFirst {
        s := s + ",";
      } else {
        isFirst := false;
      }
      s := s + "?";
      i := i + 1;
    }
  }

  /** The statement of performQuery sent to the database, built from the bound text. */
  method BuildStatement(meta: ClassMeta, codec: Codec, qt: QueryType, e: EntityValue, query: string, b: Binding)
    returns (st: Option<Statement>)
    requires qt == INSERT || qt == UPDATE
    requires query == StatementPrefix(meta, qt) + JoinWith(b.columns, ",")
    ensures st == StatementOf(meta, codec, qt, e, b)
  {
    if qt == INSERT {
      var marks := PlaceholderList(|b.values|);
      st := Some(Statement(query + ") VALUES (" + marks + ")", b.types, b.values));
    } else if |b.values| > 0 {
      var q := query + " WHERE " + meta.table + "." + meta.idColumn + "=?";
      st := Some(Statement(q, b.types + [codec.stmtType(INT)], b.values + [IdValue(e)]));
    } else {
      st := None;
    }
  }

  /** The statement, its execution and what follows it. */
  method FinishQuery(meta: ClassMeta, codec: Codec, qt: QueryType, e: EntityValue, query: string, b: Binding,
                     log0: seq<DbEvent>, commit: bool, updateParents: bool, useFieldsOfParent: bool, db: Answers)
    returns (r: Result<EntityValue>, log: seq<DbEvent>)
    requires qt == INSERT || qt == UPDATE
    requires query == StatementPrefix(meta, qt) + JoinWith(b.columns, ",")
    ensures Outcome(r, log) == Finish(meta, codec, qt, e, b, log0, commit, updateParents, useFieldsOfParent, db)
  {
    log := log0;
    var st := BuildStatement(meta, codec, qt, e, query, b);
    var result := e;
    if st.Some? {
      log := log + [ExecEvent(st.value)];
      if !db.executes {
        log := log + [RollbackTransaction];
        return Err(StatementFailed), log;
      }
      if qt == INSERT && meta.parent.None? {
        result := e.(id := Some(db.autoId));
      }
    }
    var pu := ParentUpdate(meta, qt, e, updateParents, useFieldsOfParent, b.parentFields);
    if pu.Err? {
      return Err(pu.msg), log;
    }
    log := log + pu.value;
    if pu.value != [] && db.parentUpdate.Some? {
      return Err(db.parentUpdate.value), log;
    }
    if commit {
      log := log + [CommitTransaction];
    }
    r := Ok(result);
  }

  /** performQuery after its checks, over the field list already chosen. */
  method RunAfterChecks(meta: ClassMeta, codec: Codec, qt: QueryType, e: EntityValue, list: seq<string>, explicit: bool,
                        beginTransaction: bool, commit: bool, updateParents: bool,
                        db: Answers)
    returns (r: Result<EntityValue>, log: seq<DbEvent>)
    requires qt == INSERT || qt == UPDATE
    ensures Outcome(r, log) ==
            AfterChecks(meta, codec, qt, e, list, explicit, beginTransaction, commit, updateParents, db)
  {
    log := [];
    if beginTransaction {
      log := log + [BeginTransaction];
    }
    if meta.parent.Some? && qt == INSERT {
      var parent := FieldValue(e, meta.parent.value.parentFieldName);
      if !parent.Obj? {
        return Err(ParentNotObject), log;
      }
      log := log + [SaveParent(meta.parent.value.parentClass, parent)];
      if db.parentSave.Some? {
        return Err(db.parentSave.value), log;
      }
    }
    assert ParentSave(meta, qt, e).Ok?;
    assert log == (if beginTransaction then [BeginTransaction] else []) + ParentSave(meta, qt, e).value;
    r, log := RunAfterBinding(meta, codec, qt, e, list, updateParents && explicit, log, commit, updateParents,
                              db);
  }

  /** The field loop and what follows it, after the log has been opened. */
  method RunAfterBinding(meta: ClassMeta, codec: Codec, qt: QueryType, e: EntityValue, list: seq<string>,
                         useFieldsOfParent: bool, log0: seq<DbEvent>,
                         commit: bool, updateParents: bool, db: Answers)
    returns (r: Result<EntityValue>, log: seq<DbEvent>)
    requires qt == INSERT || qt == UPDATE
    ensures Outcome(r, log) ==
            AfterBinding(meta, codec, qt, e, BindOf(meta, codec, qt, e, list, useFieldsOfParent, HeadBinding(meta, qt, db.savedParentId)),
                         log0, commit, updateParents, useFieldsOfParent, db)
  {
    var bound := BindLoop(meta, codec, qt, e, list, useFieldsOfParent, db.savedParentId);
    if bound.Err? {
      return Err(bound.msg), log0;
    }
    r, log := FinishQuery(meta, codec, qt, e, bound.value.0, bound.value.1, log0, commit, updateParents,
                          useFieldsOfParent, db);
  }

  /**
   * performQuery: the argument checks, the transaction start, a sub-entity's parent
   * save, the bound statement, the parent update and the commit, with every
   * call recorded in order.
   */
  method PerformQuery(reg: Registry, codec: Codec, qt: QueryType, calledClass: string, e: EntityValue,
                      fields: Option<seq<string>>, beginTransaction: bool, commit: bool, updateParents: bool,
                      db: Answers)
    returns (r: Result<EntityValue>, log: seq<DbEvent>)
    requires calledClass in reg
    ensures Outcome(r, log) ==
            PerformQueryOf(reg, codec, qt, calledClass, e, fields, beginTransaction, commit, updateParents, db)
  {
    var err := CheckError(qt, calledClass, e);
    if err.Some? {
      return Err(err.value), [];
    }
    var list: seq<string>;
    if NoFields(fields) {
      list := FieldListOf(reg, calledClass);
    } else {
      list := fields.value;
    }
    r, log := RunAfterChecks(reg[calledClass], codec, qt, e, list, !NoFields(fields), beginTransaction, commit, updateParents,
                             db);
  }

  /** The binding performQuery starts from has as many tags as values. */
  lemma HeadBindingCounts(meta: ClassMeta, qt: QueryType, savedParentId: Option<int>)
    ensures var h := HeadBinding(meta, qt, savedParentId);
      |h.columns| == |h.types| == |h.values| && h.parentFields == []
  {
  }

  /** The statement sent after a balanced binding has one tag per value, and nothing else is a statement. */
  lemma FinishTagsMatch(meta: ClassMeta, codec: Codec, qt: QueryType, e: EntityValue, b: Binding, log: seq<DbEvent>,
                        commit: bool, updateParents: bool, useFieldsOfParent: bool, db: Answers)
    requires |b.types| == |b.values|
    requires forall ev :: ev in log ==> !ev.PreparedStatement?
    ensures var o := Finish(meta, codec, qt, e, b, log, commit, updateParents, useFieldsOfParent, db);
      forall ev :: ev in o.log && ev.PreparedStatement? ==> |ev.types| == |ev.values|
  {
    var st := StatementOf(meta, codec, qt, e, b);
    var pu := ParentUpdate(meta, qt, e, updateParents, useFieldsOfParent, b.parentFields);
    assert pu.Ok? ==> forall ev :: ev in pu.value ==> !ev.PreparedStatement?;
  }

  /** After the argument checks, every prepared statement has exactly one type tag per bound value. */
  lemma AfterChecksTagsMatch(meta: ClassMeta, codec: Codec, qt: QueryType, e: EntityValue, fields: seq<string>, explicit: bool,
                             beginTransaction: bool, commit: bool, updateParents: bool,
                             db: Answers)
    ensures var o := AfterChecks(meta, codec, qt, e, fields, explicit, beginTransaction, commit, updateParents,
                                 db);
      forall ev :: ev in o.log && ev.PreparedStatement? ==> |ev.types| == |ev.values|
  {
    var log0 := if beginTransaction then [BeginTransaction] else [];
    var ps := ParentSave(meta, qt, e);
    if ps.Ok? {
      var useFieldsOfParent := updateParents && explicit;
      var start := HeadBinding(meta, qt, db.savedParentId);
      var bo := BindOf(meta, codec, qt, e, fields, useFieldsOfParent, start);
      assert forall ev :: ev in log0 + ps.value ==> !ev.PreparedStatement?;
      HeadBindingCounts(meta, qt, db.savedParentId);
      if bo.Ok? {
        BindCounts(meta, codec, qt, e, fields, useFieldsOfParent, start);
      }
      AfterBindingTagsMatch(meta, codec, qt, e, bo, log0 + ps.value, commit, updateParents, useFieldsOfParent, db);
    }
  }

  /** What follows a balanced binding sends only balanced statements. */
  lemma AfterBindingTagsMatch(meta: ClassMeta, codec: Codec, qt: QueryType, e: EntityValue, bound: Result<Binding>,
                              log: seq<DbEvent>, commit: bool, updateParents: bool, useFieldsOfParent: bool,
                              db: Answers)
    requires bound.Ok? ==> |bound.value.types| == |bound.value.values|
    requires forall ev :: ev in log ==> !ev.PreparedStatement?
    ensures var o := AfterBinding(meta, codec, qt, e, bound, log, commit, updateParents, useFieldsOfParent, db);
      forall ev :: ev in o.log && ev.PreparedStatement? ==> |ev.types| == |ev.values|
  {
    if bound.Ok? {
      FinishTagsMatch(meta, codec, qt, e, bound.value, log, commit, updateParents, useFieldsOfParent, db);
    }
  }

  /** Every prepared statement performQuery sends has exactly one type tag per bound value. */
  lemma PerformQueryTagsMatch(reg: Registry, codec: Codec, qt: QueryType, calledClass: string, e: EntityValue,
                              fields: Option<seq<string>>, beginTransaction: bool, commit: bool, updateParents: bool,
                              db: Answers)
    requires calledClass in reg
    ensures var o := PerformQueryOf(reg, codec, qt, calledClass, e, fields, beginTransaction, commit, updateParents,
                                    db);
      forall ev :: ev in o.log && ev.PreparedStatement? ==> |ev.types| == |ev.values|
  {
    if CheckError(qt, calledClass, e).None? {
      AfterChecksTagsMatch(reg[calledClass], codec, qt, e, EffectiveFields(reg, calledClass, fields), !NoFields(fields),
                           beginTransaction, commit, updateParents, db);
    }
  }

  /** What follows the binding keeps the start of the log, adds no begin, and commits or rolls back only last. */
  lemma FinishTransaction(meta: ClassMeta, codec: Codec, qt: QueryType, e: EntityValue, b: Binding, log: seq<DbEvent>,
                          commit: bool, updateParents: bool, useFieldsOfParent: bool, db: Answers)
    requires CommitTransaction !in log && RollbackTransaction !in log
    ensures var o := Finish(meta, codec, qt, e, b, log, commit, updateParents, useFieldsOfParent, db);
      && log <= o.log
      && (BeginTransaction in o.log <==> BeginTransaction in log)
      && (CommitTransaction in o.log <==> commit && o.result.Ok?)
      && (CommitTransaction in o.log ==> o.log[|o.log| - 1] == CommitTransaction)
      && (RollbackTransaction in o.log ==> o.result.Err? && o.log[|o.log| - 1] == RollbackTransaction)
  {
    var st := StatementOf(meta, codec, qt, e, b);
    var log' := log + (if st.Some? then [ExecEvent(st.value)] else []);
    var pu := ParentUpdate(meta, qt, e, updateParents, useFieldsOfParent, b.parentFields);
    assert pu.Ok? ==> BeginTransaction !in pu.value && CommitTransaction !in pu.value && RollbackTransaction !in pu.value;
    assert BeginTransaction in log' <==> BeginTransaction in log;
    assert CommitTransaction !in log' && RollbackTransaction !in log';
  }

  /**
   * The transaction discipline of a call: the transaction is begun first
   * exactly when asked, committed last exactly when asked and the call
   * succeeds, and a rollback only ever ends a failed call.
   */
  ghost predicate TransactionDiscipline(o: Outcome, begun: bool, commit: bool)
  {
    && (BeginTransaction in o.log <==> begun)
    && (begun ==> o.log[0] == BeginTransaction)
    && (CommitTransaction in o.log <==> commit && o.result.Ok?)
    && (CommitTransaction in o.log ==> o.log[|o.log| - 1] == CommitTransaction)
    && (RollbackTransaction in o.log ==> o.result.Err? && o.log[|o.log| - 1] == RollbackTransaction)
  }

  /** A log that extends an opening with the begin first keeps the discipline of `Finish`. */
  lemma DisciplineAfterOpening(log1: seq<DbEvent>, o: Outcome, begun: bool, commit: bool)
    requires BeginTransaction in log1 <==> begun
    requires begun ==> log1[0] == BeginTransaction
    requires log1 <= o.log
    requires BeginTransaction in o.log <==> BeginTransaction in log1
    requires CommitTransaction in o.log <==> commit && o.result.Ok?
    requires CommitTransaction in o.log ==> o.log[|o.log| - 1] == CommitTransaction
    requires RollbackTransaction in o.log ==> o.result.Err? && o.log[|o.log| - 1] == RollbackTransaction
    ensures TransactionDiscipline(o, begun, commit)
  {
    if begun {
      assert o.log[0] == log1[0];
    }
  }

  /** Whatever the field loop gave, what follows it keeps the discipline of a log opened with the begin. */
  lemma AfterBindingTransaction(meta: ClassMeta, codec: Codec, qt: QueryType, e: EntityValue, bound: Result<Binding>,
                                log: seq<DbEvent>, begun: bool, commit: bool, updateParents: bool, useFieldsOfParent: bool,
                                db: Answers)
    requires BeginTransaction in log <==> begun
    requires begun ==> log[0] == BeginTransaction
    requires CommitTransaction !in log && RollbackTransaction !in log
    ensures TransactionDiscipline(AfterBinding(meta, codec, qt, e, bound, log, commit, updateParents, useFieldsOfParent,
                                               db), begun, commit)
  {
    if bound.Ok? {
      FinishTransaction(meta, codec, qt, e, bound.value, log, commit, updateParents, useFieldsOfParent, db);
      DisciplineAfterOpening(log, Finish(meta, codec, qt, e, bound.value, log, commit, updateParents, useFieldsOfParent,
                                         db), begun, commit);
    }
  }

  /** The same discipline from the transaction start on. */
  lemma AfterChecksTransaction(meta: ClassMeta, codec: Codec, qt: QueryType, e: EntityValue, fields: seq<string>, explicit: bool,
                               beginTransaction: bool, commit: bool, updateParents: bool,
                               db: Answers)
    ensures TransactionDiscipline(AfterChecks(meta, codec, qt, e, fields, explicit, beginTransaction, commit, updateParents,
                                              db), beginTransaction, commit)
  {
    var ps := ParentSave(meta, qt, e);
    if ps.Ok? {
      OpeningLog(meta, qt, e, beginTransaction);
      var useFieldsOfParent := updateParents && explicit;
      AfterBindingTransaction(meta, codec, qt, e,
                              BindOf(meta, codec, qt, e, fields, useFieldsOfParent, HeadBinding(meta, qt, db.savedParentId)),
                              (if beginTransaction then [BeginTransaction] else []) + ps.value, beginTransaction, commit,
                              updateParents, useFieldsOfParent, db);
    }
  }

  /** The log up to the field loop: the begin when asked, then at most the parent save. */
  lemma OpeningLog(meta: ClassMeta, qt: QueryType, e: EntityValue, beginTransaction: bool)
    requires ParentSave(meta, qt, e).Ok?
    ensures var log1 := (if beginTransaction then [BeginTransaction] else []) + ParentSave(meta, qt, e).value;
      && (BeginTransaction in log1 <==> beginTransaction)
      && (beginTransaction ==> log1[0] == BeginTransaction)
      && CommitTransaction !in log1 && RollbackTransaction !in log1
  {
  }

  /**
   * The transaction discipline of performQuery: a rejected call sends
   * nothing; otherwise the transaction is begun first exactly when asked,
   * committed last exactly when asked and the call succeeds, and a rollback
   * only ever ends a failed call.
   */
  lemma PerformQueryTransaction(reg: Registry, codec: Codec, qt: QueryType, calledClass: string, e: EntityValue,
                                fields: Option<seq<string>>, beginTransaction: bool, commit: bool, updateParents: bool,
                                db: Answers)
    requires calledClass in reg
    ensures var o := PerformQueryOf(reg, codec, qt, calledClass, e, fields, beginTransaction, commit, updateParents,
                                    db);
      && (CheckError(qt, calledClass, e).Some? ==> o.result.Err? && o.log == [])
      && (BeginTransaction in o.log <==> beginTransaction && CheckError(qt, calledClass, e).None?)
      && (BeginTransaction in o.log ==> o.log[0] == BeginTransaction)
      && (CommitTransaction in o.log <==> commit && o.result.Ok?)
      && (CommitTransaction in o.log ==> o.log[|o.log| - 1] == CommitTransaction)
      && (RollbackTransaction in o.log ==> o.result.Err? && o.log[|o.log| - 1] == RollbackTransaction)
  {
    if CheckError(qt, calledClass, e).None? {
      AfterChecksTransaction(reg[calledClass], codec, qt, e, EffectiveFields(reg, calledClass, fields), !NoFields(fields),
                             beginTransaction, commit, updateParents, db);
    }
  }

  /**
   * A successful INSERT of a class without a parent takes the generated ID;
   * every other successful call leaves the entity as it was.
   */
  lemma PerformQueryResult(reg: Registry, codec: Codec, qt: QueryType, calledClass: string, e: EntityValue,
                           fields: Option<seq<string>>, beginTransaction: bool, commit: bool, updateParents: bool,
                           db: Answers)
    requires calledClass in reg
    ensures var o := PerformQueryOf(reg, codec, qt, calledClass, e, fields, beginTransaction, commit, updateParents,
                                    db);
      o.result.Ok? ==>
        (qt == INSERT || qt == UPDATE) &&
        o.result.value == if qt == INSERT && reg[calledClass].parent.None? then e.(id := Some(db.autoId)) else e
  {
  }

  /**
   * A sub-entity's INSERT whose nested parent save throws ends with that
   * exception: the transaction is neither committed nor rolled back, and
   * no statement of its own is sent.
   */
  lemma ParentSaveFailureStops(reg: Registry, codec: Codec, calledClass: string, e: EntityValue,
                               fields: Option<seq<string>>, beginTransaction: bool, commit: bool, updateParents: bool,
                               db: Answers)
    requires calledClass in reg && CheckError(INSERT, calledClass, e).None?
    requires reg[calledClass].parent.Some?
    requires FieldValue(e, reg[calledClass].parent.value.parentFieldName).Obj?
    requires db.parentSave.Some?
    ensures var o := PerformQueryOf(reg, codec, INSERT, calledClass, e, fields, beginTransaction, commit, updateParents, db);
      var link := reg[calledClass].parent.value;
      && o.result == Err(db.parentSave.value)
      && o.log == (if beginTransaction then [BeginTransaction] else []) + [SaveParent(link.parentClass, FieldValue(e, link.parentFieldName))]
  {
  }

  /**
   * An UPDATE whose nested parent update throws ends with that exception
   * after its own statement: nothing is committed or rolled back, and the
   * parent update is the last call.
   */
  lemma ParentUpdateFailurePropagates(meta: ClassMeta, codec: Codec, e: EntityValue, b: Binding, log: seq<DbEvent>,
                                      commit: bool, updateParents: bool, useFieldsOfParent: bool, db: Answers)
    requires updateParents && !(useFieldsOfParent && b.parentFields == []) && meta.parent.Some?
    requires db.executes && db.parentUpdate.Some?
    ensures var o := Finish(meta, codec, UPDATE, e, b, log, commit, updateParents, useFieldsOfParent, db);
      && o.result == Err(db.parentUpdate.value)
      && |o.log| > |log| && o.log[..|log|] == log && o.log[|o.log| - 1].UpdateParent?
      && CommitTransaction !in o.log[|log|..] && RollbackTransaction !in o.log[|log|..]
  {
    var st := StatementOf(meta, codec, UPDATE, e, b);
    var pu := ParentUpdate(meta, UPDATE, e, updateParents, useFieldsOfParent, b.parentFields);
    var up := UpdateParent(meta.parent.value.parentClass, FieldValue(e, meta.parent.value.parentFieldName),
                           if useFieldsOfParent then Some(b.parentFields) else None);
    assert pu == Ok([up]);
    var head := if st.Some? then [ExecEvent(st.value)] else [];
    var o := Finish(meta, codec, UPDATE, e, b, log, commit, updateParents, useFieldsOfParent, db);
    assert o == Outcome(Err(db.parentUpdate.value), log + head + [up]);
    assert o.log[|log|..] == head + [up];
  }

  /** `Finish` sends a statement exactly when `StatementOf` gives one, provided the log so far holds none. */
  lemma FinishSendsStatementIff(meta: ClassMeta, codec: Codec, qt: QueryType, e: EntityValue, b: Binding, log: seq<DbEvent>,
                                commit: bool, updateParents: bool, useFieldsOfParent: bool, db: Answers)
    requires forall ev :: ev in log ==> !ev.PreparedStatement? && !ev.PlainInsert?
    ensures var o := Finish(meta, codec, qt, e, b, log, commit, updateParents, useFieldsOfParent, db);
      (exists ev :: ev in o.log && (ev.PreparedStatement? || ev.PlainInsert?)) <==> StatementOf(meta, codec, qt, e, b).Some?
  {
    var o := Finish(meta, codec, qt, e, b, log, commit, updateParents, useFieldsOfParent, db);
    var st := StatementOf(meta, codec, qt, e, b);
    var pu := ParentUpdate(meta, qt, e, updateParents, useFieldsOfParent, b.parentFields);
    assert pu.Ok? ==> forall ev :: ev in pu.value ==> !ev.PreparedStatement? && !ev.PlainInsert?;
    if st.Some? {
      assert ExecEvent(st.value) in o.log;
    }
  }

  /**
   * An UPDATE that passed its checks and bound its fields sends a statement
   * exactly when it bound at least one value.
   */
  lemma UpdateSendsStatementIff(reg: Registry, codec: Codec, calledClass: string, e: EntityValue,
                                fields: Option<seq<string>>, beginTransaction: bool, commit: bool, updateParents: bool,
                                db: Answers)
    requires calledClass in reg
    requires CheckError(UPDATE, calledClass, e).None?
    requires BindOf(reg[calledClass], codec, UPDATE, e, EffectiveFields(reg, calledClass, fields),
                    updateParents && !NoFields(fields), HeadBinding(reg[calledClass], UPDATE, db.savedParentId)).Ok?
    ensures var b := BindOf(reg[calledClass], codec, UPDATE, e, EffectiveFields(reg, calledClass, fields),
                            updateParents && !NoFields(fields), HeadBinding(reg[calledClass], UPDATE, db.savedParentId)).value;
      var o := PerformQueryOf(reg, codec, UPDATE, calledClass, e, fields, beginTransaction, commit, updateParents,
                              db);
      (exists ev :: ev in o.log && (ev.PreparedStatement? || ev.PlainInsert?)) <==> b.values != []
  {
    var meta := reg[calledClass];
    var useFieldsOfParent := updateParents && !NoFields(fields);
    var b := BindOf(meta, codec, UPDATE, e, EffectiveFields(reg, calledClass, fields), useFieldsOfParent,
                    HeadBinding(meta, UPDATE, db.savedParentId)).value;
    var log1 := if beginTransaction then [BeginTransaction] else [];
    assert ParentSave(meta, UPDATE, e) == Ok([]);
    assert log1 + [] == log1;
    FinishSendsStatementIff(meta, codec, UPDATE, e, b, log1, commit, updateParents, useFieldsOfParent, db);
  }

  // ---------------------------------------------------------------------
  // saveList, updateList, deleteList
  // ---------------------------------------------------------------------

  /** The per-item operation of a list call, with the arguments it passes on besides the flags. */
  datatype ListOp = SaveOp | UpdateOp(fields: Option<seq<string>>, updateParents: bool) | DeleteOp

  /** What a list call does: begin, one inner call per item with its two transaction flags, commit. */
  datatype ListEvent = ListBegin | ListCommit | Inner(op: ListOp, entity: EntityValue, beginTransaction: bool, commit: bool)

  /** The index of the first item whose inner call throws, or the length when none does. */
  function FirstFailure(es: seq<EntityValue>, succeeds: EntityValue -> bool): (k: nat)
    ensures k <= |es|
    ensures forall i :: 0 <= i < k ==> succeeds(es[i])
    ensures k < |es| ==> !succeeds(es[k])
  {
    if es == [] || !succeeds(es[0]) then 0 else 1 + FirstFailure(es[1..], succeeds)
  }

  /** The inner calls, each told neither to begin nor to commit. */
  function InnerCalls(op: ListOp, es: seq<EntityValue>): seq<ListEvent>
  {
    seq(|es|, i requires 0 <= i < |es| => Inner(op, es[i], false, false))
  }

  /**
   * saveList / updateList / deleteList, with `succeeds` telling which inner
   * calls return normally: an exception ends the loop and skips the commit.
   */
  function ListCallOf(op: ListOp, es: seq<EntityValue>, beginTransaction: bool, commit: bool,
                      succeeds: EntityValue -> bool): (bool, seq<ListEvent>)
  {
    var k := FirstFailure(es, succeeds);
    var called := if k < |es| then es[..k + 1] else es;
    (k == |es|,
     (if beginTransaction then [ListBegin] else []) + InnerCalls(op, called) +
     (if k == |es| && commit then [ListCommit] else []))
  }

  /**
   * The flag discipline of the list calls: begin first exactly when asked,
   * commit last exactly when asked and every item went through, every inner
   * call receives (false, false), and a call that completes made one inner
   * call per item, in order.
   */
  lemma ListCallDiscipline(op: ListOp, es: seq<EntityValue>, beginTransaction: bool, commit: bool, succeeds: EntityValue -> bool)
    ensures var (ok, log) := ListCallOf(op, es, beginTransaction, commit, succeeds);
      && (ok <==> forall i :: 0 <= i < |es| ==> succeeds(es[i]))
      && (ListBegin in log <==> beginTransaction)
      && (beginTransaction ==> log[0] == ListBegin)
      && (ListCommit in log <==> commit && ok)
      && (ListCommit in log ==> log[|log| - 1] == ListCommit)
      && (forall ev :: ev in log && ev.Inner? ==> ev.op == op && !ev.beginTransaction && !ev.commit)
      && (ok ==> InnerCalls(op, es) <= log[if beginTransaction then 1 else 0..])
  {
    var k := FirstFailure(es, succeeds);
    var called := if k < |es| then es[..k + 1] else es;
    var calls := InnerCalls(op, called);
    var b: seq<ListEvent> := if beginTransaction then [ListBegin] else [];
    var c: seq<ListEvent> := if k == |es| && commit then [ListCommit] else [];
    var log := ListCallOf(op, es, beginTransaction, commit, succeeds).1;
    assert log == b + calls + c;
    ListCallPieces(op, called, b, c, log);
    if k == |es| {
      assert called == es;
      assert log[|b|..] == calls + c;
    }
  }

  /** The begin, inner and commit parts of a list call's log, one fact at a time. */
  lemma ListCallPieces(op: ListOp, called: seq<EntityValue>, b: seq<ListEvent>, c: seq<ListEvent>, log: seq<ListEvent>)
    requires b == [] || b == [ListBegin]
    requires c == [] || c == [ListCommit]
    requires log == b + InnerCalls(op, called) + c
    ensures ListBegin in log <==> b != []
    ensures b != [] ==> log[0] == ListBegin
    ensures ListCommit in log <==> c != []
    ensures c != [] ==> log[|log| - 1] == ListCommit
    ensures forall ev :: ev in log && ev.Inner? ==> ev.op == op && !ev.beginTransaction && !ev.commit
  {
    var calls := InnerCalls(op, called);
    assert forall ev :: ev in calls ==> ev.Inner? && ev.op == op && !ev.beginTransaction && !ev.commit;
    assert forall ev :: ev in log <==> ev in b || ev in calls || ev in c;
  }

  /** The loop of a list call: begin if asked, each item with (false, false) until one throws, commit if asked. */
  method ListCall(op: ListOp, es: seq<EntityValue>, beginTransaction: bool, commit: bool, succeeds: EntityValue -> bool)
    returns (ok: bool, log: seq<ListEvent>)
    ensures (ok, log) == ListCallOf(op, es, beginTransaction, commit, succeeds)
  {
    log := [];
    if beginTransaction {
      log := log + [ListBegin];
    }
    ghost var head := log;
    var i := 0;
    while i < |es|
      invariant 0 <= i <= |es|
      invariant forall j :: 0 <= j < i ==> succeeds(es[j])
      invariant head == if beginTransaction then [ListBegin] else []
      invariant log == head + InnerCalls(op, es[..i])
    {
      log := log + [Inner(op, es[i], false, false)];
      assert InnerCalls(op, es[..i + 1]) == InnerCalls(op, es[..i]) + [Inner(op, es[i], false, false)];
      if !succeeds(es[i]) {
        assert FirstFailure(es, succeeds) == i;
        assert log == head + InnerCalls(op, es[..i + 1]);
        assert log == log + [];
        return false, log;
      }
      i := i + 1;
    }
    assert es[..i] == es;
    assert FirstFailure(es, succeeds) == |es|;
    assert log == head + InnerCalls(op, es);
    if commit {
      log := log + [ListCommit];
    } else {
      assert log == log + [];
    }
    ok := true;
  }

  /** saveList: each item saved with (false, false). */
  method SaveList(es: seq<EntityValue>, beginTransaction: bool, commit: bool, succeeds: EntityValue -> bool)
    returns (ok: bool, log: seq<ListEvent>)
    ensures (ok, log) == ListCallOf(SaveOp, es, beginTransaction, commit, succeeds)
  {
    ok, log := ListCall(SaveOp, es, beginTransaction, commit, succeeds);
  }

  /** updateList: each item updated with (false, false) and the call's fields and updateParents. */
  method UpdateList(es: seq<EntityValue>, beginTransaction: bool, commit: bool, fields: Option<seq<string>>,
                    updateParents: bool, succeeds: EntityValue -> bool)
    returns (ok: bool, log: seq<ListEvent>)
    ensures (ok, log) == ListCallOf(UpdateOp(fields, updateParents), es, beginTransaction, commit, succeeds)
  {
    ok, log := ListCall(UpdateOp(fields, updateParents), es, beginTransaction, commit, succeeds);
  }

  /** deleteList: each item deleted with (false, false). */
  method DeleteList(es: seq<EntityValue>, beginTransaction: bool, commit: bool, succeeds: EntityValue -> bool)
    returns (ok: bool, log: seq<ListEvent>)
    ensures (ok, log) == ListCallOf(DeleteOp, es, beginTransaction, commit, succeeds)
  {
    ok, log := ListCall(DeleteOp, es, beginTransaction, commit, succeeds);
  }
}
