/**
 * The loading side of FieldEntity: createInstance and its two loaders. An
 * entity is a value; the session is an object mapping a class and an ID to
 * the entity loaded under them. The nested loads (loadByID,
 * loadByIDInternal, loadListByCriteriaInternal, all implemented by the
 * StrongEntity and SubEntity classes) are abstract functions, and every
 * call to them is recorded as an event.
 */
module Loading {
  import opened Wrappers
  import opened Strings
  import opened Metadata
  import opened FieldEntities

  // ---------------------------------------------------------------------
  // intval
  // ---------------------------------------------------------------------

  predicate IsDigit(c: char)
  {
    '0' <= c <= '9'
  }

  /** The characters PHP skips before a number in a string. */
  predicate IsSpace(c: char)
  {
    c == ' ' || c == '\t' || c == '\n' || c == '\r' || c == '\U{000B}' || c == '\U{000C}'
  }

  /** The longest prefix of decimal digits. */
  function DigitPrefix(s: string): (d: string)
    ensures d <= s
    ensures forall i :: 0 <= i < |d| ==> IsDigit(d[i])
    ensures |d| < |s| ==> !IsDigit(s[|d|])
  {
    if s == [] || !IsDigit(s[0]) then [] else [s[0]] + DigitPrefix(s[1..])
  }

  /** The number a string of decimal digits denotes. */
  function DecimalValue(d: string): nat
    requires forall i :: 0 <= i < |d| ==> IsDigit(d[i])
  {
    if d == [] then 0
    else
      var c := d[|d| - 1];
      assert IsDigit(c);
      DecimalValue(d[..|d| - 1]) * 10 + ((c as int) - ('0' as int))
  }

  function TrimLeadingSpace(s: string): string
  {
    if s != [] && IsSpace(s[0]) then TrimLeadingSpace(s[1..]) else s
  }

  /** intval of a string: leading blanks, an optional sign, then as many digits as there are. */
  function StringIntval(s: string): int
  {
    var t := TrimLeadingSpace(s);
    if t != [] && t[0] == '-' then -(DecimalValue(DigitPrefix(t[1..])) as int)
    else if t != [] && t[0] == '+' then DecimalValue(DigitPrefix(t[1..]))
    else DecimalValue(DigitPrefix(t))
  }

  /** PHP's intval of a property value. */
  function Intval(v: Value): int
  {
    match v
    case Null => 0
    case Str(s) => StringIntval(s)
    case Num(n) => n
    case Flag(b) => if b then 1 else 0
    case Opaque(_) => 0
    case Obj(_) => 1
    case Objs(items) => if items == [] then 0 else 1
  }

  lemma DigitCharValue(k: nat)
    requires k < 10
    ensures (DigitChar(k) as int) - ('0' as int) == k
  {
    if k < 5 {
      assert k == 0 || k == 1 || k == 2 || k == 3 || k == 4;
    } else {
      assert k == 5 || k == 6 || k == 7 || k == 8 || k == 9;
    }
  }

  lemma {:induction false} DecimalValueOfNatToString(n: nat)
    ensures DecimalValue(NatToString(n)) == n
  {
    var s := NatToString(n);
    if n < 10 {
      DigitCharValue(n);
      assert s[..0] == [];
    } else {
      assert s[..|s| - 1] == NatToString(n / 10);
      DecimalValueOfNatToString(n / 10);
      DigitCharValue(n % 10);
    }
  }

  lemma {:induction false} DigitPrefixOfDigits(s: string)
    requires forall i :: 0 <= i < |s| ==> IsDigit(s[i])
    ensures DigitPrefix(s) == s
  {
    if s != [] {
      DigitPrefixOfDigits(s[1..]);
    }
  }

  /** intval reads back every int from its decimal string. */
  lemma IntvalOfIntToString(n: int)
    ensures Intval(Str(IntToString(n))) == n
  {
    var s := IntToString(n);
    var d := if n < 0 then -n else n;
    assert TrimLeadingSpace(s) == s;
    DigitPrefixOfDigits(NatToString(d));
    DecimalValueOfNatToString(d);
    if n < 0 {
      assert s[1..] == NatToString(d);
    } else {
      assert s[0] != '-' && s[0] != '+';
    }
  }

  // ---------------------------------------------------------------------
  // The session and the nested loads
  // ---------------------------------------------------------------------

  /**
   * The session of one load: the entities loaded so far by class and ID,
   * and the one-to-many lists it can answer by child class, identifier
   * field and parent ID.
   */
  class Session {
    var entities: map<(string, Value), EntityValue>
    var lists: map<(string, string, Value), seq<EntityValue>>

    /** `new Session()`: nothing loaded yet. */
    constructor ()
      ensures entities == map[] && lists == map[]
    {
      entities, lists := map[], map[];
    }
  }

  /**
   * The loads createInstance delegates to the concrete entity classes: a
   * many-to-one target by ID in the same session, a sub-entity's parent by
   * ID with its field list, and a one-to-many list by its identifier field.
   * A lookup that finds nothing gives None.
   */
  datatype Loaders = Loaders(
    byId: (string, Value) -> Option<EntityValue>,
    parent: (string, int, Option<seq<string>>) -> Option<EntityValue>,
    list: (string, string, Value) -> seq<EntityValue>)

  /** A call createInstance makes, in order. */
  datatype LoadEvent =
    | SessionAdd(cls: string, id: Value)
    | LoadById(cls: string, id: Value)
    | LoadParent(cls: string, parentId: int, fields: Option<seq<string>>)
    | LoadList(cls: string, identifier: string, id: Value)

  /** The entity as loaded so far and the calls made for it. */
  datatype Loaded = Loaded(entity: EntityValue, events: seq<LoadEvent>)

  /** `$entity->$field=$value`. */
  function SetField(e: EntityValue, f: string, v: Value): EntityValue
  {
    e.(fields := e.fields[f := v])
  }

  /** A loaded object, or null when the load found nothing. */
  function Found(o: Option<EntityValue>): Value
  {
    if o.Some? then Obj(o.value) else Null
  }

  /** No field is named twice in a list of (field, class) pairs. */
  predicate DistinctFields(toLoad: seq<(string, string)>)
  {
    forall i, j :: 0 <= i < j < |toLoad| ==> toLoad[i].0 != toLoad[j].0
  }

  /** No field is named twice in a list of one-to-many lists. */
  predicate DistinctLists(toLoad: seq<OneToManyList>)
  {
    forall i, j :: 0 <= i < j < |toLoad| ==> toLoad[i].field != toLoad[j].field
  }

  // ---------------------------------------------------------------------
  // loadManyToOneFields
  // ---------------------------------------------------------------------

  /** One pass of the loop: skip a null key, take a session hit, otherwise load. */
  function ManyToOneStep(session: map<(string, Value), EntityValue>, ld: Loaders, acc: Loaded, m: (string, string)): Loaded
  {
    var fk := FieldValue(acc.entity, m.0);
    if LooseNull(fk) then acc
    else if (m.1, fk) in session then Loaded(SetField(acc.entity, m.0, Obj(session[(m.1, fk)])), acc.events)
    else Loaded(SetField(acc.entity, m.0, Found(ld.byId(m.1, fk))), acc.events + [LoadById(m.1, fk)])
  }

  /** loadManyToOneFields over the (field, class) pairs, as a function of the session it reads. */
  function ManyToOneOf(session: map<(string, Value), EntityValue>, ld: Loaders, e: EntityValue,
                       toLoad: seq<(string, string)>): Loaded
    decreases |toLoad|
  {
    if toLoad == [] then Loaded(e, [])
    else ManyToOneStep(session, ld, ManyToOneOf(session, ld, e, toLoad[..|toLoad| - 1]), toLoad[|toLoad| - 1])
  }

  /** What a many-to-one field holds after the loop, from its foreign key alone. */
  function ManyToOneValue(session: map<(string, Value), EntityValue>, ld: Loaders, cls: string, fk: Value): Value
  {
    if LooseNull(fk) then fk
    else if (cls, fk) in session then Obj(session[(cls, fk)])
    else Found(ld.byId(cls, fk))
  }

  /** The loads the loop has to make: one per non-null foreign key the session does not hold, in order. */
  function MissEvents(session: map<(string, Value), EntityValue>, e: EntityValue, toLoad: seq<(string, string)>): seq<LoadEvent>
    decreases |toLoad|
  {
    if toLoad == [] then []
    else
      var m := toLoad[|toLoad| - 1];
      var fk := FieldValue(e, m.0);
      MissEvents(session, e, toLoad[..|toLoad| - 1]) +
      (if !LooseNull(fk) && (m.1, fk) !in session then [LoadById(m.1, fk)] else [])
  }

  /** loadManyToOneFields keeps the entity's class, kind and ID, and loads exactly the session misses, in order. */
  lemma {:induction false} ManyToOneEvents(session: map<(string, Value), EntityValue>, ld: Loaders, e: EntityValue,
                                             toLoad: seq<(string, string)>)
    requires DistinctFields(toLoad)
    ensures var r := ManyToOneOf(session, ld, e, toLoad);
      && r.entity.cls == e.cls && r.entity.isSub == e.isSub && r.entity.id == e.id
      && r.events == MissEvents(session, e, toLoad)
  {
    if toLoad != [] {
      var pre := toLoad[..|toLoad| - 1];
      var m := toLoad[|toLoad| - 1];
      assert DistinctFields(pre);
      ManyToOneEvents(session, ld, e, pre);
      ManyToOneOthers(session, ld, e, pre, m.0);
    }
  }

  /**
   * loadManyToOneFields, field by field: a null foreign key stays as it is,
   * a key the session holds takes the session's entity, and any other key
   * is loaded.
   */
  lemma {:induction false} ManyToOneFieldValues(session: map<(string, Value), EntityValue>, ld: Loaders, e: EntityValue,
                                                  toLoad: seq<(string, string)>, k: nat)
    requires DistinctFields(toLoad) && k < |toLoad|
    ensures FieldValue(ManyToOneOf(session, ld, e, toLoad).entity, toLoad[k].0) ==
            ManyToOneValue(session, ld, toLoad[k].1, FieldValue(e, toLoad[k].0))
  {
    var pre := toLoad[..|toLoad| - 1];
    var m := toLoad[|toLoad| - 1];
    assert DistinctFields(pre);
    var acc := ManyToOneOf(session, ld, e, pre);
    if k < |pre| {
      assert toLoad[k] == pre[k];
      assert toLoad[k].0 != m.0;
      ManyToOneFieldValues(session, ld, e, pre, k);
    } else {
      ManyToOneOthers(session, ld, e, pre, m.0);
    }
  }

  /** No field outside the list changes. */
  lemma {:induction false} ManyToOneOthers(session: map<(string, Value), EntityValue>, ld: Loaders, e: EntityValue,
                                             toLoad: seq<(string, string)>, f: string)
    requires forall k :: 0 <= k < |toLoad| ==> toLoad[k].0 != f
    ensures FieldValue(ManyToOneOf(session, ld, e, toLoad).entity, f) == FieldValue(e, f)
  {
    if toLoad != [] {
      var pre := toLoad[..|toLoad| - 1];
      assert forall k :: 0 <= k < |pre| ==> pre[k] == toLoad[k];
      ManyToOneOthers(session, ld, e, pre, f);
    }
  }

  /** A field whose foreign key is null is left as it is, whatever the list holds. */
  lemma {:induction false} ManyToOneKeepsNullKey(session: map<(string, Value), EntityValue>, ld: Loaders, e: EntityValue,
                                                   toLoad: seq<(string, string)>, f: string)
    requires LooseNull(FieldValue(e, f))
    ensures FieldValue(ManyToOneOf(session, ld, e, toLoad).entity, f) == FieldValue(e, f)
  {
    if toLoad != [] {
      ManyToOneKeepsNullKey(session, ld, e, toLoad[..|toLoad| - 1], f);
    }
  }

  /** Every load is of a non-null key the session does not hold. */
  lemma {:induction false} ManyToOneLoadsOnlyMisses(session: map<(string, Value), EntityValue>, ld: Loaders, e: EntityValue,
                                                      toLoad: seq<(string, string)>)
    ensures forall ev :: ev in ManyToOneOf(session, ld, e, toLoad).events ==>
      ev.LoadById? && !LooseNull(ev.id) && (ev.cls, ev.id) !in session
  {
    if toLoad != [] {
      ManyToOneLoadsOnlyMisses(session, ld, e, toLoad[..|toLoad| - 1]);
    }
  }

  /** loadManyToOneFields: the foreach loop over the fields to load. */
  method LoadManyToOneFields(session: Session, ld: Loaders, e: EntityValue, toLoad: seq<(string, string)>) returns (l: Loaded)
    ensures l == ManyToOneOf(session.entities, ld, e, toLoad)
  {
    l := Loaded(e, []);
    var i := 0;
    while i < |toLoad|
      invariant 0 <= i <= |toLoad|
      invariant l == ManyToOneOf(session.entities, ld, e, toLoad[..i])
    {
      var field := toLoad[i].0;
      var cls := toLoad[i].1;
      var fk := FieldValue(l.entity, field);
      assert toLoad[..i + 1][..i] == toLoad[..i];
      if !LooseNull(fk) {
        var hit := (cls, fk) in session.entities;
        if hit {
          l := Loaded(SetField(l.entity, field, Obj(session.entities[(cls, fk)])), l.events);
        } else {
          l := Loaded(SetField(l.entity, field, Found(ld.byId(cls, fk))), l.events + [LoadById(cls, fk)]);
        }
      }
      i := i + 1;
    }
    assert toLoad[..i] == toLoad;
  }

  // ---------------------------------------------------------------------
  // loadOneToManyLists
  // ---------------------------------------------------------------------

  /** The loaded children, each with its identifier field set to the parent. */
  function BackLinked(items: seq<EntityValue>, identifier: string, parent: EntityValue): seq<EntityValue>
  {
    seq(|items|, i requires 0 <= i < |items| => SetField(items[i], identifier, Obj(parent)))
  }

  /** One pass of the loop: a list the session holds, otherwise the loaded list linked back. */
  function OneToManyStep(lists: map<(string, string, Value), seq<EntityValue>>, ld: Loaders, id: Value,
                         acc: Loaded, l: OneToManyList): Loaded
  {
    var key := (l.cls, l.identifier, id);
    if key in lists then Loaded(SetField(acc.entity, l.field, Objs(lists[key])), acc.events)
    else
      Loaded(SetField(acc.entity, l.field, Objs(BackLinked(ld.list(l.cls, l.identifier, id), l.identifier, acc.entity))),
             acc.events + [LoadList(l.cls, l.identifier, id)])
  }

  /** loadOneToManyLists over the lists, for the parent ID `id`. */
  function OneToManyOf(lists: map<(string, string, Value), seq<EntityValue>>, ld: Loaders, id: Value, e: EntityValue,
                       toLoad: seq<OneToManyList>): Loaded
    decreases |toLoad|
  {
    if toLoad == [] then Loaded(e, [])
    else OneToManyStep(lists, ld, id, OneToManyOf(lists, ld, id, e, toLoad[..|toLoad| - 1]), toLoad[|toLoad| - 1])
  }

  /** The list loop only ever loads lists, never a single entity, and keeps the entity's class and ID. */
  lemma {:induction false} OneToManyShape(lists: map<(string, string, Value), seq<EntityValue>>, ld: Loaders, id: Value,
                                            e: EntityValue, toLoad: seq<OneToManyList>)
    ensures var r := OneToManyOf(lists, ld, id, e, toLoad);
      && r.entity.cls == e.cls && r.entity.isSub == e.isSub && r.entity.id == e.id
      && (forall ev :: ev in r.events ==> ev.LoadList? && ev.id == id && (ev.cls, ev.identifier, id) !in lists)
  {
    if toLoad != [] {
      OneToManyShape(lists, ld, id, e, toLoad[..|toLoad| - 1]);
    }
  }

  /** A loaded list has every child's identifier field pointing to the parent and is otherwise as loaded. */
  ghost predicate LinkedBack(list: seq<EntityValue>, loaded: seq<EntityValue>, identifier: string, parent: EntityValue)
  {
    && |list| == |loaded|
    && forall i :: 0 <= i < |list| ==>
         && list[i].cls == loaded[i].cls && list[i].isSub == loaded[i].isSub && list[i].id == loaded[i].id
         && FieldValue(list[i], identifier) == Obj(parent)
         && (forall f :: f != identifier ==> FieldValue(list[i], f) == FieldValue(loaded[i], f))
  }

  lemma BackLinkedLinks(items: seq<EntityValue>, identifier: string, parent: EntityValue)
    ensures LinkedBack(BackLinked(items, identifier, parent), items, identifier, parent)
  {
  }

  /** loadOneToManyLists, list by list: a list the session holds is taken as it is. */
  lemma {:induction false} OneToManyCached(lists: map<(string, string, Value), seq<EntityValue>>, ld: Loaders, id: Value,
                                             e: EntityValue, toLoad: seq<OneToManyList>, k: nat)
    requires DistinctLists(toLoad) && k < |toLoad|
    requires (toLoad[k].cls, toLoad[k].identifier, id) in lists
    ensures FieldValue(OneToManyOf(lists, ld, id, e, toLoad).entity, toLoad[k].field) ==
            Objs(lists[(toLoad[k].cls, toLoad[k].identifier, id)])
  {
    var pre := toLoad[..|toLoad| - 1];
    if k < |pre| {
      assert DistinctLists(pre);
      assert toLoad[k] == pre[k] && pre[k].field != toLoad[|toLoad| - 1].field;
      OneToManyCached(lists, ld, id, e, pre, k);
    }
  }

  /**
   * Any other list is the loaded list with every child pointing back to the
   * entity (its class and ID; the other lists as set so far).
   */
  lemma {:induction false} OneToManyLinked(lists: map<(string, string, Value), seq<EntityValue>>, ld: Loaders, id: Value,
                                             e: EntityValue, toLoad: seq<OneToManyList>, k: nat)
    requires DistinctLists(toLoad) && k < |toLoad|
    requires (toLoad[k].cls, toLoad[k].identifier, id) !in lists
    ensures var v := FieldValue(OneToManyOf(lists, ld, id, e, toLoad).entity, toLoad[k].field);
      v.Objs? && exists p: EntityValue :: p.cls == e.cls && p.id == e.id &&
                   LinkedBack(v.items, ld.list(toLoad[k].cls, toLoad[k].identifier, id), toLoad[k].identifier, p)
  {
    var pre := toLoad[..|toLoad| - 1];
    var l := toLoad[|toLoad| - 1];
    if k == |toLoad| - 1 {
      OneToManyShape(lists, ld, id, e, pre);
      var acc := OneToManyOf(lists, ld, id, e, pre);
      BackLinkedLinks(ld.list(l.cls, l.identifier, id), l.identifier, acc.entity);
    } else {
      assert DistinctLists(pre);
      assert toLoad[k] == pre[k] && pre[k].field != l.field;
      OneToManyLinked(lists, ld, id, e, pre, k);
    }
  }

  /** A list the session does not hold is loaded, and a list it holds is not. */
  lemma {:induction false} OneToManyLoadsIff(lists: map<(string, string, Value), seq<EntityValue>>, ld: Loaders, id: Value,
                                               e: EntityValue, toLoad: seq<OneToManyList>, k: nat)
    requires k < |toLoad|
    ensures var key := (toLoad[k].cls, toLoad[k].identifier, id);
      LoadList(key.0, key.1, id) in OneToManyOf(lists, ld, id, e, toLoad).events <==> key !in lists
  {
    var key := (toLoad[k].cls, toLoad[k].identifier, id);
    OneToManyShape(lists, ld, id, e, toLoad);
    if key !in lists {
      var pre := toLoad[..|toLoad| - 1];
      if k < |pre| {
        assert toLoad[k] == pre[k];
        OneToManyLoadsIff(lists, ld, id, e, pre, k);
      }
    }
  }

  /** A field no list names keeps its value. */
  lemma {:induction false} OneToManyOthers(lists: map<(string, string, Value), seq<EntityValue>>, ld: Loaders, id: Value,
                                             e: EntityValue, toLoad: seq<OneToManyList>, f: string)
    requires forall k :: 0 <= k < |toLoad| ==> toLoad[k].field != f
    ensures FieldValue(OneToManyOf(lists, ld, id, e, toLoad).entity, f) == FieldValue(e, f)
  {
    if toLoad != [] {
      var pre := toLoad[..|toLoad| - 1];
      assert forall k :: 0 <= k < |pre| ==> pre[k] == toLoad[k];
      assert toLoad[|toLoad| - 1].field != f;
      OneToManyOthers(lists, ld, id, e, pre, f);
    }
  }

  /** The inner foreach of loadOneToManyLists: every loaded child gets the parent in its identifier field. */
  method LinkBack(items: seq<EntityValue>, identifier: string, parent: EntityValue) returns (out: seq<EntityValue>)
    ensures out == BackLinked(items, identifier, parent)
    ensures LinkedBack(out, items, identifier, parent)
  {
    out := [];
    for i := 0 to |items|
      invariant out == BackLinked(items[..i], identifier, parent)
    {
      out := out + [SetField(items[i], identifier, Obj(parent))];
    }
    assert items[..|items|] == items;
    BackLinkedLinks(items, identifier, parent);
  }

  /** loadOneToManyLists: the foreach loop over the lists, for the entity's own ID. */
  method LoadOneToManyLists(session: Session, ld: Loaders, e: EntityValue, toLoad: seq<OneToManyList>) returns (l: Loaded)
    ensures l == OneToManyOf(session.lists, ld, IdValue(e), e, toLoad)
  {
    var id := IdValue(e);
    l := Loaded(e, []);
    var i := 0;
    while i < |toLoad|
      invariant 0 <= i <= |toLoad|
      invariant l == OneToManyOf(session.lists, ld, id, e, toLoad[..i])
    {
      var entry := toLoad[i];
      var key := (entry.cls, entry.identifier, id);
      assert toLoad[..i + 1][..i] == toLoad[..i];
      if key in session.lists {
        l := Loaded(SetField(l.entity, entry.field, Objs(session.lists[key])), l.events);
      } else {
        var list := LinkBack(ld.list(entry.cls, entry.identifier, id), entry.identifier, l.entity);
        l := Loaded(SetField(l.entity, entry.field, Objs(list)), l.events + [LoadList(entry.cls, entry.identifier, id)]);
      }
      i := i + 1;
    }
    assert toLoad[..i] == toLoad;
  }

  // ---------------------------------------------------------------------
  // createInstance
  // ---------------------------------------------------------------------

  /** The ID createInstance files the entity under: the parent field's intval for a sub-entity, else its ID. */
  function InstanceId(e: EntityValue, isSub: bool, parentFieldName: string): Value
  {
    if isSub then Num(Intval(FieldValue(e, parentFieldName))) else IdValue(e)
  }

  /** The loaded entity, every call made for it and the session's entities afterwards. */
  datatype Instance = Instance(entity: EntityValue, events: seq<LoadEvent>, entities: map<(string, Value), EntityValue>)

  /** The first phase of createInstance: the session entry, when asked for. */
  function SessionPhase(entities: map<(string, Value), EntityValue>, cls: string, id: Value, e: EntityValue,
                        addToSession: bool): (map<(string, Value), EntityValue>, seq<LoadEvent>)
  {
    if addToSession then (entities[(cls, id) := e], [SessionAdd(cls, id)]) else (entities, [])
  }

  /** The second phase: the many-to-one fields, when there are any. */
  function ManyToOnePhase(session: map<(string, Value), EntityValue>, ld: Loaders, e: EntityValue,
                          manyToOne: seq<(string, string)>): Loaded
  {
    if manyToOne != [] then ManyToOneOf(session, ld, e, manyToOne) else Loaded(e, [])
  }

  /** The third phase: a sub-entity's parent, loaded with `loadByID` under the parent field's intval. */
  function ParentPhase(ld: Loaders, e: EntityValue, isSub: bool, parentClass: string, parentFieldName: string,
                       parentId: int, fieldsOfParent: Option<seq<string>>): Loaded
  {
    if isSub then
      Loaded(SetField(e, parentFieldName, Found(ld.parent(parentClass, parentId, fieldsOfParent))),
             [LoadParent(parentClass, parentId, fieldsOfParent)])
    else Loaded(e, [])
  }

  /** The last phase: the one-to-many lists, when there are any. */
  function OneToManyPhase(lists: map<(string, string, Value), seq<EntityValue>>, ld: Loaders, e: EntityValue,
                          oneToMany: seq<OneToManyList>): Loaded
  {
    if oneToMany != [] then OneToManyOf(lists, ld, IdValue(e), e, oneToMany) else Loaded(e, [])
  }

  /**
   * createInstance once setFieldValues has filled `e`: the session entry,
   * then the many-to-one fields, then a sub-entity's parent, then the
   * one-to-many lists.
   */
  function CreateInstanceOf(entities: map<(string, Value), EntityValue>, lists: map<(string, string, Value), seq<EntityValue>>,
                            ld: Loaders, cls: string, e: EntityValue, manyToOne: seq<(string, string)>,
                            oneToMany: seq<OneToManyList>, addToSession: bool, isSub: bool, parentClass: string,
                            parentFieldName: string, fieldsOfParent: Option<seq<string>>): Instance
  {
    var s := SessionPhase(entities, cls, InstanceId(e, isSub, parentFieldName), e, addToSession);
    var m := ManyToOnePhase(s.0, ld, e, manyToOne);
    var p := ParentPhase(ld, m.entity, isSub, parentClass, parentFieldName, Intval(FieldValue(e, parentFieldName)), fieldsOfParent);
    var o := OneToManyPhase(lists, ld, p.entity, oneToMany);
    Instance(o.entity, s.1 + m.events + p.events + o.events, s.0)
  }

  /** The phase of createInstance a call belongs to. */
  function Phase(ev: LoadEvent): nat
  {
    match ev
    case SessionAdd(_, _) => 0
    case LoadById(_, _) => 1
    case LoadParent(_, _, _) => 2
    case LoadList(_, _, _) => 3
  }

  predicate AllInPhase(evs: seq<LoadEvent>, n: nat)
  {
    forall i :: 0 <= i < |evs| ==> Phase(evs[i]) == n
  }

  predicate PhaseOrdered(evs: seq<LoadEvent>)
  {
    forall i, j :: 0 <= i < j < |evs| ==> Phase(evs[i]) <= Phase(evs[j])
  }

  lemma ConcatPhases(a: seq<LoadEvent>, b: seq<LoadEvent>, c: seq<LoadEvent>, d: seq<LoadEvent>)
    requires AllInPhase(a, 0) && AllInPhase(b, 1) && AllInPhase(c, 2) && AllInPhase(d, 3)
    ensures PhaseOrdered(a + b + c + d)
    ensures forall i :: 0 <= i < |a + b + c + d| && Phase((a + b + c + d)[i]) == 0 ==> i < |a|
    ensures forall i :: 0 <= i < |a + b + c + d| && Phase((a + b + c + d)[i]) == 1 ==> (a + b + c + d)[i] in b
    ensures forall i :: 0 <= i < |a + b + c + d| && Phase((a + b + c + d)[i]) == 2 ==> (a + b + c + d)[i] in c
  {
    var evs := a + b + c + d;
    assert forall i :: 0 <= i < |a| ==> evs[i] == a[i];
    assert forall i :: |a| <= i < |a| + |b| ==> evs[i] == b[i - |a|];
    assert forall i :: |a| + |b| <= i < |a| + |b| + |c| ==> evs[i] == c[i - |a| - |b|];
    assert forall i :: |a| + |b| + |c| <= i < |evs| ==> evs[i] == d[i - |a| - |b| - |c|];
  }

  /** Each phase makes only the calls of its kind. */
  lemma PhasesAreHomogeneous(entities: map<(string, Value), EntityValue>, lists: map<(string, string, Value), seq<EntityValue>>,
                             ld: Loaders, cls: string, id: Value, e: EntityValue, manyToOne: seq<(string, string)>,
                             oneToMany: seq<OneToManyList>, addToSession: bool, isSub: bool, parentClass: string,
                             parentFieldName: string, parentId: int, fieldsOfParent: Option<seq<string>>)
    ensures AllInPhase(SessionPhase(entities, cls, id, e, addToSession).1, 0)
    ensures AllInPhase(ManyToOnePhase(entities, ld, e, manyToOne).events, 1)
    ensures AllInPhase(ParentPhase(ld, e, isSub, parentClass, parentFieldName, parentId, fieldsOfParent).events, 2)
    ensures AllInPhase(OneToManyPhase(lists, ld, e, oneToMany).events, 3)
  {
    ManyToOneLoadsOnlyMisses(entities, ld, e, manyToOne);
    OneToManyShape(lists, ld, IdValue(e), e, oneToMany);
  }

  /**
   * The order of createInstance: the session entry comes first and only
   * when asked for, then every many-to-one load, then the parent (loaded
   * exactly for a sub-entity), then every list load.
   */
  lemma CreateInstanceOrder(entities: map<(string, Value), EntityValue>, lists: map<(string, string, Value), seq<EntityValue>>,
                            ld: Loaders, cls: string, e: EntityValue, manyToOne: seq<(string, string)>,
                            oneToMany: seq<OneToManyList>, addToSession: bool, isSub: bool, parentClass: string,
                            parentFieldName: string, fieldsOfParent: Option<seq<string>>)
    ensures var r := CreateInstanceOf(entities, lists, ld, cls, e, manyToOne, oneToMany, addToSession, isSub, parentClass,
                                      parentFieldName, fieldsOfParent);
      && PhaseOrdered(r.events)
      && (forall i :: 0 <= i < |r.events| && r.events[i].SessionAdd? ==> i == 0)
      && (addToSession <==> |r.events| > 0 && r.events[0] == SessionAdd(cls, InstanceId(e, isSub, parentFieldName)))
      && (isSub <==> exists i :: 0 <= i < |r.events| && r.events[i].LoadParent?)
      && r.entities == if addToSession then entities[(cls, InstanceId(e, isSub, parentFieldName)) := e] else entities
  {
    var id := InstanceId(e, isSub, parentFieldName);
    var pid := Intval(FieldValue(e, parentFieldName));
    var s := SessionPhase(entities, cls, id, e, addToSession);
    var m := ManyToOnePhase(s.0, ld, e, manyToOne);
    var p := ParentPhase(ld, m.entity, isSub, parentClass, parentFieldName, pid, fieldsOfParent);
    var o := OneToManyPhase(lists, ld, p.entity, oneToMany);
    PhasesAreHomogeneous(entities, lists, ld, cls, id, e, manyToOne, oneToMany, addToSession, isSub, parentClass,
                         parentFieldName, pid, fieldsOfParent);
    PhasesAreHomogeneous(s.0, lists, ld, cls, id, m.entity, manyToOne, oneToMany, addToSession, isSub, parentClass,
                         parentFieldName, pid, fieldsOfParent);
    PhasesAreHomogeneous(s.0, lists, ld, cls, id, p.entity, manyToOne, oneToMany, addToSession, isSub, parentClass,
                         parentFieldName, pid, fieldsOfParent);
    PhasesAreHomogeneous(s.0, lists, ld, cls, id, e, manyToOne, oneToMany, addToSession, isSub, parentClass,
                         parentFieldName, pid, fieldsOfParent);
    ConcatPhases(s.1, m.events, p.events, o.events);
    var evs := s.1 + m.events + p.events + o.events;
    assert CreateInstanceOf(entities, lists, ld, cls, e, manyToOne, oneToMany, addToSession, isSub, parentClass,
                            parentFieldName, fieldsOfParent) == Instance(o.entity, evs, s.0);
    if isSub {
      assert evs[|s.1| + |m.events|] == p.events[0];
    }
  }

  /**
   * The loaders decide `addToSession` with shouldAddToSession: an entity
   * goes into the session, and is the first call createInstance makes,
   * exactly when it is loaded without a field list, without an ignore list
   * and with its one-to-many lists; otherwise the session is left alone.
   */
  lemma SessionOnlyForFullLoads(entities: map<(string, Value), EntityValue>, lists: map<(string, string, Value), seq<EntityValue>>,
                                ld: Loaders, cls: string, e: EntityValue, manyToOne: seq<(string, string)>,
                                oneToMany: seq<OneToManyList>, fields: Option<seq<string>>,
                                fieldsToIgnore: Option<seq<string>>, inclOneToMany: bool, isSub: bool, parentClass: string,
                                parentFieldName: string, fieldsOfParent: Option<seq<string>>)
    ensures var r := CreateInstanceOf(entities, lists, ld, cls, e, manyToOne, oneToMany,
                                      ShouldAddToSession(fields, fieldsToIgnore, inclOneToMany), isSub, parentClass,
                                      parentFieldName, fieldsOfParent);
      var key := (cls, InstanceId(e, isSub, parentFieldName));
      && ((fields.None? && fieldsToIgnore.None? && inclOneToMany) <==>
            |r.events| > 0 && r.events[0] == SessionAdd(key.0, key.1))
      && (fields.None? && fieldsToIgnore.None? && inclOneToMany ==> r.entities == entities[key := e])
      && (fields.Some? || fieldsToIgnore.Some? || !inclOneToMany ==>
            r.entities == entities)
  {
    CreateInstanceOrder(entities, lists, ld, cls, e, manyToOne, oneToMany,
                        ShouldAddToSession(fields, fieldsToIgnore, inclOneToMany), isSub, parentClass,
                        parentFieldName, fieldsOfParent);
  }

  /**
   * Why the session entry comes first: a many-to-one field pointing to the
   * entity itself is resolved from the session, without a load.
   */
  lemma SelfReferenceNotLoaded(entities: map<(string, Value), EntityValue>, lists: map<(string, string, Value), seq<EntityValue>>,
                               ld: Loaders, cls: string, e: EntityValue, manyToOne: seq<(string, string)>,
                               oneToMany: seq<OneToManyList>, isSub: bool, parentClass: string,
                               parentFieldName: string, fieldsOfParent: Option<seq<string>>, k: nat)
    requires k < |manyToOne| && manyToOne[k].1 == cls
    requires FieldValue(e, manyToOne[k].0) == InstanceId(e, isSub, parentFieldName)
    ensures var r := CreateInstanceOf(entities, lists, ld, cls, e, manyToOne, oneToMany, true, isSub, parentClass,
                                      parentFieldName, fieldsOfParent);
      LoadById(cls, InstanceId(e, isSub, parentFieldName)) !in r.events
  {
    var id := InstanceId(e, isSub, parentFieldName);
    var pid := Intval(FieldValue(e, parentFieldName));
    var s := SessionPhase(entities, cls, id, e, true);
    var m := ManyToOnePhase(s.0, ld, e, manyToOne);
    var p := ParentPhase(ld, m.entity, isSub, parentClass, parentFieldName, pid, fieldsOfParent);
    var o := OneToManyPhase(lists, ld, p.entity, oneToMany);
    ManyToOneLoadsOnlyMisses(s.0, ld, e, manyToOne);
    PhasesAreHomogeneous(entities, lists, ld, cls, id, e, manyToOne, oneToMany, true, isSub, parentClass,
                         parentFieldName, pid, fieldsOfParent);
    PhasesAreHomogeneous(s.0, lists, ld, cls, id, p.entity, manyToOne, oneToMany, true, isSub, parentClass,
                         parentFieldName, pid, fieldsOfParent);
    PhasesAreHomogeneous(s.0, lists, ld, cls, id, m.entity, manyToOne, oneToMany, true, isSub, parentClass,
                         parentFieldName, pid, fieldsOfParent);
    ConcatPhases(s.1, m.events, p.events, o.events);
    var evs := s.1 + m.events + p.events + o.events;
    assert (cls, id) in s.0;
    assert LoadById(cls, id) !in m.events;
  }

  /**
   * createInstance on a session: the entity is filed under its class and ID
   * when asked, and the loaders run on it in order.
   */
  method CreateInstance(session: Session, ld: Loaders, cls: string, e: EntityValue, manyToOne: seq<(string, string)>,
                        oneToMany: seq<OneToManyList>, addToSession: bool, isSub: bool, parentClass: string,
                        parentFieldName: string, fieldsOfParent: Option<seq<string>>)
    returns (entity: EntityValue, events: seq<LoadEvent>)
    modifies session
    ensures Instance(entity, events, session.entities) ==
            CreateInstanceOf(old(session.entities), session.lists, ld, cls, e, manyToOne, oneToMany, addToSession, isSub,
                             parentClass, parentFieldName, fieldsOfParent)
    ensures session.lists == old(session.lists)
  {
    var id := if isSub then Num(Intval(FieldValue(e, parentFieldName))) else IdValue(e);
    assert id == InstanceId(e, isSub, parentFieldName);
    events := [];
    if addToSession {
      session.entities := session.entities[(cls, id) := e];
      events := [SessionAdd(cls, id)];
    }
    assert (session.entities, events) == SessionPhase(old(session.entities), cls, InstanceId(e, isSub, parentFieldName), e, addToSession);
    var m := Loaded(e, []);
    if manyToOne != [] {
      m := LoadManyToOneFields(session, ld, e, manyToOne);
    }
    assert m == ManyToOnePhase(session.entities, ld, e, manyToOne);
    var pid := Intval(FieldValue(e, parentFieldName));
    entity := m.entity;
    var pe: seq<LoadEvent> := [];
    if isSub {
      entity := SetField(entity, parentFieldName, Found(ld.parent(parentClass, pid, fieldsOfParent)));
      pe := [LoadParent(parentClass, pid, fieldsOfParent)];
    }
    assert Loaded(entity, pe) == ParentPhase(ld, m.entity, isSub, parentClass, parentFieldName, pid, fieldsOfParent);
    var o := Loaded(entity, []);
    if oneToMany != [] {
      o := LoadOneToManyLists(session, ld, entity, oneToMany);
    }
    assert o == OneToManyPhase(session.lists, ld, entity, oneToMany);
    entity := o.entity;
    events := events + m.events + pe + o.events;
  }
}
