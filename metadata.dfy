/** Option and Result, the model's failure-compatible wrappers (exceptions become Err). */
module Wrappers {
  datatype Option<+T> = None | Some(value: T)

  datatype Result<+T> = Ok(value: T) | Err(msg: string) {
    predicate IsFailure() { Err? }
    function PropagateFailure<U>(): Result<U>
      requires Err?
    {
      Err(msg)
    }
    function Extract(): T
      requires Ok?
    {
      value
    }
  }
}

/**
 * The explicit metadata registry that replaces the entity classes' constants
 * (`<Field>FieldType`, `<Field>Column`, `<Field>PropertyType`, `<Field>Class`,
 * `<Field>Identifier`), `getTableName()`, `getIDColumn()` and reflection's
 * ordered constant list, plus the values that entity objects hold.
 */
module Metadata {
  import opened Wrappers

  /** PropertyTypeEnum; `Unsupported` stands for any other enum code. */
  datatype PropertyType =
    | TEXT | INT | FLOAT | ENUM | BOOL | DATE | TIME | DATETIME | EMAIL | COLOR
    | Unsupported(code: int)

  /** One field's constants, by FieldTypeEnum kind. `UnknownKind` is any other code. */
  datatype FieldMeta =
    | Property(column: string, propertyType: PropertyType)
    | ManyToOne(column: string, target: string)
    | OneToMany(target: string, identifier: string)
    | ManyToMany(target: string, side: string)
    | UnknownKind(code: int)

  /** A sub-entity's link to the entity class holding its inherited fields. */
  datatype ParentLink = ParentLink(parentClass: string, parentFieldName: string)

  /**
   * One entity class: its table, its ID column, every class constant as
   * (name, value as PHP string) in declaration order, the descriptors of the
   * fields whose `FieldType` constant is defined on this class, and, for a
   * sub-entity, the parent link.
   */
  datatype ClassMeta = ClassMeta(
    table: string,
    idColumn: string,
    constants: seq<(string, string)>,
    fields: map<string, FieldMeta>,
    parent: Option<ParentLink>)

  type Registry = map<string, ClassMeta>

  /** Every class a field or a parent link names is itself registered. */
  ghost predicate Closed(reg: Registry)
  {
    && (forall c, f :: c in reg && f in reg[c].fields ==> TargetsOf(reg[c].fields[f]) <= reg.Keys)
    && (forall c :: c in reg && reg[c].parent.Some? ==> reg[c].parent.value.parentClass in reg)
  }

  function TargetsOf(m: FieldMeta): set<string>
  {
    match m
    case ManyToOne(_, t) => {t}
    case OneToMany(t, _) => {t}
    case ManyToMany(t, _) => {t}
    case _ => {}
  }

  /** The column constant of a field, where its kind has one. */
  function ColumnOf(m: FieldMeta): Option<string>
  {
    match m
    case Property(c, _) => Some(c)
    case ManyToOne(c, _) => Some(c)
    case _ => None
  }

  /** The value of an entity property or of an argument passed to a builder. */
  datatype Value =
    | Null
    | Str(s: string)
    | Num(n: int)
    | Flag(b: bool)
    | Opaque(repr: string)         // a float or a DateTime, never inspected
    | Obj(entity: EntityValue)
    | Objs(items: seq<EntityValue>)  // a loaded one-to-many list

  /** A snapshot of an entity object: its class, whether it is a sub-entity, its ID and its properties. */
  datatype EntityValue = EntityValue(cls: string, isSub: bool, id: Option<int>, fields: map<string, Value>)

  /** `$object->$field`; an unset property reads as null. */
  function FieldValue(e: EntityValue, f: string): Value
  {
    if f in e.fields then e.fields[f] else Null
  }

  /** `getID()` as a value. */
  function IdValue(e: EntityValue): Value
  {
    if e.id.Some? then Num(e.id.value) else Null
  }

  /** PHP's loose `$v == null`: null, the empty string, 0, false and the empty array. */
  predicate LooseNull(v: Value)
  {
    v == Null || v == Str("") || v == Num(0) || v == Flag(false) || v == Objs([])
  }

  predicate LooseNullId(id: Option<int>)
  {
    id == None || id == Some(0)
  }

  /**
   * The two conversions of PropertyTypeEnum, which is not part of this model:
   * `convertToString` and `getPreparedStmtType` (one bind-type character).
   */
  datatype Codec = Codec(toText: (Value, PropertyType) -> string, stmtType: PropertyType -> char)

  /** PHP truthiness of a constant's value in string form. */
  predicate Truthy(s: string)
  {
    s != "" && s != "0"
  }
}
