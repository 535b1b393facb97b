/**
 * FieldEntity's two static lookup tables: the field list of each entity
 * class (from its constants) and the "pointing back" many-to-one pairs
 * used before a deletion.
 */
module FieldLists {
  import opened Wrappers
  import opened Strings
  import opened Metadata

  /** `array_key_exists($name, $constantList)` and the value found. */
  function LookupConst(consts: seq<(string, string)>, name: string): (r: Option<string>)
    ensures r.Some? <==> exists i :: 0 <= i < |consts| && consts[i].0 == name
    ensures r.Some? ==> exists i :: 0 <= i < |consts| && consts[i].0 == name && consts[i].1 == r.value
  {
    if consts == [] then None
    else if consts[0].0 == name then Some(consts[0].1)
    else LookupConst(consts[1..], name)
  }

  /** A constant whose name ends in "Field" and whose `<value>IsHidden` constant is absent or falsy. */
  predicate Listed(consts: seq<(string, string)>, c: (string, string))
  {
    && EndsWith(c.0, "Field")
    && !(var h := LookupConst(consts, c.1 + "IsHidden"); h.Some? && Truthy(h.value))
  }

  /** The listed values among the first constants `prefix` of `consts`, in order. */
  function FieldListFrom(consts: seq<(string, string)>, prefix: seq<(string, string)>): seq<string>
  {
    if prefix == [] then []
    else
      var last := prefix[|prefix| - 1];
      FieldListFrom(consts, prefix[..|prefix| - 1]) + (if Listed(consts, last) then [last.1] else [])
  }

  /** getFieldList of a class, as a function of its constants. */
  function FieldListOf(reg: Registry, cls: string): seq<string>
    requires cls in reg
  {
    FieldListFrom(reg[cls].constants, reg[cls].constants)
  }

  /** A value is in the field list exactly when some listed constant has it. */
  lemma {:induction false} FieldListFromMembers(consts: seq<(string, string)>, prefix: seq<(string, string)>, x: string)
    ensures x in FieldListFrom(consts, prefix) <==>
      exists i :: 0 <= i < |prefix| && Listed(consts, prefix[i]) && prefix[i].1 == x
  {
    if prefix != [] {
      var init := prefix[..|prefix| - 1];
      FieldListFromMembers(consts, init, x);
      if x in FieldListFrom(consts, prefix) && x !in FieldListFrom(consts, init) {
        assert Listed(consts, prefix[|prefix| - 1]) && prefix[|prefix| - 1].1 == x;
      }
      if exists i :: 0 <= i < |prefix| && Listed(consts, prefix[i]) && prefix[i].1 == x {
        var i :| 0 <= i < |prefix| && Listed(consts, prefix[i]) && prefix[i].1 == x;
        if i < |init| {
          assert init[i] == prefix[i];
        }
      }
    }
  }

  /** The field list never has more entries than there are constants. */
  lemma {:induction false} FieldListFromLength(consts: seq<(string, string)>, prefix: seq<(string, string)>)
    ensures |FieldListFrom(consts, prefix)| <= |prefix|
  {
    if prefix != [] {
      FieldListFromLength(consts, prefix[..|prefix| - 1]);
    }
  }

  /** Every field that a class's own field list names has a descriptor, and every named class is registered. */
  ghost predicate WellFormed(reg: Registry)
  {
    && Closed(reg)
    && (forall c, f :: c in reg && f in FieldListOf(reg, c) ==> f in reg[c].fields)
  }

  /** One entry of `$pointingBack`: BaseField of the class, the Class it points to, and that class's Field pointing back. */
  datatype PointingBack = PointingBack(baseField: string, cls: string, field: string)

  /** The many-to-one fields among `fs`, with their target classes, in order. */
  function ManyToOneFields(meta: ClassMeta, fs: seq<string>): seq<(string, string)>
  {
    if fs == [] then []
    else
      var f := fs[|fs| - 1];
      ManyToOneFields(meta, fs[..|fs| - 1]) +
        (if f in meta.fields && meta.fields[f].ManyToOne? then [(f, meta.fields[f].target)] else [])
  }

  /** The fields among `gs` of class `d` that point to `c`, as entries with base field `f`. */
  function BackRefs(reg: Registry, c: string, f: string, d: string, gs: seq<string>): seq<PointingBack>
    requires d in reg
  {
    if gs == [] then []
    else
      var g := gs[|gs| - 1];
      var m := reg[d].fields;
      BackRefs(reg, c, f, d, gs[..|gs| - 1]) +
        (if g in m && m[g].ManyToOne? && m[g].target == c then [PointingBack(f, d, g)] else [])
  }

  /** The pointing-back entries of class c, over its many-to-one fields `m2o`. */
  function PointingBackOf(reg: Registry, c: string, m2o: seq<(string, string)>): seq<PointingBack>
  {
    if m2o == [] then []
    else
      var last := m2o[|m2o| - 1];
      PointingBackOf(reg, c, m2o[..|m2o| - 1]) +
        (if last.1 in reg then BackRefs(reg, c, last.0, last.1, FieldListOf(reg, last.1)) else [])
  }

  lemma {:induction false} ManyToOneFieldsMembers(meta: ClassMeta, fs: seq<string>, f: string, d: string)
    ensures (f, d) in ManyToOneFields(meta, fs) <==>
      f in fs && f in meta.fields && meta.fields[f].ManyToOne? && meta.fields[f].target == d
  {
    if fs != [] {
      ManyToOneFieldsMembers(meta, fs[..|fs| - 1], f, d);
      assert fs == fs[..|fs| - 1] + [fs[|fs| - 1]];
    }
  }

  lemma ManyToOneFieldsTargets(reg: Registry, c: string, fs: seq<string>)
    requires c in reg && Closed(reg)
    ensures forall i :: 0 <= i < |ManyToOneFields(reg[c], fs)| ==> ManyToOneFields(reg[c], fs)[i].1 in reg
  {
    forall i | 0 <= i < |ManyToOneFields(reg[c], fs)|
      ensures ManyToOneFields(reg[c], fs)[i].1 in reg
    {
      var p := ManyToOneFields(reg[c], fs)[i];
      ManyToOneFieldsMembers(reg[c], fs, p.0, p.1);
      assert TargetsOf(reg[c].fields[p.0]) == {p.1};
    }
  }

  lemma {:induction false} BackRefsMembers(reg: Registry, c: string, f: string, d: string, gs: seq<string>, e: PointingBack)
    requires d in reg
    ensures e in BackRefs(reg, c, f, d, gs) <==>
      e.baseField == f && e.cls == d && e.field in gs &&
      e.field in reg[d].fields && reg[d].fields[e.field].ManyToOne? && reg[d].fields[e.field].target == c
  {
    if gs != [] {
      BackRefsMembers(reg, c, f, d, gs[..|gs| - 1], e);
      assert gs == gs[..|gs| - 1] + [gs[|gs| - 1]];
    }
  }

  lemma {:induction false} PointingBackOfMembers(reg: Registry, c: string, m2o: seq<(string, string)>, e: PointingBack)
    ensures e in PointingBackOf(reg, c, m2o) <==>
      (e.baseField, e.cls) in m2o && e.cls in reg && e.field in FieldListOf(reg, e.cls) &&
      e.field in reg[e.cls].fields && reg[e.cls].fields[e.field].ManyToOne? && reg[e.cls].fields[e.field].target == c
  {
    if m2o != [] {
      var init, last := m2o[..|m2o| - 1], m2o[|m2o| - 1];
      PointingBackOfMembers(reg, c, init, e);
      if last.1 in reg {
        BackRefsMembers(reg, c, last.0, last.1, FieldListOf(reg, last.1), e);
      }
      assert m2o == init + [last];
    }
  }

  /**
   * The scan records (F, D, G) exactly when F is a many-to-one field of C
   * pointing to D and G is a many-to-one field of D pointing back to C.
   */
  lemma PointingBackExactly(reg: Registry, c: string, e: PointingBack)
    requires c in reg
    ensures e in PointingBackOf(reg, c, ManyToOneFields(reg[c], FieldListOf(reg, c))) <==>
      && e.baseField in FieldListOf(reg, c)
      && e.baseField in reg[c].fields && reg[c].fields[e.baseField].ManyToOne?
      && reg[c].fields[e.baseField].target == e.cls
      && e.cls in reg
      && e.field in FieldListOf(reg, e.cls)
      && e.field in reg[e.cls].fields && reg[e.cls].fields[e.field].ManyToOne?
      && reg[e.cls].fields[e.field].target == c
  {
    var fs := FieldListOf(reg, c);
    var m2o := ManyToOneFields(reg[c], fs);
    PointingBackOfMembers(reg, c, m2o, e);
    ManyToOneFieldsMembers(reg[c], fs, e.baseField, e.cls);
  }

  /** The scan of one class's field list for its many-to-one fields. */
  method ScanManyToOne(meta: ClassMeta, fields: seq<string>) returns (m2o: seq<(string, string)>)
    ensures m2o == ManyToOneFields(meta, fields)
  {
    m2o := [];
    var i := 0;
    while i < |fields|
      invariant 0 <= i <= |fields|
      invariant m2o == ManyToOneFields(meta, fields[..i])
    {
      var f := fields[i];
      assert fields[..i + 1][..i] == fields[..i];
      if f in meta.fields && meta.fields[f].ManyToOne? {
        m2o := m2o + [(f, meta.fields[f].target)];
      }
      i := i + 1;
    }
    assert fields[..i] == fields;
  }

  /** The scan of the target class's field list for fields pointing back to `cls`. */
  method ScanBackRefs(reg: Registry, cls: string, baseField: string, target: string, targetFields: seq<string>)
    returns (refs: seq<PointingBack>)
    requires target in reg
    ensures refs == BackRefs(reg, cls, baseField, target, targetFields)
  {
    refs := [];
    var j := 0;
    while j < |targetFields|
      invariant 0 <= j <= |targetFields|
      invariant refs == BackRefs(reg, cls, baseField, target, targetFields[..j])
    {
      var g := targetFields[j];
      assert targetFields[..j + 1][..j] == targetFields[..j];
      var tm := reg[target].fields;
      if g in tm && tm[g].ManyToOne? && tm[g].target == cls {
        refs := refs + [PointingBack(baseField, target, g)];
      }
      j := j + 1;
    }
    assert targetFields[..j] == targetFields;
  }

  /** The target classes of collected many-to-one fields, the classes whose field lists the scan looks up. */
  function TargetClasses(m2o: seq<(string, string)>): set<string>
  {
    if m2o == [] then {} else TargetClasses(m2o[..|m2o| - 1]) + {m2o[|m2o| - 1].1}
  }

  /** A class is a target exactly when some collected field points to it. */
  lemma {:induction false} TargetClassesMembers(m2o: seq<(string, string)>, c: string)
    ensures c in TargetClasses(m2o) <==> exists i :: 0 <= i < |m2o| && m2o[i].1 == c
  {
    if m2o != [] {
      var init := m2o[..|m2o| - 1];
      TargetClassesMembers(init, c);
      if c in TargetClasses(init) {
        var i :| 0 <= i < |init| && init[i].1 == c;
        assert m2o[i] == init[i];
      }
      if i :| 0 <= i < |m2o| - 1 && m2o[i].1 == c {
        assert init[i] == m2o[i];
      }
    }
  }

  /** The static lookup tables `$fieldLists` and `$pointingBack` over a fixed registry. */
  class StaticTables {
    const reg: Registry
    var fieldLists: map<string, seq<string>>
    var pointingBack: map<string, seq<PointingBack>>

    ghost predicate Valid()
      reads this
    {
      && Closed(reg)
      && (forall c :: c in fieldLists ==> c in reg && fieldLists[c] == FieldListOf(reg, c))
      && (forall c :: c in pointingBack ==>
            (c in reg && pointingBack[c] == PointingBackOf(reg, c, ManyToOneFields(reg[c], FieldListOf(reg, c)))))
    }

    constructor (reg: Registry)
      requires Closed(reg)
      ensures Valid() && this.reg == reg && fieldLists == map[] && pointingBack == map[]
    {
      this.reg := reg;
      fieldLists, pointingBack := map[], map[];
    }

    /**
     * getFieldList: the memoized list when present, otherwise computed from
     * the class constants and stored. The table is the only state it changes.
     */
    method GetFieldList(cls: string) returns (fl: seq<string>)
      requires Valid() && cls in reg
      modifies this`fieldLists
      ensures Valid()
      ensures fl == FieldListOf(reg, cls)
      ensures fieldLists == old(fieldLists)[cls := fl]
      ensures cls in old(fieldLists) ==> fieldLists == old(fieldLists)
    {
      if cls in fieldLists {
        fl := fieldLists[cls];
        return;
      }
      var consts := reg[cls].constants;
      fl := [];
      var i := 0;
      while i < |consts|
        invariant 0 <= i <= |consts|
        invariant fl == FieldListFrom(consts, consts[..i])
      {
        var c := consts[i];
        assert consts[..i + 1][..i] == consts[..i];
        if EndsWith(c.0, "Field") {
          var hidden := LookupConst(consts, c.1 + "IsHidden");
          if hidden.Some? && Truthy(hidden.value) {
            i := i + 1;
            continue;
          }
          fl := fl + [c.1];
        }
        i := i + 1;
      }
      assert consts[..i] == consts;
      fieldLists := fieldLists[cls := fl];
    }

    /** The second scan of prepareForDeletion: the fields of every target class that point back to `cls`. */
    method CollectPointingBack(cls: string, m2o: seq<(string, string)>) returns (pb: seq<PointingBack>)
      requires Valid() && cls in reg
      requires forall i :: 0 <= i < |m2o| ==> m2o[i].1 in reg
      modifies this`fieldLists
      ensures Valid()
      ensures pb == PointingBackOf(reg, cls, m2o)
      ensures fieldLists.Keys == old(fieldLists).Keys + TargetClasses(m2o)
    {
      pb := [];
      var k := 0;
      while k < |m2o|
        invariant 0 <= k <= |m2o|
        invariant Valid()
        invariant pb == PointingBackOf(reg, cls, m2o[..k])
        invariant fieldLists.Keys == old(fieldLists).Keys + TargetClasses(m2o[..k])
      {
        var target := m2o[k].1;
        var targetFields := GetFieldList(target);
        var refs := ScanBackRefs(reg, cls, m2o[k].0, target, targetFields);
        assert m2o[..k + 1][..k] == m2o[..k];
        pb := pb + refs;
        k := k + 1;
      }
      assert m2o[..k] == m2o;
    }

    /**
     * The search part of prepareForDeletion: the memoized entries when
     * present, otherwise every many-to-one field of the class whose target
     * class has a many-to-one field pointing back to it, stored in the table.
     */
    method GetPointingBack(cls: string) returns (pb: seq<PointingBack>)
      requires Valid() && cls in reg
      modifies this
      ensures Valid()
      ensures pb == PointingBackOf(reg, cls, ManyToOneFields(reg[cls], FieldListOf(reg, cls)))
      ensures pointingBack == old(pointingBack)[cls := pb]
      ensures cls in old(pointingBack) ==> pointingBack == old(pointingBack) && fieldLists == old(fieldLists)
      ensures cls !in old(pointingBack) ==>
                fieldLists.Keys == old(fieldLists).Keys + {cls} + TargetClasses(ManyToOneFields(reg[cls], FieldListOf(reg, cls)))
    {
      if cls in pointingBack {
        pb := pointingBack[cls];
        return;
      }
      var fields := GetFieldList(cls);
      var m2o := ScanManyToOne(reg[cls], fields);
      ManyToOneFieldsTargets(reg, cls, fields);
      pb := CollectPointingBack(cls, m2o);
      pointingBack := pointingBack[cls := pb];
    }
  }
}
