/**
 * The process-wide join-alias registry: structurally identical joins share
 * one alias, and every new join gets a fresh "J<n>" from a monotone counter.
 */
module Joiner {
  import opened Wrappers
  import opened Strings

  /** JoinType::INNER. */
  const INNER := "INNER"

  /** JoiningEntityClass, JoinType, JoinBasePlace, JoinBaseColumn, JoinColumn. */
  datatype JoinPath = JoinPath(cls: string, joinType: string, basePlace: string, baseColumn: string, joinColumn: string)

  /** The same path without the joining class (the shape below one class key). */
  datatype ArrayPath = ArrayPath(joinType: string, basePlace: string, baseColumn: string, joinColumn: string)

  /**
   * The 5-level array JoiningEntityClass -> JoinType -> JoinBasePlace ->
   * JoinBaseColumn -> JoinColumn = JoinName. Such an array without empty inner
   * levels is the same as a finite map from 5-tuples to names.
   */
  type Joins = map<JoinPath, string>

  /** The 4-level array below one class key. */
  type JoinArray = map<ArrayPath, string>

  function Under(cls: string, p: ArrayPath): JoinPath
  {
    JoinPath(cls, p.joinType, p.basePlace, p.baseColumn, p.joinColumn)
  }

  function Below(p: JoinPath): ArrayPath
  {
    ArrayPath(p.joinType, p.basePlace, p.baseColumn, p.joinColumn)
  }

  /** `$joins[$cls]=$array`: the array placed under the class key. */
  function UnderClass(cls: string, a: JoinArray): (j: Joins)
    ensures forall p :: p in j <==> p.cls == cls && Below(p) in a
    ensures forall p :: p in j ==> j[p] == a[Below(p)]
  {
    map p | p in (set q | q in a :: Under(cls, q)) :: a[Below(p)]
  }

  /**
   * `$joins[$cls]=$array` on an existing join array: whatever was stored
   * under that class is replaced, every other class is kept.
   */
  function PutClass(joins: Joins, cls: string, a: JoinArray): (j: Joins)
    ensures forall p :: p in j <==> (p.cls == cls && Below(p) in a) || (p.cls != cls && p in joins)
    ensures forall p :: p in j && p.cls != cls ==> j[p] == joins[p]
    ensures forall p :: p in j && p.cls == cls ==> j[p] == a[Below(p)]
  {
    (map p | p in joins && p.cls != cls :: joins[p]) + UnderClass(cls, a)
  }

  /**
   * createJoinArray: the single path joinType -> basePlace -> baseColumn ->
   * joinColumn = joinName.
   *
   * Expression calls it with four arguments (basePlace, baseColumn,
   * joinColumn, joinName) although it declares five; the missing one is the
   * join type, which the documented shape of the array says is INNER. The
   * rest of the model uses this documented shape; what the call does as
   * written is CreateJoinArrayAsWritten.
   */
  function CreateJoinArray(joinType: string, basePlace: string, baseColumn: string, joinColumn: string, joinName: string): (a: JoinArray)
    ensures a.Keys == {ArrayPath(joinType, basePlace, baseColumn, joinColumn)}
    ensures a[ArrayPath(joinType, basePlace, baseColumn, joinColumn)] == joinName
  {
    map[ArrayPath(joinType, basePlace, baseColumn, joinColumn) := joinName]
  }

  /**
   * createJoin: the join array of createJoinArray wrapped under the class key.
   * Expression calls it with five arguments, without the join type; as above
   * the model takes INNER from the documented shape, and CreateJoinAsWritten
   * is the call as written.
   */
  function CreateJoin(cls: string, joinType: string, basePlace: string, baseColumn: string, joinColumn: string, joinName: string): (j: Joins)
    ensures j == UnderClass(cls, CreateJoinArray(joinType, basePlace, baseColumn, joinColumn, joinName))
    ensures j.Keys == {JoinPath(cls, joinType, basePlace, baseColumn, joinColumn)}
    ensures j[JoinPath(cls, joinType, basePlace, baseColumn, joinColumn)] == joinName
  {
    var a := CreateJoinArray(joinType, basePlace, baseColumn, joinColumn, joinName);
    var j := map[JoinPath(cls, joinType, basePlace, baseColumn, joinColumn) := joinName];
    assert j == UnderClass(cls, a);
    j
  }

  /** The ArgumentCountError messages. */
  const TooFewArguments := "Too few arguments to function Joiner::createJoinArray()."
  const TooFewArgumentsJoin := "Too few arguments to function Joiner::createJoin()."

  /**
   * The calls of Expression as written, one argument short. From PHP 7.1 on
   * a missing argument of a user function throws ArgumentCountError; before
   * that the arguments shift one place to the left and the last parameter,
   * the join name, is null. The leaf of the shifted array is keyed by the
   * alias and holds null (None).
   */
  function CreateJoinArrayAsWritten(throwsOnMissingArgument: bool, basePlace: string, baseColumn: string,
                                    joinColumn: string, joinName: string): (r: Result<map<ArrayPath, Option<string>>>)
    ensures throwsOnMissingArgument <==> r.Err?
    ensures r.Ok? ==> r.value.Keys == {ArrayPath(basePlace, baseColumn, joinColumn, joinName)}
    ensures r.Ok? ==> forall p :: p in r.value ==> r.value[p] == None
  {
    if throwsOnMissingArgument then Err(TooFewArguments)
    else Ok(map[ArrayPath(basePlace, baseColumn, joinColumn, joinName) := None])
  }

  /** createJoin called as Expression calls it; see CreateJoinArrayAsWritten. */
  function CreateJoinAsWritten(throwsOnMissingArgument: bool, cls: string, basePlace: string, baseColumn: string,
                               joinColumn: string, joinName: string): (r: Result<map<JoinPath, Option<string>>>)
    ensures throwsOnMissingArgument <==> r.Err?
    ensures r.Ok? ==> r.value.Keys == {JoinPath(cls, basePlace, baseColumn, joinColumn, joinName)}
    ensures r.Ok? ==> forall p :: p in r.value ==> r.value[p] == None
  {
    if throwsOnMissingArgument then Err(TooFewArgumentsJoin)
    else Ok(map[JoinPath(cls, basePlace, baseColumn, joinColumn, joinName) := None])
  }

  /**
   * The shifted calls never produce the documented join: they either throw,
   * or store no alias under an array whose join-type level holds the base
   * place, so no path of the documented INNER join is present. The
   * corrected calls hold the alias under the INNER path.
   */
  lemma ShiftedJoinLosesAlias(throwsOnMissingArgument: bool, cls: string, basePlace: string, baseColumn: string,
                              joinColumn: string, joinName: string)
    requires basePlace != INNER
    ensures var w := CreateJoinAsWritten(throwsOnMissingArgument, cls, basePlace, baseColumn, joinColumn, joinName);
      var j := CreateJoin(cls, INNER, basePlace, baseColumn, joinColumn, joinName);
      && j[JoinPath(cls, INNER, basePlace, baseColumn, joinColumn)] == joinName
      && (w.Ok? ==> w.value.Keys !! j.Keys && forall p :: p in w.value ==> w.value[p].None?)
    ensures var w := CreateJoinArrayAsWritten(throwsOnMissingArgument, basePlace, baseColumn, joinColumn, joinName);
      var a := CreateJoinArray(INNER, basePlace, baseColumn, joinColumn, joinName);
      && a[ArrayPath(INNER, basePlace, baseColumn, joinColumn)] == joinName
      && (w.Ok? ==> w.value.Keys !! a.Keys && forall p :: p in w.value ==> w.value[p].None?)
  {
  }

  /** A concrete shifted call: the parent join of Student to User. */
  lemma ShiftedJoinExample()
    ensures CreateJoinAsWritten(true, "User", "Student", "UserID", "ID", "J1").Err?
    ensures CreateJoinAsWritten(false, "User", "Student", "UserID", "ID", "J1") ==
              Ok(map[JoinPath("User", "Student", "UserID", "ID", "J1") := None])
    ensures CreateJoin("User", INNER, "Student", "UserID", "ID", "J1") ==
              map[JoinPath("User", INNER, "Student", "UserID", "ID") := "J1"]
  {
  }

  /** The alias allocated for counter value n. */
  function JoinName(n: nat): string
  {
    "J" + NatToString(n)
  }

  lemma JoinNameInjective(n: nat, m: nat)
    requires JoinName(n) == JoinName(m)
    ensures n == m
  {
    assert NatToString(n) == JoinName(n)[1..];
    assert NatToString(m) == JoinName(m)[1..];
    NatToStringInjective(n, m);
  }

  /**
   * What one getJoinName call does to the table and the counter: a stored key
   * keeps its name and the counter; a new key gets "J<counter+1>", a name no
   * stored key has, and nothing else in the table changes.
   */
  ghost predicate Allocated(before: map<JoinPath, string>, counterBefore: nat,
                            after: map<JoinPath, string>, counterAfter: nat, key: JoinPath, name: string)
  {
    && after == before[key := name]
    && (key in before ==> name == before[key] && counterAfter == counterBefore)
    && (key !in before ==> counterAfter == counterBefore + 1 && name == JoinName(counterAfter) && name !in before.Values)
  }

  /** A key stored before an allocation keeps its alias. */
  lemma AllocatedKeeps(before: map<JoinPath, string>, counterBefore: nat, after: map<JoinPath, string>, counterAfter: nat,
                        key: JoinPath, name: string, k: JoinPath)
    requires Allocated(before, counterBefore, after, counterAfter, key, name)
    requires k in before
    ensures k in after && after[k] == before[k]
  {
  }

  /** The table after getJoinName looks `key` up: unchanged when stored, otherwise with "J<counter+1>" added. */
  function AllocNames(before: map<JoinPath, string>, counterBefore: nat, key: JoinPath): map<JoinPath, string>
  {
    if key in before then before else before[key := JoinName(counterBefore + 1)]
  }

  /** The counter after getJoinName looks `key` up. */
  function AllocCounter(before: map<JoinPath, string>, counterBefore: nat, key: JoinPath): nat
  {
    if key in before then counterBefore else counterBefore + 1
  }

  /** An allocation is determined by the table, the counter and the key. */
  lemma AllocatedDetermined(before: map<JoinPath, string>, counterBefore: nat, after: map<JoinPath, string>, counterAfter: nat,
                            key: JoinPath, name: string)
    requires Allocated(before, counterBefore, after, counterAfter, key, name)
    ensures after == AllocNames(before, counterBefore, key) && counterAfter == AllocCounter(before, counterBefore, key)
    ensures key in after && name == after[key]
  {
  }

  /** The static `$_joinNames` table and `$_joinNameCounter`. */
  class JoinNames {
    var names: map<JoinPath, string>
    var counter: nat
    /** The counter value each stored name was made from. */
    ghost var ids: map<JoinPath, nat>

    ghost predicate Valid()
      reads this
    {
      && names.Keys == ids.Keys
      && (forall k :: k in ids ==> 1 <= ids[k] <= counter && names[k] == JoinName(ids[k]))
      && (forall k, k' :: k in ids && k' in ids && k != k' ==> ids[k] != ids[k'])
    }

    /** The state at process start: an empty table and the counter at 0. */
    constructor ()
      ensures Valid() && names == map[] && counter == 0
    {
      names, counter, ids := map[], 0, map[];
    }

    /**
     * getJoinName: the stored alias of an already seen 5-tuple, otherwise
     * the next counter value as "J<n>", recorded for the tuple.
     */
    method GetJoinName(cls: string, joinType: string, basePlace: string, baseColumn: string, joinColumn: string) returns (name: string)
      requires Valid()
      modifies this
      ensures Valid()
      ensures Allocated(old(names), old(counter), names, counter, JoinPath(cls, joinType, basePlace, baseColumn, joinColumn), name)
    {
      var key := JoinPath(cls, joinType, basePlace, baseColumn, joinColumn);
      if key in names {
        name := names[key];
        return;
      }
      counter := counter + 1;
      name := JoinName(counter);
      forall k | k in old(names)
        ensures old(names)[k] != name
      {
        if old(names)[k] == name {
          JoinNameInjective(ids[k], counter);
        }
      }
      names := names[key := name];
      ids := ids[key := counter];
    }
  }

  /** Distinct stored 5-tuples never share an alias. */
  lemma NamesDistinct(j: JoinNames, k: JoinPath, k': JoinPath)
    requires j.Valid()
    requires k in j.names && k' in j.names && k != k'
    ensures j.names[k] != j.names[k']
  {
    if j.names[k] == j.names[k'] {
      JoinNameInjective(j.ids[k], j.ids[k']);
    }
  }
}
