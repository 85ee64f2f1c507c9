/** The cast resolver: the rule table of `_cast` over (source type, target
    type), turned into an explicit match on type kinds. The rule chosen for a
    pair is the most specific rule whose patterns match it, which is what the
    source's type-directed dispatch selects. */
module Casts {
  import opened Types
  import opened Sql
  import opened Errors
  import opened Instances

  /** The database target, as far as casts care: MySQL spells the integer
      cast differently from every other backend. */
  datatype Dialect = MySql | OtherDialect

  /** The kind of a type: its tag without parameters. */
  datatype Kind =
    | KNull | KBool | KInt | KFloat | KString | KId | KRelation | KList | KTable
    | KStruct | KAggregate | KVectorized | KFunction | KUnknown | KAny

  function KindOf(t: Type): Kind {
    match t
    case Null => KNull
    case Bool => KBool
    case Int => KInt
    case Float => KFloat
    case String => KString
    case Id => KId
    case Relation => KRelation
    case List(_, _) => KList
    case Table(_, _, _) => KTable
    case Struct(_) => KStruct
    case Aggregate(_) => KAggregate
    case Vectorized(_) => KVectorized
    case Function => KFunction
    case Unknown => KUnknown
    case Any => KAny
  }

  const AllKinds: set<Kind> :=
    {KNull, KBool, KInt, KFloat, KString, KId, KRelation, KList, KTable,
     KStruct, KAggregate, KVectorized, KFunction, KUnknown, KAny}

  /** The registered `_cast` rules, one per definition. */
  datatype Rule =
    | NotImplemented       // (any, any): the fallback
    | ListToList           // (list, list)
    | AggregateToList      // (aggregate, list)
    | TableToList          // (table, list)
    | IdToInt              // (t_id, int)
    | NumericToInt         // (float | bool, int)
    | NumericToFloat       // (int | bool, float)
    | PrimitiveToString    // (primitive, string)
    | Unvectorize          // (vectorized, any)
    | RelationToId         // (t_relation, t_id)

  /** The kinds a rule's source pattern matches. A source pattern matches
      the kinds below it in the lattice of `pql_types`: an aggregate is below
      list, and a list below table. `Types.Sub` has only the first of these,
      since no modelled operation compares a list with a table. */
  function SourcePattern(r: Rule): set<Kind> {
    match r
    case NotImplemented => AllKinds
    case ListToList => {KList, KAggregate}
    case AggregateToList => {KAggregate}
    case TableToList => {KTable, KList, KAggregate}
    case IdToInt => {KId}
    case NumericToInt => {KFloat, KBool}
    case NumericToFloat => {KInt, KBool}
    case PrimitiveToString => {KBool, KInt, KFloat, KString}
    case Unvectorize => {KVectorized}
    case RelationToId => {KRelation}
  }

  /** The kinds a rule's target pattern matches. */
  function TargetPattern(r: Rule): set<Kind> {
    match r
    case NotImplemented => AllKinds
    case ListToList => {KList}
    case AggregateToList => {KList}
    case TableToList => {KList}
    case IdToInt => {KInt}
    case NumericToInt => {KInt}
    case NumericToFloat => {KFloat}
    case PrimitiveToString => {KString}
    case Unvectorize => AllKinds
    case RelationToId => {KId}
  }

  predicate Applicable(r: Rule, source: Type, target: Type) {
    KindOf(source) in SourcePattern(r) && KindOf(target) in TargetPattern(r)
  }

  /** `r1` is at least as specific as `r2`: both of its patterns are
      narrower. */
  predicate AtLeastAsSpecific(r1: Rule, r2: Rule) {
    SourcePattern(r1) <= SourcePattern(r2) && TargetPattern(r1) <= TargetPattern(r2)
  }

  /** The rule `_cast` runs for a (source type, target type) pair, as an
      explicit match: the most specific applicable rule. */
  function Dispatch(source: Type, target: Type): (r: Rule)
    ensures Applicable(r, source, target)
  {
    match (source, target)
    case (Vectorized(_), _) => Unvectorize
    case (List(_, _), List(_, _)) => ListToList
    case (Aggregate(_), List(_, _)) => AggregateToList
    case (Table(_, _, _), List(_, _)) => TableToList
    case (Id, Int) => IdToInt
    case (Float, Int) => NumericToInt
    case (Bool, Int) => NumericToInt
    case (Int, Float) => NumericToFloat
    case (Bool, Float) => NumericToFloat
    case (_, String) => if IsPrimitive(source) then PrimitiveToString else NotImplemented
    case (Relation, Id) => RelationToId
    case _ => NotImplemented
  }

  /** Dispatch is unambiguous: the rule it picks is at least as specific as
      every rule that applies, so no two applicable rules tie. */
  lemma {:induction false} DispatchMostSpecific(source: Type, target: Type, r: Rule)
    requires Applicable(r, source, target)
    ensures AtLeastAsSpecific(Dispatch(source, target), r)
    ensures AtLeastAsSpecific(r, Dispatch(source, target)) ==> r == Dispatch(source, target)
  {
    var d := Dispatch(source, target);
    match r
    case NotImplemented =>
    case ListToList =>
      assert d == ListToList || d == AggregateToList;
    case AggregateToList =>
      assert d == AggregateToList;
    case TableToList =>
      assert d == ListToList || d == AggregateToList || d == TableToList;
    case IdToInt =>
      assert d == IdToInt;
    case NumericToInt =>
      assert d == NumericToInt;
    case NumericToFloat =>
      assert d == NumericToFloat;
    case PrimitiveToString =>
      assert d == PrimitiveToString;
    case Unvectorize =>
      assert d == Unvectorize;
    case RelationToId =>
      assert d == RelationToId;
  }

  /** The fallback runs exactly when no specific rule applies. */
  lemma {:induction false} DispatchFallback(source: Type, target: Type)
    ensures Dispatch(source, target) == NotImplemented <==>
      forall r: Rule | r != NotImplemented :: !Applicable(r, source, target)
  {
  }

  /** `objects.unvectorized`: the same instance at the vectorized type's
      element type. The source's definition is not part of this model; this
      is the behaviour the cast of a vectorized value relies on. */
  function Unvectorized(inst: Instance): (r: Instance)
    requires Valid(inst) && TypeOf(inst).Vectorized?
    ensures Valid(r) && TypeOf(r) == TypeOf(inst).elem
    ensures Code(r) == Code(inst)
  {
    match inst
    case PlainInstance(c, t, sq) => PlainInstance(c, t.elem, sq)
    case ValueInstance(c, t, sq, v) => ValueInstance(c, t.elem, sq, v)
    case SelectedColumnInstance(p, t, n) => SelectedColumnInstance(p, t.elem, n)
  }

  /** `inst.replace(type=t)` for an instance of a plain type. */
  function Relabel(inst: Instance, t: Type): (r: Instance)
    requires Valid(inst) && PlainType(TypeOf(inst)) && !TypeOf(inst).Vectorized?
    requires PlainType(t) && WellFormed(t)
    requires !TypeOf(inst).Any? && !TypeOf(inst).Function?
    ensures Valid(r) && TypeOf(r) == t && Code(r) == Code(inst)
    ensures HasSubqueries(r) == HasSubqueries(inst)
    ensures HasSubqueries(inst) ==> Subqueries(r) == Subqueries(inst)
  {
    match inst
    case PlainInstance(c, _, sq) => PlainInstance(c, t, sq)
    case ValueInstance(c, _, sq, v) => ValueInstance(c, t, sq, v)
    case SelectedColumnInstance(p, _, n) => SelectedColumnInstance(p, t, n)
  }

  /** The spelling of the integer type in a numeric cast. */
  function IntLabel(dialect: Dialect): string {
    if dialect.MySql? then "signed integer" else "int"
  }

  /** The numeric and string rules: one cast node with the given type
      label over the instance's code, as a plain instance of `target` that
      keeps the instance's subqueries. */
  function ValueCast(inst: Instance, target: Type, spelling: string): (r: Result<Instance>)
    requires Valid(inst) && IsPrimitive(target)
    ensures Code(inst).Err? ==> r == Err(Code(inst).error)
    ensures Code(inst).Ok? ==>
      r.Ok? && Valid(r.value) && r.value.PlainInstance? && TypeOf(r.value) == target &&
      Code(r.value) == Ok(Sql.Cast(target, spelling, Code(inst).value)) &&
      HasSubqueries(inst) && Subqueries(r.value) == Subqueries(inst)
  {
    var code :- Code(inst);
    MergeSubqueriesSingle(inst);
    Ok(MakeInstance(Sql.Cast(target, spelling, code), target, [inst]))
  }

  /** The table rule: a table of exactly one column, whose type is below the
      target's element, becomes the list projecting that column as `value`. */
  function TableToListCast(inst: Instance, target: Type): (r: Result<Instance>)
    requires Valid(inst) && TypeOf(inst).Table? && target.List?
    ensures |TypeOf(inst).columns| != 1 ==> r == Err(TooManyColumns(TypeOf(inst), target))
    ensures |TypeOf(inst).columns| == 1 && !Sub(TypeOf(inst).columns[0].ty, target.elem) ==>
      r == Err(ElementsNotMatching(TypeOf(inst), target))
    ensures r.Ok? ==>
      (Valid(r.value) && r.value.ListInstance? &&
       TypeOf(r.value) == ListOf(TypeOf(inst).columns[0].ty) && Sub(TypeOf(r.value), target))
  {
    var source := TypeOf(inst);
    if |source.columns| != 1 then
      Err(TooManyColumns(source, target))
    else if !Sub(source.columns[0].ty, target.elem) then
      Err(ElementsNotMatching(source, target))
    else
      var col := source.columns[0];
      var code :- Code(inst);
      var listType := ListOf(col.ty);
      Ok(MakeInstance(Select(listType, code, [ColumnAlias(Name(col.ty, col.name), "value")]),
                      listType, [inst]))
  }

  /** The `id -> int` and `relation -> id` rules: the instance relabelled
      at the target type, code and subqueries kept. */
  function RelabelCast(inst: Instance, target: Type): (r: Instance)
    requires Valid(inst) && WellFormed(target)
    requires Dispatch(TypeOf(inst), target) in {IdToInt, RelationToId}
    ensures Valid(r) && TypeOf(r) == target && Code(r) == Code(inst)
  {
    Relabel(inst, target)
  }

  /** The list rule: the empty list takes the target type; a list whose
      element type is already below the target's is kept; otherwise its
      `value` column is cast and the list re-projected over it. */
  function ListCast(inst: Instance, target: Type, dialect: Dialect): (r: Result<Instance>)
    requires Valid(inst) && WellFormed(target) && TypeOf(inst).List? && target.List?
    ensures r.Ok? ==> Valid(r.value) && Sub(TypeOf(r.value), target)
    decreases target, TypeOf(inst), 0
  {
    if inst == Instances.EmptyList then
      Ok(ListInstance(inst.code, target, inst.subqueries))
    else if Sub(TypeOf(inst).elem, target.elem) then
      Ok(inst)
    else if !inst.ListInstance? then
      Err(MissingPythonAttribute("get_column"))
    else
      var value := GetColumn(inst, "value");
      var elem :- CastTo(value, target.elem, dialect);
      var elemCode :- Code(elem);
      Ok(ListInstance(Select(target, inst.code, [ColumnAlias(elemCode, "value")]),
                      ListOf(TypeOf(elem)), inst.subqueries))
  }

  /** The aggregate rule: the element is cast against the target's element
      and wrapped as an aggregate again. */
  function AggregateCast(inst: Instance, target: Type, dialect: Dialect): (r: Result<Instance>)
    requires Valid(inst) && WellFormed(target) && TypeOf(inst).Aggregate? && target.List?
    ensures r.Ok? ==> Valid(r.value) && Sub(TypeOf(r.value), target)
    decreases target, TypeOf(inst), 0
  {
    if !inst.AggregateInstance? then
      Err(MissingPythonAttribute("elem"))
    else
      var res :- CastTo(inst.elem, target.elem, dialect);
      Ok(Aggregated(res))
  }

  /** `_cast(state, inst.type, target, inst)`: the rule `Dispatch` picks,
      applied. A successful cast is valid and lies below its target; what
      each rule does is stated in the lemmas below. */
  function CastTo(inst: Instance, target: Type, dialect: Dialect): (r: Result<Instance>)
    requires Valid(inst) && WellFormed(target)
    ensures r.Ok? ==> Valid(r.value) && Sub(TypeOf(r.value), target)
    decreases target, TypeOf(inst), 1
  {
    var source := TypeOf(inst);
    match Dispatch(source, target)
    case NotImplemented =>
      Err(CastNotImplemented(source, target))
    case ListToList =>
      ListCast(inst, target, dialect)
    case AggregateToList =>
      AggregateCast(inst, target, dialect)
    case TableToList =>
      TableToListCast(inst, target)
    case IdToInt =>
      Ok(RelabelCast(inst, target))
    case NumericToInt =>
      ValueCast(inst, Int, IntLabel(dialect))
    case NumericToFloat =>
      ValueCast(inst, Float, "float")
    case PrimitiveToString =>
      ValueCast(inst, String, "varchar")
    case Unvectorize =>
      CastTo(Unvectorized(inst), target, dialect)
    case RelationToId =>
      Ok(RelabelCast(inst, target))
  }

  // ---------------------------------------------------------------------
  // Properties of the rules

  /** A pair no specific rule matches is a TypeError naming both types. */
  lemma {:induction false} CastFallback(inst: Instance, target: Type, dialect: Dialect)
    requires Valid(inst) && WellFormed(target)
    requires Dispatch(TypeOf(inst), target) == NotImplemented
    ensures CastTo(inst, target, dialect) == Err(CastNotImplemented(TypeOf(inst), target))
  {
  }

  /** `id -> int` and `relation -> id` only relabel: the result has the
      target type and the instance's code. */
  lemma {:induction false} CastRelabels(inst: Instance, target: Type, dialect: Dialect)
    requires Valid(inst) && WellFormed(target)
    requires Dispatch(TypeOf(inst), target) in {IdToInt, RelationToId}
    ensures var r := CastTo(inst, target, dialect);
      r.Ok? && TypeOf(r.value) == target && Code(r.value) == Code(inst)
  {
  }

  /** `bool`/`float -> int` is `ValueCast` with the dialect's spelling of
      the integer type: one cast node over the instance's code, a plain
      `int` instance keeping the instance's subqueries. */
  lemma {:induction false} CastToInt(inst: Instance, dialect: Dialect)
    requires Valid(inst) && (TypeOf(inst).Bool? || TypeOf(inst).Float?)
    ensures CastTo(inst, Int, dialect) == ValueCast(inst, Int, IntLabel(dialect))
  {
  }

  /** `int`/`bool -> float` is `ValueCast` spelled `float`. */
  lemma {:induction false} CastToFloat(inst: Instance, dialect: Dialect)
    requires Valid(inst) && (TypeOf(inst).Int? || TypeOf(inst).Bool?)
    ensures CastTo(inst, Float, dialect) == ValueCast(inst, Float, "float")
  {
  }

  /** Any primitive to `string` is `ValueCast` spelled `varchar`. */
  lemma {:induction false} CastToString(inst: Instance, dialect: Dialect)
    requires Valid(inst) && IsPrimitive(TypeOf(inst))
    ensures CastTo(inst, String, dialect) == ValueCast(inst, String, "varchar")
  {
  }

  /** A table with other than one column, or whose column is not below the
      target's element, is refused with the matching TypeError. */
  lemma {:induction false} CastTableRefused(inst: Instance, target: Type, dialect: Dialect)
    requires Valid(inst) && WellFormed(target)
    requires Dispatch(TypeOf(inst), target) == TableToList
    ensures |TypeOf(inst).columns| != 1 ==>
      CastTo(inst, target, dialect) == Err(TooManyColumns(TypeOf(inst), target))
    ensures |TypeOf(inst).columns| == 1 && !Sub(TypeOf(inst).columns[0].ty, target.elem) ==>
      CastTo(inst, target, dialect) == Err(ElementsNotMatching(TypeOf(inst), target))
  {
    assert CastTo(inst, target, dialect) == TableToListCast(inst, target);
  }

  /** Casting the empty list to any list type gives the empty list at that
      type: same code, no cast node, no subqueries. */
  lemma {:induction false} CastEmptyList(target: Type, dialect: Dialect)
    requires target.List? && WellFormed(target)
    ensures var r := CastTo(Instances.EmptyList, target, dialect);
      r.Ok? && r.value.ListInstance? && TypeOf(r.value) == target &&
      Code(r.value) == Code(Instances.EmptyList) && Subqueries(r.value) == map[]
  {
  }

  /** A list whose element type is already below the target's is returned
      unchanged; in particular casting a list to its own type is the
      identity. */
  lemma {:induction false} CastListUnchanged(inst: Instance, target: Type, dialect: Dialect)
    requires Valid(inst) && WellFormed(target) && TypeOf(inst).List? && target.List?
    requires Sub(TypeOf(inst).elem, target.elem)
    ensures inst != Instances.EmptyList ==> CastTo(inst, target, dialect) == Ok(inst)
    ensures CastTo(inst, TypeOf(inst), dialect) == Ok(inst)
  {
  }

  /** Otherwise a list is re-projected: its code is selected from, with the
      cast `value` column as the only field, aliased `value`; the element
      type is the cast column's, and the subqueries are the list's. */
  lemma {:induction false} CastListReprojects(inst: Instance, target: Type, dialect: Dialect)
    requires Valid(inst) && WellFormed(target) && inst.ListInstance? && target.List?
    requires inst != Instances.EmptyList && !Sub(TypeOf(inst).elem, target.elem)
    ensures var r := CastTo(inst, target, dialect);
      var e := CastTo(GetColumn(inst, "value"), target.elem, dialect);
      (e.Err? ==> r == Err(e.error)) &&
      (e.Ok? && Code(e.value).Err? ==> r == Err(Code(e.value).error)) &&
      (e.Ok? && Code(e.value).Ok? ==>
         r.Ok? && r.value.ListInstance? && r.value.subqueries == inst.subqueries &&
         TypeOf(r.value) == ListOf(TypeOf(e.value)) && Sub(TypeOf(e.value), target.elem) &&
         r.value.code == Select(target, inst.code, [ColumnAlias(Code(e.value).value, "value")]))
  {
  }

  /** An aggregate is cast by casting its element against the target's
      element and wrapping the result as an aggregate again, which keeps
      the cast element's code. */
  lemma {:induction false} CastAggregateRewraps(t: Type, e: Instance, target: Type, dialect: Dialect)
    requires Valid(AggregateInstance(t, e)) && WellFormed(target) && target.List?
    ensures var r := CastTo(AggregateInstance(t, e), target, dialect);
      var x := CastTo(e, target.elem, dialect);
      (x.Err? ==> r == Err(x.error)) &&
      (x.Ok? ==> r.Ok? && r.value == Aggregated(x.value) &&
                 TypeOf(r.value) == Aggregate(TypeOf(x.value)) && Code(r.value) == Code(x.value))
  {
  }

  /** A single-column table whose column type is below the target's element
      becomes a list projecting that column, aliased `value`. */
  lemma {:induction false} CastTableToList(inst: Instance, target: Type, dialect: Dialect)
    requires Valid(inst) && WellFormed(target) && inst.TableInstance? && target.List?
    requires |inst.ty.columns| == 1 && Sub(inst.ty.columns[0].ty, target.elem)
    ensures var col := inst.ty.columns[0];
      var r := CastTo(inst, target, dialect);
      r.Ok? && r.value.ListInstance? && TypeOf(r.value) == ListOf(col.ty) &&
      Code(r.value) == Ok(Select(ListOf(col.ty), inst.code, [ColumnAlias(Name(col.ty, col.name), "value")])) &&
      Subqueries(r.value) == Subqueries(inst)
  {
    MergeSubqueriesSingle(inst);
  }

  /** A vectorized value is cast as its element, against the same target. */
  lemma {:induction false} CastVectorized(inst: Instance, target: Type, dialect: Dialect)
    requires Valid(inst) && WellFormed(target) && TypeOf(inst).Vectorized?
    ensures CastTo(inst, target, dialect) == CastTo(Unvectorized(inst), target, dialect)
  {
    assert Dispatch(TypeOf(inst), target) == Unvectorize;
  }

  /** The integer cast's spelling depends on the dialect only. */
  lemma {:induction false} NumericCastSpelling(inst: Instance, dialect: Dialect)
    requires Valid(inst) && (TypeOf(inst).Bool? || TypeOf(inst).Float?) && Code(inst).Ok?
    ensures var r := CastTo(inst, Int, dialect);
      r.Ok? && TypeOf(r.value) == Int &&
      (dialect.MySql? ==> Code(r.value) == Ok(Sql.Cast(Int, "signed integer", Code(inst).value))) &&
      (dialect.OtherDialect? ==> Code(r.value) == Ok(Sql.Cast(Int, "int", Code(inst).value)))
  {
  }

  /** `_cast` itself has no identity rule for primitives: an integer cast
      to integer falls through to the fallback. */
  lemma {:induction false} CastIntToIntNotImplemented(inst: Instance, dialect: Dialect)
    requires Valid(inst) && TypeOf(inst).Int?
    ensures CastTo(inst, Int, dialect) == Err(CastNotImplemented(Int, Int))
  {
  }
}
