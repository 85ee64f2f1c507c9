/** The compile-time instance model: the value that stands for a partly
    compiled expression. Every variant is an immutable record; the source's
    `replace` is a datatype update here. */
module Instances {
  import opened Types
  import opened Sql
  import opened Errors

  /** Named subqueries to hoist, by name. */
  type SubqueryMap = map<string, Sql>

  /** One entry of a struct's, row's or map's attribute dictionary. */
  datatype Member = Member(name: string, inst: Instance)

  /** The literal a value instance knows at compile time. */
  datatype Literal = NullLit | BoolLit(b: bool) | IntLit(i: int) | StringLit(s: string)

  datatype Instance =
    | PlainInstance(code: Sql, ty: Type, subqueries: SubqueryMap)            // Instance
    | ValueInstance(code: Sql, ty: Type, subqueries: SubqueryMap, local: Literal)
    | ListInstance(code: Sql, ty: Type, subqueries: SubqueryMap)
    | TableInstance(code: Sql, ty: Type, subqueries: SubqueryMap)
    | AggregateInstance(ty: Type, elem: Instance)
    | StructInstance(ty: Type, attrs: seq<Member>, row: bool)                 // row: RowInstance
    | MapInstance(attrs: seq<Member>)
    | SelectedColumnInstance(parent: Instance, ty: Type, name: string)
    | MethodInstance(parent: Instance, func: string)
    | UnknownInstance

  /** The `type` attribute of an instance. */
  function TypeOf(inst: Instance): Type {
    match inst
    case MapInstance(_) => Any
    case MethodInstance(_, _) => Function
    case UnknownInstance => Unknown
    case _ => inst.ty
  }

  /** The unknown sentinel (`unknown`). */
  const TheUnknown: Instance := UnknownInstance

  /** The empty-list singleton: a list of nulls with no subqueries. */
  const EmptyListType: Type := ListOf(Null)
  const EmptyList: Instance := ListInstance(Sql.EmptyList(EmptyListType), EmptyListType, map[])

  // ---------------------------------------------------------------------
  // Attribute dictionaries

  predicate MemberNamesDistinct(attrs: seq<Member>) {
    forall i, j | 0 <= i < j < |attrs| :: attrs[i].name != attrs[j].name
  }

  /** `attrs[name]`, or None when the dictionary has no such key. */
  function Lookup(attrs: seq<Member>, name: string): (r: Option<Instance>)
    ensures r.Some? <==> exists i | 0 <= i < |attrs| :: attrs[i].name == name
    ensures r.Some? ==> exists i | 0 <= i < |attrs| :: attrs[i].name == name && attrs[i].inst == r.value
  {
    if |attrs| == 0 then None
    else if attrs[0].name == name then Some(attrs[0].inst)
    else
      var r := Lookup(attrs[1..], name);
      assert forall i | 0 < i < |attrs| :: attrs[i] == attrs[1..][i - 1];
      r
  }

  /** The dictionary `attrs` as a map. */
  function MembersMap(attrs: seq<Member>): (m: map<string, Instance>)
    ensures forall n :: n in m <==> Lookup(attrs, n).Some?
  {
    map n | n in (set i | 0 <= i < |attrs| :: attrs[i].name) :: Lookup(attrs, n).value
  }

  // ---------------------------------------------------------------------
  // Columns of collections

  /** `name` is a column of the list or table instance `inst`: a list has
      the single column `value`, a table the columns of its type. */
  predicate HasColumn(inst: Instance, name: string) {
    match inst
    case ListInstance(_, _, _) => name == "value"
    case TableInstance(_, t, _) => t.Table? && HasColumnNamed(t.columns, name)
    case _ => false
  }

  predicate HasColumnNamed(cols: seq<Column>, name: string) {
    exists i | 0 <= i < |cols| :: cols[i].name == name
  }

  /** `elems[name]` of a table type. */
  function ColumnTypeOf(cols: seq<Column>, name: string): (t: Type)
    requires HasColumnNamed(cols, name)
    ensures exists i | 0 <= i < |cols| :: cols[i].name == name && cols[i].ty == t
  {
    if cols[0].name == name then cols[0].ty
    else
      assert forall i | 0 < i < |cols| :: cols[i] == cols[1..][i - 1];
      assert HasColumnNamed(cols[1..], name) by {
        var i :| 0 <= i < |cols| && cols[i].name == name;
        assert cols[1..][i - 1].name == name;
      }
      ColumnTypeOf(cols[1..], name)
  }

  /** With distinct column names, the column found is the one named. */
  lemma {:induction false} ColumnTypeOfAt(cols: seq<Column>, k: nat)
    requires DistinctNames(cols) && k < |cols|
    ensures HasColumnNamed(cols, cols[k].name) && ColumnTypeOf(cols, cols[k].name) == cols[k].ty
  {
    assert HasColumnNamed(cols, cols[k].name);
  }

  /** The declared type of column `name` of a list or table instance. */
  function ColumnType(inst: Instance, name: string): Type
    requires HasColumn(inst, name)
  {
    if inst.ListInstance? then (if inst.ty.List? then inst.ty.elem else inst.ty)
    else ColumnTypeOf(inst.ty.columns, name)
  }

  // ---------------------------------------------------------------------
  // The invariant every constructor of the source keeps

  /** The assertions of the source's constructors (`__post_init__`) and the
      shapes its factory functions produce: a plain or value instance has a
      plain type; a list or table instance has a list or table type; an
      aggregate's type is `aggregate[elem.type]`; a struct has a struct type;
      dictionaries have distinct keys; a selected column names a column of a
      list or table instance. Every type in an instance is well formed. */
  predicate Valid(inst: Instance)
    decreases inst
  {
    match inst
    case PlainInstance(_, t, _) => PlainType(t) && WellFormed(t)
    case ValueInstance(_, t, _, _) => PlainType(t) && WellFormed(t)
    case ListInstance(_, t, _) => t.List? && WellFormed(t)
    case TableInstance(_, t, _) => t.Table? && WellFormed(t)
    case AggregateInstance(t, e) => Valid(e) && t == Aggregate(TypeOf(e))
    case StructInstance(t, attrs, _) =>
      t.Struct? && MemberNamesDistinct(attrs) && forall i | 0 <= i < |attrs| :: Valid(attrs[i].inst)
    case MapInstance(attrs) =>
      MemberNamesDistinct(attrs) && forall i | 0 <= i < |attrs| :: Valid(attrs[i].inst)
    case SelectedColumnInstance(p, t, n) =>
      (p.ListInstance? || p.TableInstance?) && Valid(p) && HasColumn(p, n) && WellFormed(t)
    case MethodInstance(p, _) => Valid(p)
    case UnknownInstance => true
  }

  /** Whether a selected column occurs where attribute access or code
      flattening would resolve it; it ranks the recursion through resolution. */
  predicate HasSelected(inst: Instance) {
    match inst
    case SelectedColumnInstance(_, _, _) => true
    case AggregateInstance(_, e) => HasSelected(e)
    case StructInstance(_, attrs, _) => exists i | 0 <= i < |attrs| :: HasSelected(attrs[i].inst)
    case _ => false
  }

  function Rank(inst: Instance): nat {
    if HasSelected(inst) then 1 else 0
  }

  // ---------------------------------------------------------------------
  // Subqueries

  /** Two maps that share a name share its body (the source's SafeDict
      refuses anything else). */
  predicate Compatible(ms: seq<SubqueryMap>) {
    forall i, j, k | 0 <= i < |ms| && 0 <= j < |ms| && k in ms[i] && k in ms[j] :: ms[i][k] == ms[j][k]
  }

  /** `SafeDict().update(*ms)`: every name of every map, with its body. */
  function MergeMaps(ms: seq<SubqueryMap>): (r: SubqueryMap)
    ensures forall k :: k in r <==> exists i | 0 <= i < |ms| :: k in ms[i]
    ensures Compatible(ms) ==> forall i, k | 0 <= i < |ms| && k in ms[i] :: r[k] == ms[i][k]
  {
    if |ms| == 0 then map[]
    else
      var front := ms[..|ms| - 1];
      var r := MergeMaps(front) + ms[|ms| - 1];
      MergeMapsKeys(ms, front, MergeMaps(front), r);
      MergeMapsValues(ms, front, MergeMaps(front), r);
      r
  }

  lemma {:induction false} MergeMapsKeys(ms: seq<SubqueryMap>, front: seq<SubqueryMap>, f: SubqueryMap, r: SubqueryMap)
    requires |ms| > 0 && front == ms[..|ms| - 1] && r == f + ms[|ms| - 1]
    requires forall k :: k in f <==> exists i | 0 <= i < |front| :: k in front[i]
    ensures forall k :: k in r <==> exists i | 0 <= i < |ms| :: k in ms[i]
  {
    assert forall i | 0 <= i < |front| :: front[i] == ms[i];
    forall k ensures k in r <==> exists i | 0 <= i < |ms| :: k in ms[i] {
      if k in r && k !in ms[|ms| - 1] {
        var i :| 0 <= i < |front| && k in front[i];
        assert k in ms[i];
      }
    }
  }

  lemma {:induction false} MergeMapsValues(ms: seq<SubqueryMap>, front: seq<SubqueryMap>, f: SubqueryMap, r: SubqueryMap)
    requires |ms| > 0 && front == ms[..|ms| - 1] && r == f + ms[|ms| - 1]
    requires forall k :: k in f <==> exists i | 0 <= i < |front| :: k in front[i]
    requires Compatible(front) ==> forall i, k | 0 <= i < |front| && k in front[i] :: f[k] == front[i][k]
    ensures Compatible(ms) ==> forall i, k | 0 <= i < |ms| && k in ms[i] :: k in r && r[k] == ms[i][k]
  {
    if !Compatible(ms) {
      return;
    }
    var last := |ms| - 1;
    CompatiblePrefix(ms, last);
    forall i, k | 0 <= i < |ms| && k in ms[i] ensures k in r && r[k] == ms[i][k] {
      if k in ms[last] {
        assert r[k] == ms[last][k];
      } else {
        assert front[i] == ms[i];
        assert k in f;
        assert r[k] == f[k] == front[i][k];
      }
    }
  }

  lemma {:induction false} CompatiblePrefix(ms: seq<SubqueryMap>, n: nat)
    requires Compatible(ms) && n <= |ms|
    ensures Compatible(ms[..n])
  {
    var p := ms[..n];
    forall i, j, k | 0 <= i < |p| && 0 <= j < |p| && k in p[i] && k in p[j] ensures p[i][k] == p[j][k] {
      assert p[i] == ms[i] && p[j] == ms[j];
    }
  }

  /** Whether reading `subqueries` succeeds: maps and methods have no such
      attribute, and a struct's members must have compatible subqueries. */
  predicate HasSubqueries(inst: Instance)
    decreases inst, 0
  {
    match inst
    case AggregateInstance(_, e) => HasSubqueries(e)
    case StructInstance(_, attrs, _) =>
      (forall i | 0 <= i < |attrs| :: HasSubqueries(attrs[i].inst)) &&
      Compatible(seq(|attrs|, i requires 0 <= i < |attrs| && HasSubqueries(attrs[i].inst) =>
                                Subqueries(attrs[i].inst)))
    case MapInstance(_) => false
    case MethodInstance(_, _) => false
    case SelectedColumnInstance(p, _, _) => HasSubqueries(p)
    case _ => true
  }

  /** The `subqueries` attribute: an aggregate's are its element's, a
      struct's are its members' merged, a selected column's are its
      parent's, the unknown sentinel has none. */
  function Subqueries(inst: Instance): (r: SubqueryMap)
    requires HasSubqueries(inst)
    ensures inst.StructInstance? ==>
      (forall k :: k in r <==> exists i | 0 <= i < |inst.attrs| :: k in Subqueries(inst.attrs[i].inst)) &&
      (forall i, k | 0 <= i < |inst.attrs| && k in Subqueries(inst.attrs[i].inst) :: r[k] == Subqueries(inst.attrs[i].inst)[k])
    decreases inst, 1
  {
    match inst
    case AggregateInstance(_, e) => Subqueries(e)
    case StructInstance(_, attrs, _) =>
      var ms := seq(|attrs|, i requires 0 <= i < |attrs| && HasSubqueries(attrs[i].inst) => Subqueries(attrs[i].inst));
      assert forall i | 0 <= i < |attrs| :: ms[i] == Subqueries(attrs[i].inst);
      MergeMaps(ms)
    case SelectedColumnInstance(p, _, _) => Subqueries(p)
    case UnknownInstance => map[]
    case PlainInstance(_, _, sq) => sq
    case ValueInstance(_, _, sq, _) => sq
    case ListInstance(_, _, sq) => sq
    case TableInstance(_, _, sq) => sq
  }

  predicate Mergeable(insts: seq<Instance>) {
    (forall i | 0 <= i < |insts| :: HasSubqueries(insts[i])) &&
    Compatible(seq(|insts|, i requires 0 <= i < |insts| && HasSubqueries(insts[i]) => Subqueries(insts[i])))
  }

  /** `merge_subqueries(instances)`: the union of the instances' subqueries.
      Callers keep them compatible; a clash is an internal error. */
  function MergeSubqueries(insts: seq<Instance>): (r: SubqueryMap)
    requires Mergeable(insts)
    ensures forall k :: k in r <==> exists i | 0 <= i < |insts| :: k in Subqueries(insts[i])
    ensures forall i, k | 0 <= i < |insts| && k in Subqueries(insts[i]) :: r[k] == Subqueries(insts[i])[k]
  {
    var ms := seq(|insts|, i requires 0 <= i < |insts| && HasSubqueries(insts[i]) => Subqueries(insts[i]));
    assert forall i | 0 <= i < |insts| :: ms[i] == Subqueries(insts[i]);
    MergeMaps(ms)
  }

  /** Merging the subqueries of one instance gives back its own. */
  lemma {:induction false} MergeSubqueriesSingle(inst: Instance)
    requires HasSubqueries(inst)
    ensures Mergeable([inst]) && MergeSubqueries([inst]) == Subqueries(inst)
  {
    assert MergeSubqueries([inst]).Keys == Subqueries(inst).Keys;
  }

  // ---------------------------------------------------------------------
  // Code

  /** The `code` attribute: the single SQL fragment of an instance. Structs
      and maps are abstract and refuse it, and so does a selected column. */
  function Code(inst: Instance): (r: Result<Sql>)
    ensures Valid(inst) && (TypeOf(inst).Struct? || inst.MapInstance?) ==> r.Err? && r.error.IsTypeError()
    ensures Valid(inst) && r.Ok? ==> Materializable(TypeOf(inst)) && HasSubqueries(inst) && !HasSelected(inst)
    ensures Valid(inst) && r.Ok? && UnknownCore(TypeOf(inst)) ==>
      r.value == UnknownCode && HasSubqueries(inst) && Subqueries(inst) == map[]
  {
    match inst
    case PlainInstance(c, _, _) => Ok(c)
    case ValueInstance(c, _, _, _) => Ok(c)
    case ListInstance(c, _, _) => Ok(c)
    case TableInstance(c, _, _) => Ok(c)
    case AggregateInstance(_, e) => Code(e)
    case StructInstance(_, _, _) => Err(StructHasNoCode)
    case MapInstance(_) => Err(StructHasNoCode)
    case SelectedColumnInstance(_, _, _) => Err(OperationNotSupported)
    case MethodInstance(_, _) => Err(MissingPythonAttribute("code"))
    case UnknownInstance => Ok(UnknownCode)
  }

  // ---------------------------------------------------------------------
  // Construction

  /** `make_instance(code, t, insts)`: the instance of type `t` over `code`,
      holding the merged subqueries of `insts`. Its variant follows `t`:
      list, table, aggregate (wrapping the instance of the element type),
      the unknown sentinel, and a plain instance otherwise. */
  function MakeInstance(code: Sql, t: Type, insts: seq<Instance>): (r: Instance)
    requires Materializable(t) && Mergeable(insts)
    ensures Valid(r) && TypeOf(r) == t && !HasSelected(r) && HasSubqueries(r)
    ensures Code(r) == Ok(if UnknownCore(t) then UnknownCode else code)
    ensures Subqueries(r) == if UnknownCore(t) then map[] else MergeSubqueries(insts)
    ensures t.List? ==> r.ListInstance?
    ensures t.Table? ==> r.TableInstance?
    ensures t.Aggregate? ==> r.AggregateInstance?
    ensures PlainType(t) ==> r.PlainInstance?
    decreases t
  {
    if t.List? then ListInstance(code, t, MergeSubqueries(insts))
    else if t.Table? then TableInstance(code, t, MergeSubqueries(insts))
    else if t.Aggregate? then AggregateInstance(t, MakeInstance(code, t.elem, insts))
    else if t.Unknown? then UnknownInstance
    else PlainInstance(code, t, MergeSubqueries(insts))
  }

  /** A struct whose members are valid, free of selected columns and of
      subqueries is itself all three. */
  lemma {:induction false} StructOfFreshMembers(t: Type, attrs: seq<Member>)
    requires t.Struct? && DistinctNames(t.fields) && |attrs| == |t.fields|
    requires forall i | 0 <= i < |attrs| :: attrs[i].name == t.fields[i].name
    requires forall i | 0 <= i < |attrs| ::
      Valid(attrs[i].inst) && !HasSelected(attrs[i].inst) &&
      HasSubqueries(attrs[i].inst) && Subqueries(attrs[i].inst) == map[]
    ensures var r := StructInstance(t, attrs, false);
      Valid(r) && !HasSelected(r) && HasSubqueries(r) && Subqueries(r) == map[]
  {
    var ms := seq(|attrs|, i requires 0 <= i < |attrs| && HasSubqueries(attrs[i].inst) => Subqueries(attrs[i].inst));
    assert forall i | 0 <= i < |ms| :: ms[i] == map[];
  }

  /** `make_instance_from_name(t, cn)`: the instance a column named `cn` of
      type `t` stands for. A struct becomes a struct instance whose members
      are built the same way under joined names; anything else is
      `make_instance` over a name fragment. */
  function MakeInstanceFromName(t: Type, cn: string): (r: Instance)
    requires WellFormed(t)
    ensures Valid(r) && TypeOf(r) == t && !HasSelected(r)
    ensures HasSubqueries(r) && Subqueries(r) == map[]
    ensures t.Struct? ==> r.StructInstance? && !r.row && |r.attrs| == |t.fields|
    ensures t.Struct? ==> forall i | 0 <= i < |t.fields| ::
      r.attrs[i] == Member(t.fields[i].name, MakeInstanceFromName(t.fields[i].ty, JoinNames(cn, t.fields[i].name)))
    decreases t
  {
    match t
    case Struct(fs) =>
      var attrs := seq(|fs|, i requires 0 <= i < |fs| =>
                         Member(fs[i].name, MakeInstanceFromName(fs[i].ty, JoinNames(cn, fs[i].name))));
      StructOfFreshMembers(t, attrs);
      StructInstance(t, attrs, false)
    case _ => MakeInstance(Name(t, cn), t, [])
  }

  /** `aggregate(inst)`: wrap an instance as the aggregate of itself. */
  function Aggregated(inst: Instance): (r: Instance)
    ensures TypeOf(r) == Aggregate(TypeOf(inst))
    ensures Valid(inst) ==> Valid(r)
    ensures Code(r) == Code(inst)
    ensures HasSubqueries(r) == HasSubqueries(inst)
    ensures HasSubqueries(inst) ==> Subqueries(r) == Subqueries(inst)
    ensures Valid(inst) ==> FlattenCode(r) == FlattenCode(inst)
  {
    AggregateInstance(Aggregate(TypeOf(inst)), inst)
  }

  /** `get_column(name)` of a list or table instance: the instance of the
      column's declared type, built afresh from its name. */
  function GetColumn(inst: Instance, name: string): (r: Instance)
    requires Valid(inst) && HasColumn(inst, name)
    ensures Valid(r) && !HasSelected(r) && TypeOf(r) == ColumnType(inst, name)
  {
    var t := ColumnType(inst, name);
    assert WellFormed(t);
    MakeInstanceFromName(t, name)
  }

  // ---------------------------------------------------------------------
  // Flattening

  /** `flatten_code()`: the SQL fragments an instance stands for, in order.
      An instance with code flattens to that one fragment; a struct to its
      members' fragments in member order; an aggregate to its element's; a
      selected column to those of the column its parent defines now. */
  function FlattenCode(inst: Instance): (r: Result<seq<Sql>>)
    requires Valid(inst)
    ensures Code(inst).Ok? ==> r == Ok([Code(inst).value])
    decreases Rank(inst), inst, 1, 0
  {
    match inst
    case PlainInstance(c, _, _) => Ok([c])
    case ValueInstance(c, _, _, _) => Ok([c])
    case ListInstance(c, _, _) => Ok([c])
    case TableInstance(c, _, _) => Ok([c])
    case AggregateInstance(_, e) => FlattenCode(e)
    case StructInstance(_, _, _) => FlattenMembers(inst, 0)
    case SelectedColumnInstance(p, _, n) => FlattenCode(GetColumn(p, n))
    case UnknownInstance => Ok([UnknownCode])
    case MapInstance(_) => Err(MissingPythonAttribute("flatten_code"))
    case MethodInstance(_, _) => Err(MissingPythonAttribute("flatten_code"))
  }

  /** The `j`-th member of struct `inst` flattens without error. */
  predicate MemberFlattens(inst: Instance, j: nat)
    requires Valid(inst) && inst.StructInstance? && j < |inst.attrs|
    decreases Rank(inst), inst, 0, 0
  {
    assert HasSelected(inst.attrs[j].inst) ==> HasSelected(inst);
    FlattenCode(inst.attrs[j].inst).Ok?
  }

  /** The concatenated fragments of the members of struct `inst` from the
      `i`-th on; the first member that cannot flatten fails the whole. */
  function FlattenMembers(inst: Instance, i: nat): (r: Result<seq<Sql>>)
    requires Valid(inst) && inst.StructInstance? && i <= |inst.attrs|
    ensures r.Ok? <==> forall j | i <= j < |inst.attrs| :: MemberFlattens(inst, j)
    decreases Rank(inst), inst, 0, |inst.attrs| - i
  {
    if i == |inst.attrs| then Ok([])
    else
      var head := FlattenCode(inst.attrs[i].inst);
      assert MemberFlattens(inst, i) <==> head.Ok?;
      if head.Err? then Err(head.error)
      else
        var tail := FlattenMembers(inst, i + 1);
        if tail.Err? then
          assert exists j | i + 1 <= j < |inst.attrs| :: !MemberFlattens(inst, j);
          Err(tail.error)
        else Ok(head.value + tail.value)
  }

  // ---------------------------------------------------------------------
  // Attribute access

  /** `get_attr(name)` of a list or table: a column, as a selected column
      of the column's type, else a method of the type, else an
      AttributeError. A list's only column is `value`. */
  function CollectionAttr(inst: Instance, name: string): (r: Result<Instance>)
    requires Valid(inst) && (inst.ListInstance? || inst.TableInstance?)
    ensures r.Ok? ==> Valid(r.value)
  {
    if HasColumn(inst, name) then
      Ok(SelectedColumnInstance(inst, ColumnType(inst, name), name))
    else if name in inst.ty.methods then
      Ok(MethodInstance(inst, name))
    else
      Err(NoSuchAttribute(name))
  }

  /** `make_instance(x.code, aggregate[x.type], [x])`: `x` wrapped as an
      aggregate with its own code and subqueries. */
  function AggregateOf(x: Instance): (r: Result<Instance>)
    requires Valid(x)
    ensures Code(x).Err? ==> r == Err(Code(x).error)
    ensures Code(x).Ok? ==>
      r.Ok? && Valid(r.value) && r.value.AggregateInstance? && TypeOf(r.value) == Aggregate(TypeOf(x)) &&
      Code(r.value) == Code(x) && HasSubqueries(x) && HasSubqueries(r.value) &&
      Subqueries(r.value) == Subqueries(x)
  {
    var code :- Code(x);
    MergeSubqueriesSingle(x);
    Ok(MakeInstance(code, Aggregate(TypeOf(x)), [x]))
  }

  /** `get_attr(name)`. A list exposes its `value` column, a table its
      columns, each as a selected column, and both their type's methods; an
      aggregate re-wraps its element's attribute as an aggregate; structs
      and maps look the name up among their members; a selected column asks
      the column its parent defines; the unknown sentinel answers itself. */
  function GetAttr(inst: Instance, name: string): (r: Result<Instance>)
    requires Valid(inst)
    ensures r.Ok? ==> Valid(r.value)
    decreases Rank(inst), inst
  {
    match inst
    case PlainInstance(_, _, _) => Err(NoSuchAttribute(name))
    case ValueInstance(_, _, _, _) => Err(NoSuchAttribute(name))
    case ListInstance(_, _, _) => CollectionAttr(inst, name)
    case TableInstance(_, _, _) => CollectionAttr(inst, name)
    case AggregateInstance(_, e) =>
      var x :- GetAttr(e, name);
      AggregateOf(x)
    case StructInstance(_, attrs, _) =>
      (match Lookup(attrs, name)
       case Some(m) => Ok(m)
       case None => Err(NoSuchAttribute(name)))
    case MapInstance(attrs) =>
      (match Lookup(attrs, name)
       case Some(m) => Ok(m)
       case None => Err(NoSuchAttribute(name)))
    case SelectedColumnInstance(p, _, n) => GetAttr(GetColumn(p, n), name)
    case MethodInstance(_, _) => Err(NoSuchAttribute(name))
    case UnknownInstance => Ok(inst)
  }

  /** The first of `cols` whose name is also one of the method names `ms`. */
  function ClashingColumn(cols: seq<Column>, ms: set<string>): (r: Option<string>)
    ensures r.Some? <==> exists i | 0 <= i < |cols| :: cols[i].name in ms
    ensures r.Some? ==> (r.value in ms &&
      exists i | 0 <= i < |cols| :: cols[i].name == r.value && forall j | 0 <= j < i :: cols[j].name !in ms)
  {
    if |cols| == 0 then None
    else if cols[0].name in ms then Some(cols[0].name)
    else
      var r := ClashingColumn(cols[1..], ms);
      assert forall i | 0 < i < |cols| :: cols[i] == cols[1..][i - 1];
      r
  }

  /** `all_attrs()`: every attribute by name. A list's `value` column
      overwrites a method of that name; a table's columns are added to its
      methods with `SafeDict.update`, which refuses a column named like a
      method, modelled as the DuplicateKey error. Methods appear as method
      instances bound to `inst` (the source lists the type's method objects),
      columns as the instances `get_column` builds. */
  function AllAttrs(inst: Instance): (r: Result<map<string, Instance>>)
    requires Valid(inst)
    ensures inst.TableInstance? ==>
      (r.Err? <==> ClashingColumn(inst.ty.columns, inst.ty.methods).Some?)
    ensures inst.TableInstance? && r.Err? ==>
      r.error == DuplicateKey(ClashingColumn(inst.ty.columns, inst.ty.methods).value)
    ensures r.Ok? ==> forall n | n in r.value :: Valid(r.value[n])
    decreases inst
  {
    match inst
    case ListInstance(_, t, _) =>
      Ok((map n | n in t.methods :: MethodInstance(inst, n))["value" := GetColumn(inst, "value")])
    case TableInstance(_, t, _) =>
      var clash := ClashingColumn(t.columns, t.methods);
      if clash.Some? then Err(DuplicateKey(clash.value))
      else
        var names := set i | 0 <= i < |t.columns| :: t.columns[i].name;
        Ok((map n | n in t.methods :: MethodInstance(inst, n)) + (map n | n in names :: GetColumn(inst, n)))
    case AggregateInstance(_, e) => AllAttrs(e)
    case StructInstance(_, attrs, _) => MembersValid(attrs); Ok(MembersMap(attrs))
    case MapInstance(attrs) => MembersValid(attrs); Ok(MembersMap(attrs))
    case UnknownInstance => Ok(map[])
    case _ => Err(MissingPythonAttribute("all_attrs"))
  }

  lemma {:induction false} MembersValid(attrs: seq<Member>)
    requires forall i | 0 <= i < |attrs| :: Valid(attrs[i].inst)
    ensures forall n | n in MembersMap(attrs) :: Valid(MembersMap(attrs)[n])
  {
    forall n | n in MembersMap(attrs) ensures Valid(MembersMap(attrs)[n]) {
      var i :| 0 <= i < |attrs| && attrs[i].name == n && attrs[i].inst == Lookup(attrs, n).value;
    }
  }

  /** `primary_key()`: the instance that keys a row. Plain, value, list,
      table and map instances are their own key; a row's key is its `id`
      member; any other struct's is its first member (the fallback the
      source itself marks as wrong); an aggregate's is its element's. */
  function PrimaryKey(inst: Instance): (r: Result<Instance>)
    ensures Valid(inst) && r.Ok? ==> Valid(r.value)
  {
    match inst
    case PlainInstance(_, _, _) => Ok(inst)
    case ValueInstance(_, _, _, _) => Ok(inst)
    case ListInstance(_, _, _) => Ok(inst)
    case TableInstance(_, _, _) => Ok(inst)
    case MapInstance(_) => Ok(inst)
    case AggregateInstance(_, e) => PrimaryKey(e)
    case StructInstance(_, attrs, row) =>
      if row then
        (match Lookup(attrs, "id")
         case Some(m) => Ok(m)
         case None => Err(KeyNotFound("id")))
      else if |attrs| == 0 then Err(EmptyStruct)
      else Ok(attrs[0].inst)
    case _ => Err(MissingPythonAttribute("primary_key"))
  }

  // ---------------------------------------------------------------------
  // Properties

  /** The fragment a leaf column of a named instance flattens to: its name,
      or the unknown sentinel's code for a column of unknown type. */
  function LeafCode(c: Column): Sql {
    if UnknownCore(c.ty) then UnknownCode else Name(c.ty, c.name)
  }

  function LeafCodes(cs: seq<Column>): (r: seq<Sql>)
    ensures |r| == |cs| && forall i | 0 <= i < |cs| :: r[i] == LeafCode(cs[i])
  {
    seq(|cs|, i requires 0 <= i < |cs| => LeafCode(cs[i]))
  }

  /** The instance named `cn` of type `t` flattens to one name fragment per
      leaf column of `t`, in field order, named by the joined member path. */
  lemma {:induction false} FlattenNamed(t: Type, cn: string)
    requires WellFormed(t)
    ensures FlattenCode(MakeInstanceFromName(t, cn)) == Ok(LeafCodes(FlatColumns(t, cn)))
    decreases t, 1, 0
  {
    if t.Struct? {
      FlattenNamedFields(t, cn, 0);
    } else {
      assert LeafCodes(FlatColumns(t, cn)) == [LeafCode(Column(cn, t))];
    }
  }

  lemma {:induction false} FlattenNamedFields(t: Type, cn: string, i: nat)
    requires WellFormed(t) && t.Struct? && i <= |t.fields|
    ensures FlattenMembers(MakeInstanceFromName(t, cn), i) == Ok(LeafCodes(FlatFields(t, cn, i)))
    decreases t, 0, |t.fields| - i
  {
    var r := MakeInstanceFromName(t, cn);
    if i < |t.fields| {
      var f := t.fields[i];
      var name := JoinNames(cn, f.name);
      var m := MakeInstanceFromName(f.ty, name);
      var a, b := FlatColumns(f.ty, name), FlatFields(t, cn, i + 1);
      assert r.attrs[i].inst == m;
      FlattenNamed(f.ty, name);
      FlattenNamedFields(t, cn, i + 1);
      assert FlattenCode(m) == Ok(LeafCodes(a));
      assert FlattenMembers(r, i) == Ok(LeafCodes(a) + LeafCodes(b));
      LeafCodesAppend(a, b);
      assert FlatFields(t, cn, i) == a + b;
    }
  }

  lemma {:induction false} LeafCodesAppend(a: seq<Column>, b: seq<Column>)
    ensures LeafCodes(a + b) == LeafCodes(a) + LeafCodes(b)
  {
    assert forall k | 0 <= k < |a + b| :: LeafCodes(a + b)[k] == (LeafCodes(a) + LeafCodes(b))[k];
  }

  /** Narrowing a struct: the struct itself refuses to give code, with a
      TypeError, while its `k`-th member is reached by its name. */
  lemma {:induction false} StructNarrowing(t: Type, attrs: seq<Member>, row: bool, k: nat)
    requires Valid(StructInstance(t, attrs, row)) && k < |attrs|
    ensures Code(StructInstance(t, attrs, row)).Err? && Code(StructInstance(t, attrs, row)).error.IsTypeError()
    ensures GetAttr(StructInstance(t, attrs, row), attrs[k].name) == Ok(attrs[k].inst)
  {
    var r := Lookup(attrs, attrs[k].name);
    var i :| 0 <= i < |attrs| && attrs[i].name == attrs[k].name && attrs[i].inst == r.value;
    assert i == k;
  }

  /** A struct or map has exactly the attributes named by its members. */
  lemma {:induction false} StructAttributes(inst: Instance, name: string)
    requires Valid(inst) && (inst.StructInstance? || inst.MapInstance?)
    ensures GetAttr(inst, name).Ok? <==> exists i | 0 <= i < |inst.attrs| :: inst.attrs[i].name == name
    ensures GetAttr(inst, name).Err? ==> GetAttr(inst, name).error == NoSuchAttribute(name)
  {
  }

  /** An attribute of an aggregate is the element's attribute re-wrapped as
      `aggregate[x.type]`, with the same code and subqueries as `x`; the
      element's failures, and its refusal to give code, propagate. */
  lemma {:induction false} AggregateAttribute(t: Type, e: Instance, name: string)
    requires Valid(AggregateInstance(t, e))
    ensures GetAttr(e, name).Err? ==> GetAttr(AggregateInstance(t, e), name) == Err(GetAttr(e, name).error)
    ensures GetAttr(e, name).Ok? ==>
      var x := GetAttr(e, name).value;
      var r := GetAttr(AggregateInstance(t, e), name);
      (Code(x).Err? ==> r == Err(Code(x).error)) &&
      (Code(x).Ok? ==>
         r.Ok? && r.value.AggregateInstance? && TypeOf(r.value) == Aggregate(TypeOf(x)) &&
         Code(r.value) == Code(x) && HasSubqueries(x) && HasSubqueries(r.value) &&
         Subqueries(r.value) == Subqueries(x))
  {
  }

  /** A list or table instance answers a column name with a selected column
      that resolves to `get_column(name)`, any other method name of its type
      with a method, and anything else with an AttributeError. A list's only
      column is `value`. */
  lemma {:induction false} CollectionAttributes(inst: Instance, name: string)
    requires Valid(inst) && (inst.ListInstance? || inst.TableInstance?)
    ensures HasColumn(inst, name) ==>
      GetAttr(inst, name) == Ok(SelectedColumnInstance(inst, ColumnType(inst, name), name)) &&
      FlattenCode(GetAttr(inst, name).value) == FlattenCode(GetColumn(inst, name))
    ensures !HasColumn(inst, name) && name in inst.ty.methods ==>
      GetAttr(inst, name) == Ok(MethodInstance(inst, name))
    ensures !HasColumn(inst, name) && name !in inst.ty.methods ==>
      GetAttr(inst, name) == Err(NoSuchAttribute(name))
    ensures inst.ListInstance? ==> (HasColumn(inst, name) <==> name == "value")
  {
  }

  /** A selected column keeps no copy of its column: whatever type it
      recorded, it flattens and answers attributes as the column its parent
      defines does, and it has its parent's subqueries. */
  lemma {:induction false} SelectedColumnDefersToParent(p: Instance, t1: Type, t2: Type, n: string, name: string)
    requires Valid(SelectedColumnInstance(p, t1, n)) && Valid(SelectedColumnInstance(p, t2, n))
    ensures FlattenCode(SelectedColumnInstance(p, t1, n)) == FlattenCode(SelectedColumnInstance(p, t2, n))
                                                        == FlattenCode(GetColumn(p, n))
    ensures GetAttr(SelectedColumnInstance(p, t1, n), name) == GetAttr(SelectedColumnInstance(p, t2, n), name)
                                                          == GetAttr(GetColumn(p, n), name)
    ensures Subqueries(SelectedColumnInstance(p, t1, n)) == Subqueries(p)
    ensures Code(SelectedColumnInstance(p, t1, n)) == Err(OperationNotSupported)
  {
  }

  /** `all_attrs()` of a list, table, struct or map names exactly the
      attributes `get_attr` answers, except for a table with a column named
      like one of its methods: there `get_attr` answers the column while
      `all_attrs` fails on the duplicate key. */
  lemma {:induction false} AllAttrsAgreesWithGetAttr(inst: Instance, name: string)
    requires Valid(inst) && (inst.ListInstance? || inst.TableInstance? || inst.StructInstance? || inst.MapInstance?)
    ensures inst.TableInstance? && ClashingColumn(inst.ty.columns, inst.ty.methods).Some? ==>
      var c := ClashingColumn(inst.ty.columns, inst.ty.methods).value;
      AllAttrs(inst) == Err(DuplicateKey(c)) &&
      GetAttr(inst, c) == Ok(SelectedColumnInstance(inst, ColumnType(inst, c), c))
    ensures !(inst.TableInstance? && ClashingColumn(inst.ty.columns, inst.ty.methods).Some?) ==>
      AllAttrs(inst).Ok? && (name in AllAttrs(inst).value <==> GetAttr(inst, name).Ok?)
  {
    if inst.TableInstance? {
      var cols := inst.ty.columns;
      var clash := ClashingColumn(cols, inst.ty.methods);
      if clash.Some? {
        var i :| 0 <= i < |cols| && cols[i].name == clash.value;
        assert HasColumnNamed(cols, clash.value);
      } else {
        var names := set i | 0 <= i < |cols| :: cols[i].name;
        if HasColumnNamed(cols, name) {
          var i :| 0 <= i < |cols| && cols[i].name == name;
          assert name in names;
        }
      }
    }
  }

  /** The unknown sentinel absorbs every attribute access and has neither
      attributes to list nor subqueries. */
  lemma {:induction false} UnknownAbsorbs(name: string)
    ensures GetAttr(TheUnknown, name) == Ok(TheUnknown)
    ensures AllAttrs(TheUnknown) == Ok(map[])
    ensures Subqueries(TheUnknown) == map[]
    ensures FlattenCode(TheUnknown) == Ok([UnknownCode])
  {
  }

  /** A struct's subqueries are `merge_subqueries` of its members. */
  lemma {:induction false} StructSubqueries(t: Type, attrs: seq<Member>, row: bool)
    requires HasSubqueries(StructInstance(t, attrs, row))
    ensures var insts := seq(|attrs|, i requires 0 <= i < |attrs| => attrs[i].inst);
      Mergeable(insts) && Subqueries(StructInstance(t, attrs, row)) == MergeSubqueries(insts)
  {
    var insts := seq(|attrs|, i requires 0 <= i < |attrs| => attrs[i].inst);
    var a := seq(|attrs|, i requires 0 <= i < |attrs| && HasSubqueries(attrs[i].inst) => Subqueries(attrs[i].inst));
    var b := seq(|insts|, i requires 0 <= i < |insts| && HasSubqueries(insts[i]) => Subqueries(insts[i]));
    assert a == b;
  }

  /** `primary_key()` per variant: instances of plain, value, list and table
      types, and maps, are their own key; an aggregate defers to its element
      (so wrapping with `aggregate` keeps the key); a struct that is not a row
      is keyed by its first member, and one without members has none. */
  lemma {:induction false} PrimaryKeyCases(inst: Instance)
    ensures (inst.PlainInstance? || inst.ValueInstance? || inst.ListInstance? ||
             inst.TableInstance? || inst.MapInstance?) ==> PrimaryKey(inst) == Ok(inst)
    ensures inst.AggregateInstance? ==> PrimaryKey(inst) == PrimaryKey(inst.elem)
    ensures PrimaryKey(Aggregated(inst)) == PrimaryKey(inst)
    ensures inst.StructInstance? && !inst.row && |inst.attrs| == 0 ==> PrimaryKey(inst) == Err(EmptyStruct)
    ensures inst.StructInstance? && !inst.row && |inst.attrs| > 0 ==> PrimaryKey(inst) == Ok(inst.attrs[0].inst)
    ensures inst.SelectedColumnInstance? || inst.MethodInstance? || inst.UnknownInstance? ==>
      PrimaryKey(inst) == Err(MissingPythonAttribute("primary_key"))
  {
  }

  /** The key of a struct built from a struct type is the member built from
      its first field (the source's known-wrong fallback); a row's key is its
      `id` member, and a row without one fails. */
  lemma {:induction false} PrimaryKeyOfNamedStruct(t: Type, cn: string)
    requires WellFormed(t) && t.Struct? && |t.fields| > 0
    ensures PrimaryKey(MakeInstanceFromName(t, cn)) ==
            Ok(MakeInstanceFromName(t.fields[0].ty, JoinNames(cn, t.fields[0].name)))
  {
  }

  lemma {:induction false} PrimaryKeyOfRow(t: Type, attrs: seq<Member>, k: nat)
    requires Valid(StructInstance(t, attrs, true)) && k < |attrs| && attrs[k].name == "id"
    ensures PrimaryKey(StructInstance(t, attrs, true)) == Ok(attrs[k].inst)
  {
    var r := Lookup(attrs, "id");
    var i :| 0 <= i < |attrs| && attrs[i].name == "id" && attrs[i].inst == r.value;
    assert i == k;
  }

  lemma {:induction false} PrimaryKeyOfRowWithoutId(t: Type, attrs: seq<Member>)
    requires forall i | 0 <= i < |attrs| :: attrs[i].name != "id"
    ensures PrimaryKey(StructInstance(t, attrs, true)) == Err(KeyNotFound("id"))
  {
  }
}
