/** The part of the type lattice that the instance model, the cast resolver and
    argument matching rely on. The real lattice lives in pql_types, which is not
    part of this model; this module declares a small closed set of type tags and
    a subtype order on them, and proves that order reflexive and transitive. */
module Types {

  /** A named, typed slot: a table column or a struct field. */
  datatype Column = Column(name: string, ty: Type)

  datatype Type =
    | Null
    | Bool
    | Int
    | Float
    | String
    | Id                                   // t_id: the key of a table row
    | Relation                             // t_relation: a reference to a row of another table
    | List(elem: Type, methods: set<string>)
    | Table(name: string, columns: seq<Column>, methods: set<string>)
    | Struct(fields: seq<Column>)
    | Aggregate(elem: Type)
    | Vectorized(elem: Type)
    | Function
    | Unknown
    | Any

  /** The methods of a list type made by `T.list[elem]`. The method tables of
      the type module are not part of this model, so none are named here; a
      list type given by a caller may carry any. */
  const ListMethods: set<string> := {}

  /** `T.list[elem]`. */
  function ListOf(elem: Type): Type {
    List(elem, ListMethods)
  }

  /** The primitive kind: the types a value can be cast to text from. */
  predicate IsPrimitive(t: Type) {
    t.Bool? || t.Int? || t.Float? || t.String?
  }

  /** `a <= b`. Every type is below Any; lists, aggregates and vectorized types
      are covariant in their element; an aggregate is below a list whose
      element is above the aggregate's element. */
  predicate Sub(a: Type, b: Type)
    decreases a
  {
    a == b || b.Any? ||
    match a
    case List(x, _) => b.List? && Sub(x, b.elem)
    case Aggregate(x) => (b.Aggregate? || b.List?) && Sub(x, b.elem)
    case Vectorized(x) => b.Vectorized? && Sub(x, b.elem)
    case _ => false
  }

  lemma {:induction false} SubReflexive(a: Type)
    ensures Sub(a, a)
  {
  }

  lemma {:induction false} SubTransitive(a: Type, b: Type, c: Type)
    requires Sub(a, b) && Sub(b, c)
    ensures Sub(a, c)
    decreases a
  {
    if a == b || b == c || c.Any? {
    } else if b.Any? {
      // Any is below nothing but itself
    } else {
      match a
      case List(x, _) =>
        SubTransitive(x, b.elem, c.elem);
      case Aggregate(x) =>
        SubTransitive(x, b.elem, c.elem);
      case Vectorized(x) =>
        SubTransitive(x, b.elem, c.elem);
    }
  }

  /** The names of `cols` are pairwise distinct (a Python dict's keys). */
  predicate DistinctNames(cols: seq<Column>) {
    forall i, j | 0 <= i < j < |cols| :: cols[i].name != cols[j].name
  }

  /** A type that instances can be built from without tripping one of the
      source's assertions: a plain value type is none of struct, aggregate,
      table, list and unknown; an aggregate never wraps a struct; a vectorized
      type wraps a plain value type; columns and fields are dictionaries. */
  predicate PlainType(t: Type) {
    !(t.Struct? || t.Aggregate? || t.Table? || t.List? || t.Unknown?)
  }

  predicate WellFormed(t: Type)
    decreases t
  {
    match t
    case List(e, _) => WellFormed(e)
    case Table(_, cols, _) =>
      DistinctNames(cols) && forall i | 0 <= i < |cols| :: WellFormed(cols[i].ty)
    case Struct(fs) =>
      DistinctNames(fs) && forall i | 0 <= i < |fs| :: WellFormed(fs[i].ty)
    case Aggregate(e) => WellFormed(e) && !e.Struct?
    case Vectorized(e) => WellFormed(e) && PlainType(e)
    case _ => true
  }

  /** The types make_instance accepts: it asserts that its type is not a struct. */
  predicate Materializable(t: Type) {
    WellFormed(t) && !t.Struct?
  }

  /** join_names((prefix, name)): the flattened name of a struct member. */
  function JoinNames(prefix: string, name: string): string {
    prefix + "_" + name
  }

  /** A type whose instances are the unknown sentinel: unknown itself, or
      aggregates of it (make_instance wraps the sentinel in aggregates). */
  predicate UnknownCore(t: Type) {
    t.Unknown? || (t.Aggregate? && UnknownCore(t.elem))
  }

  /** The leaf columns of `t` named under `prefix`: a struct expands to the
      leaves of its fields, in field order, under joined names; any other
      type is one leaf. This is the reference against which the flattened
      code of a named instance is proved. */
  function FlatColumns(t: Type, prefix: string): (r: seq<Column>)
    decreases t, 1, 0
  {
    match t
    case Struct(fs) => FlatFields(t, prefix, 0)
    case _ => [Column(prefix, t)]
  }

  function FlatFields(t: Type, prefix: string, i: nat): seq<Column>
    requires t.Struct? && i <= |t.fields|
    decreases t, 0, |t.fields| - i
  {
    if i == |t.fields| then []
    else
      FlatColumns(t.fields[i].ty, JoinNames(prefix, t.fields[i].name)) + FlatFields(t, prefix, i + 1)
  }

  /** No leaf of a flattened type is a struct. */
  lemma {:induction false} FlatColumnsLeaves(t: Type, prefix: string)
    ensures forall c | c in FlatColumns(t, prefix) :: !c.ty.Struct?
    ensures WellFormed(t) ==> forall c | c in FlatColumns(t, prefix) :: Materializable(c.ty)
    decreases t, 1, 0
  {
    if t.Struct? {
      FlatFieldsLeaves(t, prefix, 0);
    }
  }

  lemma {:induction false} FlatFieldsLeaves(t: Type, prefix: string, i: nat)
    requires t.Struct? && i <= |t.fields|
    ensures forall c | c in FlatFields(t, prefix, i) :: !c.ty.Struct?
    ensures WellFormed(t) ==> forall c | c in FlatFields(t, prefix, i) :: Materializable(c.ty)
    decreases t, 0, |t.fields| - i
  {
    if i < |t.fields| {
      FlatColumnsLeaves(t.fields[i].ty, JoinNames(prefix, t.fields[i].name));
      FlatFieldsLeaves(t, prefix, i + 1);
    }
  }
}
