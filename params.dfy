/** Binding the arguments of a call to the parameters of a function:
    `Function.match_params` and its fast path `match_params_fast`. The
    reference functions state what each binding is; the methods are the
    source's loops, proved to compute exactly that. */
module Params {
  import opened Types
  import opened Errors
  import opened Instances

  /** A declared parameter; a default of None means the parameter has none. */
  datatype Param = Param(name: string, default: Option<Instance>)

  /** The parts of a function that matching reads: its name (for messages),
      its parameters in declaration order and its keyword collector. */
  datatype FunctionSig = FunctionSig(name: string, params: seq<Param>, collector: Option<Param>)

  /** An argument of a call: positional, named (`name: value`), or an inlined
      struct (`...s`). An inlined struct arrives with its keys already
      localized; None stands for an expression that is not a map. */
  datatype Arg =
    | Positional(value: Instance)
    | Named(name: string, value: Instance)
    | Inline(entries: Option<seq<Member>>)

  /** The canonical form of an argument (an `ast.NamedField`): positional
      arguments have no name. */
  datatype Field = Field(name: Option<string>, value: Instance)

  /** One pair of the result: a parameter and the value bound to it. */
  datatype Binding = Binding(param: Param, value: Instance)

  predicate ParamNamesDistinct(params: seq<Param>) {
    forall i, j | 0 <= i < j < |params| :: params[i].name != params[j].name
  }

  predicate IsParamName(params: seq<Param>, name: string) {
    exists p | 0 <= p < |params| :: params[p].name == name
  }

  predicate AllPositional(args: seq<Arg>) {
    forall i | 0 <= i < |args| :: args[i].Positional?
  }

  /** An inlined struct may only be the last argument. */
  predicate InlineLast(args: seq<Arg>) {
    forall i | 0 <= i < |args| && args[i].Inline? :: i == |args| - 1
  }

  // ---------------------------------------------------------------------
  // Canonical arguments

  function FieldsOf(a: Arg): Result<seq<Field>> {
    match a
    case Positional(v) => Ok([Field(None, v)])
    case Named(n, v) => Ok([Field(Some(n), v)])
    case Inline(None) => Err(InlineNotAMap)
    case Inline(Some(es)) => Ok(seq(|es|, j requires 0 <= j < |es| => Field(Some(es[j].name), es[j].inst)))
  }

  /** Every argument turned into named fields, an inlined struct into one
      named field per entry, in argument order. */
  function Canonize(args: seq<Arg>): Result<seq<Field>>
    decreases |args|
  {
    if |args| == 0 then Ok([])
    else
      var front :- Canonize(args[..|args| - 1]);
      var last :- FieldsOf(args[|args| - 1]);
      Ok(front + last)
  }

  /** The index of the first named field, or the number of fields. */
  function FirstNamed(fields: seq<Field>): (k: nat)
    ensures k <= |fields|
    ensures forall j | 0 <= j < k :: fields[j].name.None?
    ensures k < |fields| ==> fields[k].name.Some?
  {
    if |fields| == 0 || fields[0].name.Some? then 0
    else 1 + FirstNamed(fields[1..])
  }

  /** Every field from the `k`-th on is named. */
  predicate NamedFrom(fields: seq<Field>, k: nat) {
    forall j | k <= j < |fields| :: fields[j].name.Some?
  }

  /** The value of the last field among `fields[k..n]` named `name`. */
  function LastNamed(fields: seq<Field>, k: nat, n: nat, name: string): (r: Option<Instance>)
    requires k <= n <= |fields|
    ensures r.Some? <==> exists j | k <= j < n :: fields[j].name == Some(name)
    ensures r.Some? ==> exists j | k <= j < n :: fields[j].name == Some(name) && fields[j].value == r.value &&
                                                forall j' | j < j' < n :: fields[j'].name != Some(name)
    decreases n
  {
    if n == k then None
    else if fields[n - 1].name == Some(name) then Some(fields[n - 1].value)
    else LastNamed(fields, k, n - 1, name)
  }

  /** The first name among `fields[k..n]` that is not a parameter's. */
  function UnknownName(params: seq<Param>, fields: seq<Field>, k: nat, n: nat): (r: Option<string>)
    requires k <= n <= |fields| && NamedFrom(fields, k)
    ensures r.Some? <==> exists j | k <= j < n :: !IsParamName(params, fields[j].name.value)
    ensures r.Some? ==> !IsParamName(params, r.value)
    decreases n
  {
    if n == k then None
    else
      var r := UnknownName(params, fields, k, n - 1);
      if r.Some? then r
      else if !IsParamName(params, fields[n - 1].name.value) then fields[n - 1].name
      else None
  }

  /** The entries of `fields[k..n]` whose names are not parameters', in
      order: what the keyword collector receives. */
  function Collected(params: seq<Param>, fields: seq<Field>, k: nat, n: nat): (r: seq<Member>)
    requires k <= n <= |fields| && NamedFrom(fields, k)
    ensures |r| > 0 ==> UnknownName(params, fields, k, n).Some?
    ensures forall m | m in r :: !IsParamName(params, m.name)
    decreases n
  {
    if n == k then []
    else
      var front := Collected(params, fields, k, n - 1);
      var name := fields[n - 1].name.value;
      if IsParamName(params, name) then front else front + [Member(name, fields[n - 1].value)]
  }

  /** The name `UnknownName` finds is the first that names no parameter:
      every field before it in range names one. */
  lemma {:induction false} UnknownNameFirst(params: seq<Param>, fields: seq<Field>, k: nat, n: nat)
    requires k <= n <= |fields| && NamedFrom(fields, k)
    ensures var r := UnknownName(params, fields, k, n);
      r.Some? ==> exists j | k <= j < n :: fields[j].name == r &&
                    forall j' | k <= j' < j :: IsParamName(params, fields[j'].name.value)
    decreases n
  {
    if n > k {
      UnknownNameFirst(params, fields, k, n - 1);
      if UnknownName(params, fields, k, n - 1).None? && UnknownName(params, fields, k, n).Some? {
        assert forall j' | k <= j' < n - 1 :: IsParamName(params, fields[j'].name.value);
      }
    }
  }

  /** Every field in range that names no parameter reaches the collector,
      with its value. */
  lemma {:induction false} CollectedComplete(params: seq<Param>, fields: seq<Field>, k: nat, n: nat)
    requires k <= n <= |fields| && NamedFrom(fields, k)
    ensures forall j | k <= j < n && !IsParamName(params, fields[j].name.value) ::
      Member(fields[j].name.value, fields[j].value) in Collected(params, fields, k, n)
    decreases n
  {
    if n > k {
      CollectedComplete(params, fields, k, n - 1);
      var front := Collected(params, fields, k, n - 1);
      var name := fields[n - 1].name.value;
      if !IsParamName(params, name) {
        assert Collected(params, fields, k, n) == front + [Member(name, fields[n - 1].value)];
      }
    }
  }

  /** The collector receives nothing but fields in range, each with its
      value, and receives something exactly when an unknown name exists. */
  lemma {:induction false} CollectedSound(params: seq<Param>, fields: seq<Field>, k: nat, n: nat)
    requires k <= n <= |fields| && NamedFrom(fields, k)
    ensures var r := Collected(params, fields, k, n);
      (|r| > 0 <==> UnknownName(params, fields, k, n).Some?) &&
      (forall m | m in r ::
         exists j | k <= j < n :: fields[j].name == Some(m.name) && fields[j].value == m.inst)
    decreases n
  {
    if n > k {
      CollectedSound(params, fields, k, n - 1);
      var front := Collected(params, fields, k, n - 1);
      var r := Collected(params, fields, k, n);
      var name := fields[n - 1].name.value;
      if !IsParamName(params, name) {
        assert r == front + [Member(name, fields[n - 1].value)];
        assert UnknownName(params, fields, k, n).Some?;
      } else {
        assert r == front;
      }
    }
  }

  /** The collector receives every field in range that names no parameter,
      with its value, and nothing else; it receives something exactly when
      such a field exists. */
  lemma {:induction false} CollectedContents(params: seq<Param>, fields: seq<Field>, k: nat, n: nat)
    requires k <= n <= |fields| && NamedFrom(fields, k)
    ensures var r := Collected(params, fields, k, n);
      (|r| > 0 <==> UnknownName(params, fields, k, n).Some?) &&
      (forall j | k <= j < n && !IsParamName(params, fields[j].name.value) ::
         Member(fields[j].name.value, fields[j].value) in r) &&
      (forall m | m in r ::
         exists j | k <= j < n :: fields[j].name == Some(m.name) && fields[j].value == m.inst)
  {
    CollectedComplete(params, fields, k, n);
    CollectedSound(params, fields, k, n);
  }

  /** `m1` occurs in `r` before `m2`. */
  predicate Precedes(r: seq<Member>, m1: Member, m2: Member) {
    exists a, b | 0 <= a < b < |r| :: r[a] == m1 && r[b] == m2
  }

  /** The collector receives the fields in their order: of two fields in
      range that name no parameter, the earlier comes first. */
  lemma {:induction false} CollectedInOrder(params: seq<Param>, fields: seq<Field>, k: nat, n: nat, j1: nat, j2: nat)
    requires k <= j1 < j2 < n <= |fields| && NamedFrom(fields, k)
    requires !IsParamName(params, fields[j1].name.value) && !IsParamName(params, fields[j2].name.value)
    ensures Precedes(Collected(params, fields, k, n),
                     Member(fields[j1].name.value, fields[j1].value),
                     Member(fields[j2].name.value, fields[j2].value))
    decreases n
  {
    var front := Collected(params, fields, k, n - 1);
    var r := Collected(params, fields, k, n);
    var m1 := Member(fields[j1].name.value, fields[j1].value);
    var m2 := Member(fields[j2].name.value, fields[j2].value);
    if j2 == n - 1 {
      CollectedContents(params, fields, k, n - 1);
      var a :| 0 <= a < |front| && front[a] == m1;
      assert r == front + [m2];
      assert r[a] == m1 && r[|r| - 1] == m2;
    } else {
      CollectedInOrder(params, fields, k, n - 1, j1, j2);
      var a, b :| 0 <= a < b < |front| && front[a] == m1 && front[b] == m2;
      var name := fields[n - 1].name.value;
      if IsParamName(params, name) {
        assert r == front;
      } else {
        assert r == front + [Member(name, fields[n - 1].value)];
      }
      assert r[a] == m1 && r[b] == m2;
    }
  }

  /** The value parameter `p` holds once `fields[k..n]` are bound: the last
      field named after it, else the `p`-th positional argument, else its
      default. */
  function BoundValue(params: seq<Param>, fields: seq<Field>, k: nat, n: nat, p: nat): Option<Instance>
    requires k <= n <= |fields| && k <= |params| && p < |params|
  {
    var named := LastNamed(fields, k, n, params[p].name);
    if named.Some? then named
    else if p < k then Some(fields[p].value)
    else params[p].default
  }

  /** The first index without a value. */
  function FirstNone(vals: seq<Option<Instance>>): (r: Option<nat>)
    ensures r.Some? ==> r.value < |vals| && vals[r.value].None? &&
                        forall i | 0 <= i < r.value :: vals[i].Some?
    ensures r.None? ==> forall i | 0 <= i < |vals| :: vals[i].Some?
  {
    if |vals| == 0 then None
    else if vals[0].None? then Some(0)
    else
      var r := FirstNone(vals[1..]);
      if r.Some? then Some(r.value + 1) else None
  }

  function Bindings(params: seq<Param>, vals: seq<Option<Instance>>): (r: seq<Binding>)
    requires |vals| == |params| && forall i | 0 <= i < |vals| :: vals[i].Some?
    ensures |r| == |params| && forall i | 0 <= i < |params| :: r[i] == Binding(params[i], vals[i].value)
  {
    seq(|params|, i requires 0 <= i < |params| => Binding(params[i], vals[i].value))
  }

  // ---------------------------------------------------------------------
  // The reference

  /** The fast path: parameter `i` takes argument `i` if there is one, else
      its default; arguments beyond the parameters are not looked at. */
  function FastValues(f: FunctionSig, args: seq<Arg>): (vals: seq<Option<Instance>>)
    requires AllPositional(args)
    ensures |vals| == |f.params|
  {
    seq(|f.params|, p requires 0 <= p < |f.params| =>
      if p < |args| then Some(args[p].value) else f.params[p].default)
  }

  function MatchFast(f: FunctionSig, args: seq<Arg>): Result<seq<Binding>>
    requires AllPositional(args)
  {
    var vals := FastValues(f, args);
    var missing := FirstNone(vals);
    if missing.Some? then Err(MissingParameterValue(f.name, f.params[missing.value].name))
    else Ok(Bindings(f.params, vals))
  }

  function GeneralValues(f: FunctionSig, fields: seq<Field>, k: nat): (vals: seq<Option<Instance>>)
    requires k <= |fields| && k <= |f.params|
    ensures |vals| == |f.params|
  {
    seq(|f.params|, p requires 0 <= p < |f.params| => BoundValue(f.params, fields, k, |fields|, p))
  }

  /** The general path on canonical fields. */
  function MatchGeneral(f: FunctionSig, fields: seq<Field>): Result<seq<Binding>> {
    var k := FirstNamed(fields);
    if !NamedFrom(fields, k) then Err(PositionalAfterNamed(f.name))
    else if k > |f.params| then Err(TooManyArguments(f.name, |f.params|, k))
    else if f.collector.None? && UnknownName(f.params, fields, k, |fields|).Some? then
      Err(NoParameterNamed(f.name, UnknownName(f.params, fields, k, |fields|).value))
    else
      var vals := GeneralValues(f, fields, k);
      var missing := FirstNone(vals);
      if missing.Some? then Err(MissingParameterValue(f.name, f.params[missing.value].name))
      else
        var collected := Collected(f.params, fields, k, |fields|);
        if |collected| == 0 then Ok(Bindings(f.params, vals))
        else Ok(Bindings(f.params, vals) + [Binding(f.collector.value, MapInstance(collected))])
  }

  /** `match_params`: the fast path when no argument is named or inlined,
      the general path otherwise. */
  function MatchSpec(f: FunctionSig, args: seq<Arg>): Result<seq<Binding>> {
    if AllPositional(args) then MatchFast(f, args)
    else
      var fields :- Canonize(args);
      MatchGeneral(f, fields)
  }

  /** A name the collector receives is received once. */
  predicate CollectedOnce(f: FunctionSig, args: seq<Arg>) {
    f.collector.Some? && Canonize(args).Ok? ==>
      var fields := Canonize(args).value;
      forall i, j | 0 <= i < j < |fields| && fields[i].name.Some? && fields[j].name.Some? &&
                    !IsParamName(f.params, fields[i].name.value) ::
        fields[i].name != fields[j].name
  }

  /** What the general path asserts of a call: parameter names are a
      dictionary's keys, an inlined struct comes last, and a name the
      collector receives is received once. The fast path asserts nothing. */
  predicate WellFormedCall(f: FunctionSig, args: seq<Arg>) {
    !AllPositional(args) ==> ParamNamesDistinct(f.params) && InlineLast(args) && CollectedOnce(f, args)
  }

  // ---------------------------------------------------------------------
  // The methods

  /** `match_params_fast`. */
  method MatchParamsFast(f: FunctionSig, args: seq<Arg>) returns (r: Result<seq<Binding>>)
    requires AllPositional(args)
    ensures r == MatchFast(f, args)
  {
    ghost var vals := FastValues(f, args);
    var matched: seq<Binding> := [];
    var i := 0;
    while i < |f.params|
      invariant 0 <= i <= |f.params|
      invariant forall p | 0 <= p < i :: vals[p].Some?
      invariant matched == Bindings(f.params[..i], vals[..i])
    {
      var p := f.params[i];
      var v: Instance;
      if i < |args| {
        v := args[i].value;
      } else {
        if p.default.None? {
          FirstNoneAt(vals, i);
          return Err(MissingParameterValue(f.name, p.name));
        }
        v := p.default.value;
      }
      matched := matched + [Binding(p, v)];
      i := i + 1;
    }
    assert FirstNone(vals).None?;
    assert f.params[..i] == f.params && vals[..i] == vals;
    r := Ok(matched);
  }

  /** `match_params`. */
  method MatchParams(f: FunctionSig, args: seq<Arg>) returns (r: Result<seq<Binding>>)
    requires WellFormedCall(f, args)
    ensures r == MatchSpec(f, args)
  {
    // If no keyword arguments, matching is the fast path
    var positional := true;
    var i := 0;
    while i < |args|
      invariant 0 <= i <= |args|
      invariant positional <==> forall j | 0 <= j < i :: args[j].Positional?
    {
      if !args[i].Positional? {
        positional := false;
      }
      i := i + 1;
    }
    if positional {
      r := MatchParamsFast(f, args);
      return;
    }

    // Canonize the arguments
    var fields := CanonizeArgs(args);
    if fields.Err? {
      return Err(fields.error);
    }
    r := MatchFields(f, fields.value);
  }

  /** The canonizing loop of `match_params`. */
  method CanonizeArgs(args: seq<Arg>) returns (r: Result<seq<Field>>)
    requires InlineLast(args)
    ensures r == Canonize(args)
  {
    var fields: seq<Field> := [];
    var i := 0;
    while i < |args|
      invariant 0 <= i <= |args|
      invariant Canonize(args[..i]) == Ok(fields)
    {
      assert args[..i + 1][..i] == args[..i];
      match args[i] {
      case Named(n, v) =>
        fields := fields + [Field(Some(n), v)];
      case Inline(d) =>
        if d.None? {
          assert args[..i + 1] == args;
          return Err(InlineNotAMap);
        }
        var es := d.value;
        ghost var before := fields;
        var j := 0;
        while j < |es|
          invariant 0 <= j <= |es|
          invariant fields == before + FieldsOf(args[i]).value[..j]
        {
          fields := fields + [Field(Some(es[j].name), es[j].inst)];
          j := j + 1;
        }
        assert FieldsOf(args[i]).value[..j] == FieldsOf(args[i]).value;
      case Positional(v) =>
        fields := fields + [Field(None, v)];
      }
      i := i + 1;
    }
    assert args[..i] == args;
    r := Ok(fields);
  }

  /** `values` holds, under each parameter's name, the value `vals` gives
      that parameter, and has no other key. */
  ghost predicate ValuesAre(params: seq<Param>, values: map<string, Option<Instance>>, vals: seq<Option<Instance>>) {
    |vals| == |params| &&
    (forall n :: n in values <==> IsParamName(params, n)) &&
    (forall p | 0 <= p < |params| :: params[p].name in values && values[params[p].name] == vals[p])
  }

  function Defaults(params: seq<Param>): (vals: seq<Option<Instance>>)
    ensures |vals| == |params| && forall p | 0 <= p < |params| :: vals[p] == params[p].default
  {
    seq(|params|, p requires 0 <= p < |params| => params[p].default)
  }

  function BoundValues(params: seq<Param>, fields: seq<Field>, k: nat, n: nat): (vals: seq<Option<Instance>>)
    requires k <= n <= |fields| && k <= |params|
    ensures |vals| == |params| && forall p | 0 <= p < |params| :: vals[p] == BoundValue(params, fields, k, n, p)
  {
    seq(|params|, p requires 0 <= p < |params| => BoundValue(params, fields, k, n, p))
  }

  /** The binding loops of `match_params`, on canonical fields. */
  method MatchFields(f: FunctionSig, fields: seq<Field>) returns (r: Result<seq<Binding>>)
    requires ParamNamesDistinct(f.params)
    ensures r == MatchGeneral(f, fields)
  {
    var params := f.params;
    var k, namedAfter := FindFirstNamed(fields);
    if !namedAfter {
      return Err(PositionalAfterNamed(f.name));
    }
    if k > |params| {
      return Err(TooManyArguments(f.name, |params|, k));
    }
    var values := InitValues(params);
    values := BindPositional(params, fields, k, values);
    var named := BindNamed(f, fields, k, values);
    if named.Err? {
      return Err(named.error);
    }
    var collected: seq<Member>;
    values, collected := named.value.0, named.value.1;
    assert GeneralValues(f, fields, k) == BoundValues(params, fields, k, |fields|);
    r := BindAll(f, values, BoundValues(params, fields, k, |fields|));
    if r.Ok? && |collected| > 0 {
      r := Ok(r.value + [Binding(f.collector.value, MapInstance(collected))]);
    }
  }

  /** `named.index(True)`, or the length when nothing is named, and whether
      every field from there on is named. */
  method FindFirstNamed(fields: seq<Field>) returns (k: nat, namedAfter: bool)
    ensures k == FirstNamed(fields)
    ensures namedAfter <==> NamedFrom(fields, k)
  {
    k := 0;
    while k < |fields| && fields[k].name.None?
      invariant 0 <= k <= |fields|
      invariant forall j | 0 <= j < k :: fields[j].name.None?
    {
      k := k + 1;
    }
    assert k == FirstNamed(fields);
    var j := k;
    while j < |fields|
      invariant k <= j <= |fields|
      invariant forall j' | k <= j' < j :: fields[j'].name.Some?
    {
      if fields[j].name.None? {
        return k, false;
      }
      j := j + 1;
    }
    namedAfter := true;
  }

  /** `values = {p.name: p.default for p in self.params}`. */
  method InitValues(params: seq<Param>) returns (values: map<string, Option<Instance>>)
    requires ParamNamesDistinct(params)
    ensures ValuesAre(params, values, Defaults(params))
  {
    values := map[];
    var i := 0;
    while i < |params|
      invariant 0 <= i <= |params|
      invariant forall n :: n in values <==> exists p | 0 <= p < i :: params[p].name == n
      invariant forall p | 0 <= p < i :: values[params[p].name] == params[p].default
    {
      values := values[params[i].name := params[i].default];
      i := i + 1;
    }
  }

  /** The positional arguments, zipped with the parameters in order. */
  method BindPositional(params: seq<Param>, fields: seq<Field>, k: nat, values: map<string, Option<Instance>>)
    returns (values': map<string, Option<Instance>>)
    requires ParamNamesDistinct(params) && k <= |fields| && k <= |params|
    requires ValuesAre(params, values, Defaults(params))
    ensures ValuesAre(params, values', BoundValues(params, fields, k, k))
  {
    values' := values;
    var i := 0;
    while i < k
      invariant 0 <= i <= k
      invariant forall n :: n in values' <==> IsParamName(params, n)
      invariant forall p | 0 <= p < |params| ::
        params[p].name in values' &&
        values'[params[p].name] == if p < i then Some(fields[p].value) else params[p].default
    {
      values' := values'[params[i].name := Some(fields[i].value)];
      i := i + 1;
    }
  }

  /** The named arguments: each sets its parameter's value, or goes to the
      collector, or is refused. */
  method BindNamed(f: FunctionSig, fields: seq<Field>, k: nat, values: map<string, Option<Instance>>)
    returns (r: Result<(map<string, Option<Instance>>, seq<Member>)>)
    requires ParamNamesDistinct(f.params) && k <= |fields| && k <= |f.params| && NamedFrom(fields, k)
    requires ValuesAre(f.params, values, BoundValues(f.params, fields, k, k))
    ensures r.Err? <==> f.collector.None? && UnknownName(f.params, fields, k, |fields|).Some?
    ensures r.Err? ==> r.error == NoParameterNamed(f.name, UnknownName(f.params, fields, k, |fields|).value)
    ensures r.Ok? ==> ValuesAre(f.params, r.value.0, BoundValues(f.params, fields, k, |fields|)) &&
                      r.value.1 == Collected(f.params, fields, k, |fields|)
  {
    var params := f.params;
    var values' := values;
    var collected: seq<Member> := [];
    var j := k;
    while j < |fields|
      invariant k <= j <= |fields|
      invariant ValuesAre(params, values', BoundValues(params, fields, k, j))
      invariant collected == Collected(params, fields, k, j)
      invariant f.collector.None? ==> UnknownName(params, fields, k, j).None?
    {
      var name := fields[j].name.value;
      BindNamedStep(params, fields, k, j);
      if name in values' {
        NamedStepParam(params, fields, k, j, values');
        values' := values'[name := Some(fields[j].value)];
      } else if f.collector.Some? {
        NamedStepOther(params, fields, k, j, values');
        collected := collected + [Member(name, fields[j].value)];
      } else {
        UnknownNameStable(params, fields, k, j + 1, |fields|);
        return Err(NoParameterNamed(f.name, name));
      }
      j := j + 1;
    }
    r := Ok((values', collected));
  }

  /** Binding the `j`-th field changes only the value of the parameter it
      names. */
  lemma {:induction false} BoundValueStep(params: seq<Param>, fields: seq<Field>, k: nat, j: nat, p: nat)
    requires k <= j < |fields| && k <= |params| && p < |params| && NamedFrom(fields, k)
    ensures BoundValue(params, fields, k, j + 1, p) ==
      if params[p].name == fields[j].name.value then Some(fields[j].value) else BoundValue(params, fields, k, j, p)
  {
    assert LastNamed(fields, k, j + 1, params[p].name) ==
      if fields[j].name == Some(params[p].name) then Some(fields[j].value) else LastNamed(fields, k, j, params[p].name);
  }

  /** Binding a field named after a parameter sets that parameter's value. */
  lemma {:induction false} NamedStepParam(params: seq<Param>, fields: seq<Field>, k: nat, j: nat, values: map<string, Option<Instance>>)
    requires k <= j < |fields| && k <= |params| && NamedFrom(fields, k)
    requires ValuesAre(params, values, BoundValues(params, fields, k, j))
    requires fields[j].name.value in values
    ensures ValuesAre(params, values[fields[j].name.value := Some(fields[j].value)], BoundValues(params, fields, k, j + 1))
  {
    var values' := values[fields[j].name.value := Some(fields[j].value)];
    assert forall n :: n in values' <==> n in values;
    NamedStepValues(params, fields, k, j, values);
  }

  /** The value part of `NamedStepParam`, parameter by parameter. */
  lemma {:induction false} NamedStepValues(params: seq<Param>, fields: seq<Field>, k: nat, j: nat, values: map<string, Option<Instance>>)
    requires k <= j < |fields| && k <= |params| && NamedFrom(fields, k)
    requires forall p | 0 <= p < |params| ::
      params[p].name in values && values[params[p].name] == BoundValue(params, fields, k, j, p)
    ensures var values' := values[fields[j].name.value := Some(fields[j].value)];
      forall p | 0 <= p < |params| ::
        params[p].name in values' && values'[params[p].name] == BoundValue(params, fields, k, j + 1, p)
  {
    forall p | 0 <= p < |params|
      ensures var values' := values[fields[j].name.value := Some(fields[j].value)];
        params[p].name in values' && values'[params[p].name] == BoundValue(params, fields, k, j + 1, p)
    {
      BoundValueStep(params, fields, k, j, p);
    }
  }

  /** Binding a field named after no parameter leaves the values alone. */
  lemma {:induction false} NamedStepOther(params: seq<Param>, fields: seq<Field>, k: nat, j: nat, values: map<string, Option<Instance>>)
    requires k <= j < |fields| && k <= |params| && NamedFrom(fields, k)
    requires ValuesAre(params, values, BoundValues(params, fields, k, j))
    requires !IsParamName(params, fields[j].name.value)
    ensures ValuesAre(params, values, BoundValues(params, fields, k, j + 1))
  {
    var before, after := BoundValues(params, fields, k, j), BoundValues(params, fields, k, j + 1);
    forall p | 0 <= p < |params| ensures after[p] == before[p] {
      assert params[p].name != fields[j].name.value;
      assert LastNamed(fields, k, j + 1, params[p].name) == LastNamed(fields, k, j, params[p].name);
    }
  }

  /** Once found, the first unknown name stays the first. */
  lemma {:induction false} UnknownNameStable(params: seq<Param>, fields: seq<Field>, k: nat, n: nat, m: nat)
    requires k <= n <= m <= |fields| && NamedFrom(fields, k)
    requires UnknownName(params, fields, k, n).Some?
    ensures UnknownName(params, fields, k, m) == UnknownName(params, fields, k, n)
    decreases m
  {
    if m > n {
      UnknownNameStable(params, fields, k, n, m - 1);
    }
  }

  /** Binding the `j`-th field hands it to the collector exactly when it
      names no parameter. */
  lemma {:induction false} BindNamedStep(params: seq<Param>, fields: seq<Field>, k: nat, j: nat)
    requires k <= j < |fields| && NamedFrom(fields, k)
    ensures var name := fields[j].name.value;
      (IsParamName(params, name) ==>
         Collected(params, fields, k, j + 1) == Collected(params, fields, k, j) &&
         UnknownName(params, fields, k, j + 1) == UnknownName(params, fields, k, j)) &&
      (!IsParamName(params, name) ==>
         Collected(params, fields, k, j + 1) == Collected(params, fields, k, j) + [Member(name, fields[j].value)] &&
         (UnknownName(params, fields, k, j).None? ==> UnknownName(params, fields, k, j + 1) == Some(name)))
  {
  }

  /** The check that every parameter has a value, then the pairs in
      declaration order. */
  method BindAll(f: FunctionSig, values: map<string, Option<Instance>>, ghost vals: seq<Option<Instance>>)
    returns (r: Result<seq<Binding>>)
    requires ValuesAre(f.params, values, vals)
    ensures FirstNone(vals).Some? ==> r == Err(MissingParameterValue(f.name, f.params[FirstNone(vals).value].name))
    ensures FirstNone(vals).None? ==> r == Ok(Bindings(f.params, vals))
  {
    var params := f.params;
    var i := 0;
    while i < |params|
      invariant 0 <= i <= |params|
      invariant forall p | 0 <= p < i :: vals[p].Some?
    {
      if values[params[i].name].None? {
        FirstNoneAt(vals, i);
        return Err(MissingParameterValue(f.name, params[i].name));
      }
      i := i + 1;
    }
    var matched: seq<Binding> := [];
    i := 0;
    while i < |params|
      invariant 0 <= i <= |params|
      invariant matched == Bindings(params[..i], vals[..i])
    {
      matched := matched + [Binding(params[i], values[params[i].name].value)];
      i := i + 1;
    }
    assert params[..i] == params && vals[..i] == vals;
    r := Ok(matched);
  }

  /** The first missing value is the one every earlier value precedes. */
  lemma {:induction false} FirstNoneAt(vals: seq<Option<Instance>>, i: nat)
    requires i < |vals| && vals[i].None? && forall p | 0 <= p < i :: vals[p].Some?
    ensures FirstNone(vals) == Some(i)
  {
  }

  // ---------------------------------------------------------------------
  // Properties of matching

  /** Positional arguments canonize to unnamed fields, one each. */
  lemma {:induction false} CanonizePositional(args: seq<Arg>)
    requires AllPositional(args)
    ensures Canonize(args).Ok? && |Canonize(args).value| == |args|
    ensures forall i | 0 <= i < |args| :: Canonize(args).value[i] == Field(None, args[i].value)
    decreases |args|
  {
    if |args| > 0 {
      var front := args[..|args| - 1];
      assert AllPositional(front);
      CanonizePositional(front);
      assert FieldsOf(args[|args| - 1]) == Ok([Field(None, args[|args| - 1].value)]);
      var all := Canonize(front).value + [Field(None, args[|args| - 1].value)];
      assert Canonize(args) == Ok(all);
      forall i | 0 <= i < |args|
        ensures all[i] == Field(None, args[i].value)
      {
        if i < |front| {
          assert all[i] == Canonize(front).value[i];
        }
      }
    }
  }

  /** With no more arguments than parameters, the fast path binds exactly
      what the general path binds: it is only a shortcut. */
  lemma {:induction false} FastAgreesWithGeneral(f: FunctionSig, args: seq<Arg>)
    requires AllPositional(args) && |args| <= |f.params|
    ensures Canonize(args).Ok? && MatchFast(f, args) == MatchGeneral(f, Canonize(args).value)
  {
    CanonizePositional(args);
    var fields := Canonize(args).value;
    var k := FirstNamed(fields);
    assert k == |args|;
    assert UnknownName(f.params, fields, k, |fields|).None?;
    assert Collected(f.params, fields, k, |fields|) == [];
    var vals := GeneralValues(f, fields, k);
    forall p | 0 <= p < |f.params|
      ensures vals[p] == FastValues(f, args)[p]
    {
      assert LastNamed(fields, k, |fields|, f.params[p].name).None?;
    }
    assert FastValues(f, args) == vals;
  }

  /** With more positional arguments than parameters, the fast path drops
      the extra ones, where the general path would refuse the call. */
  lemma {:induction false} FastDropsExtraArguments(f: FunctionSig, args: seq<Arg>)
    requires AllPositional(args) && |args| > |f.params|
    ensures MatchSpec(f, args) == MatchSpec(f, args[..|f.params|])
    ensures Canonize(args).Ok? &&
            MatchGeneral(f, Canonize(args).value) == Err(TooManyArguments(f.name, |f.params|, |args|))
  {
    CanonizePositional(args);
    assert FastValues(f, args) == FastValues(f, args[..|f.params|]);
    assert FirstNamed(Canonize(args).value) == |args|;
  }

  /** A successful match binds every declared parameter, in declaration
      order, and then the collector, only when it received something: the
      names it received are exactly those that name no parameter. */
  lemma {:induction false} MatchInDeclarationOrder(f: FunctionSig, args: seq<Arg>)
    requires MatchSpec(f, args).Ok?
    ensures var r := MatchSpec(f, args).value;
      |f.params| <= |r| <= |f.params| + 1 &&
      (AllPositional(args) ==> |r| == |f.params|) &&
      (forall i | 0 <= i < |f.params| :: r[i].param == f.params[i]) &&
      (|r| == |f.params| + 1 ==>
         f.collector.Some? && r[|f.params|].param == f.collector.value &&
         r[|f.params|].value.MapInstance? && |r[|f.params|].value.attrs| > 0 &&
         forall m | m in r[|f.params|].value.attrs :: !IsParamName(f.params, m.name))
  {
  }

  /** On the general path the collector is bound exactly when some named
      field names no parameter, and then to the map of exactly those fields,
      in order. */
  lemma {:induction false} CollectorReceives(f: FunctionSig, fields: seq<Field>)
    requires MatchGeneral(f, fields).Ok?
    ensures var k := FirstNamed(fields);
      var r := MatchGeneral(f, fields).value;
      NamedFrom(fields, k) &&
      ((exists j | k <= j < |fields| :: !IsParamName(f.params, fields[j].name.value)) <==>
         |r| == |f.params| + 1) &&
      (|r| == |f.params| + 1 ==>
         f.collector.Some? &&
         r[|f.params|] == Binding(f.collector.value, MapInstance(Collected(f.params, fields, k, |fields|))))
  {
    var k := FirstNamed(fields);
    CollectedContents(f.params, fields, k, |fields|);
  }

  /** A named argument wins over a positional one and over the default: the
      value bound to a parameter is that of the last field naming it. */
  lemma {:induction false} NamedOverrides(f: FunctionSig, fields: seq<Field>, p: nat, j: nat)
    requires MatchGeneral(f, fields).Ok? && p < |f.params| && j < |fields|
    requires fields[j].name == Some(f.params[p].name)
    requires forall j' | j < j' < |fields| :: fields[j'].name != Some(f.params[p].name)
    ensures MatchGeneral(f, fields).value[p].value == fields[j].value
  {
    var k := FirstNamed(fields);
    assert k <= j;
    var l := LastNamed(fields, k, |fields|, f.params[p].name);
    var j0 :| k <= j0 < |fields| && fields[j0].name == Some(f.params[p].name) && fields[j0].value == l.value &&
             forall j' | j0 < j' < |fields| :: fields[j'].name != Some(f.params[p].name);
    assert j0 == j;
  }

  /** Without a field naming it, parameter `p` takes the `p`-th positional
      argument if there is one, else its default. */
  lemma {:induction false} PositionalOrDefault(f: FunctionSig, fields: seq<Field>, p: nat)
    requires MatchGeneral(f, fields).Ok? && p < |f.params|
    requires forall j | 0 <= j < |fields| :: fields[j].name != Some(f.params[p].name)
    ensures p < FirstNamed(fields) ==> MatchGeneral(f, fields).value[p].value == fields[p].value
    ensures p >= FirstNamed(fields) ==> Some(MatchGeneral(f, fields).value[p].value) == f.params[p].default
  {
    var k := FirstNamed(fields);
    var vals := GeneralValues(f, fields, k);
    assert MatchGeneral(f, fields).value[p] == Binding(f.params[p], vals[p].value);
    assert LastNamed(fields, k, |fields|, f.params[p].name).None?;
  }

  /** The general path fails exactly when a positional argument follows a
      named one, when there are more positional arguments than parameters,
      when a name matches no parameter and there is no collector, or when a
      parameter is left without a value; the first of these is reported. */
  lemma {:induction false} GeneralErrors(f: FunctionSig, fields: seq<Field>)
    ensures var k := FirstNamed(fields);
      var r := MatchGeneral(f, fields);
      ((exists i, j | 0 <= i < j < |fields| :: fields[i].name.Some? && fields[j].name.None?) ==>
         r == Err(PositionalAfterNamed(f.name))) &&
      (NamedFrom(fields, k) && k > |f.params| ==> r == Err(TooManyArguments(f.name, |f.params|, k))) &&
      (NamedFrom(fields, k) && k <= |f.params| && f.collector.None? &&
       (exists j | k <= j < |fields| :: !IsParamName(f.params, fields[j].name.value)) ==>
         exists j | k <= j < |fields| ::
           r == Err(NoParameterNamed(f.name, fields[j].name.value)) &&
           !IsParamName(f.params, fields[j].name.value) &&
           forall j' | k <= j' < j :: IsParamName(f.params, fields[j'].name.value)) &&
      (NamedFrom(fields, k) && k <= |f.params| &&
       (f.collector.Some? || forall j | k <= j < |fields| :: IsParamName(f.params, fields[j].name.value)) ==>
         (r.Err? <==> exists p | 0 <= p < |f.params| :: BoundValue(f.params, fields, k, |fields|, p).None?))
  {
    var k := FirstNamed(fields);
    if exists i, j | 0 <= i < j < |fields| :: fields[i].name.Some? && fields[j].name.None? {
      var i, j :| 0 <= i < j < |fields| && fields[i].name.Some? && fields[j].name.None?;
      assert k <= i;
      assert !NamedFrom(fields, k);
    }
    if NamedFrom(fields, k) {
      UnknownNameFirst(f.params, fields, k, |fields|);
    }
    if NamedFrom(fields, k) && k <= |f.params| {
      var vals := GeneralValues(f, fields, k);
      if exists p | 0 <= p < |f.params| :: BoundValue(f.params, fields, k, |fields|, p).None? {
        var p :| 0 <= p < |f.params| && BoundValue(f.params, fields, k, |fields|, p).None?;
        assert vals[p].None?;
      }
    }
  }
}
