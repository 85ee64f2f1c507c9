/** The interpreter's scope state (`State` in interp_common): a stack of
    name-to-value scopes, innermost last, with shadowing lookup, and a tick
    counter from which fresh aliases are made (`get_alias`). */
module InterpCommon {
  import opened Types
  import opened Errors
  import opened Instances
  import Casts

  /** One scope: a dictionary from names to values. */
  type Scope = map<string, Instance>

  // ---------------------------------------------------------------------
  // Reference definitions on the scope stack

  /** The value `name` has in the innermost scope that binds it. */
  function InnermostBinding(ns: seq<Scope>, name: string): (r: Option<Instance>)
    ensures r.Some? <==> exists i | 0 <= i < |ns| :: name in ns[i]
    ensures r.Some? ==> exists i | 0 <= i < |ns| :: name in ns[i] && ns[i][name] == r.value &&
                                                    forall j | i < j < |ns| :: name !in ns[j]
    decreases |ns|
  {
    if |ns| == 0 then None
    else if name in ns[|ns| - 1] then Some(ns[|ns| - 1][name])
    else InnermostBinding(ns[..|ns| - 1], name)
  }

  /** All scopes merged from the outermost to the innermost, a later scope
      overwriting an earlier one. */
  function Merged(ns: seq<Scope>): map<string, Instance>
    decreases |ns|
  {
    if |ns| == 0 then map[] else Merged(ns[..|ns| - 1]) + ns[|ns| - 1]
  }

  /** The stack after `name` is bound to `value` in the innermost scope. */
  function Assigned(ns: seq<Scope>, name: string, value: Instance): (r: seq<Scope>)
    requires |ns| > 0
    ensures |r| == |ns| && r[..|ns| - 1] == ns[..|ns| - 1]
    ensures r[|ns| - 1].Keys == ns[|ns| - 1].Keys + {name}
  {
    ns[..|ns| - 1] + [ns[|ns| - 1][name := value]]
  }

  /** The merged dictionary holds exactly the bound names, each with the
      value the innermost binding gives it: inner scopes win. */
  lemma {:induction false} MergedAgreesWithBinding(ns: seq<Scope>, name: string)
    ensures name in Merged(ns) <==> InnermostBinding(ns, name).Some?
    ensures name in Merged(ns) ==> Merged(ns)[name] == InnermostBinding(ns, name).value
    decreases |ns|
  {
    if |ns| > 0 {
      MergedAgreesWithBinding(ns[..|ns| - 1], name);
    }
  }

  /** After an assignment the name looks up to the new value, and every
      other name looks up to what it did before. */
  lemma {:induction false} BindingAfterAssign(ns: seq<Scope>, name: string, value: Instance, other: string)
    requires |ns| > 0
    ensures InnermostBinding(Assigned(ns, name, value), name) == Some(value)
    ensures other != name ==> InnermostBinding(Assigned(ns, name, value), other) == InnermostBinding(ns, other)
  {
    var r := Assigned(ns, name, value);
    assert r[..|r| - 1] == ns[..|ns| - 1];
  }

  // ---------------------------------------------------------------------
  // The body of a `use_scope` block

  /** What a block run inside `use_scope` does to the state: bind a name in
      the innermost scope, ask for an alias, or fail. */
  datatype Step =
    | SetStep(name: string, value: Instance)
    | AliasStep(prefix: string)
    | FailStep(error: Error)

  /** How a block ends: the error of its first failing step, if any. */
  function Outcome(body: seq<Step>): (r: Result<()>)
    ensures r.Err? <==> exists i | 0 <= i < |body| :: body[i].FailStep?
  {
    if |body| == 0 then Ok(())
    else if body[0].FailStep? then Err(body[0].error)
    else Outcome(body[1..])
  }

  /** The scope `scope` after the block's bindings up to its first failure. */
  function Written(scope: Scope, body: seq<Step>): (r: Scope)
    ensures scope.Keys <= r.Keys
    decreases |body|
  {
    if |body| == 0 || body[0].FailStep? then scope
    else if body[0].SetStep? then Written(scope[body[0].name := body[0].value], body[1..])
    else Written(scope, body[1..])
  }

  /** The number of aliases the block asks for before its first failure. */
  function Ticks(body: seq<Step>): (r: nat)
    ensures r <= |body|
  {
    if |body| == 0 || body[0].FailStep? then 0
    else if body[0].AliasStep? then 1 + Ticks(body[1..])
    else Ticks(body[1..])
  }

  // ---------------------------------------------------------------------
  // State

  class State {
    var db: Casts.Dialect
    var ns: seq<Scope>
    var tick: nat

    /** `State(db, fmt, ns)`: a missing or empty stack becomes one empty
        scope. */
    constructor (db: Casts.Dialect, ns: seq<Scope>)
      ensures this.db == db && tick == 0
      ensures this.ns == if |ns| == 0 then [map[]] else ns
    {
      this.db := db;
      this.ns := if |ns| == 0 then [map[]] else ns;
      tick := 0;
    }

    /** The value of `name` in the innermost scope that binds it. */
    method GetVar(name: string) returns (r: Result<Instance>)
      ensures InnermostBinding(ns, name).Some? ==> r == Ok(InnermostBinding(ns, name).value)
      ensures InnermostBinding(ns, name).None? ==> r == Err(NameNotFound(name))
    {
      var i := |ns|;
      while i > 0
        invariant 0 <= i <= |ns|
        invariant InnermostBinding(ns, name) == InnermostBinding(ns[..i], name)
      {
        ghost var front := ns[..i];
        assert front[i - 1] == ns[i - 1] && front[..i - 1] == ns[..i - 1];
        if name in ns[i - 1] {
          return Ok(ns[i - 1][name]);
        }
        i := i - 1;
      }
      return Err(NameNotFound(name));
    }

    /** Binds `name` in the innermost scope; no other scope changes. */
    method SetVar(name: string, value: Instance) returns (r: Result<()>)
      modifies this
      ensures |old(ns)| == 0 ==> r == Err(EmptyScopeStack) && ns == old(ns)
      ensures |old(ns)| > 0 ==> r == Ok(()) && ns == Assigned(old(ns), name, value)
      ensures tick == old(tick) && db == old(db)
    {
      if |ns| == 0 {
        return Err(EmptyScopeStack);
      }
      ns := ns[..|ns| - 1] + [ns[|ns| - 1][name := value]];
      r := Ok(());
    }

    /** Every binding visible from the innermost scope. */
    method GetAllVars() returns (d: map<string, Instance>)
      ensures d == Merged(ns)
      ensures forall name :: name in d <==> InnermostBinding(ns, name).Some?
      ensures forall name | name in d :: d[name] == InnermostBinding(ns, name).value
    {
      d := map[];
      var i := 0;
      while i < |ns|
        invariant 0 <= i <= |ns|
        invariant d == Merged(ns[..i])
      {
        assert ns[..i + 1][..i] == ns[..i];
        d := d + ns[i];
        i := i + 1;
      }
      assert ns[..|ns|] == ns;
      forall name
        ensures name in d <==> InnermostBinding(ns, name).Some?
        ensures name in d ==> d[name] == InnermostBinding(ns, name).value
      {
        MergedAgreesWithBinding(ns, name);
      }
    }

    method PushScope()
      modifies this
      ensures ns == old(ns) + [map[]]
      ensures tick == old(tick) && db == old(db)
    {
      ns := ns + [map[]];
    }

    /** Removes and returns the innermost scope; an empty stack is an
        IndexError. */
    method PopScope() returns (r: Result<Scope>)
      modifies this
      ensures |old(ns)| == 0 ==> r == Err(EmptyScopeStack) && ns == old(ns)
      ensures |old(ns)| > 0 ==> r == Ok(old(ns)[|old(ns)| - 1]) && ns == old(ns)[..|old(ns)| - 1]
      ensures tick == old(tick) && db == old(db)
    {
      if |ns| == 0 {
        return Err(EmptyScopeStack);
      }
      r := Ok(ns[|ns| - 1]);
      ns := ns[..|ns| - 1];
    }

    /** A push followed by a pop gives back the empty scope and the stack
        as it was. */
    method PushThenPop() returns (r: Result<Scope>)
      modifies this
      ensures r == Ok(map[]) && ns == old(ns) && tick == old(tick) && db == old(db)
    {
      PushScope();
      r := PopScope();
      assert (old(ns) + [map[]])[..|old(ns)|] == old(ns);
    }

    /** `__copy__`: a new state with the same dialect, scopes and tick. */
    method Copy() returns (s: State)
      ensures fresh(s)
      ensures s.db == db && s.ns == ns && s.tick == tick
    {
      s := new State(db, []);
      s.ns := ns;
      s.tick := tick;
    }

    /** Binding a name in a copy leaves this state's scopes as they were. */
    method CopyIsIndependent(name: string, value: Instance) returns (s: State)
      requires |ns| > 0
      ensures fresh(s)
      ensures ns == old(ns) && tick == old(tick)
      ensures s.ns == Assigned(ns, name, value)
    {
      s := Copy();
      var _ := s.SetVar(name, value);
    }

    /** Runs a block against the innermost scope. */
    method RunBody(body: seq<Step>) returns (r: Result<()>)
      requires |ns| > 0
      modifies this
      ensures |ns| == |old(ns)| && ns[..|ns| - 1] == old(ns)[..|ns| - 1]
      ensures ns[|ns| - 1] == Written(old(ns)[|ns| - 1], body)
      ensures tick == old(tick) + Ticks(body) && db == old(db)
      ensures r == Outcome(body)
    {
      var i := 0;
      while i < |body| && !body[i].FailStep?
        invariant 0 <= i <= |body|
        invariant |ns| == |old(ns)| && ns[..|ns| - 1] == old(ns)[..|ns| - 1]
        invariant Written(ns[|ns| - 1], body[i..]) == Written(old(ns)[|ns| - 1], body)
        invariant tick + Ticks(body[i..]) == old(tick) + Ticks(body)
        invariant Outcome(body[i..]) == Outcome(body)
        invariant db == old(db)
        decreases |body| - i
      {
        assert body[i..][1..] == body[i + 1..];
        match body[i] {
          case SetStep(name, value) =>
            var _ := SetVar(name, value);
          case AliasStep(prefix) =>
            var _ := GetAlias(this, Text(prefix));
        }
        i := i + 1;
      }
      if i < |body| {
        r := Err(body[i].error);
      } else {
        r := Ok(());
      }
    }

    /** `use_scope(scope)`: pushes `scope`, runs the block and pops again,
        whether the block failed or not. Python appends the caller's dict
        itself, so what the block binds lands in it; the model returns that
        scope as `popped`. */
    method UseScope(scope: Scope, body: seq<Step>) returns (r: Result<()>, popped: Scope)
      modifies this
      ensures ns == old(ns)
      ensures popped == Written(scope, body)
      ensures tick == old(tick) + Ticks(body) && db == old(db)
      ensures r == Outcome(body)
    {
      ns := ns + [scope];
      r := RunBody(body);
      var p := PopScope();
      assert (old(ns) + [scope])[..|old(ns)|] == old(ns);
      popped := p.value;
    }
  }

  // ---------------------------------------------------------------------
  // Aliases

  /** The decimal spelling of `n`, as Python's `str` writes it. */
  function NatToString(n: nat): (s: string)
    ensures |s| > 0 && IsDigits(s)
    ensures |s| > 1 ==> s[0] != '0'
    decreases n
  {
    if n < 10 then [DigitChar(n)] else NatToString(n / 10) + [DigitChar(n % 10)]
  }

  function DigitChar(d: nat): (c: char)
    requires d < 10
    ensures '0' <= c <= '9' && c as int - '0' as int == d
  {
    ('0' as int + d) as char
  }

  predicate IsDigits(s: string) {
    forall i | 0 <= i < |s| :: '0' <= s[i] <= '9'
  }

  /** The number a string of decimal digits spells. */
  function ParseDigits(s: string): nat
    requires IsDigits(s)
    decreases |s|
  {
    if |s| == 0 then 0 else ParseDigits(s[..|s| - 1]) * 10 + (s[|s| - 1] as int - '0' as int)
  }

  lemma {:induction false} ParseNatToString(n: nat)
    ensures ParseDigits(NatToString(n)) == n
    decreases n
  {
    if n >= 10 {
      ParseNatToString(n / 10);
      var s := NatToString(n);
      assert s[..|s| - 1] == NatToString(n / 10);
    }
  }

  /** Different ticks spell differently. */
  lemma {:induction false} NatToStringInjective(a: nat, b: nat)
    requires a != b
    ensures NatToString(a) != NatToString(b)
  {
    ParseNatToString(a);
    ParseNatToString(b);
  }

  /** The object `get_alias` is asked about: a string prefix, or an
      instance. */
  datatype AliasObject = Text(prefix: string) | Object(inst: Instance)

  /** The alias for `obj` at tick `tick`: a table instance is named after
      its table, a string is its own prefix, and any other object cannot be
      added to a string. */
  function AliasAt(obj: AliasObject, tick: nat): (r: Result<string>)
    requires !(obj.Object? && obj.inst.TableInstance? && !obj.inst.ty.Table?)
    ensures obj.Text? ==> r.Ok? && |r.value| > |obj.prefix| && r.value[..|obj.prefix|] == obj.prefix &&
                          IsDigits(r.value[|obj.prefix|..]) && ParseDigits(r.value[|obj.prefix|..]) == tick
    ensures obj.Object? && obj.inst.TableInstance? ==> r == AliasAt(Text(obj.inst.ty.name), tick)
    ensures obj.Object? && !obj.inst.TableInstance? ==> r == Err(UnsupportedOperand)
    decreases if obj.Object? then 1 else 0
  {
    match obj
    case Text(p) =>
      ParseNatToString(tick);
      assert (p + NatToString(tick))[|p|..] == NatToString(tick);
      Ok(p + NatToString(tick))
    case Object(inst) =>
      if inst.TableInstance? then AliasAt(Text(inst.ty.name), tick) else Err(UnsupportedOperand)
  }

  /** `get_alias(state, obj)`: advances the tick by one and spells the new
      tick after the prefix. A table instance whose type has no name is an
      AttributeError raised before the tick moves. */
  method GetAlias(state: State, obj: AliasObject) returns (r: Result<string>)
    modifies state
    ensures state.ns == old(state.ns) && state.db == old(state.db)
    ensures obj.Object? && obj.inst.TableInstance? && !obj.inst.ty.Table? ==>
              r == Err(MissingPythonAttribute("name")) && state.tick == old(state.tick)
    ensures !(obj.Object? && obj.inst.TableInstance? && !obj.inst.ty.Table?) ==>
              state.tick == old(state.tick) + 1 && r == AliasAt(obj, state.tick)
    decreases if obj.Object? then 1 else 0
  {
    if obj.Object? && obj.inst.TableInstance? {
      if !obj.inst.ty.Table? {
        return Err(MissingPythonAttribute("name"));
      }
      r := GetAlias(state, Text(obj.inst.ty.name));
      return;
    }
    state.tick := state.tick + 1;
    match obj {
      case Text(p) =>
        r := Ok(p + NatToString(state.tick));
      case Object(_) =>
        r := Err(UnsupportedOperand);
    }
  }

  /** Aliases asked for with one prefix at two different ticks differ. */
  lemma {:induction false} AliasesDistinct(prefix: string, a: nat, b: nat)
    requires a != b
    ensures AliasAt(Text(prefix), a) != AliasAt(Text(prefix), b)
  {
    NatToStringInjective(a, b);
    assert (prefix + NatToString(a))[|prefix|..] == NatToString(a);
    assert (prefix + NatToString(b))[|prefix|..] == NatToString(b);
  }

  /** Two successive aliases with one prefix differ, and so do the aliases
      of two instances of one table. */
  method SuccessiveAliases(state: State, obj: AliasObject) returns (first: Result<string>, second: Result<string>)
    requires obj.Text? || (obj.inst.TableInstance? && obj.inst.ty.Table?)
    modifies state
    ensures first.Ok? && second.Ok? && first.value != second.value
    ensures state.tick == old(state.tick) + 2
  {
    first := GetAlias(state, obj);
    second := GetAlias(state, obj);
    var name := if obj.Text? then obj.prefix else obj.inst.ty.name;
    AliasesDistinct(name, state.tick - 1, state.tick);
  }

  /** Aliases with different prefixes can coincide: table `t1` at tick 1
      and table `t` at tick 11 are both aliased `t11`. */
  lemma {:induction false} AliasesAcrossPrefixesMayCoincide()
    ensures AliasAt(Text("t1"), 1) == AliasAt(Text("t"), 11)
  {
    assert DigitChar(1) == '1';
    assert NatToString(1) == "1";
    assert NatToString(11) == NatToString(1) + [DigitChar(1)] == "11";
    assert AliasAt(Text("t1"), 1) == Ok("t1" + "1");
    assert AliasAt(Text("t"), 11) == Ok("t" + "11");
    assert "t1" + "1" == "t" + "11";
  }
}
