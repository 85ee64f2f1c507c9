# Preql compiler core, modelled in Dafny

Preql compiles a relational query language to SQL. This project models
four pieces of its compile-time core and proves properties about them.

- **The instance model** (`preql/pql_objects.py`). A compiled expression is
  an *instance*. Plain, value, list, table, aggregate, struct and row, map,
  selected-column, method and unknown instances become one `Instance`
  datatype (`instances.dfy`). The module covers:
  - the type-directed factories `make_instance` and `make_instance_from_name`;
  - `code`, `subqueries`, `flatten_code`, `get_attr`, `all_attrs` and `primary_key`;
  - `merge_subqueries` and `aggregate`.
- **Argument matching** (`Function.match_params` and `match_params_fast`,
  same file), in `params.dfy`.
  - Declarative functions state which value each parameter receives.
  - The source's loops are methods, proved to compute exactly that.
- **The cast resolver** (`preql/casts.py`), in `casts.dfy`.
  - The rule table of `_cast` becomes an explicit match over type kinds,
    with the database dialect as a parameter.
  - The match is proved to pick the most specific applicable rule.
- **The interpreter scope state** (`State` and `get_alias` in
  `preql/interp_common.py`), in `interp.dfy`. It is a class holding a stack
  of scopes and a tick counter.

Supporting modules:
- `types.dfy` declares the fragment of the type lattice that these pieces
  rely on. The lattice itself lives in `pql_types`, which is not part of this
  model. The subtype order is written out here and proved reflexive and
  transitive.
- `sql.dfy` is the opaque SQL tree.
- `errors.dfy` holds the errors and the `Result` type.

Python exceptions become `Err` values. This includes exceptions the source
does not raise on purpose, such as a missing key, a missing attribute or
popping an empty list. Four exceptions are instead excluded by a
precondition, because no caller in the modelled code reaches them:
- `get_column` of a name that is not a column (a `KeyError`) is excluded by
  `HasColumn`;
- `subqueries` of a map or method instance (an `AttributeError`) is excluded
  by `HasSubqueries`;
- `merge_subqueries` of maps that disagree on a name (SafeDict's error) is
  excluded by `Mergeable`;
- `values.pop` in `match_params` of a function declaring two parameters
  with the same name (a `KeyError`) is excluded by `ParamNamesDistinct`.

Two of the source's `assert` statements are likewise preconditions: an
inlined argument comes last (`InlineLast`, `match_params`' check that the
inlined argument is the last one), and `make_instance` is never given a
struct type (`Materializable`).

`Valid` states the assertions of the source's constructors
(`__post_init__`), plus two shapes that the source's factories always build
but no constructor asserts: an aggregate's type is `aggregate[elem.type]`
(`make_instance` and `aggregate` build it so), and a selected column's
parent is a list or table that has the column (`get_attr` builds it so).
The operations keep `Valid`. `Types.WellFormed` adds the invariants of the
lattice that the constructors rely on: column and field names are distinct,
an aggregate type never wraps a struct type, and a vectorized type wraps a
plain value type.

Three behaviours of the code deserve mention:
- `_cast` has no identity rule for primitive types. Casting an `int` to
  `int` is the "cast not implemented" error (`CastIntToIntNotImplemented`).
  Only a list whose element type is already below the target's comes back
  unchanged.
- A `RowInstance` without an `id` member does not fall back to its first
  member. Its `primary_key` is a `KeyError` (`PrimaryKeyOfRowWithoutId`).
  Only a plain struct takes its first member.
- A call whose arguments are all positional takes the fast path, which only
  walks the declared parameters. Surplus positional arguments are silently
  ignored there, while the general path would raise "takes N parameters"
  (`FastDropsExtraArguments`).

## Model

| member | source | states |
|---|---|---|
| Instances.MergeSubqueries | preql/pql_objects.py:478-479 | a name is in the merge iff some instance has it, and maps to that instance's body (callers keep the maps compatible) |
| Instances.MergeSubqueriesSingle | preql/pql_objects.py:478-479 | merging the subqueries of a single instance gives back its own |
| Instances.Code | preql/pql_objects.py:369-372 | a struct, or a map (which has no `code`), refuses `code` with a TypeError; an instance with code has a materializable type, readable subqueries and no selected column; the unknown sentinel's code is `sql.unknown` with no subqueries |
| Instances.MakeInstance | preql/pql_objects.py:320-331 | the result is valid, has type `t`, carries `code` and the merged subqueries of `insts`; list type gives a list instance, table a table, aggregate an aggregate, unknown the sentinel, any other plain type a plain instance |
| Instances.MakeInstanceFromName | preql/pql_objects.py:315-318 | the result is valid and has type `t` and no subqueries; a struct type gives a struct instance whose members are built the same way under joined names, in field order |
| Instances.Aggregated | preql/pql_objects.py:482-486 | the result has type `aggregate[inst.type]` and the same code, subqueries and flattened code as `inst`, and is valid when `inst` is |
| Instances.GetColumn | preql/pql_objects.py:266-269 | a column of a list or table is a valid instance of the column's declared type |
| Instances.FlattenCode | preql/pql_objects.py:218-220 | an instance with code flattens to exactly that one fragment |
| Instances.GetAttr | preql/pql_objects.py:276-311 | every attribute found is a valid instance |
| Instances.CollectionAttr | preql/pql_objects.py:276-284 | a list or table attribute found is a valid instance |
| Instances.AggregateOf | preql/pql_objects.py:347-349 | re-wrapping `x` as an aggregate keeps its code and subqueries and has type `aggregate[x.type]`; an `x` without code fails with that error |
| Instances.PrimaryKey | preql/pql_objects.py:222-223 | the key of a valid instance is valid |
| Instances.PrimaryKeyCases | preql/pql_objects.py:222-223 | a plain, value, list, table or map instance is its own key; an aggregate has its element's key; a plain struct has its first member, or fails when empty; a selected column, method or the unknown sentinel has no `primary_key` attribute |
| Instances.Subqueries | preql/pql_objects.py:383-385 | a struct's subqueries hold a name iff some member's do, with that member's body |
| Instances.FlattenMembers | preql/pql_objects.py:387-388 | a struct's members from the `i`-th on flatten iff each of them flattens |
| Instances.ClashingColumn | preql/pql_objects.py:271-274 | finds a column name iff some column is named like a method, and the name found is the first such column's |
| Instances.AllAttrs | preql/pql_objects.py:271-274 | every attribute listed is valid; a table's listing fails, with the duplicate name, iff a column is named like one of its methods |
| Instances.FlattenNamed | preql/pql_objects.py:387-388 | the instance named `cn` of type `t` flattens to one fragment per leaf column of `t`, in field order under joined names: the column's name, or `sql.unknown` for a leaf of unknown type |
| Instances.FlattenNamedFields | preql/pql_objects.py:387-388 | a struct's members from the `i`-th on flatten to the concatenation of their leaf names |
| Instances.StructNarrowing | preql/pql_objects.py:363-372 | a struct has no code (TypeError) but hands out each of its members by name |
| Instances.StructAttributes | preql/pql_objects.py:363-367 | a struct or map finds exactly its members' names; any other name is an AttributeError naming it |
| Instances.AggregateAttribute | preql/pql_objects.py:339-349 | an aggregate's attribute is its element's attribute re-wrapped at `aggregate[x.type]`, with the element attribute's code and subqueries; errors pass through |
| Instances.CollectionAttributes | preql/pql_objects.py:276-311 | a column comes first, as a selected column that flattens like the column itself; then a method; otherwise AttributeError; a list's only column is `value` |
| Instances.SelectedColumnDefersToParent | preql/pql_objects.py:449-470 | a selected column flattens and answers attributes as whatever the parent's `get_column` returns now, whatever type it was labelled with; its subqueries are the parent's; its code is a TypeError |
| Instances.AllAttrsAgreesWithGetAttr | preql/pql_objects.py:271-274 | the names `all_attrs` lists are exactly those `get_attr` accepts, for lists, tables, structs and maps; a table with a column named like a method fails to list, while `get_attr` answers that name with the column |
| Instances.UnknownAbsorbs | preql/pql_objects.py:431-446 | the unknown sentinel returns itself for every attribute, has no attributes listed, no subqueries, and flattens to its own code |
| Instances.StructSubqueries | preql/pql_objects.py:383-385 | a struct's subqueries are its members' merged |
| Instances.PrimaryKeyOfNamedStruct | preql/pql_objects.py:390-392 | a struct's key is its first member |
| Instances.PrimaryKeyOfRow | preql/pql_objects.py:422-424 | a row's key is its `id` member |
| Instances.PrimaryKeyOfRowWithoutId | preql/pql_objects.py:422-424 | a row without an `id` member has no key (KeyError) |
| Casts.Dispatch | preql/casts.py:8-81 | the rule picked for a (source, target) pair is one whose patterns match the pair |
| Casts.DispatchMostSpecific | preql/casts.py:8-81 | the picked rule is at least as specific as every applicable rule, and no other applicable rule is as specific as it |
| Casts.DispatchFallback | preql/casts.py:8-10 | the failing fallback runs exactly when no specific rule applies |
| Casts.Unvectorized | preql/casts.py:73-76 | the unwrapped instance is valid, has the vectorized type's element type and the same code |
| Casts.Relabel | preql/casts.py:44-46 | replacing the type keeps code and subqueries and yields a valid instance of the new type |
| Casts.CastTo | preql/casts.py:8-81 | a successful cast is a valid instance whose type is below the target |
| Casts.ListCast | preql/casts.py:13-23 | the list rule only succeeds with a valid instance below the target list type |
| Casts.AggregateCast | preql/casts.py:26-29 | the aggregate rule only succeeds with a valid instance below the target list type |
| Casts.TableToListCast | preql/casts.py:31-42 | a table of other than one column fails with "too many columns", one whose column is not below the target element with "elements not matching"; a success is a valid list of the column type, below the target |
| Casts.RelabelCast | preql/casts.py:44-46 | `id -> int` and `relation -> id` give a valid instance of the target type with the same code |
| Casts.ValueCast | preql/casts.py:48-71 | a numeric or string cast is one Cast node with the given spelling over the instance code, as a valid plain instance of the target type with the instance subqueries; an instance without code fails with that error |
| Casts.CastFallback | preql/casts.py:8-10 | a pair that no specific rule matches fails with a TypeError naming both types |
| Casts.CastRelabels | preql/casts.py:44-46 | `id -> int` and `relation -> id` succeed with the target type and the instance code unchanged |
| Casts.CastToInt | preql/casts.py:48-55 | a bool or float cast to int is the value cast spelled for the dialect |
| Casts.CastToFloat | preql/casts.py:57-60 | an int or bool cast to float is the value cast spelled `float` |
| Casts.CastToString | preql/casts.py:68-71 | any primitive cast to string is the value cast spelled `varchar` |
| Casts.CastTableRefused | preql/casts.py:31-37 | through the dispatcher, a table with other than one column, or whose column is not below the target element, is refused with the matching TypeError |
| Casts.CastEmptyList | preql/casts.py:13-15 | the empty list cast to any list type is the empty list at that type, with the same code and no subqueries |
| Casts.CastListUnchanged | preql/casts.py:17-18 | a list whose element type is already below the target's is returned as it is |
| Casts.CastListReprojects | preql/casts.py:20-23 | otherwise the `value` column is cast and selected from the list's code, aliased `value`; the result has type `list[castElem.type]` and the list's subqueries |
| Casts.CastAggregateRewraps | preql/casts.py:26-29 | an aggregate is cast as its element against the target element, then wrapped as an aggregate again |
| Casts.CastTableToList | preql/casts.py:31-42 | a single-column table whose column is below the target element becomes a list projecting that column aliased `value`, with the table's subqueries |
| Casts.CastVectorized | preql/casts.py:73-76 | a vectorized value is cast as its unwrapped element against the same target |
| Casts.NumericCastSpelling | preql/casts.py:48-55 | a bool or float cast to int is spelled `signed integer` under MySQL and `int` otherwise |
| Casts.CastIntToIntNotImplemented | preql/casts.py:8-10 | an int cast to int has no rule and fails |
| Params.FirstNamed | preql/pql_objects.py:97-101 | the index of the first named field: every field before it is positional |
| Params.FindFirstNamed | preql/pql_objects.py:97-105 | the loop finds the first named field and reports whether every later field is named too |
| Params.BoundValueStep | preql/pql_objects.py:119-122 | binding the next named field changes only the value of the parameter it names |
| Params.LastNamed | preql/pql_objects.py:119-122 | finds a value iff some field in range carries the name, and it is the value of the last such field |
| Params.UnknownName | preql/pql_objects.py:119-128 | finds a name iff some field in range names no parameter, and it names no parameter |
| Params.UnknownNameFirst | preql/pql_objects.py:119-128 | the name found is the first field in range naming no parameter: every earlier field names one |
| Params.Collected | preql/pql_objects.py:117-125 | the collector receives only names that are no parameter's, and receives something only when such a name exists |
| Params.CollectedContents | preql/pql_objects.py:117-125 | the collector receives something iff some field names no parameter; it receives every such field's name with that field's value, and nothing else |
| Params.CollectedInOrder | preql/pql_objects.py:117-125 | two collected fields reach the collector in the order of the arguments |
| Params.FirstNone | preql/pql_objects.py:131-134 | the first parameter left without a value, or none when all have one |
| Params.MatchParamsFast | preql/pql_objects.py:55-67 | the fast path gives parameter `i` argument `i` or else its default, in declaration order, and fails on the first parameter with neither |
| Params.MatchParams | preql/pql_objects.py:74-140 | the result is the reference matching: the fast path for positional calls, else canonize and bind; only the general path requires the assertions it makes |
| Params.CanonizeArgs | preql/pql_objects.py:80-96 | the arguments become named fields in order, an inlined map one field per entry; a non-map inline is a TypeError |
| Params.MatchFields | preql/pql_objects.py:96-140 | the binding on canonical fields is the reference: its error checks in the source's order, then the bindings and the collector |
| Params.InitValues | preql/pql_objects.py:111 | `values` starts as every parameter's default |
| Params.BindPositional | preql/pql_objects.py:113-115 | the positional arguments overwrite the first parameters' values in order |
| Params.BindNamed | preql/pql_objects.py:117-128 | named fields set their parameter's value or go to the collector; without a collector, the first unknown name is a TypeError |
| Params.BindAll | preql/pql_objects.py:131-136 | fails on the first parameter without a value, else pairs each parameter with its value in declaration order |
| Params.CanonizePositional | preql/pql_objects.py:93-94 | positional arguments canonize to one unnamed field each, in order |
| Params.FastAgreesWithGeneral | preql/pql_objects.py:76-78 | with no more positional arguments than parameters the fast path binds what the general path would |
| Params.FastDropsExtraArguments | preql/pql_objects.py:56-67 | with more positional arguments than parameters, the fast path ignores the extra ones, where the general path raises "takes N parameters" |
| Params.MatchInDeclarationOrder | preql/pql_objects.py:136-140 | a success lists every declared parameter in order, then the collector only if it received a non-empty map of non-parameter names; a positional call yields exactly one pair per parameter |
| Params.CollectorReceives | preql/pql_objects.py:136-140 | a success has one pair beyond the parameters iff some named argument names no parameter, and that pair binds the collector to the map of those arguments |
| Params.NamedOverrides | preql/pql_objects.py:119-122 | a parameter named by a field takes the value of the last field naming it, over positional arguments and defaults |
| Params.PositionalOrDefault | preql/pql_objects.py:111-115 | an unnamed parameter takes its positional argument if there is one, else its default |
| Params.GeneralErrors | preql/pql_objects.py:97-134 | positional after named, too many positional, the first unknown name without a collector and a missing value each fail as the source reports them, and the call fails only then |
| InterpCommon.InnermostBinding | preql/interp_common.py:29-32 | a name is found iff some scope binds it, and the value comes from the innermost such scope |
| InterpCommon.Assigned | preql/interp_common.py:42-44 | assignment changes only the innermost scope, adding the name to it |
| InterpCommon.MergedAgreesWithBinding | preql/interp_common.py:46-50 | the merged dictionary binds exactly the visible names, each to the innermost binding |
| InterpCommon.BindingAfterAssign | preql/interp_common.py:42-44 | after `set_var` the name resolves to the new value and every other name as before |
| InterpCommon.State.constructor | preql/interp_common.py:21-27 | a state starts at tick 0 with the given scopes, or one empty scope when none are given |
| InterpCommon.State.GetVar | preql/interp_common.py:29-40 | returns the innermost binding, or NameNotFound |
| InterpCommon.State.SetVar | preql/interp_common.py:42-44 | writes into the innermost scope only; an empty stack is an IndexError |
| InterpCommon.State.GetAllVars | preql/interp_common.py:46-50 | returns the outer-to-inner merge, which agrees with `get_var` on every name |
| InterpCommon.State.PushScope | preql/interp_common.py:52-53 | appends an empty scope |
| InterpCommon.State.PopScope | preql/interp_common.py:55-56 | removes and returns the innermost scope; an empty stack is an IndexError |
| InterpCommon.State.PushThenPop | preql/interp_common.py:52-56 | a push then a pop returns the empty scope and restores the stack; tick and dialect are unchanged |
| InterpCommon.State.Copy | preql/interp_common.py:59-63 | the copy is a new state with equal dialect, scopes and tick |
| InterpCommon.State.CopyIsIndependent | preql/interp_common.py:59-63 | binding a name in the copy leaves the original's scopes unchanged |
| InterpCommon.State.RunBody | preql/interp_common.py:69-70 | a block touches only the innermost scope, advances the tick once per alias, and ends with its first failure |
| InterpCommon.State.UseScope | preql/interp_common.py:65-73 | the stack is exactly as before afterwards, whether the block failed or not; the pushed scope comes back with the block's bindings |
| InterpCommon.NatToString | preql/interp_common.py:81 | `str(tick)` is a non-empty string of decimal digits with no leading zero |
| InterpCommon.ParseNatToString | preql/interp_common.py:81 | reading the digits of `str(n)` back gives `n` |
| InterpCommon.NatToStringInjective | preql/interp_common.py:81 | different ticks are spelled differently |
| InterpCommon.AliasAt | preql/interp_common.py:76-81 | a string alias is the prefix followed by the digits of the tick; a table instance takes its table's name as the prefix; any other object is the `+` TypeError |
| InterpCommon.GetAlias | preql/interp_common.py:76-81 | advances the tick by exactly one and returns the alias for the new tick; scopes are untouched |
| InterpCommon.AliasesDistinct | preql/interp_common.py:76-81 | one prefix at two different ticks gives two different aliases |
| InterpCommon.SuccessiveAliases | preql/interp_common.py:76-81 | two successive aliases for one prefix or one table differ, and the tick advances by two |
| InterpCommon.AliasesAcrossPrefixesMayCoincide | preql/interp_common.py:81 | distinctness holds per prefix only: `t1` at tick 1 and `t` at tick 11 are both `t11` |

## Left out

- The type lattice (`T`, `<=`, `issubtype`, element and method tables, `join_names`) is in `pql_types`, which is not part of this model. `types.dfy` declares a small closed set of types with its own subtype order. List, aggregate and vectorized types are covariant, and an aggregate is below a list of a supertype.
- The runtime dispatch machinery (`dp_type`, `Dispatchy`) is not modelled. The match in `Casts.Dispatch` takes its place. Its source patterns follow the source's: an aggregate type is below the generic list in `Types.Sub`, so the list rule's source pattern admits aggregates, and the table-to-list rule's pattern `T.table` also admits lists and aggregates, as in the lattice of `pql_types`; the list and aggregate rules, being more specific, take those first. `Types.Sub` has no list-below-table case, since no modelled operation compares a list with a table.
- Casts.Dispatch: target types are matched by their constructor only. An aggregate target therefore always reaches the failing fallback, although the source's lattice puts `aggregate[...]` below `T.list` and would run a list rule on it. That rule can return its input unchanged at a type that is not below the aggregate target, so `Casts.CastTo`'s promise of a result below the target holds for the list targets the model dispatches.
- Casts.Dispatch: a source of unknown type is dispatched like any other kind (to the fallback). How the lattice orders `unknown` against the patterns is not known here.
- Casts.Unvectorized: `objects.unvectorized` is not defined in the source shown. The model relabels the instance at the vectorized type's element type and keeps its code.
- `ListMethods` is empty: the method tables of list types made by `T.list[...]` are in `pql_types`. A list type given by a caller may carry any methods.
- Instances.GetAttr: a plain or value instance looks names up in its type's method table, which is in `pql_types`. The model answers AttributeError. The `breakpoint()` call is not modelled.
- `new_value_instance` (with `settings.optimize`) and `sql.make_value` are not modelled. An inlined map's values are bound as they are, without being re-wrapped as value instances.
- `Function._localize_keys` raises NotImplementedError in this file; its real definition is elsewhere. An `Inline` argument carries the localized entries, or `None` for an expression that is not a map.
- `SafeDict` is in `utils`, which is not part of this model. Merging subqueries requires the maps to agree on shared names (`Mergeable`) instead of modelling SafeDict's failure.
- Instances.EmptyList: the empty-list singleton is recognized by value equality, not by object identity.
- `state.db` and `state.fmt` are reduced to a two-valued dialect; `fmt` is dropped.
- The `contextmanager` mechanics of `use_scope` are not modelled. A block is a sequence of steps (bind a name, ask for an alias, fail), pushed and popped around. Nested scopes inside the block are not modelled, so the final `assert x == len(self.ns)` cannot fail.
- Scope aliasing is not modelled. Python's scopes are dicts shared by reference, while the model's scopes are values. `UseScope` returns the scope as the block left it, in place of mutating the caller's dict. For the same reason InterpCommon.State.CopyIsIndependent holds by construction: it cannot tell `__copy__`'s fresh dicts (`dict(n)`) from shared ones.
- InterpCommon.State.SetVar: the `assert not isinstance(value, ast.Name)` guard is not modelled; values are instances, never AST names.
- InterpCommon.State.GetVar: the error carries the name only. `name.meta` (source position) is dropped.
- `repr`, `help_str`, `docstring` and `repr_value` only format text for users.
- `alias_table_columns`, `new_table` and `from_python` depend on `flatten_type` and on AST constructors that are not part of this model.
- `Instances.Literal` has no float case: float values are not represented, and the `local_value` of a value instance is a literal or null.
- Params.MatchParams requires `CollectedOnce` on the general path: a name the collector receives appears once. The source asserts this while binding (line 124). The model requires it of every non-positional call, even where another error would be raised first.
- Params.MatchFields: `values.pop` and the final `assert not values` are not modelled separately. With distinct parameter names the pairs are read in declaration order, and the dictionary ends empty by construction.
- Casts.CastTo: a table's single column is taken as its element type (`inst_type.elem` for a table in `pql_types`).
- The relational query builder and the auto-join resolver are not in the files modelled here.
- Types.WellFormed: a vectorized type is required to wrap a plain value type. The source's `unvectorized` is in `objects`, which is not part of this model, and the model relabels at the element type, which only plain element types allow.
- Instances.MakeInstance: the source's tests `t <= T.list`, `t <= T.table` and `t <= T.aggregate` are modelled as tests of the type's constructor. Under `Types.Sub` an aggregate type is also below the generic list, where the model builds an aggregate instance.
- Instances.AllAttrs: methods are listed as method instances bound to the instance, where the source lists the type's method objects, which live in `pql_types`. A table's clash between a column and a method is the DuplicateKey error, since `SafeDict` is in `utils`, which is not part of this model.
- Types.WellFormed: an aggregate type is required never to wrap a struct type. The source asserts this only when `make_instance` builds an instance of such an aggregate (its recursive call, which asserts its type is not a struct). The model requires it of every type, so a table with an `aggregate[struct]` column, which the source accepts until that column is read, is not valid here.
