/** The method table of `RpcEndpoint`: registration with its three
    refusals, removal, listing and lookup. */
module Registry {
  import opened Common
  import opened JsonValues
  import opened Errors

  /** What calling a method handler does: return a JSON value (`JNull` for
      Java `null`), or throw. */
  datatype Invocation = Returned(value: Json) | Threw(thrown: Thrown)

  /** The five built-in introspection methods. Their handlers read the live
      method table and options, so the endpoint evaluates them. */
  datatype Introspection = ListMethods | Describe | DescribeAll | Version | Capabilities

  /** An `RpcMethodHandler`: a user function of the params and the server
      context, a built-in, or `null` (registration does not refuse it). */
  datatype Handler<-C> =
    | UserHandler(call: (Json, C) -> Invocation)
    | Builtin(kind: Introspection)
    | NullHandler

  /** The metadata of a `MethodConfig`: `schema` is `JNull` when unset and
      `description` is `None` when `null`. */
  datatype MethodConfig = MethodConfig(schema: Json, exposeSchema: bool, description: Option<string>)

  /** `new MethodConfig()` */
  function DefaultMethodConfig(): (c: MethodConfig)
    ensures c.schema == JNull && !c.exposeSchema && c.description.None?
  {
    MethodConfig(JNull, false, None)
  }

  /** A registered method: `addMethod` stores the name and handler into the
      configuration object, so an entry is all three together. */
  datatype MethodEntry<-C> = MethodEntry(name: string, handler: Handler<C>, config: MethodConfig)

  /** The method map. `order` lists the keys in registration order and
      stands for the map's iteration order, which the Java map leaves
      unspecified. */
  datatype Registry<-C> = Registry(entries: map<string, MethodEntry<C>>, order: seq<string>)

  predicate NoDuplicates(s: seq<string>) {
    forall i, j :: 0 <= i < j < |s| ==> s[i] != s[j]
  }

  /** The table's invariant: each key is listed once in `order`, exactly
      the keys are listed, and every entry is stored under its own name. */
  predicate Valid<C>(reg: Registry<C>) {
    && NoDuplicates(reg.order)
    && (forall k :: k in reg.entries ==> k in reg.order)
    && (forall k :: k in reg.order ==> k in reg.entries)
    && (forall k :: k in reg.entries ==> reg.entries[k].name == k)
  }

  function EmptyRegistry<C>(): (reg: Registry<C>)
    ensures Valid(reg) && reg.entries == map[]
  {
    Registry(map[], [])
  }

  /** Names starting with the introspection prefix and a dot are reserved
      for the built-ins. */
  predicate IsReserved(name: string, prefix: string) {
    HasPrefix(name, prefix + ".")
  }

  /** `addMethod(name, handler, config)`. `name` is `None` for `null`;
      `internal` is the endpoint's flag that is set only while it registers
      its own built-ins. A `null` config means a fresh `MethodConfig`. */
  function AddMethod<C>(reg: Registry<C>, prefix: string, name: Option<string>, handler: Handler<C>,
                        config: Option<MethodConfig>, internal: bool): (r: Result<Registry<C>>)
    ensures r.Ok? <==> && name.Some? && !IsBlank(name.value)
                       && (internal || !IsReserved(name.value, prefix))
                       && name.value !in reg.entries
    ensures r.Ok? ==> var n := name.value;
                      && r.value.entries.Keys == reg.entries.Keys + {n}
                      && r.value.entries[n].name == n && r.value.entries[n].handler == handler
                      && r.value.entries[n].config == (if config.Some? then config.value else DefaultMethodConfig())
                      && (forall k :: k in reg.entries ==> r.value.entries[k] == reg.entries[k])
                      && r.value.order == reg.order + [n]
    ensures r.Ok? && Valid(reg) ==> Valid(r.value)
  {
    if name.None? || IsBlank(name.value) then
      Err("IllegalArgumentException: Method name cannot be empty")
    else if IsReserved(name.value, prefix) && !internal then
      Err("IllegalArgumentException: Method names starting with '" + prefix + ".' are reserved for RPC introspection")
    else if name.value in reg.entries then
      Err("IllegalArgumentException: Method '" + name.value + "' is already registered")
    else
      var n := name.value;
      var cfg := if config.Some? then config.value else DefaultMethodConfig();
      Ok(Registry(reg.entries[n := MethodEntry(n, handler, cfg)], reg.order + [n]))
  }

  /** `s` without the occurrences of `x`, the rest in their order. */
  function Without(s: seq<string>, x: string): (r: seq<string>)
    ensures |r| <= |s|
    ensures forall y :: y in r <==> y in s && y != x
    decreases |s|
  {
    if |s| == 0 then []
    else if s[0] == x then Without(s[1..], x)
    else [s[0]] + Without(s[1..], x)
  }

  /** Removing a name keeps a list free of duplicates. */
  lemma {:induction false} WithoutKeepsDistinct(s: seq<string>, x: string)
    ensures NoDuplicates(s) ==> NoDuplicates(Without(s, x))
    decreases |s|
  {
    if |s| > 0 && NoDuplicates(s) {
      WithoutKeepsDistinct(s[1..], x);
      if s[0] != x {
        var rest := Without(s[1..], x);
        assert s[0] !in s[1..] by {
          forall j | 0 <= j < |s[1..]| ensures s[1..][j] != s[0] { assert s[1..][j] == s[j + 1]; }
        }
        assert s[0] !in rest;
        var r := [s[0]] + rest;
        forall i, j | 0 <= i < j < |r| ensures r[i] != r[j] {
          if i == 0 { assert r[j] == rest[j - 1]; } else { assert r[i] == rest[i - 1] && r[j] == rest[j - 1]; }
        }
      }
    }
  }

  /** Removing a name that is not listed leaves the list as it was. */
  lemma {:induction false} WithoutAbsent(s: seq<string>, x: string)
    requires x !in s
    ensures Without(s, x) == s
    decreases |s|
  {
    if |s| > 0 {
      WithoutAbsent(s[1..], x);
      assert s == [s[0]] + s[1..];
    }
  }

  /** Removing the last element of a list in which it occurs once gives
      the list before it. */
  lemma {:induction false} WithoutAppended(s: seq<string>, x: string)
    requires x !in s
    ensures Without(s + [x], x) == s
    decreases |s|
  {
    if |s| == 0 {
      assert Without([x], x) == Without([], x);
    } else {
      assert (s + [x])[1..] == s[1..] + [x];
      WithoutAppended(s[1..], x);
      assert s == [s[0]] + s[1..];
    }
  }

  /** `removeMethod(name)`: deletes that key, whatever it is. */
  function RemoveMethod<C>(reg: Registry<C>, name: string): (r: Registry<C>)
    ensures r.entries.Keys == reg.entries.Keys - {name}
    ensures forall k :: k in r.entries ==> r.entries[k] == reg.entries[k]
    ensures Valid(reg) ==> Valid(r)
  {
    WithoutKeepsDistinct(reg.order, name);
    Registry(reg.entries - {name}, Without(reg.order, name))
  }

  /** `getMethod(name)`: the entry, or `None` (Java `null`) when absent. */
  function GetMethod<C>(reg: Registry<C>, name: string): (r: Option<MethodEntry<C>>)
    ensures r.Some? <==> name in reg.entries
    ensures r.Some? ==> r.value == reg.entries[name]
    ensures Valid(reg) && r.Some? ==> r.value.name == name
  {
    if name in reg.entries then Some(reg.entries[name]) else None
  }

  /** `listMethods()`: every registered name once, built-ins included. */
  function ListMethodNames<C>(reg: Registry<C>): (names: seq<string>)
    requires Valid(reg)
    ensures forall k :: k in names <==> k in reg.entries
    ensures NoDuplicates(names)
  {
    reg.order
  }

  /** Removing a name that is not registered changes nothing. */
  lemma RemoveAbsentIsNoOp<C>(reg: Registry<C>, name: string)
    requires Valid(reg) && name !in reg.entries
    ensures RemoveMethod(reg, name) == reg
  {
    WithoutAbsent(reg.order, name);
    assert reg.entries - {name} == reg.entries;
  }

  /** Removing a method right after adding it restores the table. */
  lemma RemoveUndoesAdd<C>(reg: Registry<C>, prefix: string, name: string, handler: Handler<C>,
                           config: Option<MethodConfig>, internal: bool)
    requires Valid(reg)
    requires AddMethod(reg, prefix, Some(name), handler, config, internal).Ok?
    ensures RemoveMethod(AddMethod(reg, prefix, Some(name), handler, config, internal).value, name) == reg
  {
    var added := AddMethod(reg, prefix, Some(name), handler, config, internal).value;
    WithoutAppended(reg.order, name);
    assert added.entries - {name} == reg.entries;
  }

  /** A refused registration can be repeated with any handler and is
      refused again: a second registration of a name never replaces the
      first one. */
  lemma AddMethodNeverReplaces<C>(reg: Registry<C>, prefix: string, name: string, h1: Handler<C>, h2: Handler<C>,
                                  config: Option<MethodConfig>, internal: bool)
    requires AddMethod(reg, prefix, Some(name), h1, config, internal).Ok?
    ensures AddMethod(AddMethod(reg, prefix, Some(name), h1, config, internal).value, prefix, Some(name), h2, config, internal).Err?
  {
  }

  /** The reserved-prefix rule only binds callers outside internal
      registration: a name made of the prefix, a dot and anything else is
      refused to a user and accepted internally, while the bare prefix is
      an ordinary name. */
  lemma ReservedNamesNeedInternal<C>(reg: Registry<C>, prefix: string, suffix: string, handler: Handler<C>,
                                     config: Option<MethodConfig>)
    requires prefix + "." + suffix !in reg.entries
    ensures AddMethod(reg, prefix, Some(prefix + "." + suffix), handler, config, false).Err?
    ensures AddMethod(reg, prefix, Some(prefix + "." + suffix), handler, config, true).Ok?
    ensures !IsReserved(prefix, prefix)
  {
    var n := prefix + "." + suffix;
    assert n[|prefix|] == '.';
    BlankIffAllTrimmable(n);
    assert n[..|prefix| + 1] == prefix + ".";
  }
}
