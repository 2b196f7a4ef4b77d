/** `RpcOptions`: the endpoint configuration record, its defaults and its
    field setters. */
module Options {
  import opened Common

  datatype RpcOptions = RpcOptions(
    safeEnabled: bool,
    warnOnUnsafe: bool,
    enableBatch: bool,
    maxBatchSize: Int32,
    enableLogging: bool,
    enableMiddleware: bool,
    enableValidation: bool,
    sanitizeErrors: bool,
    timeoutSeconds: Int32,
    enableIntrospection: bool,
    introspectionPrefix: string)

  /** `new RpcOptions()` */
  function DefaultOptions(): (o: RpcOptions)
    ensures !o.safeEnabled && o.warnOnUnsafe && o.enableBatch && o.maxBatchSize == 100
    ensures o.enableLogging && o.enableMiddleware && o.enableValidation && o.sanitizeErrors
    ensures o.timeoutSeconds == 30 && !o.enableIntrospection && o.introspectionPrefix == "__rpc"
  {
    RpcOptions(
      safeEnabled := false,
      warnOnUnsafe := true,
      enableBatch := true,
      maxBatchSize := 100,
      enableLogging := true,
      enableMiddleware := true,
      enableValidation := true,
      sanitizeErrors := true,
      timeoutSeconds := 30,
      enableIntrospection := false,
      introspectionPrefix := "__rpc")
  }

  /** The configurable fields, one per setter. */
  datatype Field =
    | SafeEnabled | WarnOnUnsafe | EnableBatch | MaxBatchSize | EnableLogging | EnableMiddleware
    | EnableValidation | SanitizeErrors | TimeoutSeconds | EnableIntrospection | IntrospectionPrefix

  /** A field's value, of the type its setter takes. */
  datatype Value = Flag(flag: bool) | Number(number: Int32) | Text(text: string)

  /** The setter of `f` takes a value of this kind. */
  predicate Fits(f: Field, v: Value) {
    match f
    case MaxBatchSize => v.Number?
    case TimeoutSeconds => v.Number?
    case IntrospectionPrefix => v.Text?
    case _ => v.Flag?
  }

  /** The getter of a field (`isSafeEnabled()`, `getMaxBatchSize()`, ...). */
  function Get(o: RpcOptions, f: Field): (v: Value)
    ensures Fits(f, v)
  {
    match f
    case SafeEnabled => Flag(o.safeEnabled)
    case WarnOnUnsafe => Flag(o.warnOnUnsafe)
    case EnableBatch => Flag(o.enableBatch)
    case MaxBatchSize => Number(o.maxBatchSize)
    case EnableLogging => Flag(o.enableLogging)
    case EnableMiddleware => Flag(o.enableMiddleware)
    case EnableValidation => Flag(o.enableValidation)
    case SanitizeErrors => Flag(o.sanitizeErrors)
    case TimeoutSeconds => Number(o.timeoutSeconds)
    case EnableIntrospection => Flag(o.enableIntrospection)
    case IntrospectionPrefix => Text(o.introspectionPrefix)
  }

  /** The setter of a field (`setSafeEnabled(b)`, `setMaxBatchSize(n)`,
      ...): it stores the value as given, with no range check. */
  function Set(o: RpcOptions, f: Field, v: Value): (r: RpcOptions)
    requires Fits(f, v)
    ensures Get(r, f) == v
  {
    match f
    case SafeEnabled => o.(safeEnabled := v.flag)
    case WarnOnUnsafe => o.(warnOnUnsafe := v.flag)
    case EnableBatch => o.(enableBatch := v.flag)
    case MaxBatchSize => o.(maxBatchSize := v.number)
    case EnableLogging => o.(enableLogging := v.flag)
    case EnableMiddleware => o.(enableMiddleware := v.flag)
    case EnableValidation => o.(enableValidation := v.flag)
    case SanitizeErrors => o.(sanitizeErrors := v.flag)
    case TimeoutSeconds => o.(timeoutSeconds := v.number)
    case EnableIntrospection => o.(enableIntrospection := v.flag)
    case IntrospectionPrefix => o.(introspectionPrefix := v.text)
  }

  /** A setter changes no field but its own. */
  lemma SetLeavesOtherFields(o: RpcOptions, f: Field, v: Value, g: Field)
    requires Fits(f, v) && g != f
    ensures Get(Set(o, f, v), g) == Get(o, g)
  {
  }

  /** Two option records are equal when every getter agrees. */
  lemma {:induction false} GettersDetermineOptions(a: RpcOptions, b: RpcOptions)
    requires forall f :: Get(a, f) == Get(b, f)
    ensures a == b
  {
    assert Get(a, SafeEnabled) == Get(b, SafeEnabled);
    assert Get(a, WarnOnUnsafe) == Get(b, WarnOnUnsafe);
    assert Get(a, EnableBatch) == Get(b, EnableBatch);
    assert Get(a, MaxBatchSize) == Get(b, MaxBatchSize);
    assert Get(a, EnableLogging) == Get(b, EnableLogging);
    assert Get(a, EnableMiddleware) == Get(b, EnableMiddleware);
    assert Get(a, EnableValidation) == Get(b, EnableValidation);
    assert Get(a, SanitizeErrors) == Get(b, SanitizeErrors);
    assert Get(a, TimeoutSeconds) == Get(b, TimeoutSeconds);
    assert Get(a, EnableIntrospection) == Get(b, EnableIntrospection);
    assert Get(a, IntrospectionPrefix) == Get(b, IntrospectionPrefix);
  }

  /** Setting a field to the value it already has changes nothing. */
  lemma SetCurrentValueIsIdentity(o: RpcOptions, f: Field)
    ensures Set(o, f, Get(o, f)) == o
  {
    forall h ensures Get(Set(o, f, Get(o, f)), h) == Get(o, h) {
      if h != f { SetLeavesOtherFields(o, f, Get(o, f), h); }
    }
    GettersDetermineOptions(Set(o, f, Get(o, f)), o);
  }

  /** Of two sets of the same field, the last one wins. */
  lemma SetTwiceLastWins(o: RpcOptions, f: Field, v: Value, w: Value)
    requires Fits(f, v) && Fits(f, w)
    ensures Set(Set(o, f, v), f, w) == Set(o, f, w)
  {
    forall h ensures Get(Set(Set(o, f, v), f, w), h) == Get(Set(o, f, w), h) {
      if h != f {
        SetLeavesOtherFields(Set(o, f, v), f, w, h);
        SetLeavesOtherFields(o, f, v, h);
        SetLeavesOtherFields(o, f, w, h);
      }
    }
    GettersDetermineOptions(Set(Set(o, f, v), f, w), Set(o, f, w));
  }

  /** Sets of two different fields commute. */
  lemma SetsOfDifferentFieldsCommute(o: RpcOptions, f: Field, v: Value, g: Field, w: Value)
    requires Fits(f, v) && Fits(g, w) && f != g
    ensures Set(Set(o, f, v), g, w) == Set(Set(o, g, w), f, v)
  {
    var a := Set(Set(o, f, v), g, w);
    var b := Set(Set(o, g, w), f, v);
    forall h ensures Get(a, h) == Get(b, h) {
      if h == f {
        SetLeavesOtherFields(Set(o, f, v), g, w, f);
      } else if h == g {
        SetLeavesOtherFields(Set(o, g, w), f, v, g);
      } else {
        SetLeavesOtherFields(Set(o, f, v), g, w, h);
        SetLeavesOtherFields(o, f, v, h);
        SetLeavesOtherFields(Set(o, g, w), f, v, h);
        SetLeavesOtherFields(o, g, w, h);
      }
    }
    GettersDetermineOptions(a, b);
  }

  /** The endpoint reads `maxBatchSize` as a limit only when it is
      positive; zero and negative values mean no limit. */
  predicate ExceedsBatchLimit(o: RpcOptions, size: nat) {
    o.maxBatchSize > 0 && size > o.maxBatchSize
  }

  lemma NonPositiveLimitIsUnlimited(o: RpcOptions, size: nat)
    requires o.maxBatchSize <= 0
    ensures !ExceedsBatchLimit(o, size)
    ensures !ExceedsBatchLimit(Set(o, MaxBatchSize, Number(0)), size)
    ensures !ExceedsBatchLimit(Set(o, MaxBatchSize, Number(-1)), size)
  {
  }
}
