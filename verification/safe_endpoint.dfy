/** `RpcSafeEndpoint`: an endpoint whose options always have safe mode on. */
module SafeEndpoint {
  import opened Common
  import opened Options
  import opened Endpoint

  /** The options a merge produces, and what the caller's own options
      object holds afterwards (`None` when the caller passed `null`). */
  datatype Overlay = Overlay(effective: RpcOptions, callerAfter: Option<RpcOptions>)

  /** `mergeSafeOptions(userOptions)`: the caller's object, or fresh
      defaults, with safe mode switched on. The caller's object is the one
      changed, so the caller sees safe mode on afterwards. */
  function MergeSafeOptions(user: Option<RpcOptions>): (m: Overlay)
    ensures m.effective.safeEnabled
    ensures user.Some? ==> m.callerAfter == Some(m.effective)
    ensures user.None? ==> m.callerAfter.None? && m.effective == DefaultOptions().(safeEnabled := true)
  {
    var base := if user.Some? then user.value else DefaultOptions();
    var merged := Set(base, SafeEnabled, Flag(true));
    Overlay(merged, if user.Some? then Some(merged) else None)
  }

  /** Only safe mode changes: every other option keeps the caller's value,
      and options that already had safe mode on come back unchanged. */
  lemma MergeSafeOptionsOnlySetsSafeMode(user: RpcOptions, f: Field)
    requires f != SafeEnabled
    ensures Get(MergeSafeOptions(Some(user)).effective, f) == Get(user, f)
    ensures user.safeEnabled ==> MergeSafeOptions(Some(user)).effective == user
    ensures MergeSafeOptions(Some(MergeSafeOptions(Some(user)).effective)) == MergeSafeOptions(Some(user))
  {
    SetLeavesOtherFields(user, SafeEnabled, Flag(true), f);
    if user.safeEnabled {
      SetCurrentValueIsIdentity(user, SafeEnabled);
    }
    SetTwiceLastWins(user, SafeEnabled, Flag(true), Flag(true));
  }

  /** `new RpcSafeEndpoint(context, options)`: an endpoint built from the
      merged options. */
  function NewSafeEndpoint<C>(context: C, options: Option<RpcOptions>): (ep: Endpoint<C>)
    ensures ep.options.safeEnabled
    ensures ep.context == context
  {
    NewEndpoint(context, Some(MergeSafeOptions(options).effective))
  }

  /** A safe endpoint is the plain endpoint with safe mode turned on: given
      options that already have it on, the two constructors agree, and
      without options the safe endpoint differs from the default endpoint
      in the safe-mode option alone. */
  lemma SafeEndpointIsEndpoint<C>(context: C, options: RpcOptions)
    ensures options.safeEnabled ==> NewSafeEndpoint(context, Some(options)) == NewEndpoint(context, Some(options))
    ensures NewSafeEndpoint(context, None)
              == NewEndpoint(context, None).(options := NewEndpoint(context, None).options.(safeEnabled := true))
  {
    if options.safeEnabled {
      SetCurrentValueIsIdentity(options, SafeEnabled);
    }
  }
}
