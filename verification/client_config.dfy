/** `RpcClientConfig` and the safe-mode overlay of `RpcSafeClient`. */
module ClientConfig {
  import opened Common

  /** `java.time.Duration`, by its length in nanoseconds. */
  datatype Duration = Duration(nanos: int)

  function OfSeconds(seconds: int): Duration {
    Duration(seconds * 1_000_000_000)
  }

  datatype RpcClientConfig = RpcClientConfig(
    safeMode: bool,
    connectTimeout: Duration,
    readTimeout: Duration,
    writeTimeout: Duration,
    headers: map<string, string>)

  const JsonMediaType := "application/json"

  /** The headers every new configuration starts with. */
  const DefaultHeaders: map<string, string> := map["Content-Type" := JsonMediaType, "Accept" := JsonMediaType]

  /** `new RpcClientConfig()` */
  function DefaultConfig(): (c: RpcClientConfig)
    ensures !c.safeMode
    ensures c.connectTimeout == OfSeconds(10) && c.readTimeout == OfSeconds(30) && c.writeTimeout == OfSeconds(30)
    ensures c.headers.Keys == {"Content-Type", "Accept"}
    ensures forall k :: k in c.headers ==> c.headers[k] == "application/json"
  {
    RpcClientConfig(false, OfSeconds(10), OfSeconds(30), OfSeconds(30), DefaultHeaders)
  }

  /** `setSafeMode(b)` */
  function SetSafeMode(c: RpcClientConfig, b: bool): RpcClientConfig {
    c.(safeMode := b)
  }

  /** `setConnectTimeout(d)` */
  function SetConnectTimeout(c: RpcClientConfig, d: Duration): RpcClientConfig {
    c.(connectTimeout := d)
  }

  /** `setReadTimeout(d)` */
  function SetReadTimeout(c: RpcClientConfig, d: Duration): RpcClientConfig {
    c.(readTimeout := d)
  }

  /** `setWriteTimeout(d)` */
  function SetWriteTimeout(c: RpcClientConfig, d: Duration): RpcClientConfig {
    c.(writeTimeout := d)
  }

  /** `getHeaders()` returns a copy. Maps are values here, so a caller
      changing what it received cannot reach the configuration. */
  function GetHeaders(c: RpcClientConfig): map<string, string> {
    c.headers
  }

  /** `setHeader(name, value)`: adds the header or overwrites its value;
      every other header and every other field is kept. */
  function SetHeader(c: RpcClientConfig, name: string, value: string): (r: RpcClientConfig)
    ensures r.headers.Keys == c.headers.Keys + {name} && r.headers[name] == value
    ensures forall k :: k in c.headers && k != name ==> r.headers[k] == c.headers[k]
    ensures r == c.(headers := r.headers)
  {
    c.(headers := c.headers[name := value])
  }

  /** `setHeaders(map)`: replaces the whole header map with a copy of the
      argument; defaults it lacks are gone. Every other field is kept. */
  function SetHeaders(c: RpcClientConfig, headers: map<string, string>): (r: RpcClientConfig)
    ensures GetHeaders(r) == headers
    ensures r.safeMode == c.safeMode && r.connectTimeout == c.connectTimeout
    ensures r.readTimeout == c.readTimeout && r.writeTimeout == c.writeTimeout
  {
    c.(headers := headers)
  }

  /** Replacing the headers forgets every header set before, defaults
      included: a header absent from the new map is gone, whatever the
      configuration held, and only the last replacement counts. Setting a
      single header instead keeps every header already there. */
  lemma SetHeadersDropsDefaults(c: RpcClientConfig, headers: map<string, string>, k: string,
                                name: string, value: string, earlier: map<string, string>)
    ensures k !in headers ==> k !in GetHeaders(SetHeaders(c, headers))
    ensures SetHeaders(SetHeaders(c, earlier), headers) == SetHeaders(c, headers)
    ensures SetHeaders(SetHeader(c, name, value), headers) == SetHeaders(c, headers)
    ensures k in GetHeaders(c) ==> k in GetHeaders(SetHeader(c, name, value))
    ensures "Accept" in GetHeaders(SetHeader(DefaultConfig(), name, value))
    ensures "Content-Type" in GetHeaders(SetHeader(DefaultConfig(), name, value))
  {
  }

  /** A merged configuration, and what the caller's own configuration holds
      once the merge is done (`None` when the caller passed `null`). */
  datatype Merged = Merged(config: RpcClientConfig, callerAfter: Option<RpcClientConfig>)

  /** `RpcSafeClient.mergeSafeConfig`: without a configuration, the
      defaults with safe mode on; with one, a fresh configuration built from
      the defaults, safe mode on, the caller's three timeouts and a copy of
      the caller's headers. The caller's object is not touched. */
  function MergeSafeConfig(user: Option<RpcClientConfig>): (m: Merged)
    ensures m.config.safeMode
    ensures m.callerAfter == user
    ensures user.None? ==> m.config == SetSafeMode(DefaultConfig(), true)
    ensures user.Some? ==> m.config == user.value.(safeMode := true)
  {
    if user.None? then
      Merged(SetSafeMode(DefaultConfig(), true), None)
    else
      var u := user.value;
      var c := SetSafeMode(DefaultConfig(), true);
      var c := SetConnectTimeout(c, u.connectTimeout);
      var c := SetReadTimeout(c, u.readTimeout);
      var c := SetWriteTimeout(c, u.writeTimeout);
      var c := SetHeaders(c, GetHeaders(u));
      Merged(c, user)
  }

  /** The merged configuration differs from the caller's in safe mode at
      most: merging a configuration whose safe mode is already on gives an
      equal one, and merging is idempotent. */
  lemma MergeSafeConfigOnlyTurnsOnSafeMode(u: RpcClientConfig)
    ensures var m := MergeSafeConfig(Some(u)).config;
            m.connectTimeout == u.connectTimeout && m.readTimeout == u.readTimeout
            && m.writeTimeout == u.writeTimeout && m.headers == u.headers
    ensures u.safeMode ==> MergeSafeConfig(Some(u)).config == u
    ensures MergeSafeConfig(Some(MergeSafeConfig(Some(u)).config)).config == MergeSafeConfig(Some(u)).config
  {
  }
}
