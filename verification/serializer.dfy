/** `RpcSerializer`: the safe-mode tagging of strings ("S:" prefix),
    instants ("D:" prefix before the ISO-8601 text) and big integers
    (trailing "n"), and the switch that installs those adapters only when
    safe mode is on. */
module Serializer {
  import opened Common
  import opened Decimal
  import opened JsonValues

  const StringTag := "S:"
  const DateTag := "D:"
  const BigIntegerSuffix := "n"

  // ---- strings ----

  /** `SafeStringSerializer.serialize` */
  function EncodeString(s: string): string {
    StringTag + s
  }

  /** `SafeStringSerializer.deserialize`: strips one leading "S:" when
      present, and passes any other text through unchanged. */
  function DecodeString(w: string): string {
    if HasPrefix(w, StringTag) then w[|StringTag|..] else w
  }

  /** Encoding prepends exactly the tag: the wire text is the tag followed
      by the original string. */
  lemma EncodeStringShape(s: string)
    ensures HasPrefix(EncodeString(s), StringTag)
    ensures |EncodeString(s)| == |s| + 2 && EncodeString(s)[2..] == s
  {
  }

  /** Every string survives the round trip, including one that already
      starts with "S:" (only the outermost tag is removed). */
  lemma StringRoundTrip(s: string)
    ensures DecodeString(EncodeString(s)) == s
  {
    assert EncodeString(s)[..2] == StringTag;
  }

  /** The decoder accepts text from a peer that does not tag strings, so a
      tagged and an untagged text decode to the same string: decoding is not
      injective, and text lacking the tag is its own decoding. */
  lemma DecodeStringBackwardCompatible(x: string)
    requires !HasPrefix(x, StringTag)
    ensures DecodeString(x) == x
    ensures DecodeString(EncodeString(x)) == DecodeString(x)
    ensures EncodeString(x) != x
  {
    StringRoundTrip(x);
  }

  /** Exactly one tag is stripped. */
  lemma DecodeStringStripsOnce(x: string)
    ensures DecodeString(StringTag + StringTag + x) == StringTag + x
  {
    assert (StringTag + StringTag + x)[..2] == StringTag;
    assert (StringTag + StringTag + x)[2..] == StringTag + x;
  }

  // ---- big integers ----

  /** `SafeBigIntegerSerializer.serialize`: the decimal numeral, then "n". */
  function EncodeBigInteger(n: int): string {
    IntToString(n) + BigIntegerSuffix
  }

  /** `SafeBigIntegerSerializer.deserialize`: strips one trailing "n" when
      present, otherwise parses the whole text; a non-numeral throws. */
  function DecodeBigInteger(w: string): Result<int> {
    if HasSuffix(w, BigIntegerSuffix) then ParseInt(w[..|w| - 1]) else ParseInt(w)
  }

  /** Every integer survives the round trip, zero and negatives included. */
  lemma BigIntegerRoundTrip(n: int)
    ensures DecodeBigInteger(EncodeBigInteger(n)) == Ok(n)
  {
    var w := EncodeBigInteger(n);
    assert w[|w| - 1..] == BigIntegerSuffix;
    assert w[..|w| - 1] == IntToString(n);
    ParseIntRoundTrip(n);
  }

  /** The decoder also accepts an untagged numeral, rejects a bare "n",
      and strips only one "n". */
  lemma DecodeBigIntegerLenient(n: int)
    ensures DecodeBigInteger(IntToString(n)) == Ok(n)
    ensures DecodeBigInteger("n").Err?
    ensures DecodeBigInteger(EncodeBigInteger(n) + BigIntegerSuffix).Err?
  {
    var s := IntToString(n);
    assert !HasSuffix(s, BigIntegerSuffix) by {
      assert s[|s| - 1..] == [s[|s| - 1]];
    }
    ParseIntRoundTrip(n);
    var w := EncodeBigInteger(n) + BigIntegerSuffix;
    assert w[..|w| - 1] == s + "n";
    assert !IsDigit((s + "n")[|s|]);
  }

  // ---- instants ----

  /** `java.time.Instant`: seconds from the epoch and nanoseconds. */
  datatype Instant = Instant(epochSecond: int, nano: int)

  /** The ISO-8601 text of an instant and its parser, kept abstract:
      `DateTimeFormatter.ISO_INSTANT.format` and `Instant.parse`. */
  datatype IsoFormat = IsoFormat(format: Instant -> string, parse: string -> Result<Instant>)

  /** What the model relies on from `java.time`: parsing the formatted text
      gives the instant back, and formatted text starts with a year, never
      with the date tag. */
  ghost predicate WellBehaved(iso: IsoFormat) {
    && (forall t :: iso.parse(iso.format(t)) == Ok(t))
    && (forall t :: !HasPrefix(iso.format(t), DateTag))
  }

  /** `SafeDateSerializer.serialize` */
  function EncodeInstant(iso: IsoFormat, t: Instant): string {
    DateTag + iso.format(t)
  }

  /** `SafeDateSerializer.deserialize`: strips "D:" when present, otherwise
      parses the text directly. */
  function DecodeInstant(iso: IsoFormat, w: string): Result<Instant> {
    if HasPrefix(w, DateTag) then iso.parse(w[|DateTag|..]) else iso.parse(w)
  }

  /** Instants survive the round trip, and untagged ISO text from a peer
      without safe mode decodes to the same instant. */
  lemma InstantRoundTrip(iso: IsoFormat, t: Instant)
    requires WellBehaved(iso)
    ensures DecodeInstant(iso, EncodeInstant(iso, t)) == Ok(t)
    ensures DecodeInstant(iso, iso.format(t)) == Ok(t)
  {
    var w := EncodeInstant(iso, t);
    assert w[..2] == DateTag && w[2..] == iso.format(t);
  }

  // ---- the safe-mode switch ----

  /** The value kinds that get a custom adapter in safe mode. */
  datatype AdaptedType = StringType | InstantType | BigIntegerType

  /** `new RpcSerializer(safeMode)` */
  datatype RpcSerializer = RpcSerializer(safeMode: bool)

  /** The adapters the constructor registers with the Gson builder. */
  function Adapters(ser: RpcSerializer): set<AdaptedType> {
    if ser.safeMode then {StringType, InstantType, BigIntegerType} else {}
  }

  /** How a string is written: tagged when its adapter is registered, as a
      plain JSON string otherwise. */
  function SerializeString(ser: RpcSerializer, s: string): Json {
    if StringType in Adapters(ser) then JStr(EncodeString(s)) else JStr(s)
  }

  /** How a string literal is read back. */
  function DeserializeString(ser: RpcSerializer, w: string): string {
    if StringType in Adapters(ser) then DecodeString(w) else w
  }

  /** How a big integer is written: a tagged string when its adapter is
      registered, a JSON number otherwise. */
  function SerializeBigInteger(ser: RpcSerializer, n: int): Json {
    if BigIntegerType in Adapters(ser) then JStr(EncodeBigInteger(n)) else JNum(n)
  }

  /** How the text of a big integer is read back; Gson's default adapter
      parses the numeral as `new BigInteger` does. */
  function DeserializeBigInteger(ser: RpcSerializer, w: string): Result<int> {
    if BigIntegerType in Adapters(ser) then DecodeBigInteger(w) else ParseInt(w)
  }

  /** With safe mode off nothing is tagged: strings are written unchanged
      and big integers as numbers. With it on, strings and big integers
      are written as tagged strings. */
  lemma SafeModeSwitch(ser: RpcSerializer, s: string, n: int)
    ensures !ser.safeMode ==> Adapters(ser) == {} && SerializeString(ser, s) == JStr(s)
                              && SerializeBigInteger(ser, n) == JNum(n)
    ensures ser.safeMode ==> SerializeString(ser, s) == JStr("S:" + s)
                             && SerializeBigInteger(ser, n) == JStr(IntToString(n) + "n")
  {
  }

  /** In either mode, what is written is read back unchanged: the text
      Gson reads from the written value decodes to the original. */
  lemma SerializerRoundTrip(ser: RpcSerializer, s: string, n: int)
    ensures AsString(SerializeString(ser, s)).Ok?
    ensures DeserializeString(ser, AsString(SerializeString(ser, s)).value) == s
    ensures AsString(SerializeBigInteger(ser, n)).Ok?
    ensures DeserializeBigInteger(ser, AsString(SerializeBigInteger(ser, n)).value) == Ok(n)
  {
    StringRoundTrip(s);
    BigIntegerRoundTrip(n);
    ParseIntRoundTrip(n);
  }
}
