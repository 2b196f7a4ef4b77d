/** `RpcLogLevel`: six levels with increasing verbosity, and the test that
    decides whether a message of one level is shown under a configured
    level. */
module LogLevels {

  datatype LogLevel = Silent | Error | Warn | Info | Debug | Trace

  /** `getLevel()` */
  function Level(l: LogLevel): int {
    match l
    case Silent => 0
    case Error => 1
    case Warn => 2
    case Info => 3
    case Debug => 4
    case Trace => 5
  }

  /** `isEnabled(minimumLevel)` */
  predicate IsEnabled(l: LogLevel, minimum: LogLevel) {
    Level(l) <= Level(minimum)
  }

  /** The constants in declaration order, as `RpcLogLevel.values()` lists them. */
  const Declared: seq<LogLevel> := [Silent, Error, Warn, Info, Debug, Trace]

  /** Every level is declared exactly once, and its value is its position
      in the declaration, so the values 0 to 5 strictly increase. */
  lemma LevelIsDeclarationIndex(l: LogLevel)
    ensures 0 <= Level(l) < |Declared| && Declared[Level(l)] == l
    ensures forall i, j :: 0 <= i < j < |Declared| ==> Level(Declared[i]) < Level(Declared[j])
  {
  }

  /** `isEnabled` follows the declaration order: a level is enabled under a
      minimum exactly when it is declared no later than that minimum. */
  lemma IsEnabledFollowsDeclarationOrder(i: int, j: int)
    requires 0 <= i < |Declared| && 0 <= j < |Declared|
    ensures IsEnabled(Declared[i], Declared[j]) <==> i <= j
  {
  }

  /** `isEnabled` is a total order on levels: reflexive, transitive,
      antisymmetric and total. */
  lemma IsEnabledTotalOrder(a: LogLevel, b: LogLevel, c: LogLevel)
    ensures IsEnabled(a, a)
    ensures IsEnabled(a, b) && IsEnabled(b, c) ==> IsEnabled(a, c)
    ensures IsEnabled(a, b) && IsEnabled(b, a) ==> a == b
    ensures IsEnabled(a, b) || IsEnabled(b, a)
  {
  }

  /** SILENT is enabled under every minimum, TRACE only under TRACE. */
  lemma Extremes(l: LogLevel)
    ensures IsEnabled(Silent, l)
    ensures IsEnabled(Trace, l) <==> l == Trace
  {
  }
}
