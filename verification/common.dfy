/** Shared vocabulary: optional values, exception-carrying results, Java's
    32-bit `int`, and the few `java.lang.String` operations the toolkit relies
    on (`startsWith`, `endsWith`, `trim`, `equalsIgnoreCase`). */
module Common {

  /** A value that may be absent; `None` plays the part of a Java `null` argument. */
  datatype Option<+T> = None | Some(value: T)

  /** The outcome of a Java call that either returns or throws; the thrown
      exception is represented by its description. */
  datatype Result<+T> = Ok(value: T) | Err(message: string) {
    predicate IsFailure() {
      Err?
    }

    function PropagateFailure<U>(): Result<U>
      requires Err?
    {
      Err(message)
    }

    function Extract(): T
      requires Ok?
    {
      value
    }
  }

  /** Java `int`. */
  type Int32 = x: int | -0x8000_0000 <= x < 0x8000_0000

  /** `s.startsWith(p)` */
  predicate HasPrefix(s: string, p: string) {
    |p| <= |s| && s[..|p|] == p
  }

  /** `s.endsWith(x)` */
  predicate HasSuffix(s: string, x: string) {
    |x| <= |s| && s[|s| - |x|..] == x
  }

  /** `String.trim` removes every leading and trailing character whose code
      is at most U+0020. */
  predicate Trimmable(c: char) {
    c <= ' '
  }

  /** Drops the leading trimmable characters: what is dropped is all
      trimmable, and what is kept does not start with one. */
  function TrimStart(s: string): (t: string)
    ensures |t| <= |s| && t == s[|s| - |t|..]
    ensures forall i :: 0 <= i < |s| - |t| ==> Trimmable(s[i])
    ensures |t| > 0 ==> !Trimmable(t[0])
    decreases |s|
  {
    if |s| > 0 && Trimmable(s[0]) then TrimStart(s[1..]) else s
  }

  /** Drops the trailing trimmable characters: what is dropped is all
      trimmable, and what is kept does not end with one. */
  function TrimEnd(s: string): (t: string)
    ensures |t| <= |s| && t == s[..|t|]
    ensures forall i :: |t| <= i < |s| ==> Trimmable(s[i])
    ensures |t| > 0 ==> !Trimmable(t[|t| - 1])
    decreases |s|
  {
    if |s| > 0 && Trimmable(s[|s| - 1]) then TrimEnd(s[..|s| - 1]) else s
  }

  /** `s.trim()` */
  function Trim(s: string): string {
    TrimEnd(TrimStart(s))
  }

  /** `s.trim().isEmpty()` */
  predicate IsBlank(s: string) {
    |Trim(s)| == 0
  }

  /** A string is blank after trimming exactly when every one of its
      characters is trimmable (the empty string included). */
  lemma BlankIffAllTrimmable(s: string)
    ensures IsBlank(s) <==> forall i :: 0 <= i < |s| ==> Trimmable(s[i])
  {
    var a := TrimStart(s);
    var b := TrimEnd(a);
    if |b| > 0 {
      assert b[0] == a[0];
      assert s[|s| - |a|] == a[0];
    }
  }

  /** ASCII case folding, the part of `Character.toLowerCase` that matters
      when the other side of the comparison is an ASCII word. */
  function FoldCase(c: char): char {
    if 'A' <= c <= 'Z' then (c as int + 32) as char else c
  }

  /** `a.equalsIgnoreCase(b)` restricted to ASCII folding. */
  predicate EqualsIgnoreCase(a: string, b: string) {
    |a| == |b| && forall i :: 0 <= i < |a| ==> FoldCase(a[i]) == FoldCase(b[i])
  }

  /** Concatenation regroups freely; the solver needs the step spelled out
      inside longer sequence proofs. */
  lemma AppendAssociates<T>(a: seq<T>, b: seq<T>, c: seq<T>)
    ensures a + (b + c) == (a + b) + c
  {
  }
}
