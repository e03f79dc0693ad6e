/**
 * The few java.lang.String operations the analyser relies on, with the
 * exceptions they raise, and the C-style `strncmp` the program builds on
 * top of `compareTo` (Melting.java, `strncmp`).  A Java reference that may
 * be null is an `Option<string>`.
 */
module JavaStrings {
  import opened Wrappers
  import opened Faults

  /** `s.charAt(i)`. */
  function CharAt(s: string, i: int): (r: Result<char, Fault>)
    ensures r.Success? <==> 0 <= i < |s|
    ensures r.Success? ==> r.value == s[i]
    ensures r.Failure? ==> r.error == IndexOutOfBounds
  {
    if 0 <= i < |s| then Success(s[i]) else Failure(IndexOutOfBounds)
  }

  /** `s.substring(from)` on a reference that may be null. */
  function Substring(s: Option<string>, from: int): (r: Result<string, Fault>)
    ensures r.Success? <==> s.Some? && 0 <= from <= |s.value|
    ensures r.Success? ==> r.value == s.value[from..]
    ensures s.None? ==> r == Failure(NullPointer)
  {
    if s.None? then Failure(NullPointer)
    else if 0 <= from <= |s.value| then Success(s.value[from..])
    else Failure(IndexOutOfBounds)
  }

  /**
   * `a.compareTo(b)`: the difference of the first pair of characters that
   * differ, or else the difference of the lengths.
   */
  function CompareTo(a: string, b: string): int
    decreases |a|
  {
    if |a| == 0 || |b| == 0 then |a| - |b|
    else if a[0] != b[0] then a[0] as int - b[0] as int
    else CompareTo(a[1..], b[1..])
  }

  /** compareTo reports equality exactly for equal strings. */
  lemma {:induction false} CompareToZeroIffEqual(a: string, b: string)
    ensures CompareTo(a, b) == 0 <==> a == b
    decreases |a|
  {
    if |a| == 0 || |b| == 0 {
    } else if a[0] != b[0] {
    } else {
      CompareToZeroIffEqual(a[1..], b[1..]);
      assert a == [a[0]] + a[1..] && b == [b[0]] + b[1..];
    }
  }

  /** compareTo is antisymmetric: swapping the operands negates the result. */
  lemma {:induction false} CompareToAntisymmetric(a: string, b: string)
    ensures CompareTo(b, a) == -CompareTo(a, b)
    decreases |a|
  {
    if |a| == 0 || |b| == 0 {
    } else if a[0] != b[0] {
    } else {
      CompareToAntisymmetric(a[1..], b[1..]);
    }
  }

  /**
   * `strncmp(a, b, n)`, which the program defines as
   * `a.substring(0, n).compareTo(b.substring(0, n))`: `a` is cut first, so a
   * short `a` raises before a null `b` is dereferenced.
   */
  function StrNCmp(a: Option<string>, b: Option<string>, n: nat): Result<int, Fault>
  {
    if a.None? then Failure(NullPointer)
    else if |a.value| < n then Failure(IndexOutOfBounds)
    else if b.None? then Failure(NullPointer)
    else if |b.value| < n then Failure(IndexOutOfBounds)
    else Success(CompareTo(a.value[..n], b.value[..n]))
  }

  /**
   * `strncmp` cuts its first operand before it looks at the second: a null
   * first operand is a null dereference and a short one an index exception,
   * whatever the second operand is; otherwise only the second operand can fail.
   */
  lemma StrNCmpFaults(a: Option<string>, b: Option<string>, n: nat)
    ensures a.None? ==> StrNCmp(a, b, n) == Failure(NullPointer)
    ensures a.Some? && |a.value| < n ==> StrNCmp(a, b, n) == Failure(IndexOutOfBounds)
    ensures StrNCmp(a, b, n).Success? <==> a.Some? && b.Some? && n <= |a.value| && n <= |b.value|
  {
  }

  /** Both strings are present, long enough, and agree on their first `n` characters. */
  predicate SamePrefix(a: Option<string>, b: Option<string>, n: nat) {
    a.Some? && b.Some? && n <= |a.value| && n <= |b.value| && a.value[..n] == b.value[..n]
  }

  /** `strncmp(a, b, n) == 0` holds exactly when the first `n` characters agree. */
  lemma StrNCmpZeroIffSamePrefix(a: Option<string>, b: Option<string>, n: nat)
    ensures StrNCmp(a, b, n) == Success(0) <==> SamePrefix(a, b, n)
  {
    if SamePrefix(a, b, n) || StrNCmp(a, b, n) == Success(0) {
      CompareToZeroIffEqual(a.value[..n], b.value[..n]);
    }
  }
}
