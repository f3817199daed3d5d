/** Shared wrappers, the clock unit, and counting facts about finite sets. */
module Common {

  const NS: nat := 1_000_000_000

  datatype Option<+T> = None | Some(value: T)

  datatype Result<+T, +E> = Success(value: T) | Failure(error: E)

  function Min(a: int, b: int): int { if a <= b then a else b }

  function Max(a: int, b: int): int { if a <= b then b else a }

  /** The first n natural numbers. */
  function Below(n: nat): (s: set<nat>)
    ensures forall i: nat :: i in s <==> i < n
  {
    if n == 0 then {} else Below(n - 1) + {n - 1}
  }

  lemma {:induction false} BelowSize(n: nat)
    ensures |Below(n)| == n
  {
    if n > 0 { BelowSize(n - 1); }
  }

  lemma {:induction false} SubsetSize<T>(a: set<T>, b: set<T>)
    requires a <= b
    ensures |a| <= |b|
  {
    assert b == a + (b - a);
  }

  lemma Minus<T>(a: set<T>, b: set<T>)
    requires b <= a
    ensures |a - b| == |a| - |b|
  {
  }

  /** A set that a map sends one-to-one into another set is no larger than it. */
  lemma {:induction false} InjectionSize<K, V>(f: map<K, V>, keys: set<K>, range: set<V>)
    requires forall k | k in keys :: k in f && f[k] in range
    requires forall k, l | k in keys && l in keys && k != l :: f[k] != f[l]
    ensures |keys| <= |range|
    decreases keys
  {
    if keys != {} {
      var k :| k in keys;
      InjectionSize(f, keys - {k}, range - {f[k]});
    }
  }
}
