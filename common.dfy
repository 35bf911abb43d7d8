/** Definitions shared by every table of the controller: optional values, the non-negative
    view of a C `int` loop bound, and the linear first-match search that every manager
    performs with `strcmp`. */
module Common {

  datatype Option<+T> = None | Some(value: T)

  /** Capacity of every `char id[MAX_ID_LENGTH]` buffer (lib/config/config.h). */
  const MAX_ID_LENGTH: nat := 32

  /** The terminator of a C string; a C string's characters never include it. */
  const NUL: char := '\0'

  /** An identifier that `strncpy(dst, src, MAX_ID_LENGTH - 1)` copies without truncation. */
  predicate ValidId(s: string)
  {
    |s| < MAX_ID_LENGTH && NUL !in s
  }

  /** Number of iterations of `for (i = 0; i < n; i++)` for a C `int` bound `n`. */
  function Count(n: int): (c: nat)
    ensures n >= 0 ==> c == n
    ensures n < 0 ==> c == 0
  {
    if n < 0 then 0 else n
  }

  /** The key of each of the first `n` entries of a table, in table order: the ids every
      manager's `strcmp` search walks over. */
  function Keys<T>(xs: seq<T>, n: int, key: T -> string): (ks: seq<string>)
    requires Count(n) <= |xs|
    ensures |ks| == Count(n)
    ensures forall k :: 0 <= k < |ks| ==> ks[k] == key(xs[k])
  {
    seq(Count(n), k requires 0 <= k < Count(n) => key(xs[k]))
  }

  /** Writing an element twice leaves only the second write. */
  lemma UpdateTwice<T>(xs: seq<T>, i: nat, a: T, b: T)
    requires i < |xs|
    ensures xs[i := a][i := b] == xs[i := b]
  {
  }

  /** Position of the first element equal to `x`: the `for ... if (strcmp(..) == 0) break;`
      search of every manager, and `strchr` on a character sequence. */
  function FirstMatch<T(==)>(xs: seq<T>, x: T): (r: Option<nat>)
    ensures r.None? <==> x !in xs
    ensures r.Some? ==> r.value < |xs| && xs[r.value] == x && x !in xs[..r.value]
  {
    if |xs| == 0 then None
    else if xs[0] == x then Some(0)
    else
      match FirstMatch(xs[1..], x)
      case None => None
      case Some(k) =>
        assert xs[..k + 1] == [xs[0]] + xs[1..][..k];
        Some(k + 1)
  }

  /** Sum of a sequence of reals, added up front to back like the accumulating loops. */
  function Sum(ts: seq<real>): real
    decreases |ts|
  {
    if ts == [] then 0.0 else Sum(ts[..|ts| - 1]) + ts[|ts| - 1]
  }

  lemma SumAppendOne(ts: seq<real>, t: real)
    ensures Sum(ts + [t]) == Sum(ts) + t
  {
    assert (ts + [t])[..|ts|] == ts;
  }

}
