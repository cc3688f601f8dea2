/** Small definitions that several models share. */
module Common {
  const UINT: nat := 0x1_0000_0000   // unsigned ints are counted modulo this
  const MAXOPBLOCKS: nat := 10       // blocks that one operation may add to the log

  function Min(a: int, b: int): int { if a < b then a else b }

  function Max(a: nat, b: nat): nat { if a < b then b else a }

  function Count(b: bool): nat { if b then 1 else 0 }

  /** 1 << n. */
  function Pow2(n: nat): (r: nat)
    ensures r >= 1
  {
    if n == 0 then 1 else 2 * Pow2(n - 1)
  }

  // ---- C strings ----

  const NUL := '\0'

  predicate CString(s: string) { NUL !in s }

  /** s[i] of a C string: its end reads NUL. */
  function CharAt(s: string, i: nat): char { if i < |s| then s[i] else NUL }

  // ---- Sequences and sets ----

  ghost predicate Distinct(q: seq<int>) {
    forall j, k :: 0 <= j < k < |q| ==> q[j] != q[k]
  }

  /** Where x first occurs in q. */
  ghost function IndexOf(q: seq<int>, x: int): (k: nat)
    requires x in q
    ensures k < |q| && q[k] == x
  {
    if q[0] == x then 0 else 1 + IndexOf(q[1..], x)
  }

  lemma {:induction false} SubsetCard(a: set<int>, b: set<int>)
    requires a <= b
    ensures |a| <= |b|
  {
    assert b == a + (b - a);
  }
}
