/** Byte strings and first-occurrence search (`find_subsequence` of the relay). */
module Substrings {

  // A byte is written as the character with that code, so that tags can be
  // written as string literals.  Nothing below depends on the codes staying
  // under 256: every law holds for all sequences of characters.
  type Bytes = seq<char>

  datatype Option<+T> = None | Some(value: T)

  predicate OccursAt(h: Bytes, n: Bytes, i: nat) {
    i + |n| <= |h| && h[i..i + |n|] == n
  }

  ghost predicate Occurs(h: Bytes, n: Bytes) {
    exists i: nat :: OccursAt(h, n, i)
  }

  function FindFrom(h: Bytes, n: Bytes, from: nat): (r: Option<nat>)
    requires n != []
    ensures r.Some? ==> from <= r.value && OccursAt(h, n, r.value)
    ensures r.Some? ==> forall j: nat | from <= j < r.value :: !OccursAt(h, n, j)
    ensures r.None? ==> forall j: nat | from <= j :: !OccursAt(h, n, j)
    decreases |h| - from
  {
    if from + |n| > |h| then None
    else if OccursAt(h, n, from) then Some(from)
    else FindFrom(h, n, from + 1)
  }

  /** The index of the first window of `h` equal to `n`; an empty needle is never found. */
  function Find(h: Bytes, n: Bytes): (r: Option<nat>)
    ensures n == [] ==> r == None
    ensures r.Some? ==> OccursAt(h, n, r.value) && forall j: nat | j < r.value :: !OccursAt(h, n, j)
    ensures n != [] && r.None? ==> !Occurs(h, n)
  {
    if n == [] || |h| < |n| then None else FindFrom(h, n, 0)
  }

  /** `Find` is the only function with its contract. */
  lemma FindIs(h: Bytes, n: Bytes, i: nat)
    requires n != [] && OccursAt(h, n, i)
    requires forall j: nat | j < i :: !OccursAt(h, n, j)
    ensures Find(h, n) == Some(i)
  {
  }

  lemma FindNone(h: Bytes, n: Bytes)
    requires !Occurs(h, n)
    ensures Find(h, n) == None
  {
  }

  // ---- Occurrences under concatenation and dropping ----

  lemma OccursAppend(a: Bytes, b: Bytes, n: Bytes, i: nat)
    requires i + |n| <= |a|
    ensures OccursAt(a + b, n, i) <==> OccursAt(a, n, i)
  {
    assert (a + b)[i..i + |n|] == a[i..i + |n|];
  }

  lemma OccursDrop(h: Bytes, n: Bytes, k: nat, i: nat)
    requires k <= |h|
    ensures OccursAt(h[k..], n, i) <==> OccursAt(h, n, k + i)
  {
    if k + i + |n| <= |h| {
      assert h[k..][i..i + |n|] == h[k + i..k + i + |n|];
    }
  }

  lemma OneByte(h: Bytes, c: char, i: nat)
    ensures OccursAt(h, [c], i) <==> i < |h| && h[i] == c
  {
    if i < |h| { assert h[i..i + 1] == [h[i]]; }
  }

  lemma OccursAfter(a: Bytes, b: Bytes, n: Bytes, i: nat)
    ensures OccursAt(a + b, n, |a| + i) <==> OccursAt(b, n, i)
  {
    OccursDrop(a + b, n, |a|, i);
    assert (a + b)[|a|..] == b;
  }

  lemma NoOccursPrefix(a: Bytes, b: Bytes, n: Bytes)
    requires !Occurs(a + b, n)
    ensures !Occurs(a, n)
  {
    forall i: nat ensures !OccursAt(a, n, i) {
      if OccursAt(a, n, i) { OccursAppend(a, b, n, i); }
    }
  }

  /** A first occurrence stays first when bytes are appended. */
  lemma FindAppend(a: Bytes, b: Bytes, n: Bytes)
    requires Find(a, n).Some?
    ensures Find(a + b, n) == Find(a, n)
  {
    var i := Find(a, n).value;
    OccursAppend(a, b, n, i);
    forall j: nat | j < i ensures !OccursAt(a + b, n, j) { OccursAppend(a, b, n, j); }
    FindIs(a + b, n, i);
  }

  /** An occurrence that only appears after appending reaches past the old end. */
  lemma FindAppendLate(a: Bytes, b: Bytes, n: Bytes)
    requires n != [] && Find(a, n).None? && Find(a + b, n).Some?
    ensures Find(a + b, n).value + |n| > |a|
  {
    var i := Find(a + b, n).value;
    if i + |n| <= |a| { OccursAppend(a, b, n, i); }
  }

  /** Dropping `k` bytes before which nothing starts shifts the first occurrence by `k`. */
  lemma FindShift(h: Bytes, n: Bytes, k: nat)
    requires n != [] && k <= |h|
    requires forall j: nat | j < k :: !OccursAt(h, n, j)
    ensures Find(h, n).None? <==> Find(h[k..], n).None?
    ensures Find(h, n).Some? ==> Find(h, n).value >= k && Find(h[k..], n) == Some(Find(h, n).value - k)
  {
    if Find(h, n).Some? {
      var i := Find(h, n).value;
      assert i >= k;
      OccursDrop(h, n, k, i - k);
      forall j: nat | j < i - k ensures !OccursAt(h[k..], n, j) { OccursDrop(h, n, k, j); }
      FindIs(h[k..], n, i - k);
    } else {
      forall j: nat ensures !OccursAt(h[k..], n, j) { OccursDrop(h, n, k, j); }
      FindNone(h[k..], n);
    }
  }

  /** The length of the part of a buffer that can still be the start of an `n` cut by the end of a read. */
  function Tail(b: Bytes, keep: nat): (r: Bytes)
    ensures |r| == if |b| > keep then keep else |b|
    ensures r == b[|b| - |r|..]
  {
    if |b| > keep then b[|b| - keep..] else b
  }

  /** A needle of length `keep + 1` that is not in `a` can only start in the kept tail of `a`. */
  lemma TailKeepsStarts(a: Bytes, b: Bytes, n: Bytes)
    requires n != [] && Find(a, n).None?
    ensures var k := |a| - |Tail(a, |n| - 1)|;
            && (a + b)[k..] == Tail(a, |n| - 1) + b
            && forall j: nat | j < k :: !OccursAt(a + b, n, j)
  {
    var k := |a| - |Tail(a, |n| - 1)|;
    forall j: nat | j < k ensures !OccursAt(a + b, n, j) { OccursAppend(a, b, n, j); }
  }
}
