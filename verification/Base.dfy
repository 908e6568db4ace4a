/** Small vocabulary shared by the models. */
module Base {
  datatype Option<+T> = None | Some(value: T)

  const TWO32: int := 0x1_0000_0000

  /** A C ULONG. */
  type U32 = x: int | 0 <= x < TWO32

  /** Reduces an integer to a ULONG, as unsigned C arithmetic does. */
  function Wrap32(x: int): U32 {
    x % TWO32
  }

  /** Signed C division, which truncates toward zero. */
  function TruncDiv(x: int, d: nat): int
    requires d > 0
  {
    if x >= 0 then x / d else -((-x) / d)
  }

  /** How often x occurs in s. */
  function Occurrences<T(==)>(s: seq<T>, x: T): nat {
    if s == [] then 0
    else (if s[0] == x then 1 else 0) + Occurrences(s[1..], x)
  }

  lemma {:induction false} OccurrencesConcat<T>(a: seq<T>, b: seq<T>, x: T)
    ensures Occurrences(a + b, x) == Occurrences(a, x) + Occurrences(b, x)
  {
    if a == [] {
      assert a + b == b;
    } else {
      OccurrencesConcat(a[1..], b, x);
      assert (a + b)[1..] == a[1..] + b;
    }
  }

  lemma {:induction false} OccurrencesMember<T>(s: seq<T>, x: T)
    ensures Occurrences(s, x) > 0 <==> x in s
  {
    if s != [] {
      OccurrencesMember(s[1..], x);
    }
  }

  lemma PrefixSnoc<T>(s: seq<T>, x: nat)
    requires x < |s|
    ensures s[..x + 1] == s[..x] + [s[x]]
  {
  }

  lemma WholePrefix<T>(s: seq<T>)
    ensures s[..|s|] == s
  {
  }

  lemma MulMonotone(a: int, b: int, c: nat)
    requires a <= b
    ensures a * c <= b * c
  {
  }

  ghost predicate Distinct<T>(s: seq<T>) {
    forall i, j :: 0 <= i < j < |s| ==> s[i] != s[j]
  }

  /** The sequence without the first occurrence of x, if there is one. */
  function RemoveFirst<T(==)>(s: seq<T>, x: T): seq<T> {
    if s == [] then []
    else if s[0] == x then s[1..]
    else [s[0]] + RemoveFirst(s[1..], x)
  }
}
