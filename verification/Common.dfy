/** Definitions shared by the whole model. */
module Common {
  /** One `char` of a packet buffer. */
  newtype byte = x: int | 0 <= x < 256

  type Bytes = seq<byte>

  /** One machine word: the width of `size_t`, in bytes, on the 64-bit targets the gateway is built for. */
  const WORD: nat := 8

  /** 2^64, the modulus of `size_t` and of `unsigned long long`. */
  const WRAP: nat := 0x1_0000_0000_0000_0000

  datatype Option<+T> = None | Some(value: T)

  function Min(a: nat, b: nat): nat {
    if a <= b then a else b
  }

  ghost predicate NoDup<T>(s: seq<T>) {
    forall i, j :: 0 <= i < j < |s| ==> s[i] != s[j]
  }

  lemma NoDupCons<T>(x: T, s: seq<T>)
    ensures NoDup([x] + s) <==> x !in s && NoDup(s)
  {
    var t := [x] + s;
    assert t[0] == x && forall i :: 1 <= i < |t| ==> t[i] == s[i - 1];
    assert forall i :: 0 <= i < |s| ==> s[i] == t[i + 1];
    assert forall i :: 0 <= i < |s| && s[i] == x ==> t[0] == t[i + 1];
  }

  lemma NoDupSnoc<T>(s: seq<T>, x: T)
    ensures NoDup(s + [x]) <==> x !in s && NoDup(s)
  {
    var t := s + [x];
    assert forall i :: 0 <= i < |s| ==> s[i] == t[i];
    assert t[|s|] == x;
  }

  /** A duplicate-free sequence has as many elements as the set it covers. */
  lemma {:induction false} NoDupCardinality<T>(s: seq<T>)
    requires NoDup(s)
    ensures |set x | x in s| == |s|
  {
    if s == [] {
      assert (set x | x in s) == {};
    } else {
      NoDupCardinality(s[1..]);
      assert (set x | x in s) == {s[0]} + (set x | x in s[1..]);
    }
  }

  function Below(n: nat): (s: set<nat>)
    ensures forall x: nat :: x in s <==> x < n
    ensures |s| == n
  {
    if n == 0 then {} else Below(n - 1) + {n - 1}
  }

  /** Distinct numbers below `n` are at most `n` many. */
  lemma BoundedNoDup(s: seq<nat>, n: nat)
    requires NoDup(s)
    requires forall x: nat :: x in s ==> x < n
    ensures |s| <= n
  {
    NoDupCardinality(s);
    SubsetCardinality((set x | x in s), Below(n));
  }

  lemma {:induction false} SubsetCardinality<T>(a: set<T>, b: set<T>)
    requires a <= b
    ensures |a| <= |b|
  {
    if a != {} {
      var x :| x in a;
      SubsetCardinality(a - {x}, b - {x});
    }
  }
}
