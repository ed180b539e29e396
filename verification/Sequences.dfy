/** Sequences without repetition. */
module Sequences {

  predicate Distinct<T(==)>(s: seq<T>) {
    forall i, j :: 0 <= i < j < |s| ==> s[i] != s[j]
  }

  ghost predicate Apart<T>(a: seq<T>, b: seq<T>) {
    forall i, j :: 0 <= i < |a| && 0 <= j < |b| ==> a[i] != b[j]
  }

  /** The sequence without `x`. */
  ghost function Minus<T>(s: seq<T>, x: T): seq<T> {
    if s == [] then [] else if s[0] == x then Minus(s[1..], x) else [s[0]] + Minus(s[1..], x)
  }

  lemma {:induction false} MinusAbsent<T>(s: seq<T>, x: T)
    requires x !in s
    ensures Minus(s, x) == s
  {
    if s != [] {
      MinusAbsent(s[1..], x);
    }
  }

  lemma DistinctTail<T>(s: seq<T>)
    requires s != [] && Distinct(s)
    ensures Distinct(s[1..]) && s[0] !in s[1..]
  {
    var t := s[1..];
    forall i, j | 0 <= i < j < |t| ensures t[i] != t[j] {
      assert t[i] == s[i + 1] && t[j] == s[j + 1];
    }
    forall i | 0 <= i < |t| ensures t[i] != s[0] {
      assert t[i] == s[i + 1];
    }
  }

  lemma {:induction false} MinusAt<T>(s: seq<T>, k: nat)
    requires k < |s| && Distinct(s)
    ensures Minus(s, s[k]) == s[..k] + s[k + 1..]
  {
    DistinctTail(s);
    if k == 0 {
      MinusAbsent(s[1..], s[0]);
    } else {
      assert s[k] == s[1..][k - 1];
      MinusAt(s[1..], k - 1);
      assert s[..k] == [s[0]] + s[1..][..k - 1];
      assert s[1..][k..] == s[k + 1..];
    }
  }

  lemma {:induction false} MinusMember<T>(s: seq<T>, x: T, y: T)
    ensures y in Minus(s, x) <==> y in s && y != x
  {
    if s != [] {
      MinusMember(s[1..], x, y);
    }
  }

  lemma AppendToNothing<T>(a: seq<T>, b: seq<T>)
    requires |a| == 0
    ensures a + b == b
  {
  }

  lemma AppendTwice<T>(a: seq<T>, b: seq<T>, c: seq<T>)
    ensures a + b + c == a + (b + c)
  {
  }

  lemma TakeNext<T>(a: seq<T>, s: seq<T>, i: nat)
    requires i < |s|
    ensures a + s[..i] + [s[i]] == a + s[..i + 1]
  {
  }
}
