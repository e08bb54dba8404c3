/** Reversal of sequences, shared by the containers. */
module Sequences {

  function Reverse<T>(s: seq<T>): (r: seq<T>)
    ensures |r| == |s|
  {
    if s == [] then [] else Reverse(s[1..]) + [s[0]]
  }

  lemma {:induction false} ReverseAt<T>(s: seq<T>, k: nat)
    requires k < |s|
    ensures Reverse(s)[k] == s[|s| - 1 - k]
  {
    if k < |s| - 1 { ReverseAt(s[1..], k); }
  }

  lemma ReverseConcat<T>(a: seq<T>, b: seq<T>)
    ensures Reverse(a + b) == Reverse(b) + Reverse(a)
  {
    forall k | 0 <= k < |a| + |b| ensures Reverse(a + b)[k] == (Reverse(b) + Reverse(a))[k] {
      ReverseAt(a + b, k);
      if k < |b| { ReverseAt(b, k); } else { ReverseAt(a, k - |b|); }
    }
  }

  lemma ReverseTwice<T>(a: seq<T>)
    ensures Reverse(Reverse(a)) == a
  {
    forall k | 0 <= k < |a| ensures Reverse(Reverse(a))[k] == a[k] {
      ReverseAt(Reverse(a), k);
      ReverseAt(a, |a| - 1 - k);
    }
  }

  /** Reversing both parts and then the whole swaps the parts: a rotation. */
  lemma ThreeReversals<T>(a: seq<T>, b: seq<T>)
    ensures Reverse(Reverse(a) + Reverse(b)) == b + a
  {
    ReverseConcat(Reverse(a), Reverse(b));
    ReverseTwice(a);
    ReverseTwice(b);
  }
}
