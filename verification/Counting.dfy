/** Counting, and what reference counts have to do with the calls of a destroy function. */
module Counting {
  function B(b: bool): nat { if b then 1 else 0 }

  function Min(a: int, b: int): int { if a < b then a else b }

  /** In a sequence without repetitions everything occurs once or not at all. */
  lemma {:induction false} OnceEach<T>(s: seq<T>, x: T)
    requires forall i, j :: 0 <= i < j < |s| ==> s[i] != s[j]
    ensures multiset(s)[x] == B(x in s)
  {
    if s != [] {
      var n := |s| - 1;
      assert s == s[..n] + [s[n]];
      OnceEach(s[..n], x);
      assert s[n] !in s[..n];
    }
  }

  /** Destroy has run once for each object with no reference left, and for no other. */
  ghost predicate DestroyInv(ref: seq<int>, destroyed: seq<nat>) {
    && (forall f :: 0 <= f < |ref| ==> ref[f] >= 0 && (ref[f] == 0 <==> f in destroyed))
    && (forall i :: 0 <= i < |destroyed| ==> destroyed[i] < |ref|)
    && (forall i, j :: 0 <= i < j < |destroyed| ==> destroyed[i] != destroyed[j])
  }

  lemma DestroyLess(ref: seq<int>, destroyed: seq<nat>, f: nat)
    requires DestroyInv(ref, destroyed) && f < |ref| && ref[f] > 0
    ensures DestroyInv(ref[f := ref[f] - 1], if ref[f] == 1 then destroyed + [f] else destroyed)
  {
    assert forall x :: x in destroyed + [f] <==> x in destroyed || x == f;
  }

  lemma DestroyMore(ref: seq<int>, destroyed: seq<nat>, f: nat)
    requires DestroyInv(ref, destroyed) && f < |ref| && ref[f] > 0
    ensures DestroyInv(ref[f := ref[f] + 1], destroyed)
  {
  }

  /** A new object, with references or destroyed at once. */
  lemma DestroyNew(ref: seq<int>, destroyed: seq<nat>, n: nat)
    requires DestroyInv(ref, destroyed)
    ensures DestroyInv(ref + [0], destroyed + [|ref|]) && (n > 0 ==> DestroyInv(ref + [n], destroyed))
  {
    assert forall x :: x in destroyed + [|ref|] <==> x in destroyed || x == |ref|;
  }
}
