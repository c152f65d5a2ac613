/** The scheduler's run queues as values: one sequence of processes for each priority. */
module RunQueue {
  import opened Options
  import opened WaitList
  import opened CpuShare

  const NPRIQ: nat := 20
  const NRQ: nat := NPRIQ + 2

  type Queues = seq<seq<Node>>

  /** Every process on a queue, as often as it is on one. */
  function All(q: Queues): multiset<Node> {
    if q == [] then multiset{} else All(q[..|q| - 1]) + multiset(q[|q| - 1])
  }

  ghost predicate Once(q: Queues) {
    forall x :: All(q)[x] <= 1
  }

  lemma {:induction false} AllUpdate(q: Queues, pri: nat, s: seq<Node>, x: Node)
    requires pri < |q|
    ensures All(q[pri := s])[x] + multiset(q[pri])[x] == All(q)[x] + multiset(s)[x]
  {
    var n := |q| - 1;
    if pri == n {
      assert q[pri := s][..n] == q[..n];
    } else {
      assert q[pri := s][..n] == q[..n][pri := s];
      AllUpdate(q[..n], pri, s, x);
    }
  }

  lemma {:induction false} AllHas(q: Queues, pri: nat, x: Node)
    requires pri < |q|
    ensures All(q)[x] >= multiset(q[pri])[x]
  {
    if pri < |q| - 1 {
      AllHas(q[..|q| - 1], pri, x);
    }
  }

  lemma {:induction false} AllEmpty(q: Queues)
    requires forall i :: 0 <= i < |q| ==> q[i] == []
    ensures All(q) == multiset{}
  {
    if q != [] {
      AllEmpty(q[..|q| - 1]);
    }
  }

  /** A process on one queue is on no other. */
  lemma OnOneQueue(q: Queues, a: nat, b: nat, x: Node)
    requires a < |q| && b < |q| && a != b && Once(q) && x in q[a]
    ensures x !in q[b]
  {
    AllUpdate(q, a, [], x);
    AllHas(q[a := []], b, x);
  }

  function RemoveAt(s: seq<Node>, k: nat): seq<Node>
    requires k < |s|
  {
    s[..k] + s[k + 1..]
  }

  lemma RemoveOne(s: seq<Node>, k: nat)
    requires k < |s|
    ensures multiset(RemoveAt(s, k)) + multiset{s[k]} == multiset(s)
  {
    assert s == s[..k] + [s[k]] + s[k + 1..];
  }

  /** Taking a process off its queue takes it off the run queues. */
  lemma AllRemove(q: Queues, pri: nat, k: nat)
    requires pri < |q| && k < |q[pri]|
    ensures All(q[pri := RemoveAt(q[pri], k)]) + multiset{q[pri][k]} == All(q)
  {
    var q' := q[pri := RemoveAt(q[pri], k)];
    RemoveOne(q[pri], k);
    forall x
      ensures (All(q') + multiset{q[pri][k]})[x] == All(q)[x]
    {
      AllUpdate(q, pri, RemoveAt(q[pri], k), x);
      assert (multiset(RemoveAt(q[pri], k)) + multiset{q[pri][k]})[x] == multiset(q[pri])[x];
    }
  }

  lemma AllAppend(q: Queues, pri: nat, x: Node)
    requires pri < |q|
    ensures All(q[pri := q[pri] + [x]]) == All(q) + multiset{x}
  {
    var q' := q[pri := q[pri] + [x]];
    forall y
      ensures All(q')[y] == (All(q) + multiset{x})[y]
    {
      AllUpdate(q, pri, q[pri] + [x], y);
      assert multiset(q[pri] + [x])[y] == (multiset(q[pri]) + multiset{x})[y];
    }
  }

  // ---------------------------------------------------------------- the linked queues

  /** Each of the first n queues is a linked list. */
  ghost predicate LinkedTo(rnext: Links, head: seq<Option<Node>>, tail: seq<Option<Node>>, q: Queues, n: nat)
    requires n <= |q| && |head| == |q| && |tail| == |q|
  {
    n == 0 || (IsList(rnext, head[n - 1], tail[n - 1], q[n - 1]) && LinkedTo(rnext, head, tail, q, n - 1))
  }

  ghost predicate Linked(rnext: Links, head: seq<Option<Node>>, tail: seq<Option<Node>>, q: Queues) {
    |head| == |q| && |tail| == |q| && LinkedTo(rnext, head, tail, q, |q|)
  }

  lemma {:induction false} LinkedAt(rnext: Links, head: seq<Option<Node>>, tail: seq<Option<Node>>, q: Queues, n: nat, i: nat)
    requires i < n <= |q| && |head| == |q| && |tail| == |q| && LinkedTo(rnext, head, tail, q, n)
    ensures IsList(rnext, head[i], tail[i], q[i])
  {
    if i < n - 1 {
      LinkedAt(rnext, head, tail, q, n - 1, i);
    }
  }

  lemma {:induction false} LinkedFrom(rnext: Links, head: seq<Option<Node>>, tail: seq<Option<Node>>, q: Queues, n: nat)
    requires n <= |q| && |head| == |q| && |tail| == |q|
    requires forall i {:trigger q[i]} :: 0 <= i < n ==> IsList(rnext, head[i], tail[i], q[i])
    ensures LinkedTo(rnext, head, tail, q, n)
  {
    if n > 0 {
      LinkedFrom(rnext, head, tail, q, n - 1);
    }
  }

  /** Each rq->n is the length of its list, nrdy their sum, and each bit says whether its queue is empty. */
  ghost predicate Counted(n: seq<int>, nrdy: int, runvec: set<nat>, q: Queues) {
    && |n| == |q| && nrdy == |All(q)|
    && (forall i {:trigger q[i]} :: 0 <= i < |q| ==> n[i] == |q[i]| && (i in runvec <==> q[i] != []))
    && (forall i :: i in runvec ==> i < |q|)
  }

  /** The links of one queue change; those of the others are not touched. */
  lemma OneListChanges(a: Links, b: Links, head: seq<Option<Node>>, tail: seq<Option<Node>>, q: Queues,
                       pri: nat, h: Option<Node>, t: Option<Node>, s: seq<Node>)
    requires Linked(a, head, tail, q) && Once(q) && pri < |q| && IsList(b, h, t, s)
    requires forall x :: x in a && (exists i :: 0 <= i < |q| && i != pri && x in q[i]) ==> x in b && b[x] == a[x]
    ensures Linked(b, head[pri := h], tail[pri := t], q[pri := s])
  {
    forall i | 0 <= i < |q| && i != pri
      ensures IsList(b, head[i], tail[i], q[i])
    {
      LinkedAt(a, head, tail, q, |q|, i);
      Frame(a, b, head[i], q[i]);
    }
    LinkedFrom(b, head[pri := h], tail[pri := t], q[pri := s], |q|);
  }

  function Skip(k: nat, i: nat): nat { if i < k then i else i + 1 }

  lemma RemoveIs(s: seq<Node>, k: nat)
    requires k < |s|
    ensures |RemoveAt(s, k)| == |s| - 1
    ensures forall i {:trigger RemoveAt(s, k)[i]} :: 0 <= i < |s| - 1 ==> RemoveAt(s, k)[i] == s[Skip(k, i)]
  {
  }

  lemma RemoveDistinct(s: seq<Node>, k: nat)
    requires Distinct(s) && k < |s|
    ensures Distinct(RemoveAt(s, k))
  {
    RemoveIs(s, k);
  }

  /** The node before the one that goes gets its link. */
  function Bridged(next: Links, s: seq<Node>, k: nat): Links
    requires k < |s| && s[k] in next
  {
    if k > 0 then next[s[k - 1] := next[s[k]]] else next
  }

  lemma RemoveLinks(next: Links, head: Option<Node>, s: seq<Node>, k: nat, i: nat)
    requires Chain(next, head, s) && k < |s| && i < |s| - 1
    ensures
      var x := s[Skip(k, i)];
      s[k] in next && x in Bridged(next, s, k) && Bridged(next, s, k)[x] == if i + 1 < |s| - 1 then Some(s[Skip(k, i + 1)]) else None
  {
    LinkIs(next, head, s, k);
    LinkIs(next, head, s, Skip(k, i));
  }

  /** Unlinking the k-th node, as dequeueproc does it. */
  lemma Unlink(next: Links, head: Option<Node>, tail: Option<Node>, s: seq<Node>, k: nat)
    requires IsList(next, head, tail, s) && k < |s|
    ensures
      && s[k] in next
      && IsList(Bridged(next, s, k), if k > 0 then head else next[s[k]],
                if next[s[k]].None? then (if k > 0 then Some(s[k - 1]) else None) else tail, RemoveAt(s, k))
  {
    var s' := RemoveAt(s, k);
    LinkIs(next, head, s, k);
    RemoveIs(s, k);
    RemoveDistinct(s, k);
    forall i | 0 <= i < |s'|
      ensures s'[i] in Bridged(next, s, k) && Bridged(next, s, k)[s'[i]] == After(s', i)
    {
      RemoveLinks(next, head, s, k, i);
    }
  }
}
