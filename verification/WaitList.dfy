/**
 * The intrusive singly linked lists of the C sources: a head pointer, a tail pointer and a
 * `next` link in each node. A list stands for the sequence of its nodes.
 */
module WaitList {
  import opened Options

  /** A node: a QLp slot, a process. */
  type Node = nat
  type Links = map<Node, Option<Node>>

  function First(q: seq<Node>): Option<Node> {
    if q == [] then None else Some(q[0])
  }

  function Last(q: seq<Node>): Option<Node> {
    if q == [] then None else Some(q[|q| - 1])
  }

  /** The node after the i-th. */
  function After(q: seq<Node>, i: nat): Option<Node> {
    if i + 1 < |q| then Some(q[i + 1]) else None
  }

  ghost predicate Distinct(q: seq<Node>) {
    forall i, j :: 0 <= i < j < |q| ==> q[i] != q[j]
  }

  /** From head, the links visit exactly the nodes of q, in order. */
  ghost predicate Chain(next: Links, head: Option<Node>, q: seq<Node>) {
    && head == First(q)
    && Distinct(q)
    && (forall i {:trigger After(q, i)} :: 0 <= i < |q| ==> q[i] in next && next[q[i]] == After(q, i))
  }

  ghost predicate IsList(next: Links, head: Option<Node>, tail: Option<Node>, q: seq<Node>) {
    Chain(next, head, q) && tail == Last(q)
  }

  lemma LinkIs(next: Links, head: Option<Node>, q: seq<Node>, i: nat)
    requires Chain(next, head, q) && i < |q|
    ensures q[i] in next && next[q[i]] == After(q, i)
  {
  }

  /** Appending at the tail, as every lock routine does it. */
  lemma Append(next: Links, head: Option<Node>, tail: Option<Node>, q: seq<Node>, x: Node)
    requires IsList(next, head, tail, q) && x !in q
    ensures
      var linked := if tail.Some? then next[tail.value := Some(x)] else next;
      IsList(linked[x := None], if tail.Some? then head else Some(x), Some(x), q + [x])
  {
    var next', q' := (if tail.Some? then next[tail.value := Some(x)] else next)[x := None], q + [x];
    forall i | 0 <= i < |q'|
      ensures q'[i] in next' && next'[q'[i]] == After(q', i)
    {
      if i < |q| {
        LinkIs(next, head, q, i);
      }
    }
  }

  /** Taking the head off. */
  lemma Pop(next: Links, head: Option<Node>, q: seq<Node>)
    requires Chain(next, head, q) && q != []
    ensures head == Some(q[0]) && q[0] in next && Chain(next, next[q[0]], q[1..])
    ensures Last(q[1..]) == (if next[q[0]].None? then None else Last(q))
    ensures q[0] !in q[1..]
  {
    var r := q[1..];
    LinkIs(next, head, q, 0);
    assert next[q[0]] == First(r);
    forall i | 0 <= i < |r|
      ensures r[i] in next && next[r[i]] == After(r, i)
    {
      LinkIs(next, head, q, i + 1);
    }
  }

  /** Putting a node in front, as rwakeup does it. */
  lemma Push(next: Links, head: Option<Node>, tail: Option<Node>, q: seq<Node>, x: Node)
    requires IsList(next, head, tail, q) && x !in q
    ensures IsList(next[x := head], Some(x), if tail.None? then Some(x) else tail, [x] + q)
  {
    var next', q' := next[x := head], [x] + q;
    forall i | 0 <= i < |q'|
      ensures q'[i] in next' && next'[q'[i]] == After(q', i)
    {
      if i > 0 {
        LinkIs(next, head, q, i - 1);
        assert q[i - 1] in q;
      }
    }
  }

  /** Links of other nodes do not matter. */
  lemma Frame(a: Links, b: Links, head: Option<Node>, q: seq<Node>)
    requires Chain(a, head, q)
    requires forall x :: x in q && x in a ==> x in b && b[x] == a[x]
    ensures Chain(b, head, q)
  {
    forall i | 0 <= i < |q|
      ensures q[i] in b && b[q[i]] == After(q, i)
    {
      LinkIs(a, head, q, i);
    }
  }
}
