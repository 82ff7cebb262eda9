/** Intrusive circular doubly linked lists: each operation rewrites next and prev pointers of nodes it is
    given, and is proved to act on the sequence of entries that the ring stands for. */
module RingList {

  class Node {
    var next: Node
    var prev: Node

    /** INIT_LIST_HEAD: a head that is a ring of its own. */
    constructor ()
      ensures Ring(this, [])
    {
      next := this;
      prev := this;
    }
  }

  /** The i-th node of the ring: the head, the entries, and the head again. */
  ghost function At(head: Node, s: seq<Node>, i: nat): Node
    requires i <= |s| + 1
  {
    if 0 < i <= |s| then s[i - 1] else head
  }

  ghost predicate Distinct(head: Node, s: seq<Node>) {
    head !in s && forall i: nat, j: nat :: i < j < |s| ==> s[i] != s[j]
  }

  ghost predicate Linked(a: Node, b: Node)
    reads a, b
  {
    a.next == b && b.prev == a
  }

  ghost predicate Ring(head: Node, s: seq<Node>)
    reads head, s
  {
    Distinct(head, s) && forall i: nat :: i <= |s| ==> Linked(At(head, s, i), At(head, s, i + 1))
  }

  lemma {:induction false} SamePrefix(head: Node, s: seq<Node>, t: seq<Node>, i: nat)
    requires Ring(head, s) && Ring(head, t) && i <= |s| && i <= |t|
    ensures At(head, s, i) == At(head, t, i) && At(head, s, i + 1) == At(head, t, i + 1)
  {
    if i > 0 { SamePrefix(head, s, t, i - 1); }
    assert Linked(At(head, s, i), At(head, s, i + 1)) && Linked(At(head, t, i), At(head, t, i + 1));
  }

  /** The pointers determine the entries: a ring stands for one sequence only. */
  lemma RingUnique(head: Node, s: seq<Node>, t: seq<Node>)
    requires Ring(head, s) && Ring(head, t)
    ensures s == t
  {
    SamePrefix(head, s, t, if |s| < |t| then |s| else |t|);
    BackAtHead(head, s, if |s| < |t| then |s| else |t|);
    BackAtHead(head, t, if |s| < |t| then |s| else |t|);
    forall i: nat | i < |s| && i < |t| ensures s[i] == t[i] {
      SamePrefix(head, s, t, i);
    }
  }

  /** Two rings without common nodes. */
  ghost predicate Apart(h: Node, s: seq<Node>, k: Node, t: seq<Node>) {
    h != k && h !in t && k !in s && forall i: nat, j: nat :: i < |s| && j < |t| ==> s[i] != t[j]
  }

  ghost function Insert(s: seq<Node>, i: nat, n: Node): seq<Node>
    requires i <= |s|
  {
    s[..i] + [n] + s[i..]
  }

  ghost function Remove(s: seq<Node>, i: nat): seq<Node>
    requires i < |s|
  {
    s[..i] + s[i + 1..]
  }

  lemma AtInsert(head: Node, s: seq<Node>, i: nat, n: Node, j: nat)
    requires i <= |s| && j <= |s| + 2
    ensures At(head, Insert(s, i, n), j) == if j <= i then At(head, s, j) else if j == i + 1 then n else At(head, s, j - 1)
  {
  }

  lemma AtRemove(head: Node, s: seq<Node>, i: nat, j: nat)
    requires i < |s| && j <= |s|
    ensures At(head, Remove(s, i), j) == if j <= i then At(head, s, j) else At(head, s, j + 1)
  {
  }

  /** Distinct places hold distinct nodes. */
  lemma AtInjective(head: Node, s: seq<Node>, i: nat, j: nat)
    requires Distinct(head, s) && i <= |s| && j <= |s| && i != j
    ensures At(head, s, i) != At(head, s, j)
  {
  }

  /** __list_add, between the i-th node of a ring and the one after it. */
  method AddBetween(node: Node, prev: Node, next: Node, ghost head: Node, ghost s: seq<Node>, ghost i: nat)
    requires Ring(head, s) && i <= |s| && prev == At(head, s, i) && next == At(head, s, i + 1)
    requires node != head && node !in s
    modifies node`next, node`prev, prev`next, next`prev
    ensures Ring(head, Insert(s, i, node))
  {
    next.prev := node;
    node.next := next;
    node.prev := prev;
    prev.next := node;
    ghost var t := Insert(s, i, node);
    forall j: nat | j <= |t| ensures Linked(At(head, t, j), At(head, t, j + 1)) {
      AtInsert(head, s, i, node, j);
      AtInsert(head, s, i, node, j + 1);
      if j < i {
        AtInjective(head, s, i, j);
      } else if j > i + 1 {
        AtInjective(head, s, i, j - 1);
      }
    }
  }

  /** list_add: push at the front. */
  method Add(node: Node, head: Node, ghost s: seq<Node>)
    requires Ring(head, s) && node != head && node !in s
    modifies node`next, node`prev, head`next, head.next`prev
    ensures Ring(head, [node] + s)
  {
    assert Linked(At(head, s, 0), At(head, s, 1));
    AddBetween(node, head, head.next, head, s, 0);
    assert Insert(s, 0, node) == [node] + s;
  }

  /** list_add_tail: append. */
  method AddTail(node: Node, head: Node, ghost s: seq<Node>)
    requires Ring(head, s) && node != head && node !in s
    modifies node`next, node`prev, head`prev, head.prev`next
    ensures Ring(head, s + [node])
  {
    assert Linked(At(head, s, |s|), At(head, s, |s| + 1));
    AddBetween(node, head.prev, head, head, s, |s|);
    assert Insert(s, |s|, node) == s + [node];
  }

  /** __list_del: the nodes around the i-th entry point to each other. */
  method DelBetween(prev: Node, next: Node, ghost head: Node, ghost s: seq<Node>, ghost i: nat)
    requires Ring(head, s) && i < |s| && prev == At(head, s, i) && next == At(head, s, i + 2)
    modifies prev`next, next`prev
    ensures Ring(head, Remove(s, i))
  {
    next.prev := prev;
    prev.next := next;
    ghost var t := Remove(s, i);
    forall j: nat | j <= |t| ensures Linked(At(head, t, j), At(head, t, j + 1)) {
      AtRemove(head, s, i, j);
      AtRemove(head, s, i, j + 1);
      if j < i {
        AtInjective(head, s, i, j);
      } else if j > i {
        AtInjective(head, s, i, j + 1);
      }
    }
  }

  lemma Around(head: Node, s: seq<Node>, i: nat)
    requires Ring(head, s) && i < |s|
    ensures s[i].prev == At(head, s, i) && s[i].next == At(head, s, i + 2)
  {
    assert Linked(At(head, s, i), At(head, s, i + 1)) && Linked(At(head, s, i + 1), At(head, s, i + 2));
  }

  /** list_del: the ring loses the entry; the entry itself keeps its pointers. */
  method Del(entry: Node, ghost head: Node, ghost s: seq<Node>, ghost i: nat)
    requires Ring(head, s) && i < |s| && entry == s[i]
    modifies entry.prev`next, entry.next`prev
    ensures Ring(head, Remove(s, i))
  {
    Around(head, s, i);
    DelBetween(entry.prev, entry.next, head, s, i);
  }

  /** list_del_init */
  method DelInit(entry: Node, ghost head: Node, ghost s: seq<Node>, ghost i: nat)
    requires Ring(head, s) && i < |s| && entry == s[i]
    modifies entry.prev`next, entry.next`prev, entry`next, entry`prev
    ensures Ring(head, Remove(s, i)) && Ring(entry, [])
  {
    Around(head, s, i);
    RemoveDistinct(head, s, i);
    DelBetween(entry.prev, entry.next, head, s, i);
    entry.next := entry;
    entry.prev := entry;
  }

  lemma RemoveDistinct(head: Node, s: seq<Node>, i: nat)
    requires Distinct(head, s) && i < |s|
    ensures Distinct(head, Remove(s, i)) && s[i] != head && s[i] !in Remove(s, i)
  {
  }

  ghost predicate Untouched(head: Node, s: seq<Node>, a: Node, b: Node, c: Node) {
    a != head && b != head && c != head && a !in s && b !in s && c !in s
  }

  /** list_move: from wherever the entry is to the front of another list, or of its own. */
  method Move(entry: Node, head: Node, ghost from: Node, ghost s: seq<Node>, ghost i: nat, ghost t: seq<Node>)
    requires Ring(from, s) && i < |s| && entry == s[i] && Ring(head, t)
    requires if head == from then t == s else Apart(from, s, head, t)
    modifies from, s, head, t
    ensures if head == from then Ring(head, [entry] + Remove(s, i))
            else Ring(from, Remove(s, i)) && Ring(head, [entry] + t)
  {
    Around(from, s, i);
    RemoveDistinct(from, s, i);
    ghost var rest := Remove(s, i);
    ghost var target := if head == from then rest else t;
    assert entry.prev in [from] + s && entry.next in [from] + s;
    DelBetween(entry.prev, entry.next, from, s, i);
    assert head != from ==> Ring(head, t);
    Neighbours(head, target);
    assert head != from ==> Untouched(from, rest, entry, head, head.next);
    Add(entry, head, target);
  }

  /** list_move_tail */
  method MoveTail(entry: Node, head: Node, ghost from: Node, ghost s: seq<Node>, ghost i: nat, ghost t: seq<Node>)
    requires Ring(from, s) && i < |s| && entry == s[i] && Ring(head, t)
    requires if head == from then t == s else Apart(from, s, head, t)
    modifies from, s, head, t
    ensures if head == from then Ring(head, Remove(s, i) + [entry])
            else Ring(from, Remove(s, i)) && Ring(head, t + [entry])
  {
    Around(from, s, i);
    RemoveDistinct(from, s, i);
    ghost var rest := Remove(s, i);
    ghost var target := if head == from then rest else t;
    assert entry.prev in [from] + s && entry.next in [from] + s;
    DelBetween(entry.prev, entry.next, from, s, i);
    assert head != from ==> Ring(head, t);
    Neighbours(head, target);
    assert head != from ==> Untouched(from, rest, entry, head, head.prev);
    AddTail(entry, head, target);
  }

  lemma Neighbours(head: Node, s: seq<Node>)
    requires Ring(head, s)
    ensures head.next == (if s == [] then head else s[0]) && head.prev == (if s == [] then head else s[|s| - 1])
  {
    assert Linked(At(head, s, 0), At(head, s, 1)) && Linked(At(head, s, |s|), At(head, s, |s| + 1));
  }

  /** list_empty */
  method Empty(head: Node, ghost s: seq<Node>) returns (r: bool)
    requires Ring(head, s)
    ensures r <==> s == []
  {
    Neighbours(head, s);
    r := head.next == head;
  }

  /** __list_splice: the entries of a non-empty list go in front of another's. */
  method SpliceEntries(list: Node, head: Node, ghost a: seq<Node>, ghost b: seq<Node>)
    requires Ring(list, a) && Ring(head, b) && a != [] && Apart(list, a, head, b)
    modifies head, a, b
    ensures Ring(head, a + b)
    ensures list.next == old(list.next) && list.prev == old(list.prev)
  {
    Neighbours(list, a);
    Neighbours(head, b);
    var first, last, at := list.next, list.prev, head.next;
    first.prev := head;
    head.next := first;
    last.next := at;
    at.prev := last;
    ghost var t := a + b;
    assert Distinct(head, t);
    forall j: nat | j <= |t| ensures Linked(At(head, t, j), At(head, t, j + 1)) {
      if j == 0 {
        assert At(head, t, 1) == a[0] == first && first != at && last != head;
      } else if j == |a| {
        assert At(head, t, j) == last && At(head, t, j + 1) == At(head, b, 1) == at;
      } else if j < |a| {
        assert At(head, t, j) == At(list, a, j) == a[j - 1] && At(head, t, j + 1) == At(list, a, j + 1) == a[j];
        assert old(Linked(At(list, a, j), At(list, a, j + 1)));
        assert a[j - 1] != last && a[j] != first;
      } else {
        var m := j - |a|;
        assert At(head, t, j) == At(head, b, m) == b[m - 1] && At(head, t, j + 1) == At(head, b, m + 1);
        assert old(Linked(At(head, b, m), At(head, b, m + 1)));
        assert At(head, b, m + 1) != at;
      }
    }
  }

  /** list_splice_init: the emptied list becomes a ring of its own. */
  method SpliceInit(list: Node, head: Node, ghost a: seq<Node>, ghost b: seq<Node>)
    requires Ring(list, a) && Ring(head, b) && Apart(list, a, head, b)
    modifies list, head, a, b
    ensures Ring(head, a + b) && Ring(list, [])
  {
    var empty := Empty(list, a);
    if empty {
      assert a + b == b;
    } else {
      SpliceEntries(list, head, a, b);
      list.next := list;
      list.prev := list;
    }
  }

  /** list_capacity */
  method Capacity(head: Node, ghost s: seq<Node>) returns (cntr: nat)
    requires Ring(head, s)
    ensures cntr == |s|
  {
    cntr := 0;
    var at := head;
    assert Linked(At(head, s, 0), At(head, s, 1));
    while at.next != head
      invariant cntr <= |s| && at == At(head, s, cntr) && at.next == At(head, s, cntr + 1)
      decreases |s| - cntr
    {
      at := at.next;
      cntr := cntr + 1;
      assert Linked(At(head, s, cntr), At(head, s, cntr + 1));
    }
  }

  /** list_idx: the entry of that index, or the head if there is none. */
  method Idx(head: Node, idx: int, ghost s: seq<Node>) returns (at: Node)
    requires Ring(head, s)
    ensures at == if 0 <= idx < |s| then s[idx] else head
  {
    var cntr := 0;
    assert Linked(At(head, s, 0), At(head, s, 1));
    at := head.next;
    while at != head
      invariant 0 <= cntr <= |s| && at == At(head, s, cntr + 1)
      invariant idx < 0 || cntr <= idx
      decreases |s| - cntr
    {
      if cntr == idx {
        return;
      }
      cntr := cntr + 1;
      assert Linked(At(head, s, cntr), At(head, s, cntr + 1));
      at := at.next;
    }
  }

  // ---------- freeing while iterating ----------

  /** Reading a node's link; the node must not have been freed. */
  function Next(n: Node, ghost freed: set<Node>): Node
    requires n !in freed
    reads n
  {
    n.next
  }

  /** kfree; a node is freed at most once. */
  ghost function Free(n: Node, freed: set<Node>): set<Node>
    requires n !in freed
  {
    freed + {n}
  }

  ghost function Elements(s: seq<Node>): set<Node> { set n | n in s }

  /** The body of the loop, for the first entry that is left. */
  method DelAndFree(pos: Node, ghost head: Node, ghost rest: seq<Node>, ghost freed: set<Node>) returns (ghost now: set<Node>)
    requires Ring(head, rest) && rest != [] && pos == rest[0]
    requires pos !in freed && pos.prev !in freed && pos.next !in freed
    modifies pos.prev`next, pos.next`prev
    ensures Ring(head, rest[1..]) && now == freed + {pos}
  {
    Del(pos, head, rest, 0);
    assert Remove(rest, 0) == rest[1..];
    now := Free(pos, freed);
  }

  /** The entries of s that have been visited and freed, in order, and those that are left. */
  ghost predicate Progress(head: Node, s: seq<Node>, order: seq<Node>, rest: seq<Node>, freed: set<Node>) {
    order + rest == s && freed == Elements(order) && Distinct(head, s)
  }

  /** The first entry that is left and its neighbours; what visiting it leaves. */
  lemma FirstLeft(head: Node, s: seq<Node>, order: seq<Node>, rest: seq<Node>, freed: set<Node>)
    requires Progress(head, s, order, rest, freed) && Ring(head, rest)
    ensures (At(head, rest, 1) == head <==> rest == []) && head !in freed
    ensures rest == [] ==> order == s && freed == Elements(s)
    ensures rest != [] ==>
              && rest[0].prev == head && rest[0].next == At(head, rest, 2) == At(head, rest[1..], 1)
              && rest[0] in s && rest[0] !in freed
              && (rest[0].next == head || rest[0].next in s) && rest[0].next !in freed + {rest[0]}
              && Progress(head, s, order + [rest[0]], rest[1..], freed + {rest[0]})
  {
    if rest != [] {
      Around(head, rest, 0);
      assert s[|order|] == rest[0] && (|rest| > 1 ==> s[|order| + 1] == rest[1]);
      assert forall i: nat :: i < |order| ==> order[i] == s[i];
      assert order + [rest[0]] + rest[1..] == s;
    }
  }

  /** list_free_all_safe: every entry is unlinked and freed exactly once, in order, and neither links nor
      entries are touched after they are freed. */
  method FreeAllSafe(head: Node, ghost s: seq<Node>) returns (order: seq<Node>, ghost freed: set<Node>)
    requires Ring(head, s)
    modifies head, s
    ensures order == s && Ring(head, []) && freed == Elements(s)
  {
    Neighbours(head, s);
    order, freed := [], {};
    assert Progress(head, s, [], s, {});
    hide Ring, Progress, At;
    ghost var rest := s;
    FirstLeft(head, s, order, rest, freed);
    var pos := Next(head, freed);
    assert pos == At(head, s, 1) by { FirstIs(head, s); }
    var safe := Next(pos, freed);
    while pos != head
      invariant Progress(head, s, order, rest, freed) && Ring(head, rest)
      invariant pos == At(head, rest, 1) && safe == pos.next
      decreases |rest|
    {
      FirstLeft(head, s, order, rest, freed);
      FirstIs(head, rest);
      freed := DelAndFree(pos, head, rest, freed);
      order := order + [pos];
      rest := rest[1..];
      pos := safe;
      safe := Next(pos, freed);
    }
    FirstLeft(head, s, order, rest, freed);
  }

  lemma FirstIs(head: Node, s: seq<Node>)
    ensures At(head, s, 1) == if s == [] then head else s[0]
  {
  }

  lemma BackAtHead(head: Node, s: seq<Node>, k: nat)
    requires Distinct(head, s) && k <= |s|
    ensures At(head, s, k + 1) == head <==> k == |s|
  {
  }
}
