/** The intrusive doubly linked rings of timer_wheel/itimer.h. */
module TimerRing {
  import opened Verdicts


  /** A link of a ring: the head of a slot, or the link inside a timer node together with the
      node's own fields. */
  class Node {
    var next: Node
    var prev: Node
    var expires: nat
    /** Whether the node's core pointer is set. */
    var attached: bool

    constructor Init()
      ensures next == this && prev == this && expires == 0 && !attached
    {
      next, prev, expires, attached := this, this, 0, false;
    }
  }

  function Succ(i: nat, n: nat): nat
    requires i < n
  {
    if i + 1 == n then 0 else i + 1
  }

  function Pred(i: nat, n: nat): nat
    requires i < n
  {
    if i == 0 then n - 1 else i - 1
  }

  /** The `next` and `prev` fields of all nodes at one moment. */
  datatype Links = Links(next: map<Node, Node>, prev: map<Node, Node>)

  ghost predicate Differ(r: seq<Node>, i: nat, j: nat)
    requires i < j < |r|
  {
    r[i] != r[j]
  }

  ghost predicate Injective(r: seq<Node>) {
    forall i, j {:trigger Differ(r, i, j)} | 0 <= i < j < |r| :: Differ(r, i, j)
  }

  lemma Distinct(r: seq<Node>, i: nat, j: nat)
    requires Injective(r) && i < |r| && j < |r| && i != j
    ensures r[i] != r[j]
  {
    assert if i < j then Differ(r, i, j) else Differ(r, j, i);
  }

  ghost predicate Follows(r: seq<Node>, next: map<Node, Node>, i: nat)
    requires i < |r|
  {
    r[i] in next && next[r[i]] == r[Succ(i, |r|)]
  }

  ghost predicate Precedes(r: seq<Node>, prev: map<Node, Node>, i: nat)
    requires i < |r|
  {
    r[i] in prev && prev[r[i]] == r[Pred(i, |r|)]
  }

  ghost predicate Forwards(r: seq<Node>, next: map<Node, Node>) {
    forall i {:trigger Follows(r, next, i)} | 0 <= i < |r| :: Follows(r, next, i)
  }

  ghost predicate Backwards(r: seq<Node>, prev: map<Node, Node>) {
    forall i {:trigger Precedes(r, prev, i)} | 0 <= i < |r| :: Precedes(r, prev, i)
  }

  /** Under `l` the nodes of `r`, head first, form a circular doubly linked list in this order. */
  ghost predicate Ring(r: seq<Node>, l: Links) {
    0 < |r| && Injective(r) && Forwards(r, l.next) && Backwards(r, l.prev)
  }

  lemma Linked(r: seq<Node>, l: Links, i: nat)
    requires Ring(r, l) && i < |r|
    ensures r[i] in l.next && l.next[r[i]] == r[Succ(i, |r|)]
    ensures r[i] in l.prev && l.prev[r[i]] == r[Pred(i, |r|)]
  {
    assert Follows(r, l.next, i) && Precedes(r, l.prev, i);
  }

  ghost predicate Same(l: Links, n: Node)
    reads n`next, n`prev
  {
    n in l.next && l.next[n] == n.next && n in l.prev && l.prev[n] == n.prev
  }

  /** The link fields of `nodes` in memory are as `l` says. */
  ghost predicate Mirrors(l: Links, nodes: set<Node>)
    reads nodes`next, nodes`prev
  {
    && l.next.Keys == nodes && l.prev.Keys == nodes
    && (forall n {:trigger Same(l, n)} | n in nodes :: Same(l, n))
  }

  /** The other fields of all nodes at one moment. */
  datatype Data = Data(expires: map<Node, nat>, attached: map<Node, bool>)

  ghost predicate SameData(d: Data, n: Node)
    reads n`expires, n`attached
  {
    n in d.expires && d.expires[n] == n.expires && n in d.attached && d.attached[n] == n.attached
  }

  ghost predicate Holds(d: Data, nodes: set<Node>)
    reads nodes`expires, nodes`attached
  {
    && d.expires.Keys == nodes && d.attached.Keys == nodes
    && (forall n {:trigger SameData(d, n)} | n in nodes :: SameData(d, n))
  }

  datatype Part = LinkPart | DataPart

  ghost predicate PartHolds(p: Part, l: Links, d: Data, nodes: set<Node>)
    reads nodes`next, nodes`prev, nodes`expires, nodes`attached
  {
    match p
    case LinkPart => Mirrors(l, nodes)
    case DataPart => Holds(d, nodes)
  }

  /** The fields of `nodes` in memory are as `l` and `d` say. */
  ghost function Memory(l: Links, d: Data, nodes: set<Node>): Verdict
    reads nodes`next, nodes`prev, nodes`expires, nodes`attached
  {
    if forall p {:trigger PartHolds(p, l, d, nodes)} :: PartHolds(p, l, d, nodes) then Sound else Broken
  }

  lemma Parts(l: Links, d: Data, nodes: set<Node>)
    requires Memory(l, d, nodes).Sound?
    ensures Mirrors(l, nodes) && Holds(d, nodes)
  {
    assert PartHolds(LinkPart, l, d, nodes) && PartHolds(DataPart, l, d, nodes);
  }

  // ----- The operations as changes of links ---------------------------------------------------

  /** iqueue_add_tail */
  ghost function AddedTail(l: Links, n: Node, head: Node): Links
    requires head in l.prev
  {
    var last := l.prev[head];
    Links(l.next[n := head][last := n], l.prev[n := last][head := n])
  }

  /** iqueue_del_init */
  ghost function Deleted(l: Links, n: Node): Links
    requires n in l.next && n in l.prev
  {
    var after, before := l.next[n], l.prev[n];
    Links(l.next[before := after][n := n], l.prev[after := before][n := n])
  }

  /** iqueue_splice_init onto the empty ring of `head` */
  ghost function Spliced(l: Links, list: Node, head: Node): Links
    requires list in l.next && list in l.prev && head in l.next
  {
    if l.next[list] == list then Links(l.next[list := list], l.prev[list := list])
    else
      var first, last, at := l.next[list], l.prev[list], l.next[head];
      Links(l.next[head := first][last := at][list := list], l.prev[first := head][at := last][list := list])
  }

  lemma AddedTailRing(r: seq<Node>, l: Links, n: Node)
    requires Ring(r, l) && n !in r && r[0] in l.prev
    ensures Ring(r + [n], AddedTail(l, n, r[0]))
  {
    var s, l' := r + [n], AddedTail(l, n, r[0]);
    Linked(r, l, 0);
    forall i | 0 <= i < |s| ensures Follows(s, l'.next, i) && Precedes(s, l'.prev, i) {
      if i < |r| {
        Linked(r, l, i);
        if i + 1 < |r| {
          Distinct(r, i, |r| - 1);
        }
        if i > 0 {
          Distinct(r, 0, i);
        }
      }
    }
    forall i, j | 0 <= i < j < |s| ensures Differ(s, i, j) {
      if j < |r| {
        assert Differ(r, i, j);
      }
    }
  }

  function Without(r: seq<Node>, i: nat): seq<Node>
    requires i < |r|
  {
    r[..i] + r[i + 1..]
  }

  lemma WithoutInjective(r: seq<Node>, i: nat)
    requires Injective(r) && i < |r|
    ensures Injective(Without(r, i)) && r[i] !in Without(r, i)
    ensures forall n | n in r && n != r[i] :: n in Without(r, i)
  {
    var s := Without(r, i);
    forall k | 0 <= k < |s| ensures s[k] == r[if k < i then k else k + 1] && s[k] != r[i] {
      Distinct(r, if k < i then k else k + 1, i);
    }
    forall a, b | 0 <= a < b < |s| ensures Differ(s, a, b) {
      assert Differ(r, if a < i then a else a + 1, if b < i then b else b + 1);
    }
    forall n | n in r && n != r[i] ensures n in s {
      var k :| 0 <= k < |r| && r[k] == n;
      assert s[if k < i then k else k - 1] == n;
    }
  }

  lemma DeletedForwards(r: seq<Node>, next: map<Node, Node>, i: nat)
    requires Injective(r) && Forwards(r, next) && 0 < i < |r|
    ensures Forwards(Without(r, i), next[r[i - 1] := r[Succ(i, |r|)]][r[i] := r[i]])
  {
    var s, next' := Without(r, i), next[r[i - 1] := r[Succ(i, |r|)]][r[i] := r[i]];
    forall k | 0 <= k < |s| ensures Follows(s, next', k) {
      var o := if k < i then k else k + 1;
      Distinct(r, o, i);
      assert s[k] == r[o] && Follows(r, next, o);
      if o != i - 1 {
        Distinct(r, o, i - 1);
      }
    }
  }

  lemma DeletedBackwards(r: seq<Node>, prev: map<Node, Node>, i: nat)
    requires Injective(r) && Backwards(r, prev) && 0 < i < |r|
    ensures Backwards(Without(r, i), prev[r[Succ(i, |r|)] := r[i - 1]][r[i] := r[i]])
  {
    var s, prev' := Without(r, i), prev[r[Succ(i, |r|)] := r[i - 1]][r[i] := r[i]];
    forall k | 0 <= k < |s| ensures Precedes(s, prev', k) {
      var o := if k < i then k else k + 1;
      Distinct(r, o, i);
      assert s[k] == r[o] && Precedes(r, prev, o);
      if o != Succ(i, |r|) {
        Distinct(r, o, Succ(i, |r|));
      }
    }
  }

  lemma DeletedRing(r: seq<Node>, l: Links, i: nat)
    requires Ring(r, l) && 0 < i < |r| && r[i] in l.next && r[i] in l.prev
    ensures Ring(Without(r, i), Deleted(l, r[i]))
  {
    Linked(r, l, i);
    WithoutInjective(r, i);
    DeletedForwards(r, l.next, i);
    DeletedBackwards(r, l.prev, i);
  }

  lemma SplicedForwards(r: seq<Node>, next: map<Node, Node>, head: Node)
    requires Injective(r) && Forwards(r, next) && 1 < |r| && head !in r
    ensures Forwards([head] + r[1..], next[head := r[1]][r[|r| - 1] := head][r[0] := r[0]])
  {
    var s, n := [head] + r[1..], |r| - 1;
    var next' := next[head := r[1]][r[n] := head][r[0] := r[0]];
    forall k | 0 <= k < |s| ensures Follows(s, next', k) {
      if k > 0 {
        Distinct(r, 0, k);
        assert s[k] == r[k] && Follows(r, next, k);
        if k < n {
          Distinct(r, k, n);
        }
      }
    }
  }

  lemma SplicedBackwards(r: seq<Node>, prev: map<Node, Node>, head: Node)
    requires Injective(r) && Backwards(r, prev) && 1 < |r| && head !in r
    ensures Backwards([head] + r[1..], prev[r[1] := head][head := r[|r| - 1]][r[0] := r[0]])
  {
    var s, n := [head] + r[1..], |r| - 1;
    var prev' := prev[r[1] := head][head := r[n]][r[0] := r[0]];
    Distinct(r, 0, 1);
    forall k | 0 <= k < |s| ensures Precedes(s, prev', k) {
      if k > 0 {
        Distinct(r, 0, k);
        assert s[k] == r[k] && Precedes(r, prev, k);
        if k > 1 {
          Distinct(r, 1, k);
        }
      }
    }
  }

  lemma SplicedInjective(r: seq<Node>, head: Node)
    requires Injective(r) && 0 < |r| && head !in r
    ensures Injective([head] + r[1..])
  {
    var s := [head] + r[1..];
    forall a, b | 0 <= a < b < |s| ensures Differ(s, a, b) {
      assert s[b] == r[b] && r[b] in r;
      if a > 0 {
        assert Differ(r, a, b);
      }
    }
  }

  lemma SplicedRing(r: seq<Node>, l: Links, head: Node)
    requires Ring(r, l) && Ring([head], l) && head !in r && r[0] in l.next && r[0] in l.prev && head in l.next
    ensures Ring([r[0]], Spliced(l, r[0], head))
    ensures Ring([head] + r[1..], Spliced(l, r[0], head))
  {
    Linked([head], l, 0);
    Linked(r, l, 0);
    assert Injective([r[0]]) && Injective([head]);
    if |r| > 1 {
      Distinct(r, 0, 1);
      Distinct(r, 0, |r| - 1);
      SplicedInjective(r, head);
      SplicedForwards(r, l.next, head);
      SplicedBackwards(r, l.prev, head);
    } else {
      assert [head] + r[1..] == [head];
    }
  }

  /** A ring none of whose members changed its links. */
  lemma SameRing(r: seq<Node>, l: Links, l': Links)
    requires Ring(r, l)
    requires forall n | n in r :: n in l'.next && n in l.next && l'.next[n] == l.next[n]
    requires forall n | n in r :: n in l'.prev && n in l.prev && l'.prev[n] == l.prev[n]
    ensures Ring(r, l')
  {
    forall i | 0 <= i < |r| ensures Follows(r, l'.next, i) && Precedes(r, l'.prev, i) {
      Linked(r, l, i);
    }
  }

  // ----- The operations in memory -------------------------------------------------------------

  method AddTail(n: Node, head: Node, ghost l: Links, ghost nodes: set<Node>)
    requires Mirrors(l, nodes) && n in nodes && head in nodes && head.prev in nodes && n != head
    requires head.prev != n
    modifies n`next, n`prev, head`next, head`prev, head.prev`next
    ensures Mirrors(AddedTail(l, n, head), nodes)
  {
    assert Same(l, head);
    ghost var last := head.prev;
    n.prev := head.prev;
    n.next := head;
    head.prev.next := n;
    head.prev := n;
    assert n.prev == last && n.next == head && last.next == n && head.prev == n;
    ghost var l' := AddedTail(l, n, head);
    forall m | m in nodes ensures Same(l', m) {
      assert old(Same(l, m));
    }
  }

  method DelInit(n: Node, ghost l: Links, ghost nodes: set<Node>)
    requires Mirrors(l, nodes) && n in nodes && n.next in nodes && n.prev in nodes && n.next != n && n.prev != n
    modifies n`next, n`prev, n.next`prev, n.prev`next
    ensures Mirrors(Deleted(l, n), nodes)
  {
    assert Same(l, n);
    ghost var after, before := n.next, n.prev;
    n.next.prev := n.prev;
    n.prev.next := n.next;
    n.next := n;
    n.prev := n;
    assert n.prev == n && n.next == n && before.next == after && after.prev == before;
    ghost var l' := Deleted(l, n);
    forall m | m in nodes ensures Same(l', m) {
      assert old(Same(l, m));
    }
  }

  method SpliceInit(list: Node, head: Node, ghost l: Links, ghost nodes: set<Node>)
    requires Mirrors(l, nodes) && list in nodes && head in nodes && list != head
    requires list.next in nodes && list.prev in nodes && head.next in nodes
    requires list.next != list ==> head.next == head && list.next != head && list.prev != head && list.prev != list
    modifies list`next, list`prev, head`next, head`prev, list.next`prev, list.prev`next
    ensures Mirrors(Spliced(l, list, head), nodes)
  {
    assert Same(l, list) && Same(l, head);
    if list.next != list {
      var first, last, at := list.next, list.prev, head.next;
      first.prev := head;
      head.next := first;
      last.next := at;
      at.prev := last;
    }
    list.next := list;
    list.prev := list;
    ghost var l' := Spliced(l, list, head);
    forall m | m in nodes ensures Same(l', m) {
      assert old(Same(l, m));
    }
  }
  method SetExpires(n: Node, e: nat, ghost d: Data, ghost nodes: set<Node>)
    requires Holds(d, nodes) && n in nodes
    modifies n`expires
    ensures Holds(d.(expires := d.expires[n := e]), nodes)
  {
    n.expires := e;
    forall m | m in nodes ensures SameData(d.(expires := d.expires[n := e]), m) {
      assert old(SameData(d, m));
    }
  }

  method SetAttached(n: Node, b: bool, ghost d: Data, ghost nodes: set<Node>)
    requires Holds(d, nodes) && n in nodes
    modifies n`attached
    ensures Holds(d.(attached := d.attached[n := b]), nodes)
  {
    n.attached := b;
    forall m | m in nodes ensures SameData(d.(attached := d.attached[n := b]), m) {
      assert old(SameData(d, m));
    }
  }

  // ----- The same, as seen by a caller that looks at fields only through `l` and `d` ------------

  method StoredAddTail(n: Node, head: Node, ghost l: Links, ghost d: Data, ghost nodes: set<Node>)
    requires Memory(l, d, nodes).Sound? && n in l.next && head in l.next && n != head
    requires head in l.prev && l.prev[head] in l.next && l.prev[head] != n
    modifies nodes
    ensures Memory(AddedTail(l, n, head), d, nodes).Sound?
  {
    Parts(l, d, nodes);
    assert Same(l, head);
    AddTail(n, head, l, nodes);
  }

  method StoredDelInit(n: Node, ghost l: Links, ghost d: Data, ghost nodes: set<Node>)
    requires Memory(l, d, nodes).Sound? && n in l.next && n in l.prev
    requires l.next[n] in l.next && l.prev[n] in l.next && l.next[n] != n && l.prev[n] != n
    modifies nodes
    ensures Memory(Deleted(l, n), d, nodes).Sound?
  {
    Parts(l, d, nodes);
    assert Same(l, n);
    DelInit(n, l, nodes);
  }

  method StoredSpliceInit(list: Node, q: Node, ghost l: Links, ghost d: Data, ghost nodes: set<Node>)
    requires Memory(l, d, nodes).Sound? && list in l.next && q in l.next && list != q
    requires list in l.prev && l.next[q] == q && l.next[list] in l.next && l.prev[list] in l.next
    requires l.next[list] != list ==> l.prev[list] != list && l.next[list] != q && l.prev[list] != q
    modifies nodes
    ensures Memory(Spliced(l, list, q), d, nodes).Sound?
  {
    Parts(l, d, nodes);
    assert Same(l, list) && Same(l, q);
    SpliceInit(list, q, l, nodes);
  }

  method StoredExpires(n: Node, e: nat, ghost l: Links, ghost d: Data, ghost nodes: set<Node>)
    requires Memory(l, d, nodes).Sound? && n in l.next
    modifies nodes
    ensures Memory(l, d.(expires := d.expires[n := e]), nodes).Sound?
  {
    Parts(l, d, nodes);
    SetExpires(n, e, d, nodes);
  }

  method StoredAttached(n: Node, b: bool, ghost l: Links, ghost d: Data, ghost nodes: set<Node>)
    requires Memory(l, d, nodes).Sound? && n in l.next
    modifies nodes
    ensures Memory(l, d.(attached := d.attached[n := b]), nodes).Sound?
  {
    Parts(l, d, nodes);
    SetAttached(n, b, d, nodes);
  }

  /** What itimer_node_init makes of a timer, and iqueue_init of a list head. */
  ghost predicate IsInit(n: Node)
    reads n
  {
    n.next == n && n.prev == n && n.expires == 0 && !n.attached
  }

  lemma InitMemory(nodes: set<Node>)
    requires forall n {:trigger IsInit(n)} | n in nodes :: IsInit(n)
    ensures Memory(
      Links(map n | n in nodes :: n, map n | n in nodes :: n),
      Data(map n | n in nodes :: 0, map n | n in nodes :: false), nodes).Sound?
  {
    var l := Links(map n | n in nodes :: n, map n | n in nodes :: n);
    var d := Data(map n | n in nodes :: 0, map n | n in nodes :: false);
    forall n | n in nodes ensures Same(l, n) && SameData(d, n) {
      assert IsInit(n);
    }
  }

  /** The link and the fields of a node as they are stored. */
  lemma Stored(n: Node, l: Links, d: Data, nodes: set<Node>)
    requires Memory(l, d, nodes).Sound? && n in l.next
    ensures n in l.next && l.next[n] == n.next
    ensures n in d.expires && d.expires[n] == n.expires && n in d.attached && d.attached[n] == n.attached
  {
    Parts(l, d, nodes);
    assert Same(l, n) && SameData(d, n);
  }

  method StoredNew(ghost l: Links, ghost d: Data, ghost nodes: set<Node>) returns (q: Node)
    requires Memory(l, d, nodes).Sound?
    ensures fresh(q) && q !in l.next && q !in l.prev
    ensures Memory(
      Links(l.next[q := q], l.prev[q := q]), Data(d.expires[q := 0], d.attached[q := false]), nodes + {q}).Sound?
  {
    Parts(l, d, nodes);
    q := new Node.Init();
    ghost var l', d' := Links(l.next[q := q], l.prev[q := q]), Data(d.expires[q := 0], d.attached[q := false]);
    forall m | m in nodes + {q} ensures Same(l', m) && SameData(d', m) {
      if m != q {
        assert Same(l, m) && SameData(d, m);
      }
    }
  }
}
