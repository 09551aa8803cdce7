/** All rings of a timer core at one moment: the 512 slots and the local list of a running loop. */
module TimerShape {
  import opened TimerRing
  import opened TimerPlace
  import opened Verdicts

  /** What there is to check of a shape. */
  datatype Clause = InPlace | InRings | Alone | UnderHeads | Known

  /** The rings, heads first; for every linked node its ring; and the link fields of all nodes. */
  datatype Shape = Shape(rings: seq<seq<Node>>, at: map<Node, nat>, links: Links) {
    ghost predicate MemberAt(timers: set<Node>, j: nat, i: nat)
      requires j < |rings| && i < |rings[j]|
    {
      var n := rings[j][i];
      n in at && at[n] == j && (n in timers <==> 0 < i)
    }

    ghost predicate Home(n: Node)
      requires n in at
    {
      at[n] < |rings| && n in rings[at[n]]
    }

    /** No node is in two places; heads come first, and timers only behind them. */
    ghost predicate Members(timers: set<Node>) {
      && |rings| == SLOTS + 1
      && (forall j, i {:trigger MemberAt(timers, j, i)} | 0 <= j <= SLOTS && 0 <= i < |rings[j]| ::
        MemberAt(timers, j, i))
      && (forall n {:trigger Home(n)} | n in at :: Home(n))
    }

    /** Every slot, and the local list if there is one, is a circular doubly linked list. */
    ghost predicate AllRings() {
      && |rings| == SLOTS + 1
      && (forall j {:trigger Ring(rings[j], links)} | 0 <= j <= SLOTS && (rings[j] != [] || j != QUEUED) ::
        Ring(rings[j], links))
    }

    ghost predicate Single(n: Node) {
      n in links.next && links.next[n] == n && n in links.prev && links.prev[n] == n
    }

    /** A timer in no list is a ring of its own. */
    ghost predicate Singles(timers: set<Node>) {
      forall n {:trigger Single(n)} | n in timers && n !in at :: Single(n)
    }

    ghost predicate HeadAt(heads: seq<Node>, j: nat)
      requires j < |heads| && j < |rings|
    {
      rings[j] != [] && rings[j][0] == heads[j]
    }

    /** The slots are the rings of these heads. */
    ghost predicate Headed(heads: seq<Node>) {
      && |heads| == SLOTS && |rings| == SLOTS + 1
      && (forall j {:trigger HeadAt(heads, j)} | 0 <= j < SLOTS :: HeadAt(heads, j))
    }

    ghost predicate Stored(timers: set<Node>) {
      && timers <= links.next.Keys && at.Keys <= links.next.Keys
      && links.next.Keys == links.prev.Keys
    }

    ghost predicate Obeys(c: Clause, timers: set<Node>, heads: seq<Node>) {
      match c
      case InPlace => Members(timers)
      case InRings => AllRings()
      case Alone => Singles(timers)
      case UnderHeads => Headed(heads)
      case Known => Stored(timers)
    }

    ghost function Check(timers: set<Node>, heads: seq<Node>): Verdict {
      if
        && |rings| == SLOTS + 1 && |heads| == SLOTS
        && (forall c {:trigger Obeys(c, timers, heads)} :: Obeys(c, timers, heads))
      then Sound else Broken
    }

    lemma Clauses(timers: set<Node>, heads: seq<Node>)
      requires Check(timers, heads).Sound?
      ensures Members(timers) && AllRings() && Singles(timers) && Headed(heads) && Stored(timers)
    {
      assert Obeys(InPlace, timers, heads) && Obeys(InRings, timers, heads) && Obeys(Alone, timers, heads);
      assert Obeys(UnderHeads, timers, heads) && Obeys(Known, timers, heads);
    }

    /** The local list of a running loop, head first; empty if no loop is running. */
    ghost function Local(): seq<Node> {
      if |rings| == SLOTS + 1 then rings[QUEUED] else []
    }
  }

  lemma IsKnown(s: Shape, timers: set<Node>, heads: seq<Node>, n: Node)
    requires s.Check(timers, heads).Sound? && n in timers
    ensures n in s.links.next
  {
    s.Clauses(timers, heads);
  }

  lemma InRing(s: Shape, timers: set<Node>, j: nat, n: Node)
    requires s.Members(timers) && j <= SLOTS && n in s.rings[j]
    ensures n in s.at && s.at[n] == j
  {
    var i :| 0 <= i < |s.rings[j]| && s.rings[j][i] == n;
    assert s.MemberAt(timers, j, i);
  }

  ghost function Index(r: seq<Node>, n: Node): (i: nat)
    requires n in r
    ensures i < |r| && r[i] == n
  {
    var i: nat :| i < |r| && r[i] == n;
    i
  }

  /** A linked node, its place and its links. */
  lemma Found(s: Shape, timers: set<Node>, n: Node)
    requires s.Members(timers) && s.AllRings() && n in s.at
    ensures s.at[n] <= SLOTS && n in s.rings[s.at[n]] && Ring(s.rings[s.at[n]], s.links)
    ensures var r := s.rings[s.at[n]]; var i := Index(r, n);
      && n in s.links.next && s.links.next[n] == r[Succ(i, |r|)]
      && n in s.links.prev && s.links.prev[n] == r[Pred(i, |r|)]
      && (n in timers <==> 0 < i)
  {
    assert s.Home(n);
    var j := s.at[n];
    assert Ring(s.rings[j], s.links);
    var i := Index(s.rings[j], n);
    assert s.MemberAt(timers, j, i);
    Linked(s.rings[j], s.links, i);
  }

  lemma Elsewhere(s: Shape, timers: set<Node>, j: nat, n: Node)
    requires s.Members(timers) && s.AllRings() && n in s.at && s.at[n] != j && j <= SLOTS
    ensures n in s.links.next && n in s.links.prev && n !in s.rings[j]
  {
    Found(s, timers, n);
    if n in s.rings[j] {
      InRing(s, timers, j, n);
    }
  }

  /** The links of a node in another ring do not change. */
  ghost predicate Untouched(s: Shape, s': Shape, n: Node) {
    && n in s.links.next && n in s'.links.next && s'.links.next[n] == s.links.next[n]
    && n in s.links.prev && n in s'.links.prev && s'.links.prev[n] == s.links.prev[n]
  }

  /** An operation on ring j leaves the other rings rings. */
  lemma OtherRings(s: Shape, s': Shape, timers: set<Node>, j: nat)
    requires s.Members(timers) && s.AllRings() && j <= SLOTS
    requires |s'.rings| == SLOTS + 1 && forall k {:trigger s'.rings[k]} | 0 <= k <= SLOTS && k != j ::
      s'.rings[k] == s.rings[k]
    requires Ring(s'.rings[j], s'.links)
    requires forall n {:trigger Untouched(s, s', n)} | n in s.at && s.at[n] != j :: Untouched(s, s', n)
    ensures s'.AllRings()
  {
    forall k | 0 <= k <= SLOTS && (s'.rings[k] != [] || k != QUEUED) ensures Ring(s'.rings[k], s'.links) {
      if k != j {
        assert Ring(s.rings[k], s.links);
        forall n | n in s.rings[k] ensures Untouched(s, s', n) {
          InRing(s, timers, k, n);
        }
        SameRing(s.rings[k], s.links, s'.links);
      }
    }
  }

  // ----- Taking a timer out -------------------------------------------------------------------

  ghost function Unlinked(s: Shape, n: Node): Shape
    requires n in s.at && s.at[n] < |s.rings| && n in s.rings[s.at[n]] && n in s.links.next && n in s.links.prev
  {
    var j := s.at[n];
    Shape(s.rings[j := Without(s.rings[j], Index(s.rings[j], n))], s.at - {n}, Deleted(s.links, n))
  }

  lemma UnlinkedMembers(s: Shape, timers: set<Node>, heads: seq<Node>, n: Node)
    requires s.Check(timers, heads).Sound? && n in timers && n in s.at
    requires s.at[n] <= SLOTS && n in s.rings[s.at[n]] && n in s.links.next && n in s.links.prev
    ensures Unlinked(s, n).Members(timers)
  {
    s.Clauses(timers, heads);
    Found(s, timers, n);
    var j, s' := s.at[n], Unlinked(s, n);
    var r := s.rings[j];
    var i := Index(r, n);
    WithoutInjective(r, i);
    forall k, l | 0 <= k <= SLOTS && 0 <= l < |s'.rings[k]| ensures s'.MemberAt(timers, k, l) {
      var o := if k != j || l < i then l else l + 1;
      assert s'.rings[k][l] == s.rings[k][o] && s.MemberAt(timers, k, o);
      if k == j {
        Distinct(r, o, i);
      }
    }
    forall m | m in s'.at ensures s'.Home(m) {
      assert s.Home(m);
    }
  }

  lemma UnlinkedRings(s: Shape, timers: set<Node>, heads: seq<Node>, n: Node)
    requires s.Check(timers, heads).Sound? && n in timers && n in s.at
    requires s.at[n] <= SLOTS && n in s.rings[s.at[n]] && n in s.links.next && n in s.links.prev
    ensures Unlinked(s, n).AllRings()
  {
    s.Clauses(timers, heads);
    Found(s, timers, n);
    var j, s' := s.at[n], Unlinked(s, n);
    var r := s.rings[j];
    var i := Index(r, n);
    DeletedRing(r, s.links, i);
    forall m | m in s.at && s.at[m] != j ensures Untouched(s, s', m) {
      Elsewhere(s, timers, j, m);
      assert r[Succ(i, |r|)] in r && r[Pred(i, |r|)] in r;
    }
    OtherRings(s, s', timers, j);
  }

  ghost function ListWithout(s: Shape, n: Node): seq<Node>
  {
    if n in s.Local() then Without(s.Local(), Index(s.Local(), n)) else s.Local()
  }

  lemma UnlinkedValid(s: Shape, timers: set<Node>, heads: seq<Node>, n: Node)
    requires s.Check(timers, heads).Sound? && n in timers && n in s.at
    ensures s.at[n] <= SLOTS && n in s.rings[s.at[n]] && n in s.links.next && n in s.links.prev
    ensures Unlinked(s, n).Check(timers, heads).Sound?
    ensures Unlinked(s, n).at == s.at - {n} && Unlinked(s, n).Local() == ListWithout(s, n)
    ensures s.links.next[n] in s.links.next && s.links.prev[n] in s.links.next
    ensures s.links.next[n] != n && s.links.prev[n] != n
  {
    s.Clauses(timers, heads);
    Found(s, timers, n);
    var j, s' := s.at[n], Unlinked(s, n);
    var r := s.rings[j];
    var i := Index(r, n);
    UnlinkedMembers(s, timers, heads, n);
    UnlinkedRings(s, timers, heads, n);
    assert s.MemberAt(timers, j, Succ(i, |r|)) && s.MemberAt(timers, j, Pred(i, |r|));
    Distinct(r, i, Succ(i, |r|));
    Distinct(r, i, i - 1);
    forall k | 0 <= k < SLOTS ensures s'.HeadAt(heads, k) {
      assert s.HeadAt(heads, k);
    }
    forall m | m in timers && m !in s'.at ensures s'.Single(m) {
      if m != n {
        assert s.Single(m);
        assert s.links.next[n] != m && s.links.prev[n] != m;
      }
    }
    if j != QUEUED && n in s.rings[QUEUED] {
      InRing(s, timers, QUEUED, n);
    }
  }

  // ----- Putting a timer in -------------------------------------------------------------------

  ghost function LinkedTo(s: Shape, n: Node, j: nat): Shape
    requires j < |s.rings| && s.rings[j] != [] && s.rings[j][0] in s.links.prev
  {
    Shape(s.rings[j := s.rings[j] + [n]], s.at[n := j], AddedTail(s.links, n, s.rings[j][0]))
  }

  lemma LinkedMembers(s: Shape, timers: set<Node>, heads: seq<Node>, n: Node, j: nat)
    requires s.Check(timers, heads).Sound? && n in timers && n !in s.at && j < SLOTS
    requires s.rings[j] != [] && s.rings[j][0] in s.links.prev
    ensures LinkedTo(s, n, j).Members(timers)
  {
    s.Clauses(timers, heads);
    var s' := LinkedTo(s, n, j);
    forall k, l | 0 <= k <= SLOTS && 0 <= l < |s'.rings[k]| ensures s'.MemberAt(timers, k, l) {
      if k != j || l < |s.rings[j]| {
        assert s'.rings[k][l] == s.rings[k][l] && s.MemberAt(timers, k, l);
      }
    }
    forall m | m in s'.at ensures s'.Home(m) {
      if m != n {
        assert s.Home(m);
      }
    }
  }

  lemma LinkedRings(s: Shape, timers: set<Node>, heads: seq<Node>, n: Node, j: nat)
    requires s.Check(timers, heads).Sound? && n in timers && n !in s.at && j < SLOTS
    requires s.rings[j] != [] && s.rings[j][0] in s.links.prev && n !in s.rings[j]
    ensures LinkedTo(s, n, j).AllRings()
  {
    s.Clauses(timers, heads);
    var r, s' := s.rings[j], LinkedTo(s, n, j);
    assert Ring(r, s.links);
    Linked(r, s.links, 0);
    AddedTailRing(r, s.links, n);
    forall m | m in s.at && s.at[m] != j ensures Untouched(s, s', m) {
      Elsewhere(s, timers, j, m);
      assert r[0] in r && r[Pred(0, |r|)] in r;
    }
    OtherRings(s, s', timers, j);
  }

  lemma LinkedValid(s: Shape, timers: set<Node>, heads: seq<Node>, n: Node, j: nat)
    requires s.Check(timers, heads).Sound? && n in timers && n !in s.at && j < SLOTS
    ensures s.rings[j] != [] && s.rings[j][0] in s.links.prev && LinkedTo(s, n, j).Check(timers, heads).Sound?
    ensures LinkedTo(s, n, j).at == s.at[n := j] && LinkedTo(s, n, j).Local() == s.Local()
    ensures var head := s.rings[j][0];
      && head == heads[j] && head != n && n in s.links.next && head in s.links.next
      && s.links.prev[head] in s.links.next && s.links.prev[head] != n
  {
    s.Clauses(timers, heads);
    var r := s.rings[j];
    assert Ring(r, s.links);
    Linked(r, s.links, 0);
    assert s.MemberAt(timers, j, 0) && s.MemberAt(timers, j, Pred(0, |r|));
    if n in r {
      InRing(s, timers, j, n);
    }
    assert s.HeadAt(heads, j);
    LinkedMembers(s, timers, heads, n, j);
    LinkedRings(s, timers, heads, n, j);
    var s' := LinkedTo(s, n, j);
    forall k | 0 <= k < SLOTS ensures s'.HeadAt(heads, k) {
      assert s.HeadAt(heads, k);
    }
    forall m | m in timers && m !in s'.at ensures s'.Single(m) {
      assert s.Single(m);
    }
  }

  // ----- The local list of a loop -------------------------------------------------------------

  /** Where the linked nodes are when those of slot j have moved to a local list with head q. */
  ghost function MovedAt(at: map<Node, nat>, j: nat, head: Node, q: Node): map<Node, nat> {
    map m | m in at.Keys + {q} :: if m == q || (at[m] == j && m != head) then QUEUED else at[m]
  }

  ghost function Opened(s: Shape, j: nat, q: Node): Shape
    requires j < SLOTS && |s.rings| == SLOTS + 1 && s.rings[j] != []
    requires s.rings[j][0] in s.links.next && s.rings[j][0] in s.links.prev && q in s.links.next
  {
    var head := s.rings[j][0];
    Shape(s.rings[j := [head]][QUEUED := [q] + s.rings[j][1..]], MovedAt(s.at, j, head, q), Spliced(s.links, head, q))
  }

  ghost predicate Fresh(s: Shape, timers: set<Node>, q: Node) {
    q !in timers && q !in s.at && s.Single(q)
  }

  lemma OpenedMembers(s: Shape, timers: set<Node>, heads: seq<Node>, j: nat, q: Node)
    requires s.Check(timers, heads).Sound? && j < SLOTS && s.rings[QUEUED] == [] && Fresh(s, timers, q)
    requires s.rings[j] != [] && s.rings[j][0] in s.links.next && s.rings[j][0] in s.links.prev
    ensures Opened(s, j, q).Members(timers)
  {
    s.Clauses(timers, heads);
    var r, head, s' := s.rings[j], s.rings[j][0], Opened(s, j, q);
    var t := s'.rings[QUEUED];
    assert Ring(r, s.links);
    forall k, l | 0 <= k <= SLOTS && 0 <= l < |s'.rings[k]| ensures s'.MemberAt(timers, k, l) {
      if k != QUEUED {
        assert s'.rings[k][l] == s.rings[k][l] && s.MemberAt(timers, k, l);
      } else if l > 0 {
        assert t[l] == r[l] && s.MemberAt(timers, j, l);
        Distinct(r, 0, l);
      }
    }
    forall m | m in s'.at ensures s'.Home(m) {
      if m in s.at {
        assert s.Home(m);
        if s.at[m] == j && m != head {
          assert t[Index(r, m)] == m;
        }
      }
    }
  }

  lemma OpenedRings(s: Shape, timers: set<Node>, heads: seq<Node>, j: nat, q: Node)
    requires s.Check(timers, heads).Sound? && j < SLOTS && s.rings[QUEUED] == [] && Fresh(s, timers, q)
    requires s.rings[j] != [] && s.rings[j][0] in s.links.next && s.rings[j][0] in s.links.prev
    ensures Opened(s, j, q).AllRings()
  {
    s.Clauses(timers, heads);
    var r, s' := s.rings[j], Opened(s, j, q);
    assert Ring(r, s.links);
    if q in r {
      InRing(s, timers, j, q);
    }
    assert Ring([q], s.links) by {
      assert Follows([q], s.links.next, 0) && Precedes([q], s.links.prev, 0);
    }
    SplicedRing(r, s.links, q);
    Linked(r, s.links, 0);
    var u := Shape(s.rings[j := [r[0]]], s.at, s'.links);
    forall m | m in s.at && s.at[m] != j ensures Untouched(s, u, m) {
      Elsewhere(s, timers, j, m);
      assert r[Succ(0, |r|)] in r && r[Pred(0, |r|)] in r;
    }
    OtherRings(s, u, timers, j);
    forall k | 0 <= k <= SLOTS && (s'.rings[k] != [] || k != QUEUED) ensures Ring(s'.rings[k], s'.links) {
      if k < SLOTS {
        assert u.rings[k] == s'.rings[k] && Ring(u.rings[k], u.links);
      }
    }
  }

  lemma OpenedValid(s: Shape, timers: set<Node>, heads: seq<Node>, j: nat, q: Node)
    requires s.Check(timers, heads).Sound? && j < SLOTS && s.rings[QUEUED] == [] && Fresh(s, timers, q)
    ensures s.rings[j] != [] && s.rings[j][0] in s.links.next && s.rings[j][0] in s.links.prev
    ensures Opened(s, j, q).Check(timers, heads).Sound?
    ensures Opened(s, j, q).at == MovedAt(s.at, j, s.rings[j][0], q) && Opened(s, j, q).Local() == [q] + s.rings[j][1..]
    ensures var head := s.rings[j][0];
      && head == heads[j] && head !in timers && head != q
      && s.links.next[head] in s.links.next && s.links.prev[head] in s.links.next && s.links.next[q] == q
      && (s.links.next[head] != head ==>
            s.links.prev[head] != head && s.links.next[head] != q && s.links.prev[head] != q)
  {
    s.Clauses(timers, heads);
    var r := s.rings[j];
    assert Ring(r, s.links);
    Linked(r, s.links, 0);
    assert s.MemberAt(timers, j, 0) && s.MemberAt(timers, j, Succ(0, |r|)) && s.MemberAt(timers, j, Pred(0, |r|));
    assert s.HeadAt(heads, j);
    OpenedMembers(s, timers, heads, j, q);
    OpenedRings(s, timers, heads, j, q);
    var s' := Opened(s, j, q);
    if |r| > 1 {
      Distinct(r, 0, |r| - 1);
    }
    forall k | 0 <= k < SLOTS ensures s'.HeadAt(heads, k) {
      assert s.HeadAt(heads, k);
    }
    forall m | m in timers && m !in s'.at ensures s'.Single(m) {
      assert s.Single(m);
    }
  }

  /** The local list, with only its head left, goes away. */
  ghost function Closed(s: Shape): Shape
    requires |s.rings| == SLOTS + 1 && 0 < |s.rings[QUEUED]|
  {
    Shape(s.rings[QUEUED := []], s.at - {s.rings[QUEUED][0]}, s.links)
  }

  lemma ClosedValid(s: Shape, timers: set<Node>, heads: seq<Node>)
    requires s.Check(timers, heads).Sound? && |s.rings[QUEUED]| == 1
    ensures Closed(s).Check(timers, heads).Sound? && s.rings[QUEUED][0] !in timers
    ensures Closed(s).at == s.at - {s.rings[QUEUED][0]} && Closed(s).Local() == []
    ensures forall n {:trigger s.at[n]} | n in s.at && n in timers :: s.at[n] != QUEUED
  {
    s.Clauses(timers, heads);
    var q, s' := s.rings[QUEUED][0], Closed(s);
    assert s.MemberAt(timers, QUEUED, 0);
    forall m | m in s.at && m != q ensures s.at[m] != QUEUED {
      assert s.Home(m);
    }
    forall k, l | 0 <= k <= SLOTS && 0 <= l < |s'.rings[k]| ensures s'.MemberAt(timers, k, l) {
      assert s.MemberAt(timers, k, l);
    }
    forall m | m in s'.at ensures s'.Home(m) {
      assert s.Home(m);
    }
    forall k | 0 <= k < SLOTS ensures Ring(s'.rings[k], s'.links) {
      assert Ring(s.rings[k], s.links);
    }
    forall k | 0 <= k < SLOTS ensures s'.HeadAt(heads, k) {
      assert s.HeadAt(heads, k);
    }
    forall m | m in timers && m !in s'.at ensures s'.Single(m) {
      assert s.Single(m);
    }
  }

  /** The node behind the head of the local list. */
  lemma FirstOf(s: Shape, timers: set<Node>, heads: seq<Node>)
    requires s.Check(timers, heads).Sound? && s.rings[QUEUED] != []
    ensures var r := s.rings[QUEUED];
      && r[0] in s.at && r[0] in s.links.next
      && (if |r| == 1 then s.links.next[r[0]] == r[0]
          else s.links.next[r[0]] == r[1] && r[1] != r[0] && r[1] in timers && r[1] in s.at && s.at[r[1]] == QUEUED)
  {
    s.Clauses(timers, heads);
    var r := s.rings[QUEUED];
    assert s.MemberAt(timers, QUEUED, 0);
    assert Ring(r, s.links);
    Linked(r, s.links, 0);
    if |r| > 1 {
      Distinct(r, 0, 1);
      assert s.MemberAt(timers, QUEUED, 1);
    }
  }

  /** A new node, a ring of its own, changes none of the rings. */
  lemma NewValid(s: Shape, timers: set<Node>, heads: seq<Node>, q: Node)
    requires s.Check(timers, heads).Sound? && q !in s.links.next && q !in s.links.prev
    ensures var s' := Shape(s.rings, s.at, Links(s.links.next[q := q], s.links.prev[q := q]));
      s'.Check(timers, heads).Sound? && s'.Single(q)
  {
    s.Clauses(timers, heads);
    var s' := Shape(s.rings, s.at, Links(s.links.next[q := q], s.links.prev[q := q]));
    forall j | 0 <= j <= SLOTS && (s.rings[j] != [] || j != QUEUED) ensures Ring(s.rings[j], s'.links) {
      assert Ring(s.rings[j], s.links);
      forall n | n in s.rings[j] ensures Untouched(s, s', n) {
        InRing(s, timers, j, n);
        Found(s, timers, n);
      }
      SameRing(s.rings[j], s.links, s'.links);
    }
    forall k, l | 0 <= k <= SLOTS && 0 <= l < |s'.rings[k]| ensures s'.MemberAt(timers, k, l) {
      assert s.MemberAt(timers, k, l);
    }
    forall m | m in s'.at ensures s'.Home(m) {
      assert s.Home(m);
    }
    forall k | 0 <= k < SLOTS ensures s'.HeadAt(heads, k) {
      assert s.HeadAt(heads, k);
    }
    forall m | m in timers && m !in s'.at ensures s'.Single(m) {
      assert s.Single(m);
    }
  }

  // ----- No timer linked ----------------------------------------------------------------------

  ghost function EmptyShape(timers: set<Node>, heads: seq<Node>): Shape {
    var nodes := timers + set n | n in heads;
    Shape(
      seq(SLOTS + 1, j => if 0 <= j < |heads| then [heads[j]] else []),
      map n | n in heads :: Index(heads, n),
      Links(map n | n in nodes :: n, map n | n in nodes :: n))
  }

  lemma EmptyValid(timers: set<Node>, heads: seq<Node>)
    requires |heads| == SLOTS && Injective(heads) && forall n {:trigger n in timers} | n in heads :: n !in timers
    ensures EmptyShape(timers, heads).Check(timers, heads).Sound? && EmptyShape(timers, heads).Local() == []
  {
    var s := EmptyShape(timers, heads);
    forall j, i | 0 <= j <= SLOTS && 0 <= i < |s.rings[j]| ensures s.MemberAt(timers, j, i) {
      assert s.rings[j] == [heads[j]] && heads[j] in heads;
      if Index(heads, heads[j]) != j {
        Distinct(heads, Index(heads, heads[j]), j);
      }
    }
    forall n | n in s.at ensures s.Home(n) {
      assert s.rings[Index(heads, n)] == [n];
    }
    forall j | 0 <= j <= SLOTS && (s.rings[j] != [] || j != QUEUED) ensures Ring(s.rings[j], s.links) {
      assert s.rings[j] == [heads[j]] && heads[j] in heads;
      assert Injective([heads[j]]);
      assert Follows([heads[j]], s.links.next, 0) && Precedes([heads[j]], s.links.prev, 0);
    }
    forall n | n in timers && n !in s.at ensures s.Single(n) {
    }
    forall j | 0 <= j < SLOTS ensures s.HeadAt(heads, j) {
    }
  }
}
