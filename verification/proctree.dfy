/** The tree of processes: forking puts an address space first in its parent's child list, and the
    children of a process that terminates go to its parent. */
module ProcTree {
  import opened SchedModel
  import opened SchedInvariant
  import opened SchedLinks

  type Asp = nat

  const ROOT: Asp := 1

  /** The live address spaces, their parents and their child lists. */
  datatype Tree = Tree(live: set<Asp>, parent: map<Asp, Asp>, kids: Queues)

  function Parent(t: Tree, a: Asp): Asp { P(t.parent, a) }

  /** The tree part of fork. */
  function AddChild(t: Tree, p: Asp, c: Asp): Tree
  {
    Tree(t.live + {c}, t.parent[c := p], t.kids[c := []][p := [c] + Q(t.kids, p)])
  }

  function Reparent(parent: map<Asp, Asp>, l: seq<Asp>, g: Asp): map<Asp, Asp>
    decreases |l|
  {
    if l == [] then parent else Reparent(parent[l[0] := g], l[1..], g)
  }

  /** process_terminated. */
  function Exit(t: Tree, a: Asp): Tree
  {
    var g := Parent(t, a);
    Tree(t.live - {a}, Reparent(t.parent, Q(t.kids, a), g), t.kids[g := Minus(Q(t.kids, g), a) + Q(t.kids, a)][a := []])
  }

  /** Every live address space but the root is in one child list, once: its parent's; ranks grow from
      parents to children, so that the links form a tree. */
  ghost predicate Ranked(t: Tree, rank: map<Asp, nat>)
  {
    && ROOT in t.live && 0 !in t.live
    && (forall a: Asp {:trigger a in t.live} :: a in t.live && a != ROOT ==>
          Parent(t, a) in t.live && a in Q(t.kids, Parent(t, a)) && Rank(rank, Parent(t, a)) < Rank(rank, a))
    && (forall p: Asp, c: Asp {:trigger c in Q(t.kids, p)} :: c in Q(t.kids, p) ==> p in t.live && c in t.live && c != ROOT && Parent(t, c) == p)
    && (forall p: Asp :: NoDup(Q(t.kids, p)))
  }

  function Rank(rank: map<Asp, nat>, a: Asp): nat { if a in rank then rank[a] else 0 }

  ghost predicate TreeOk(t: Tree) { exists rank :: Ranked(t, rank) }

  lemma {:induction false} ReparentAt(parent: map<Asp, Asp>, l: seq<Asp>, g: Asp, x: Asp)
    ensures P(Reparent(parent, l, g), x) == if x in l then g else P(parent, x)
    decreases |l|
  {
    if l != [] {
      ReparentAt(parent[l[0] := g], l[1..], g, x);
      assert l == [l[0]] + l[1..];
    }
  }

  function First(l: seq<Asp>): Asp { if l == [] then 0 else l[0] }

  lemma HasFirst(l: seq<Asp>)
    ensures l != [] ==> First(l) in l
  {}

  lemma ForkRanked(t: Tree, rank: map<Asp, nat>, p: Asp, c: Asp)
    requires Ranked(t, rank) && p in t.live && c !in t.live && c != 0
    ensures Ranked(AddChild(t, p, c), rank[c := Rank(rank, p) + 1])
  {
    var e := AddChild(t, p, c);
    HasFirst(Q(t.kids, c));
    assert c !in Q(t.kids, p) && Q(t.kids, c) == [];
    ConsNoDup(c, Q(t.kids, p));
    forall q: Asp ensures NoDup(Q(e.kids, q)) { assert NoDup(Q(t.kids, q)); }
    forall q: Asp, x: Asp {:trigger x in Q(e.kids, q)} ensures x in Q(e.kids, q) <==> x in Q(t.kids, q) || (q == p && x == c) {}
    hide NoDup, Q;
  }

  /** The child lists after an exit. */
  lemma ExitLists(t: Tree, rank: map<Asp, nat>, a: Asp)
    requires Ranked(t, rank) && a in t.live && a != ROOT
    ensures var e, g := Exit(t, a), Parent(t, a);
      && g != a && (forall q: Asp :: NoDup(Q(e.kids, q)))
      && (forall q: Asp, x: Asp {:trigger x in Q(e.kids, q)} ::
            x in Q(e.kids, q) <==> q != a && x != a && (x in Q(t.kids, q) || (q == g && x in Q(t.kids, a))))
  {
    var e, g, l, m := Exit(t, a), Parent(t, a), Q(t.kids, Parent(t, a)), Q(t.kids, a);
    assert a in t.live && g != a;
    MinusMembers(l, a) by { assert NoDup(Q(t.kids, g)); }
    forall x: Asp | x in Minus(l, a) ensures x !in m { assert x in Q(t.kids, g); }
    assert NoDup(m) by { assert NoDup(Q(t.kids, a)); }
    ConcatNoDup(Minus(l, a), m);
    forall q: Asp ensures NoDup(Q(e.kids, q)) { assert NoDup(Q(t.kids, q)); }
    forall q: Asp, x: Asp {:trigger x in Q(e.kids, q)}
      ensures x in Q(e.kids, q) <==> q != a && x != a && (x in Q(t.kids, q) || (q == g && x in Q(t.kids, a)))
    {
      if x in Q(t.kids, q) { assert Parent(t, x) == q; }
      if x in m { assert x in Q(t.kids, a); assert x in t.live && Rank(rank, a) < Rank(rank, x); }
    }
    hide NoDup, Minus;
  }

  lemma ConcatNoDup(l: seq<Tid>, m: seq<Tid>)
    requires NoDup(l) && NoDup(m) && forall x: Tid :: x in l ==> x !in m
    ensures NoDup(l + m)
  {
    forall i, j | 0 <= i < j < |l + m| ensures (l + m)[i] != (l + m)[j] {
      if i < |l| <= j { assert l[i] in l && m[j - |l|] in m; }
    }
  }

  lemma ExitParent(t: Tree, a: Asp, x: Asp)
    ensures Parent(Exit(t, a), x) == if x in Q(t.kids, a) then Parent(t, a) else Parent(t, x)
  {
    ReparentAt(t.parent, Q(t.kids, a), Parent(t, a), x);
  }

  lemma ExitRanked(t: Tree, rank: map<Asp, nat>, a: Asp)
    requires Ranked(t, rank) && a in t.live && a != ROOT
    ensures Ranked(Exit(t, a), rank)
  {
    var e, g := Exit(t, a), Parent(t, a);
    ExitLists(t, rank, a);
    assert g in t.live && g != a;
    forall x: Asp | x in e.live && x != ROOT
      ensures Parent(e, x) in e.live && x in Q(e.kids, Parent(e, x)) && Rank(rank, Parent(e, x)) < Rank(rank, x)
    {
      ExitParent(t, a, x);
      assert x in t.live;
    }
    forall p: Asp, c: Asp {:trigger c in Q(e.kids, p)} | c in Q(e.kids, p)
      ensures p in e.live && c in e.live && c != ROOT && Parent(e, c) == p
    {
      ExitParent(t, a, c);
      if c in Q(t.kids, p) { assert p in t.live; } else { assert c in Q(t.kids, a); }
    }
    hide NoDup, Q;
  }

  // ----- Runs

  datatype Event = ForkEv(p: Asp, c: Asp) | ExitEv(a: Asp)

  predicate Possible(t: Tree, op: Event)
  {
    match op
    case ForkEv(p, c) => p in t.live && c !in t.live && c != 0
    case ExitEv(a) => a in t.live && a != ROOT
  }

  function Step(t: Tree, op: Event): Tree
  {
    match op
    case ForkEv(p, c) => AddChild(t, p, c)
    case ExitEv(a) => Exit(t, a)
  }

  lemma StepTree(t: Tree, op: Event)
    requires TreeOk(t) && Possible(t, op)
    ensures TreeOk(Step(t, op))
  {
    var rank :| Ranked(t, rank);
    hide Ranked, AddChild, Exit;
    match op
    case ForkEv(p, c) => ForkRanked(t, rank, p, c);
    case ExitEv(a) => ExitRanked(t, rank, a);
  }

  function Run(t: Tree, ops: seq<Event>): Tree
    decreases |ops|
  {
    if ops == [] then t else Run(Step(t, ops[0]), ops[1..])
  }

  predicate Legal(t: Tree, ops: seq<Event>)
    decreases |ops|
  {
    ops == [] || (Possible(t, ops[0]) && Legal(Step(t, ops[0]), ops[1..]))
  }

  /** After any sequence of forks and terminations the processes form a tree. */
  lemma {:induction false} RunTree(t: Tree, ops: seq<Event>)
    requires TreeOk(t) && Legal(t, ops)
    ensures TreeOk(Run(t, ops))
    decreases |ops|
  {
    if ops != [] {
      StepTree(t, ops[0]);
      hide TreeOk, Step, Possible;
      RunTree(Step(t, ops[0]), ops[1..]);
    }
  }

  // ----- What the tree means

  /** The ancestor `n` steps up, or the root. */
  function Up(t: Tree, x: Asp, n: nat): Asp
    decreases n
  {
    if n == 0 || x == ROOT then x else Up(t, Parent(t, x), n - 1)
  }

  predicate Above(t: Tree, y: Asp, x: Asp, n: nat) { Up(t, x, n) == y }

  ghost predicate Ancestor(t: Tree, y: Asp, x: Asp) { exists n: nat :: Above(t, y, x, n) }

  /** Every live address space is in one child list only, its parent's, and descends from the root. */
  lemma FromRoot(t: Tree, x: Asp)
    requires TreeOk(t) && x in t.live
    ensures Ancestor(t, ROOT, x)
    ensures forall p: Asp :: x in Q(t.kids, p) <==> x != ROOT && p == Parent(t, x)
  {
    var rank :| Ranked(t, rank);
    var n := Climb(t, rank, x);
    assert Above(t, ROOT, x, n);
    forall p: Asp ensures x in Q(t.kids, p) <==> x != ROOT && p == Parent(t, x) {}
  }

  lemma {:induction false} Climb(t: Tree, rank: map<Asp, nat>, x: Asp) returns (n: nat)
    requires Ranked(t, rank) && x in t.live
    ensures Up(t, x, n) == ROOT
    decreases Rank(rank, x)
  {
    if x == ROOT {
      n := 0;
    } else {
      assert x in t.live && Parent(t, x) in t.live && Rank(rank, Parent(t, x)) < Rank(rank, x);
      n := Climb(t, rank, Parent(t, x));
      n := n + 1;
    }
  }

  /** The parents after an exit. */
  lemma ParentAfter(t: Tree, rank: map<Asp, nat>, a: Asp, x: Asp)
    requires Ranked(t, rank) && a in t.live && a != ROOT && x in t.live && x != ROOT && x != a
    ensures Parent(t, x) in t.live && Parent(t, a) in t.live && Parent(t, a) != a
    ensures Parent(Exit(t, a), x) == if Parent(t, x) == a then Parent(t, a) else Parent(t, x)
  {
    ExitParent(t, a, x);
    assert a in t.live && x in t.live;
    assert x in Q(t.kids, a) <==> Parent(t, x) == a;
    hide Exit, NoDup, Q;
  }

  /** The way up after an exit is the old one without the process that is gone. */
  lemma {:induction false} UpAfter(t: Tree, rank: map<Asp, nat>, a: Asp, x: Asp, n: nat) returns (m: nat)
    requires Ranked(t, rank) && a in t.live && a != ROOT && x in t.live && x != a && Up(t, x, n) != a
    ensures Up(Exit(t, a), x, m) == Up(t, x, n)
    decreases n
  {
    m := 0;
    if n > 0 && x != ROOT {
      ParentAfter(t, rank, a, x);
      hide Exit, Ranked;
      if Parent(t, x) == a {
        m := UpAfter(t, rank, a, Parent(t, a), n - 2);
      } else {
        m := UpAfter(t, rank, a, Parent(t, x), n - 1);
      }
      m := m + 1;
    }
  }

  lemma {:induction false} UpBefore(t: Tree, rank: map<Asp, nat>, a: Asp, x: Asp, m: nat) returns (n: nat)
    requires Ranked(t, rank) && a in t.live && a != ROOT && x in t.live && x != a
    ensures Up(t, x, n) == Up(Exit(t, a), x, m)
    decreases m
  {
    n := 0;
    if m > 0 && x != ROOT {
      ParentAfter(t, rank, a, x);
      hide Exit, Ranked;
      if Parent(t, x) == a {
        n := UpBefore(t, rank, a, Parent(t, a), m - 1);
        assert Up(t, a, n + 1) == Up(t, Parent(t, a), n);
        n := n + 2;
      } else {
        n := UpBefore(t, rank, a, Parent(t, x), m - 1);
        n := n + 1;
      }
    }
  }

  /** A termination changes nothing about who descends from whom among the processes that stay. */
  lemma SameAncestors(t: Tree, a: Asp, x: Asp, y: Asp)
    requires TreeOk(t) && a in t.live && a != ROOT && x in t.live && y in t.live && x != a && y != a
    ensures Ancestor(Exit(t, a), y, x) <==> Ancestor(t, y, x)
  {
    var rank :| Ranked(t, rank);
    var e := Exit(t, a);
    hide Exit, Ranked;
    if Ancestor(t, y, x) {
      var n: nat :| Above(t, y, x, n);
      var m := UpAfter(t, rank, a, x, n);
      assert Above(e, y, x, m);
    }
    if Ancestor(e, y, x) {
      var m: nat :| Above(e, y, x, m);
      var n := UpBefore(t, rank, a, x, m);
      assert Above(t, y, x, n);
    }
  }

  /** A fork adds one process: it has no children, and is the first child of its parent; nobody else's list changes. */
  lemma ForkAdds(t: Tree, p: Asp, c: Asp)
    requires TreeOk(t) && p in t.live && c !in t.live && c != 0
    ensures var e := Step(t, ForkEv(p, c));
      && e.live == t.live + {c} && Parent(e, c) == p && Q(e.kids, p) == [c] + Q(t.kids, p) && Q(e.kids, c) == []
      && (forall q: Asp :: q != p && q != c ==> Q(e.kids, q) == Q(t.kids, q))
      && (forall x: Asp :: x != c ==> Parent(e, x) == Parent(t, x))
  {
    hide Ranked;
  }

  /** The children of the process that is gone are all their grandparent's now, behind its own; nobody else's parent
      changes. */
  lemma ChildrenMoved(t: Tree, a: Asp)
    requires TreeOk(t) && a in t.live && a != ROOT
    ensures var e, g := Exit(t, a), Parent(t, a);
      && e.live == t.live - {a} && g in e.live && Q(e.kids, g) == Minus(Q(t.kids, g), a) + Q(t.kids, a) && Q(e.kids, a) == []
      && (forall x: Asp :: x !in Q(t.kids, a) ==> Parent(e, x) == Parent(t, x))
      && (forall c: Asp :: c in Q(t.kids, a) ==> c in e.live && Parent(e, c) == g)
      && (forall p: Asp :: p != g && p != a ==> Q(e.kids, p) == Q(t.kids, p))
  {
    var rank :| Ranked(t, rank);
    ExitRanked(t, rank, a);
    assert a in t.live && Parent(t, a) != a;
    forall x: Asp | x !in Q(t.kids, a) ensures Parent(Exit(t, a), x) == Parent(t, x) { ExitParent(t, a, x); }
    forall c: Asp | c in Q(t.kids, a) ensures c in Exit(t, a).live && Parent(Exit(t, a), c) == Parent(t, a) {
      ExitParent(t, a, c);
    }
  }

  // ----- In place

  /** The links spell out the child lists. */
  ghost predicate Strung(child: map<Asp, Asp>, next: map<Asp, Asp>, t: Tree)
  {
    forall p: Asp :: p in t.live ==> Chain(P(child, p), Q(t.kids, p), next)
  }

  lemma OtherChain(h: Asp, l: seq<Asp>, next: map<Asp, Asp>, t: Asp, n: Asp)
    requires Chain(h, l, next) && t !in l
    ensures Chain(h, l, next[t := n])
  {}

  lemma ForkStrung(t: Tree, rank: map<Asp, nat>, child: map<Asp, Asp>, next: map<Asp, Asp>, p: Asp, c: Asp)
    requires Ranked(t, rank) && Strung(child, next, t) && p in t.live && c !in t.live && c != 0
    ensures Strung(child[c := 0][p := c], next[c := P(child, p)], AddChild(t, p, c))
  {
    var kids := AddChild(t, p, c).kids;
    forall q: Asp | q in AddChild(t, p, c).live ensures Chain(P(child[c := 0][p := c], q), Q(kids, q), next[c := P(child, p)]) {
      if q in t.live { ChainOf(t, rank, child, next, q, c); }
      ForkChain(t, child, next, p, c, q);
    }
    hide *;
    AllStrung(child[c := 0][p := c], next[c := P(child, p)], AddChild(t, p, c));
  }

  lemma AllStrung(child: map<Asp, Asp>, next: map<Asp, Asp>, t: Tree)
    requires forall q: Asp :: q in t.live ==> Chain(P(child, q), Q(t.kids, q), next)
    ensures Strung(child, next, t)
  {
    hide Chain, P, Q;
  }

  lemma ForkChain(t: Tree, child: map<Asp, Asp>, next: map<Asp, Asp>, p: Asp, c: Asp, q: Asp)
    requires p in t.live && c !in t.live && c != 0
    requires q != c ==> Chain(P(child, q), Q(t.kids, q), next) && c !in Q(t.kids, q)
    ensures Chain(P(child[c := 0][p := c], q), Q(AddChild(t, p, c).kids, q), next[c := P(child, p)])
  {
    hide *;
    AddedLists(t, child, p, c, q);
    if q == c {
      Nil(next[c := P(child, p)]);
    } else {
      Another(P(child, q), Q(t.kids, q), next, c, P(child, p), q == p);
    }
  }

  lemma AddedLists(t: Tree, child: map<Asp, Asp>, p: Asp, c: Asp, q: Asp)
    requires p in t.live && c !in t.live
    ensures Q(AddChild(t, p, c).kids, q) == if q == p then [c] + Q(t.kids, p) else if q == c then [] else Q(t.kids, q)
    ensures P(child[c := 0][p := c], q) == if q == p then c else if q == c then 0 else P(child, q)
  {}

  lemma ChainOf(t: Tree, rank: map<Asp, nat>, child: map<Asp, Asp>, next: map<Asp, Asp>, q: Asp, c: Asp)
    requires Ranked(t, rank) && Strung(child, next, t) && q in t.live && c !in t.live
    ensures Chain(P(child, q), Q(t.kids, q), next) && c !in Q(t.kids, q)
  {
    hide Chain, Q, P, NoDup;
  }

  /** A new element in front of one list, and in none of the others. */
  lemma Another(h: Asp, l: seq<Asp>, next: map<Asp, Asp>, c: Asp, n: Asp, here: bool)
    requires Chain(h, l, next) && c !in l && c != 0 && (here ==> n == h)
    ensures if here then Chain(c, [c] + l, next[c := n]) else Chain(h, l, next[c := n])
  {
    if here { Pushed(h, l, next, c); } else { OtherChain(h, l, next, c, n); }
    hide Chain;
  }

  lemma Nil(next: map<Asp, Asp>)
    ensures Chain(0, [], next)
  {}

  lemma Pushed(h: Asp, l: seq<Asp>, next: map<Asp, Asp>, c: Asp)
    requires Chain(h, l, next) && c !in l && c != 0
    ensures Chain(c, [c] + l, next[c := h])
  {
    var m := [c] + l;
    forall i | 0 <= i < |m| ensures m[i] != 0 && P(next[c := h], m[i]) == After(m, i) {
      if i > 0 { assert m[i] == l[i - 1] && After(m, i) == After(l, i - 1); }
    }
  }

  /** The last of the first `j` elements without element `i`, or null. */
  function LastBut(q: seq<Asp>, i: nat, j: nat): Asp
    requires i < |q| && j <= |q|
  {
    if j == 0 then 0 else if j - 1 != i then q[j - 1] else if i == 0 then 0 else q[i - 1]
  }

  /** The list without element `i`, and `m` behind it. */
  lemma Spliced(h: Asp, q: seq<Asp>, next: map<Asp, Asp>, i: nat, h2: Asp, m: seq<Asp>)
    requires Chain(h, q, next) && NoDup(q) && i < |q| && Chain(h2, m, next) && (forall x: Asp :: x in q ==> x !in m)
    ensures var next1 := if i == 0 then next else next[q[i - 1] := P(next, q[i])];
      var b := LastBut(q, i, |q|);
      var next2 := if b == 0 then next1 else next1[b := h2];
      var head := if b == 0 then h2 else if i == 0 then P(next, q[i]) else h;
      Chain(head, q[..i] + q[i + 1..] + m, next2)
  {
    var w := q[..i] + q[i + 1..];
    var next1 := if i == 0 then next else next[q[i - 1] := P(next, q[i])];
    Shortened(h, q, next, i);
    BeforeIsLast(q, i);
    if i > 0 { OtherChain(h2, m, next, q[i - 1], P(next, q[i])) by { assert q[i - 1] in q; } }
    GapNoDup(q, i);
    assert forall x: Asp :: x in w ==> x in q;
    hide LastBut, Chain;
    Concatenated(if i == 0 then P(next, q[i]) else h, w, next1, h2, m);
  }

  lemma Shortened(h: Asp, q: seq<Asp>, next: map<Asp, Asp>, i: nat)
    requires Chain(h, q, next) && NoDup(q) && i < |q|
    ensures var next1 := if i == 0 then next else next[q[i - 1] := P(next, q[i])];
      Chain(if i == 0 then P(next, q[i]) else h, q[..i] + q[i + 1..], next1)
  {
    var w := q[..i] + q[i + 1..];
    var next1 := if i == 0 then next else next[q[i - 1] := P(next, q[i])];
    forall j | 0 <= j < |w| ensures w[j] != 0 && P(next1, w[j]) == After(w, j) {
      Gap(q, i, j);
      var k := if j < i then j else j + 1;
      assert w[j] == q[k];
      if i > 0 && k != i - 1 { assert q[k] != q[i - 1]; }
    }
    hide After;
    if |w| > 0 { Gap(q, i, 0); }
    ShortHead(h, q, next, i);
  }

  lemma ShortHead(h: Asp, q: seq<Asp>, next: map<Asp, Asp>, i: nat)
    requires Chain(h, q, next) && i < |q|
    ensures var w := q[..i] + q[i + 1..]; (if i == 0 then P(next, q[i]) else h) == if w == [] then 0 else w[0]
  {}

  lemma BeforeIsLast(q: seq<Asp>, i: nat)
    requires i < |q|
    ensures var w := q[..i] + q[i + 1..]; LastBut(q, i, |q|) == if w == [] then 0 else w[|w| - 1]
  {}

  lemma Concatenated(h: Asp, w: seq<Asp>, next: map<Asp, Asp>, h2: Asp, m: seq<Asp>)
    requires Chain(h, w, next) && NoDup(w) && Chain(h2, m, next) && (forall x: Asp :: x in w ==> x !in m)
    ensures w == [] ==> Chain(h2, w + m, next)
    ensures w != [] ==> w[|w| - 1] != 0 && Chain(h, w + m, next[w[|w| - 1] := h2])
  {
    if w == [] {
      assert w + m == m;
    } else {
      var last, v := w[|w| - 1], w + m;
      assert last in w;
      forall i | 0 <= i < |v| ensures v[i] != 0 && P(next[last := h2], v[i]) == After(v, i) {
        if i < |w| - 1 {
          assert v[i] == w[i] && w[i] != last && After(v, i) == After(w, i);
        } else if i >= |w| {
          assert v[i] == m[i - |w|] && m[i - |w|] in m && After(v, i) == After(m, i - |w|);
        }
      }
    }
  }

  lemma WalkOn(h: Asp, q: seq<Asp>, next: map<Asp, Asp>, i: nat, j: nat)
    requires Chain(h, q, next) && NoDup(q) && i < |q| && j < |q|
    ensures q[j] != 0 && P(next, q[j]) == Nth(q, j + 1)
    ensures j >= i ==> P(PulledLink(next, q, i), q[j]) == Nth(q, j + 1)
    ensures q[j] == q[i] <==> i == j
    ensures LastBut(q, i, i) == if i == 0 then 0 else q[i - 1]
    ensures i > 0 ==> q[i - 1] != 0
    ensures LastBut(q, i, j + 1) == if j == i then LastBut(q, i, i) else q[j]
  {}

  lemma WalkStart(h: Asp, q: seq<Asp>, next: map<Asp, Asp>, i: nat)
    requires Chain(h, q, next) && i < |q|
    ensures h == Nth(q, 0) && LastBut(q, i, 0) == 0
  {}

  lemma ChainTail(b: Asp, l: seq<Asp>, next: map<Asp, Asp>)
    requires Chain(b, l, next) && b != 0
    ensures l != [] && b == l[0] && Chain(P(next, b), l[1..], next)
  {
    var m := l[1..];
    forall i | 0 <= i < |m| ensures m[i] == l[i + 1] && After(m, i) == After(l, i + 1) {}
  }

  lemma ChainEnd(l: seq<Asp>, next: map<Asp, Asp>)
    requires Chain(0, l, next)
    ensures l == []
  {}

  /** The links with element `i` bridged over. */
  function PulledHead(child: map<Asp, Asp>, g: Asp, next: map<Asp, Asp>, i: nat, a: Asp): map<Asp, Asp>
  {
    if i == 0 then child[g := P(next, a)] else child
  }

  function PulledLink(next: map<Asp, Asp>, q: seq<Asp>, i: nat): map<Asp, Asp>
    requires i < |q|
  {
    if i == 0 then next else next[q[i - 1] := P(next, q[i])]
  }

  /** Where a process stands in its parent's list. */
  lemma Listed(t: Tree, rank: map<Asp, nat>, child: map<Asp, Asp>, next: map<Asp, Asp>, a: Asp) returns (i: nat)
    requires Ranked(t, rank) && Strung(child, next, t) && a in t.live && a != ROOT
    ensures var g := Parent(t, a);
      && g != a && g in t.live && i < |Q(t.kids, g)| && Q(t.kids, g)[i] == a && NoDup(Q(t.kids, g))
      && Chain(P(child, g), Q(t.kids, g), next) && Chain(P(child, a), Q(t.kids, a), next)
      && (forall x: Asp :: x in Q(t.kids, g) ==> x !in Q(t.kids, a))
  {
    var g := Parent(t, a);
    assert a in t.live && a in Q(t.kids, g);
    i :| 0 <= i < |Q(t.kids, g)| && Q(t.kids, g)[i] == a;
    forall x: Asp | x in Q(t.kids, g) ensures x !in Q(t.kids, a) {}
    hide Chain, Q;
  }

  /** The links after `a` was taken out and its children were hung on. */
  function Unlinked(child: map<Asp, Asp>, next: map<Asp, Asp>, g: Asp, a: Asp, q: seq<Asp>, i: nat): (map<Asp, Asp>, map<Asp, Asp>)
    requires i < |q|
  {
    var child1 := if i == 0 then child[g := P(next, q[i])] else child;
    var next1 := if i == 0 then next else next[q[i - 1] := P(next, q[i])];
    var b := LastBut(q, i, |q|);
    if b == 0 then (child1[g := P(child1, a)], next1) else (child1, next1[b := P(child1, a)])
  }

  lemma ExitStrung(t: Tree, rank: map<Asp, nat>, child: map<Asp, Asp>, next: map<Asp, Asp>, a: Asp, i: nat)
    requires Ranked(t, rank) && Strung(child, next, t) && a in t.live && a != ROOT
    requires i < |Q(t.kids, Parent(t, a))| && Q(t.kids, Parent(t, a))[i] == a
    ensures var (child2, next2) := Unlinked(child, next, Parent(t, a), a, Q(t.kids, Parent(t, a)), i);
      && Strung(child2, next2, Exit(t, a)) && P(child2, a) == P(child, a) && Chain(P(child2, a), Q(t.kids, a), next2)
  {
    var g := Parent(t, a);
    var q, m, e := Q(t.kids, g), Q(t.kids, a), Exit(t, a);
    var j := Listed(t, rank, child, next, a);
    var (child2, next2) := Unlinked(child, next, g, a, q, i);
    Spliced(P(child, g), q, next, i, P(child, a), m);
    MinusAt(q, i);
    assert Q(e.kids, g) == q[..i] + q[i + 1..] + m;
    forall p: Asp | p in e.live ensures Chain(P(child2, p), Q(e.kids, p), next2) {
      if p != g {
        assert Chain(P(child, p), Q(t.kids, p), next);
        OtherStrung(t, rank, child, next, a, i, p);
      }
    }
    OtherStrung(t, rank, child, next, a, i, a);
    hide Ranked, Chain, NoDup, LastBut, Minus;
  }

  /** The list of another parent is untouched. */
  lemma OtherStrung(t: Tree, rank: map<Asp, nat>, child: map<Asp, Asp>, next: map<Asp, Asp>, a: Asp, i: nat, p: Asp)
    requires Ranked(t, rank) && a in t.live && a != ROOT && p != Parent(t, a)
    requires i < |Q(t.kids, Parent(t, a))| && Q(t.kids, Parent(t, a))[i] == a
    requires Chain(P(child, p), Q(t.kids, p), next)
    ensures var (child2, next2) := Unlinked(child, next, Parent(t, a), a, Q(t.kids, Parent(t, a)), i);
      P(child2, p) == P(child, p) && Chain(P(child2, p), Q(t.kids, p), next2)
  {
    var g := Parent(t, a);
    var q, l := Q(t.kids, g), Q(t.kids, p);
    var next1 := if i == 0 then next else next[q[i - 1] := P(next, q[i])];
    var child1 := if i == 0 then child[g := P(next, q[i])] else child;
    var b := LastBut(q, i, |q|);
    if i > 0 {
      assert q[i - 1] in Q(t.kids, g);
      OtherChain(P(child, p), l, next, q[i - 1], P(next, q[i]));
    }
    if b != 0 {
      BeforeIn(q, i);
      assert b in Q(t.kids, g);
      OtherChain(P(child, p), l, next1, b, P(child1, a));
    }
    hide Chain, NoDup, LastBut, Q;
  }

  lemma BeforeIn(q: seq<Asp>, i: nat)
    requires i < |q| && LastBut(q, i, |q|) != 0
    ensures LastBut(q, i, |q|) in q
  {}

  class Processes {
    var parent: map<Asp, Asp>
    var child: map<Asp, Asp>
    var next: map<Asp, Asp>
    ghost var live: set<Asp>
    ghost var kids: Queues

    ghost function Value(): Tree
      reads this
    {
      Tree(live, parent, kids)
    }

    ghost predicate Valid()
      reads this
    {
      TreeOk(Value()) && Strung(child, next, Value())
    }

    constructor ()
      ensures Valid() && live == {ROOT}
    {
      parent, child, next, live, kids := map[], map[], map[], {ROOT}, map[];
      new;
      assert Ranked(Value(), map[]);
    }

    /** The links that fork sets. */
    method ForkProcess(p: Asp, c: Asp)
      requires Valid() && Possible(Value(), ForkEv(p, c))
      modifies this
      ensures Valid() && Value() == AddChild(old(Value()), p, c)
    {
      hide Ranked, Strung;
      ghost var t := Value();
      ghost var rank :| Ranked(t, rank);
      ForkRanked(t, rank, p, c);
      ForkStrung(t, rank, child, next, p, c);
      parent := parent[c := p];
      next := next[c := P(child, p)];
      child := child[c := 0][p := c];
      live, kids := live + {c}, kids[c := []][p := [c] + Q(kids, p)];
    }

    /** The first loop of process_terminated: `a` leaves its parent's list, and the walk ends at the last. */
    method LinkOut(a: Asp, g: Asp, ghost q: seq<Asp>, ghost i: nat) returns (last: Asp)
      requires Chain(P(child, g), q, next) && NoDup(q) && i < |q| && q[i] == a
      modifies this`child, this`next
      ensures last == LastBut(q, i, |q|)
      ensures child == PulledHead(old(child), g, old(next), i, a) && next == PulledLink(old(next), q, i)
    {
      hide Chain, NoDup, LastBut, P;
      ghost var h, child0, next0 := P(child, g), child, next;
      WalkStart(h, q, next, i);
      var pchild := P(child, g);
      last := 0;
      ghost var j := 0;
      while pchild != 0
        invariant 0 <= j <= |q| && pchild == Nth(q, j) && last == LastBut(q, i, j)
        invariant child == if j <= i then child0 else PulledHead(child0, g, next0, i, a)
        invariant next == if j <= i then next0 else PulledLink(next0, q, i)
        decreases |q| - j
      {
        WalkOn(h, q, next0, i, j);
        if pchild == a {
          if last == 0 { child := child[g := P(next, pchild)]; } else { next := next[last := P(next, pchild)]; }
        } else {
          last := pchild;
        }
        pchild := P(next, pchild);
        j := j + 1;
      }
      if j < |q| { WalkOn(h, q, next0, i, j); }
    }

    /** process_terminated: the lists, and the parents of the children. */
    method ProcessTerminated(a: Asp)
      requires Valid() && Possible(Value(), ExitEv(a))
      modifies this
      ensures Valid() && Value() == Exit(old(Value()), a)
    {
      hide Ranked, Strung, Chain, NoDup, LastBut, Minus, Reparent;
      ghost var t := Value();
      ghost var rank :| Ranked(t, rank);
      ExitRanked(t, rank, a);
      var g := P(parent, a);
      ghost var i := Listed(t, rank, child, next, a);
      var last := LinkOut(a, g, Q(kids, g), i);
      if last == 0 {
        child := child[g := P(child, a)];
      } else {
        next := next[last := P(child, a)];
      }
      ExitStrung(t, rank, old(child), old(next), a, i);
      Adopt(P(child, a), g, Q(kids, a));
      live, kids := live - {a}, Exit(t, a).kids;
    }

    /** The second loop: the children learn their new parent. */
    method Adopt(h: Asp, g: Asp, ghost l: seq<Asp>)
      requires Chain(h, l, next)
      modifies this`parent
      ensures parent == Reparent(old(parent), l, g)
    {
      var b := h;
      ghost var rest := l;
      while b != 0
        invariant Chain(b, rest, next) && Reparent(parent, rest, g) == Reparent(old(parent), l, g)
        decreases |rest|
      {
        parent := parent[b := g];
        ChainTail(b, rest, next);
        b := P(next, b);
        rest := rest[1..];
      }
      ChainEnd(rest, next);
    }
  }
}
