/** Singly linked lists with a pointer to the last element, as the kernel keeps them. */
module SchedLinks {
  import opened SchedModel
  import opened SchedInvariant

  /** The first and the last of each list, and every task's link; 0 is the null pointer. */
  datatype Links = Links(head: map<nat, Tid>, last: map<nat, Tid>, next: map<Tid, Tid>)

  function P(m: map<nat, Tid>, k: nat): Tid { if k in m then m[k] else 0 }

  /** From `h` the links lead through exactly `l` to null. */
  ghost predicate Chain(h: Tid, l: seq<Tid>, next: map<Tid, Tid>)
  {
    && h == (if l == [] then 0 else l[0])
    && (forall i {:trigger l[i]} :: 0 <= i < |l| ==> l[i] != 0 && P(next, l[i]) == After(l, i))
  }

  function After(l: seq<Tid>, i: int): Tid
    requires 0 <= i < |l|
  {
    if i + 1 < |l| then l[i + 1] else 0
  }

  ghost predicate ListOk(l: Links, k: nat, q: seq<Tid>)
  {
    Chain(P(l.head, k), q, l.next) && NoDup(q) && (q != [] ==> P(l.last, k) == q[|q| - 1])
  }

  /** No task is in two lists. */
  ghost predicate Apart(q: Queues)
  {
    forall j: nat, k: nat, t: Tid {:trigger t in Q(q, j), t in Q(q, k)} :: t in Q(q, j) && t in Q(q, k) ==> j == k
  }

  ghost predicate Linked(l: Links, q: Queues)
  {
    Apart(q) && forall k: nat :: ListOk(l, k, Q(q, k))
  }

  ghost predicate Nowhere(q: Queues, t: Tid) { forall k: nat :: t !in Q(q, k) }

  /** One step along a list. */
  lemma WalkLink(l: Links, k: nat, q: seq<Tid>, i: nat)
    requires ListOk(l, k, q)
    ensures P(l.head, k) == Nth(q, 0)
    ensures i < |q| ==> q[i] != 0 && P(l.next, q[i]) == Nth(q, i + 1)
  {}

  function Nth(q: seq<Tid>, i: nat): Tid { if i < |q| then q[i] else 0 }

  /** The element in front of `t`, or null. */
  function Before(q: seq<Tid>, t: Tid): Tid
  {
    if |q| < 2 || q[0] == t then 0 else if q[1] == t then q[0] else Before(q[1..], t)
  }

  lemma BeforeAt(l: Links, k: nat, q: seq<Tid>, i: nat)
    requires ListOk(l, k, q) && i < |q|
    ensures Before(q, q[i]) == if i == 0 then 0 else q[i - 1]
  {
    BeforeIndex(q, i);
    hide Before;
  }

  lemma {:induction false} BeforeIndex(q: seq<Tid>, i: nat)
    requires NoDup(q) && i < |q|
    ensures Before(q, q[i]) == if i == 0 then 0 else q[i - 1]
  {
    if i > 1 {
      var m := q[1..];
      assert forall j :: 0 <= j < |m| ==> m[j] == q[j + 1];
      assert q[0] != q[i] && q[1] != q[i];
      BeforeIndex(m, i - 1);
    } else if i == 1 {
      assert q[0] != q[1];
    }
  }

  /** A link that belongs to no element of a list may change. */
  lemma OtherLink(l: Links, k: nat, q: seq<Tid>, t: Tid, n: Tid)
    requires ListOk(l, k, q) && t !in q
    ensures ListOk(l.(next := l.next[t := n]), k, q)
  {}

  lemma OtherEnds(l: Links, k: nat, q: seq<Tid>, j: nat, h: Tid, e: Tid)
    requires ListOk(l, k, q) && j != k
    ensures ListOk(l.(head := l.head[j := h]), k, q) && ListOk(l.(last := l.last[j := e]), k, q)
  {}

  // ----- Joining at the end

  /** `t` behind the last, or alone. */
  function Joined(l: Links, k: nat, t: Tid): Links
  {
    var l1 := l.(next := l.next[t := 0]);
    var l2 := if P(l1.head, k) == 0 then l1.(head := l1.head[k := t]) else l1.(next := l1.next[P(l1.last, k) := t]);
    l2.(last := l2.last[k := t])
  }

  lemma JoinedList(l: Links, k: nat, q: seq<Tid>, t: Tid)
    requires ListOk(l, k, q) && t !in q && t != 0
    ensures ListOk(Joined(l, k, t), k, q + [t])
  {
    OtherLink(l, k, q, t, 0);
    var q2, l2 := q + [t], Joined(l, k, t);
    if q != [] {
      assert P(l.last, k) == q[|q| - 1];
      forall i | 0 <= i < |q2| ensures q2[i] != 0 && P(l2.next, q2[i]) == After(q2, i) {
        if i < |q| - 1 { assert q[i] != q[|q| - 1] && q2[i] == q[i]; }
      }
    }
  }

  lemma JoinedOther(l: Links, k: nat, q: seq<Tid>, j: nat, m: seq<Tid>, t: Tid)
    requires ListOk(l, k, q) && ListOk(l, j, m) && j != k && t !in m && (q != [] ==> q[|q| - 1] !in m)
    ensures ListOk(Joined(l, k, t), j, m)
  {
    OtherLink(l, j, m, t, 0);
    var l1 := l.(next := l.next[t := 0]);
    if q != [] { OtherLink(l1, j, m, P(l.last, k), t); }
    hide Chain;
  }

  lemma JoinedLinked(l: Links, q: Queues, k: nat, t: Tid)
    requires Linked(l, q) && Nowhere(q, t) && t != 0
    ensures Linked(Joined(l, k, t), Append(q, k, t))
  {
    var q2, l2 := Append(q, k, t), Joined(l, k, t);
    forall j: nat ensures ListOk(l2, j, Q(q2, j)) {
      if j == k {
        JoinedList(l, k, Q(q, k), t);
      } else {
        if Q(q, k) != [] { assert Q(q, k)[|Q(q, k)| - 1] in Q(q, k); }
        JoinedOther(l, k, Q(q, k), j, Q(q, j), t);
      }
    }
    InAppend(q, k, t) by { forall j: nat ensures NoDup(Q(q, j)) { assert ListOk(l, j, Q(q, j)); } }
    hide ListOk, Q, Append;
  }

  // ----- Taking the first

  lemma PopLinked(l: Links, q: Queues, k: nat)
    requires Linked(l, q) && Q(q, k) != []
    ensures P(l.head, k) == Q(q, k)[0]
    ensures var t := Q(q, k)[0];
      Linked(l.(head := l.head[k := P(l.next, t)], next := l.next[t := 0]), q[k := Q(q, k)[1..]])
  {
    var t, l1 := Q(q, k)[0], l.(head := l.head[k := P(l.next, Q(q, k)[0])], next := l.next[Q(q, k)[0] := 0]);
    var q2 := q[k := Q(q, k)[1..]];
    assert ListOk(l, k, Q(q, k));
    assert t in Q(q, k);
    forall j: nat ensures ListOk(l1, j, Q(q2, j)) {
      assert ListOk(l, j, Q(q, j));
      if j == k { PopList(l, k, Q(q, k)); } else {
        OtherLink(l, j, Q(q, j), t, 0);
        OtherEnds(l.(next := l.next[t := 0]), j, Q(q, j), k, P(l.next, t), 0);
      }
    }
    InTail(q, k) by { forall j: nat ensures NoDup(Q(q, j)) { assert ListOk(l, j, Q(q, j)); } }
    hide ListOk, Q;
  }

  lemma PopList(l: Links, k: nat, q: seq<Tid>)
    requires ListOk(l, k, q) && q != []
    ensures ListOk(l.(head := l.head[k := P(l.next, q[0])], next := l.next[q[0] := 0]), k, q[1..])
  {
    var m := q[1..];
    forall i | 0 <= i < |m| ensures m[i] == q[i + 1] && m[i] != q[0] {}
  }

  // ----- Taking one out

  /** Element `i` is bridged over by the one before it. */
  function Bridged(l: Links, k: nat, q: seq<Tid>, i: nat): Links
    requires i < |q|
  {
    var n := P(l.next, q[i]);
    var l1 := if i == 0 then l.(head := l.head[k := n]) else l.(next := l.next[q[i - 1] := n]);
    var l2 := l1.(next := l1.next[q[i] := 0]);
    if P(l.last, k) == q[i] then l2.(last := l2.last[k := if i == 0 then 0 else q[i - 1]]) else l2
  }

  lemma Gap(q: seq<Tid>, i: nat, j: nat)
    requires i < |q| && j < |q| - 1
    ensures var m := q[..i] + q[i + 1..];
      |m| == |q| - 1 && m[j] == (if j < i then q[j] else q[j + 1]) && After(m, j) == if j + 1 == i then After(q, i) else if j < i then After(q, j) else After(q, j + 1)
  {}

  lemma BridgedAt(l: Links, k: nat, q: seq<Tid>, i: nat, j: nat)
    requires ListOk(l, k, q) && i < |q| && j < |q| && j != i
    ensures q[j] != 0 && P(Bridged(l, k, q, i).next, q[j]) == if j + 1 == i then After(q, i) else After(q, j)
  {
    assert q[j] != q[i];
    if i > 0 && j != i - 1 { assert q[j] != q[i - 1]; }
    hide After;
  }

  lemma BridgedList(l: Links, k: nat, q: seq<Tid>, i: nat)
    requires ListOk(l, k, q) && i < |q|
    ensures ListOk(Bridged(l, k, q, i), k, q[..i] + q[i + 1..])
  {
    var m, l2 := q[..i] + q[i + 1..], Bridged(l, k, q, i);
    forall j | 0 <= j < |m| ensures m[j] != 0 && P(l2.next, m[j]) == After(m, j) {
      Gap(q, i, j);
      BridgedAt(l, k, q, i, if j < i then j else j + 1);
    }
    BridgedEnds(l, k, q, i);
    GapNoDup(q, i);
    hide Bridged, After;
  }

  lemma BridgedEnds(l: Links, k: nat, q: seq<Tid>, i: nat)
    requires ListOk(l, k, q) && i < |q|
    ensures var m, l2 := q[..i] + q[i + 1..], Bridged(l, k, q, i);
      P(l2.head, k) == (if m == [] then 0 else m[0]) && (m != [] ==> P(l2.last, k) == m[|m| - 1])
  {
    if i < |q| - 1 { assert q[i] != q[|q| - 1]; }
  }

  lemma GapNoDup(q: seq<Tid>, i: nat)
    requires NoDup(q) && i < |q|
    ensures NoDup(q[..i] + q[i + 1..])
  {}

  lemma BridgedOther(l: Links, k: nat, q: seq<Tid>, i: nat, j: nat, m: seq<Tid>)
    requires ListOk(l, k, q) && i < |q| && ListOk(l, j, m) && j != k && (forall t: Tid :: t in q ==> t !in m)
    ensures ListOk(Bridged(l, k, q, i), j, m)
  {
    assert q[i] in q && (i > 0 ==> q[i - 1] in q);
  }

  lemma {:induction false} MinusAt(q: seq<Tid>, i: nat)
    requires i < |q| && NoDup(q)
    ensures Minus(q, q[i]) == q[..i] + q[i + 1..]
  {
    if i > 0 {
      var rest := q[1..];
      assert forall j :: 0 <= j < |rest| ==> rest[j] == q[j + 1];
      MinusAt(rest, i - 1);
      assert q[..i] + q[i + 1..] == [q[0]] + (rest[..i - 1] + rest[i..]);
    } else {
      assert q[..0] + q[1..] == q[1..];
    }
  }

  lemma BridgedLinked(l: Links, q: Queues, k: nat, i: nat)
    requires Linked(l, q) && i < |Q(q, k)|
    ensures Linked(Bridged(l, k, Q(q, k), i), q[k := Minus(Q(q, k), Q(q, k)[i])])
  {
    var t, l2 := Q(q, k)[i], Bridged(l, k, Q(q, k), i);
    var q2 := q[k := Minus(Q(q, k), t)];
    assert ListOk(l, k, Q(q, k));
    MinusAt(Q(q, k), i);
    forall j: nat ensures ListOk(l2, j, Q(q2, j)) {
      assert ListOk(l, j, Q(q, j));
      if j == k { BridgedList(l, k, Q(q, k), i); } else { BridgedOther(l, k, Q(q, k), i, j, Q(q, j)); }
    }
    InMinus(q, k, t) by { forall j: nat ensures NoDup(Q(q, j)) { assert ListOk(l, j, Q(q, j)); } }
    hide ListOk, Q, Minus;
  }

  // ----- Emptying a list from its head

  /** List `k` is being emptied: `rest` is still to come, from `b` on. */
  ghost predicate Emptying(l: Links, q: Queues, k: nat, b: Tid, rest: seq<Tid>)
  {
    && Apart(q) && (forall j: nat :: j != k ==> ListOk(l, j, Q(q, j)))
    && Chain(b, rest, l.next) && NoDup(rest) && (forall t: Tid :: t in rest ==> t in Q(q, k))
  }

  lemma EmptyStart(l: Links, q: Queues, k: nat)
    requires Linked(l, q)
    ensures Emptying(l, q, k, P(l.head, k), Q(q, k))
  {
    assert ListOk(l, k, Q(q, k));
    hide Chain, NoDup, Q;
  }

  lemma ChainStep(b: Tid, rest: seq<Tid>, next: map<Tid, Tid>)
    requires Chain(b, rest, next) && NoDup(rest) && rest != []
    ensures b == rest[0] && b != 0 && Chain(P(next, b), rest[1..], next[b := 0]) && NoDup(rest[1..])
  {
    var m := rest[1..];
    forall i | 0 <= i < |m| ensures m[i] == rest[i + 1] && m[i] != rest[0] && After(m, i) == After(rest, i + 1) {}
  }

  lemma EmptyStep(l: Links, q: Queues, k: nat, b: Tid, rest: seq<Tid>)
    requires Emptying(l, q, k, b, rest) && rest != []
    ensures b == rest[0] && b != 0 && Emptying(l.(next := l.next[b := 0]), q, k, P(l.next, b), rest[1..])
  {
    ChainStep(b, rest, l.next);
    assert b in rest;
    forall j: nat | j != k ensures ListOk(l.(next := l.next[b := 0]), j, Q(q, j)) {
      OtherLink(l, j, Q(q, j), b, 0);
    }
    hide Chain, NoDup, Q, ListOk;
  }

  lemma EmptyEnd(l: Links, q: Queues, k: nat, b: Tid)
    requires Emptying(l, q, k, b, [])
    ensures b == 0 && Linked(l.(head := l.head[k := 0], last := l.last[k := 0]), q[k := []])
  {
    var l2, q2 := l.(head := l.head[k := 0], last := l.last[k := 0]), q[k := []];
    forall j: nat ensures ListOk(l2, j, Q(q2, j)) {
      if j != k {
        OtherEnds(l, j, Q(q, j), k, 0, 0);
        OtherEnds(l.(head := l.head[k := 0]), j, Q(q, j), k, 0, 0);
      }
    }
    forall j: nat, t: Tid | t in Q(q2, j) ensures t in Q(q, j) {}
  }

  lemma NothingEmptied(l: Links, q: Queues, k: nat)
    requires Linked(l, q) && P(l.head, k) == 0
    ensures Q(q, k) == [] && Linked(l, q[k := []])
  {
    assert ListOk(l, k, Q(q, k));
    var q2 := q[k := []];
    forall j: nat ensures Q(q2, j) == Q(q, j) {}
    forall j: nat ensures ListOk(l, j, Q(q2, j)) { assert ListOk(l, j, Q(q, j)); }
    forall j: nat, t: Tid | t in Q(q2, j) ensures t in Q(q, j) {}
  }
}
