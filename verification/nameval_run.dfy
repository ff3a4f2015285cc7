/** Whole runs of set, get and del on a buffer, and the buffer that a set has filled to its last byte. */
module NamevalRun {
  import opened Words
  import opened NamevalModel
  import opened Nameval
  import opened NamevalMap

  // ----- A buffer with a byte to spare

  lemma PackedTail(buf: seq<Byte>, recs: seq<Rec>, swap: bool)
    requires Packed(buf, recs, swap)
    ensures Readable(buf, recs, swap) && 4 <= |buf| < SIGN && Sound(recs) && Distinct(recs)
    ensures buf[..|Encode(recs, swap)|] == Encode(recs, swap) && buf == Encode(recs, swap) + Zeros(|buf| - |Encode(recs, swap)|)
  {
    PackedReadable(buf, recs, swap);
    hide Encode, Sound, Distinct, Zeros;
  }

  lemma MoreZeros(buf: seq<Byte>, a: seq<Byte>, b: seq<Byte>, n: nat)
    requires |a| <= |buf| && buf == a + Zeros(|buf| - |a|) && |b| + n == |a|
    ensures b + buf[|a|..] + Zeros(n) == b + Zeros(|buf| - |b|)
  {
    assert buf[|a|..] == Zeros(|buf| - |a|);
  }

  /** Deleting keeps the store in good order. */
  lemma DeletedPacked(buf: seq<Byte>, recs: seq<Rec>, name: Name, swap: bool)
    requires Packed(buf, recs, swap) && Index(recs, name) < |recs|
    ensures Readable(buf, recs, swap) && Packed(Deleted(buf, recs, name, swap), Without(recs, name), swap)
    ensures |Deleted(buf, recs, name, swap)| == |buf|
  {
    PackedTail(buf, recs, swap);
    Space(buf, recs, name, swap);
    SoundAdded(recs, name, []);
    WithoutDistinct(recs, name);
    var rest, r := Without(recs, name), recs[Index(recs, name)];
    MoreZeros(buf, Encode(recs, swap), Encode(rest, swap), Reclen(r.name, r.value));
    hide Encode, Sound, Distinct, Zeros, Reclen, Readable, Without, Index;
    IsPacked(Deleted(buf, recs, name, swap), rest, swap);
  }

  lemma AppendedBytes(buf: seq<Byte>, a: seq<Byte>, c: seq<Byte>)
    requires |a| + |c| <= |buf| && buf == a + Zeros(|buf| - |a|)
    ensures Over(buf, |a|, c) == a + c + Zeros(|buf| - |a + c|)
  {
    assert buf[..|a|] == a;
    assert buf[|a| + |c|..] == Zeros(|buf| - |a + c|);
  }

  /** Writing a record behind the others appends it. */
  lemma Appended(buf: seq<Byte>, recs: seq<Rec>, r: Rec, swap: bool)
    requires Packed(buf, recs, swap) && |Encode(recs, swap)| + Reclen(r.name, r.value) <= |buf|
    ensures |Cell(r, swap)| == Reclen(r.name, r.value)
    ensures |Encode(recs + [r], swap)| == |Encode(recs, swap)| + Reclen(r.name, r.value)
    ensures Over(buf, |Encode(recs, swap)|, Cell(r, swap)) == Encode(recs + [r], swap) + Zeros(|buf| - |Encode(recs + [r], swap)|)
  {
    PackedTail(buf, recs, swap);
    EncodeSplit(recs, [r], swap);
    OneCell(r, swap);
    CellSize(r, swap);
    hide *;
    AppendedBytes(buf, Encode(recs, swap), Cell(r, swap));
  }

  // ----- One operation

  /** The buffer is full, and of the map `t` everything but the name `n` can still be read. */
  ghost predicate Hides(size: nat, n: Name, t: Table, seen: seq<Rec>, swap: bool)
  {
    n in t.m && MapOf(seen) == t.m - {n} && t.used == size == |Encode(seen, swap)| + Reclen(n, t.m[n])
  }

  /** What an operation on a store in good order has answered and left. */
  ghost predicate After(buf: seq<Byte>, recs: seq<Rec>, op: Op, swap: bool, reply: Reply, seen: seq<Rec>)
  {
    var (t2, reply2) := TableStep(Abs(recs, swap), |buf|, op);
    && reply == reply2 && Readable(buf, seen, swap)
    && if t2.used < |buf| then Packed(buf, seen, swap) && Abs(seen, swap) == t2
       else op.SetOp? && Hides(|buf|, op.name, t2, seen, swap)
  }

  lemma ClearedPacked(buf: seq<Byte>, recs: seq<Rec>, name: Name, swap: bool)
    requires Packed(buf, recs, swap)
    ensures Readable(buf, recs, swap)
    ensures var mid := Cleared(buf, recs, name, swap);
      Packed(mid, Without(recs, name), swap) && Readable(mid, Without(recs, name), swap)
  {
    PackedTail(buf, recs, swap);
    if Index(recs, name) < |recs| { DeletedPacked(buf, recs, name, swap); }
    var mid := Cleared(buf, recs, name, swap);
    assert Packed(mid, Without(recs, name), swap) by { hide Packed; }
    hide *;
    PackedReadable(mid, Without(recs, name), swap);
  }

  lemma PackedParts(buf: seq<Byte>, recs: seq<Rec>, swap: bool)
    requires Packed(buf, recs, swap)
    ensures 4 <= |buf| < SIGN && Sound(recs) && Distinct(recs) && |Encode(recs, swap)| < |buf|
  {}

  lemma SetFits(buf: seq<Byte>, recs: seq<Rec>, op: Op, swap: bool)
    requires op.SetOp? && Distinct(recs)
    ensures var code := SetCode(recs, |buf|, op.name, op.value, op.creating, op.replacing, swap);
      && TableStep(Abs(recs, swap), |buf|, op).1 == Reply(code, [])
      && TableStep(Abs(recs, swap), |buf|, op).0 ==
        if code == 0 then Abs(Without(recs, op.name) + [Rec(op.name, op.value)], swap) else Abs(recs, swap)
    ensures SetCode(recs, |buf|, op.name, op.value, op.creating, op.replacing, swap) == 0 ==>
      Reclen(op.name, op.value) <= |buf| - |Encode(Without(recs, op.name), swap)|
  {
    StepRefines(recs, |buf|, op, swap);
    hide MapOf, Encode, Without, Distinct, Index, Kept, Reclen, Lookup, Abs, TableStep;
  }

  lemma SetAfter(buf: seq<Byte>, recs: seq<Rec>, op: Op, swap: bool)
    requires op.SetOp? && 4 <= |buf| < SIGN && Sound(recs) && Distinct(recs) && Proper(op)
    requires SetCode(recs, |buf|, op.name, op.value, op.creating, op.replacing, swap) == 0
    requires var recs2 := Without(recs, op.name) + [Rec(op.name, op.value)];
      |Encode(recs2, swap)| <= |buf| && buf == Encode(recs2, swap) + Zeros(|buf| - |Encode(recs2, swap)|)
    ensures var recs2 := Without(recs, op.name) + [Rec(op.name, op.value)];
      After(buf, recs, op, swap, Reply(0, []), if |Encode(recs2, swap)| < |buf| then recs2 else Without(recs, op.name))
  {
    hide *;
    SetFits(buf, recs, op, swap);
    ProperSet(op);
    SetSeen(buf, recs, op.name, op.value, swap);
    SetNames(recs, op, swap);
    var recs2 := Without(recs, op.name) + [Rec(op.name, op.value)];
    if |Encode(recs2, swap)| < |buf| {
      IsAfter(buf, recs, op, swap, Reply(0, []), recs2, Abs(recs2, swap));
    } else {
      Hidden(|buf|, op.name, Abs(recs2, swap), Without(recs, op.name), swap);
      IsAfter(buf, recs, op, swap, Reply(0, []), Without(recs, op.name), Abs(recs2, swap));
    }
  }

  lemma Hidden(size: nat, n: Name, t: Table, seen: seq<Rec>, swap: bool)
    requires n in t.m && MapOf(seen) == t.m - {n} && t.used == size == |Encode(seen, swap)| + Reclen(n, t.m[n])
    ensures Hides(size, n, t, seen, swap)
  {}

  lemma ProperSet(op: Op)
    requires op.SetOp? && Proper(op)
    ensures Named(op.name) && Reclen(op.name, op.value) < SIGN
  {}

  lemma IsAfter(buf: seq<Byte>, recs: seq<Rec>, op: Op, swap: bool, reply: Reply, seen: seq<Rec>, t2: Table)
    requires TableStep(Abs(recs, swap), |buf|, op) == (t2, reply) && Readable(buf, seen, swap)
    requires t2.used < |buf| ==> Packed(buf, seen, swap) && Abs(seen, swap) == t2
    requires t2.used >= |buf| ==> op.SetOp? && Hides(|buf|, op.name, t2, seen, swap)
    ensures After(buf, recs, op, swap, reply, seen)
  {
    hide Readable, Packed, Abs, MapOf, TableStep, Hides;
  }

  lemma SetNames(recs: seq<Rec>, op: Op, swap: bool)
    requires op.SetOp? && Distinct(recs)
    ensures var recs2 := Without(recs, op.name) + [Rec(op.name, op.value)];
      && op.name in Abs(recs2, swap).m && Abs(recs2, swap).m - {op.name} == MapOf(Without(recs, op.name))
      && Abs(recs2, swap).used == |Encode(recs2, swap)|
      && Abs(recs2, swap).m[op.name] == op.value
      && |Encode(recs2, swap)| == |Encode(Without(recs, op.name), swap)| + Reclen(op.name, op.value)
  {
    hide *;
    EncodeSplit(Without(recs, op.name), [Rec(op.name, op.value)], swap);
    OneCell(Rec(op.name, op.value), swap);
    CellSize(Rec(op.name, op.value), swap);
    AddedAbs(recs, op.name, op.value, swap);
    WithoutMap(recs, op.name);
    AbsIs(Without(recs, op.name) + [Rec(op.name, op.value)], swap);
    assert MapOf(recs)[op.name := op.value] - {op.name} == MapOf(recs) - {op.name};
  }

  lemma SetRefused(buf: seq<Byte>, recs: seq<Rec>, op: Op, swap: bool)
    requires op.SetOp? && Packed(buf, recs, swap)
    requires SetCode(recs, |buf|, op.name, op.value, op.creating, op.replacing, swap) != 0
    ensures After(buf, recs, op, swap, Reply(SetCode(recs, |buf|, op.name, op.value, op.creating, op.replacing, swap), []), recs)
  {
    PackedParts(buf, recs, swap);
    PackedReadable(buf, recs, swap);
    SetFits(buf, recs, op, swap);
    AbsIs(recs, swap);
    hide MapOf, Encode, Without, Distinct, Index, Kept, Reclen, TableStep, Packed, Readable, Zeros, Sound, SetCode, Abs;
  }

  lemma SetLeaves(buf: seq<Byte>, now: seq<Byte>, recs: seq<Rec>, op: Op, swap: bool, code: int)
    requires op.SetOp? && Packed(buf, recs, swap) && Proper(op) && Readable(buf, recs, swap)
    requires code == SetCode(recs, |buf|, op.name, op.value, op.creating, op.replacing, swap)
    requires |Encode(Without(recs, op.name), swap)| + |Cell(Rec(op.name, op.value), swap)| <= |buf| || code != 0
    requires now ==
      if code == 0 then Over(Cleared(buf, recs, op.name, swap), |Encode(Without(recs, op.name), swap)|, Cell(Rec(op.name, op.value), swap))
      else buf
    ensures var rest, r := Without(recs, op.name), Rec(op.name, op.value);
      After(now, recs, op, swap, Reply(code, []), if code != 0 then recs else if |Encode(rest + [r], swap)| < |buf| then rest + [r] else rest)
  {
    hide *;
    if code == 0 {
      PackedParts(buf, recs, swap);
      ClearedPacked(buf, recs, op.name, swap);
      SetFits(buf, recs, op, swap);
      Appended(Cleared(buf, recs, op.name, swap), Without(recs, op.name), Rec(op.name, op.value), swap);
      SetAfter(now, recs, op, swap);
    } else {
      SetRefused(buf, recs, op, swap);
    }
  }

  method SetStep(xb: array<Byte>, op: Op, swap: bool, ghost recs: seq<Rec>) returns (reply: Reply, ghost seen: seq<Rec>)
    requires op.SetOp? && Packed(xb[..], recs, swap) && Proper(op)
    modifies xb
    ensures After(xb[..], recs, op, swap, reply, seen)
  {
    ghost var buf, rest, r := xb[..], Without(recs, op.name), Rec(op.name, op.value);
    hide *;
    PackedParts(buf, recs, swap);
    ClearedPacked(buf, recs, op.name, swap);
    SetFits(buf, recs, op, swap);
    ProperSet(op);
    CellSize(r, swap);
    var code, _ := Set(xb, op.name, op.value, op.creating, op.replacing, swap, recs, rest);
    reply := Reply(code, []);
    SetLeaves(buf, xb[..], recs, op, swap, code);
    seen := if code != 0 then recs else if |Encode(rest + [r], swap)| < |buf| then rest + [r] else rest;
  }

  lemma DelAfter(buf: seq<Byte>, recs: seq<Rec>, op: Op, swap: bool)
    requires op.DelOp? && Packed(buf, recs, swap)
    ensures Readable(buf, recs, swap)
    ensures Index(recs, op.name) < |recs| ==>
      After(Deleted(buf, recs, op.name, swap), recs, op, swap, Reply(0, []), Without(recs, op.name))
    ensures Index(recs, op.name) == |recs| ==> After(buf, recs, op, swap, Reply(-ENODATA, []), recs)
  {
    PackedParts(buf, recs, swap);
    PackedReadable(buf, recs, swap);
    StepRefines(recs, |buf|, op, swap);
    AbsIs(recs, swap);
    if Index(recs, op.name) < |recs| {
      DeletedPacked(buf, recs, op.name, swap);
      PackedReadable(Deleted(buf, recs, op.name, swap), Without(recs, op.name), swap);
      Space(buf, recs, op.name, swap);
      AbsIs(Without(recs, op.name), swap);
    }
    hide MapOf, Encode, Without, Distinct, Index, Kept, Reclen, TableStep, Packed, Readable, Zeros, Sound, Deleted, Abs;
  }

  lemma GetAfter(buf: seq<Byte>, recs: seq<Rec>, op: Op, swap: bool)
    requires op.GetOp? && Packed(buf, recs, swap)
    ensures Readable(buf, recs, swap)
    ensures var code := GetCode(recs, op.name, op.bsize);
      After(buf, recs, op, swap, Reply(code, if code >= 0 && op.bsize > 0 then Lookup(recs, op.name) else []), recs)
  {
    PackedParts(buf, recs, swap);
    PackedReadable(buf, recs, swap);
    StepRefines(recs, |buf|, op, swap);
    AbsIs(recs, swap);
    hide MapOf, Encode, Without, Distinct, Index, Kept, Reclen, TableStep, Packed, Readable, Zeros, Sound, Deleted, Abs, GetCode;
  }

  /** A value of exactly the room asked for, or less. */
  lemma Fetched(recs: seq<Rec>, name: Name, bsize: nat)
    ensures var code := GetCode(recs, name, bsize);
      && (code >= 0 ==> Index(recs, name) < |recs| && recs[Index(recs, name)].value == Lookup(recs, name) && code == |Lookup(recs, name)|)
      && (code >= 0 && bsize > 0 ==> code <= bsize)
  {}

  /** A get into a buffer of its own. */
  method Fetch(xb: array<Byte>, op: Op, swap: bool, ghost recs: seq<Rec>) returns (reply: Reply)
    requires op.GetOp? && Readable(xb[..], recs, swap) && Named(op.name)
    ensures var code := GetCode(recs, op.name, op.bsize);
      reply == Reply(code, if code >= 0 && op.bsize > 0 then Lookup(recs, op.name) else [])
  {
    hide Readable, Index, Named, GetCode, Over;
    Fetched(recs, op.name, op.bsize);
    var room := new Byte[op.bsize];
    ghost var before := room[..];
    var code := GetValue(xb, op.name, room, op.bsize, swap, recs);
    if code > 0 && op.bsize > 0 {
      Front(room[..], before, recs[Index(recs, op.name)].value);
      reply := Reply(code, room[..code]);
    } else {
      reply := Reply(code, []);
    }
  }

  /** One operation, with the reply of the map; the records that can be read afterwards are those of
      the map if a byte is left free, and all but the new one if a set has filled the buffer. */
  method DoOp(xb: array<Byte>, op: Op, swap: bool, ghost recs: seq<Rec>) returns (reply: Reply, ghost seen: seq<Rec>)
    requires Packed(xb[..], recs, swap) && Proper(op)
    modifies xb
    ensures After(xb[..], recs, op, swap, reply, seen)
  {
    hide Packed, Readable, Encode, Over, Zeros, Deleted, Index, Without, Named, MapOf, After, GetCode;
    match op
    case SetOp(_, _, _, _) =>
      reply, seen := SetStep(xb, op, swap, recs);
    case DelOp(name) =>
      DelAfter(xb[..], recs, op, swap);
      var code := Del(xb, name, swap, recs);
      reply := Reply(code, []);
      seen := if code == 0 then Without(recs, name) else recs;
    case GetOp(name, bsize) =>
      GetAfter(xb[..], recs, op, swap);
      reply := Fetch(xb, op, swap, recs);
      seen := recs;
  }

  lemma Front(now: seq<Byte>, was: seq<Byte>, value: seq<Byte>)
    requires |value| <= |was| && now == Over(was, 0, value)
    ensures now[..|value|] == value
  {}

  // ----- Whole runs

  lemma RunStep(t: Table, size: nat, ops: seq<Op>, i: nat)
    requires i < |ops|
    ensures var (t1, replies) := TableRun(t, size, ops[..i]); var (t2, reply) := TableStep(t1, size, ops[i]);
      && TableRun(t, size, ops[..i + 1]) == (t2, replies + [reply])
      && (Roomy(t, size, ops[..i + 1]) <==> Roomy(t, size, ops[..i]) && t2.used < size)
  {
    assert ops[..i + 1][..i] == ops[..i];
    hide TableStep;
  }

  /** A prefix of a run with a byte free throughout is one. */
  lemma {:induction false} RoomyPrefix(t: Table, size: nat, ops: seq<Op>, i: nat)
    requires i <= |ops| && Roomy(t, size, ops)
    ensures Roomy(t, size, ops[..i])
    decreases |ops|
  {
    hide TableRun;
    if i == |ops| {
      assert ops[..i] == ops;
    } else {
      RoomyPrefix(t, size, ops[..|ops| - 1], i);
      assert ops[..|ops| - 1][..i] == ops[..i];
    }
  }

  /** What is left after a run in which at most the last operation fills the buffer. */
  ghost predicate RunLeaves(buf: seq<Byte>, t: Table, ops: seq<Op>, swap: bool, seen: seq<Rec>)
  {
    var t2 := TableRun(t, |buf|, ops).0;
    && Readable(buf, seen, swap)
    && if Roomy(t, |buf|, ops) then Packed(buf, seen, swap) && Abs(seen, swap) == t2
       else ops != [] && ops[|ops| - 1].SetOp? && Hides(|buf|, ops[|ops| - 1].name, t2, seen, swap)
  }

  lemma LeavesStep(buf: seq<Byte>, t: Table, ops: seq<Op>, i: nat, swap: bool, recs: seq<Rec>, reply: Reply, seen: seq<Rec>)
    requires i < |ops| && Roomy(t, |buf|, ops[..i]) && Abs(recs, swap) == TableRun(t, |buf|, ops[..i]).0
    requires After(buf, recs, ops[i], swap, reply, seen)
    ensures RunLeaves(buf, t, ops[..i + 1], swap, seen)
    ensures TableRun(t, |buf|, ops[..i + 1]).1 == TableRun(t, |buf|, ops[..i]).1 + [reply]
  {
    RunStep(t, |buf|, ops, i);
    hide TableStep, TableRun, Roomy, Readable, Packed, Abs, MapOf;
  }

  /** Every run of set, get and del on a buffer in good order, up to and with the first set that fills
      it: the replies are those of a finite map, and the buffer holds that map if and only if every
      set has left a byte free. */
  method RunOps(xb: array<Byte>, ops: seq<Op>, swap: bool, ghost recs: seq<Rec>)
    returns (replies: seq<Reply>, ghost seen: seq<Rec>)
    requires Packed(xb[..], recs, swap) && forall op :: op in ops ==> Proper(op)
    requires ops != [] ==> Roomy(Abs(recs, swap), xb.Length, ops[..|ops| - 1])
    modifies xb
    ensures replies == TableRun(Abs(recs, swap), xb.Length, ops).1
    ensures RunLeaves(xb[..], Abs(recs, swap), ops, swap, seen)
    ensures MapOf(seen) == TableRun(Abs(recs, swap), xb.Length, ops).0.m <==> Roomy(Abs(recs, swap), xb.Length, ops)
  {
    ghost var t := Abs(recs, swap);
    replies, seen := [], recs;
    RunStart(xb[..], recs, swap);
    assert ops[..0] == [];
    hide TableStep, TableRun, Roomy, Readable, Packed, Abs, After, Encode, Proper, RunLeaves, MapOf;
    var i := 0;
    while i < |ops|
      invariant i <= |ops| && replies == TableRun(t, xb.Length, ops[..i]).1
      invariant RunLeaves(xb[..], t, ops[..i], swap, seen)
    {
      RunSoFar(xb[..], t, ops, i, swap, seen);
      ghost var before := seen;
      var reply;
      reply, seen := DoOp(xb, ops[i], swap, seen);
      LeavesStep(xb[..], t, ops, i, swap, before, reply, seen);
      replies := replies + [reply];
      i := i + 1;
    }
    assert ops[..i] == ops;
    MapExact(xb[..], t, ops, swap, seen);
  }

  lemma RunStart(buf: seq<Byte>, recs: seq<Rec>, swap: bool)
    requires Packed(buf, recs, swap)
    ensures RunLeaves(buf, Abs(recs, swap), [], swap, recs) && TableRun(Abs(recs, swap), |buf|, []).1 == []
  {
    PackedParts(buf, recs, swap);
    PackedReadable(buf, recs, swap);
    AbsIs(recs, swap);
    hide Packed, Readable, Encode, MapOf, Abs;
  }

  lemma RunSoFar(buf: seq<Byte>, t: Table, ops: seq<Op>, i: nat, swap: bool, seen: seq<Rec>)
    requires i < |ops| && Roomy(t, |buf|, ops[..|ops| - 1]) && RunLeaves(buf, t, ops[..i], swap, seen)
    ensures Roomy(t, |buf|, ops[..i]) && Packed(buf, seen, swap) && Abs(seen, swap) == TableRun(t, |buf|, ops[..i]).0
  {
    RoomyPrefix(t, |buf|, ops[..|ops| - 1], i);
    assert ops[..|ops| - 1][..i] == ops[..i];
    hide Packed, Readable, Roomy, TableRun, Abs, MapOf;
  }

  lemma MapExact(buf: seq<Byte>, t: Table, ops: seq<Op>, swap: bool, seen: seq<Rec>)
    requires RunLeaves(buf, t, ops, swap, seen)
    ensures MapOf(seen) == TableRun(t, |buf|, ops).0.m <==> Roomy(t, |buf|, ops)
  {
    if Roomy(t, |buf|, ops) { AbsIs(seen, swap); }
    hide Packed, Readable, Roomy, TableRun, Abs, MapOf;
  }

  /** A run that is not roomy has a first operation that fills the buffer, and it is a set. */
  lemma {:induction false} FirstFill(t: Table, size: nat, ops: seq<Op>) returns (i: nat)
    requires t.used < size && !Roomy(t, size, ops)
    ensures i < |ops| && Roomy(t, size, ops[..i]) && !Roomy(t, size, ops[..i + 1]) && ops[i].SetOp?
    decreases |ops|
  {
    var n := |ops| - 1;
    if Roomy(t, size, ops[..n]) {
      i := n;
      RunStep(t, size, ops, n);
      assert ops[..n + 1] == ops;
      hide TableRun;
      GrowsBySet(TableRun(t, size, ops[..n]).0, size, ops[n]);
    } else {
      hide TableRun, Roomy;
      i := FirstFill(t, size, ops[..n]);
      assert ops[..n][..i] == ops[..i] && ops[..n][..i + 1] == ops[..i + 1];
    }
  }

  lemma GrowsBySet(t: Table, size: nat, op: Op)
    ensures op.SetOp? || TableStep(t, size, op).0.used <= t.used
  {}

  /** After a filling set, whose success the map has recorded: the map still has the value and no
      room, while the store denies the name and takes a record for another one that is no longer. */
  lemma FilledDiffers(buf: seq<Byte>, t: Table, ops: seq<Op>, seen: seq<Rec>, swap: bool, bsize: nat, other: Op)
    requires RunLeaves(buf, t, ops, swap, seen) && !Roomy(t, |buf|, ops)
    requires other.SetOp? && other.name !in TableRun(t, |buf|, ops).0.m && !other.creating && !other.replacing
    ensures var t2, n := TableRun(t, |buf|, ops).0, ops[|ops| - 1].name;
      && n in t2.m
      && GetCode(seen, n, bsize) == -ENODATA != TableStep(t2, |buf|, GetOp(n, bsize)).1.code
      && TableStep(t2, |buf|, other).1.code == -ENOSPC
      && (SetCode(seen, |buf|, other.name, other.value, false, false, swap) == 0 <==>
          Reclen(other.name, other.value) <= Reclen(n, t2.m[n]))
  {
    var t2, n := TableRun(t, |buf|, ops).0, ops[|ops| - 1].name;
    IndexFound(seen, n);
    IndexFound(seen, other.name);
    hide MapOf, TableRun, Encode, Readable, Packed, Roomy;
  }

  // ----- A full buffer

  /** The store as a set has left it that used every byte: its last record is hidden from the scans. */
  ghost predicate Full(buf: seq<Byte>, recs: seq<Rec>, hidden: Rec, swap: bool)
  {
    && 4 <= |buf| < SIGN && Sound(recs + [hidden]) && Distinct(recs + [hidden])
    && buf == Encode(recs, swap) + Cell(hidden, swap)
  }

  lemma FullParts(buf: seq<Byte>, recs: seq<Rec>, hidden: Rec, swap: bool)
    requires Full(buf, recs, hidden, swap)
    ensures Readable(buf, recs, swap) && Index(recs, hidden.name) == |recs|
    ensures 4 <= |buf| < SIGN && |buf| == |Encode(recs, swap)| + Reclen(hidden.name, hidden.value)
    ensures buf[|Encode(recs, swap)|..] == Cell(hidden, swap)
  {
    var all := recs + [hidden];
    assert hidden == all[|recs|];
    assert forall k :: 0 <= k < |recs| ==> recs[k] == all[k];
    assert Sound(recs) && Distinct(recs);
    CellSize(hidden, swap);
    FullReadable(buf, recs, hidden, swap);
    hide Encode, Cell, Sound, Readable;
  }

  lemma FullRest(recs: seq<Rec>, hidden: Rec, name: Name)
    requires Sound(recs + [hidden]) && Distinct(recs + [hidden]) && Index(recs, name) < |recs|
    ensures Sound(Without(recs, name) + [hidden]) && Distinct(Without(recs, name) + [hidden])
  {
    var all, i := recs + [hidden], Index(recs, name);
    RemovedSound(all, i);
    assert all[..i] + all[i + 1..] == Without(recs, name) + [hidden];
  }

  lemma DeletedIs(buf: seq<Byte>, recs: seq<Rec>, name: Name, swap: bool)
    requires Readable(buf, recs, swap) && Index(recs, name) < |recs|
    ensures var r := recs[Index(recs, name)];
      Deleted(buf, recs, name, swap) ==
        Encode(Without(recs, name), swap) + buf[|Encode(recs, swap)|..] + Zeros(Reclen(r.name, r.value))
  {}

  /** Deleting another record brings the hidden one back. */
  lemma FullDeleted(buf: seq<Byte>, recs: seq<Rec>, hidden: Rec, name: Name, swap: bool)
    requires Full(buf, recs, hidden, swap) && Index(recs, name) < |recs|
    ensures Readable(buf, recs, swap)
    ensures Packed(Deleted(buf, recs, name, swap), Without(recs, name) + [hidden], swap)
    ensures var r := recs[Index(recs, name)];
      |Encode(Without(recs, name) + [hidden], swap)| == |buf| - Reclen(r.name, r.value)
  {
    hide *;
    FullParts(buf, recs, hidden, swap);
    var rest, r := Without(recs, name), recs[Index(recs, name)];
    Space(buf, recs, name, swap);
    EncodeSplit(rest, [hidden], swap);
    OneCell(hidden, swap);
    CellSize(hidden, swap);
    FullOrder(buf, recs, hidden, swap);
    FullRest(recs, hidden, name);
    LongRecord(r);
    DeletedIs(buf, recs, name, swap);
    IsPacked(Deleted(buf, recs, name, swap), rest + [hidden], swap);
  }

  lemma LongRecord(r: Rec)
    ensures Reclen(r.name, r.value) > 0
  {}

  lemma FullOrder(buf: seq<Byte>, recs: seq<Rec>, hidden: Rec, swap: bool)
    requires Full(buf, recs, hidden, swap)
    ensures Sound(recs + [hidden]) && Distinct(recs + [hidden])
  {}

  lemma OverTail(buf: seq<Byte>, a: seq<Byte>, h: seq<Byte>, c: seq<Byte>)
    requires buf == a + h && |c| <= |h|
    ensures Over(buf, |a|, c) == a + c + h[|c|..]
  {}

  /** A set of a new name goes over the hidden record, which is lost: it has room exactly if the new
      record is no longer, and what the old one had beyond it stays. */
  lemma FullSetNew(buf: seq<Byte>, recs: seq<Rec>, hidden: Rec, name: Name, value: seq<Byte>, swap: bool)
    requires Full(buf, recs, hidden, swap) && Index(recs, name) == |recs|
    ensures Readable(buf, recs, swap) && Cleared(buf, recs, name, swap) == buf
    ensures SetCode(recs, |buf|, name, value, false, false, swap) == 0 <==>
      Reclen(name, value) <= Reclen(hidden.name, hidden.value)
    ensures Reclen(name, value) <= Reclen(hidden.name, hidden.value) ==>
      var r := Rec(name, value);
      && |Encode(recs, swap)| + |Cell(r, swap)| <= |buf| && |Cell(r, swap)| <= |Cell(hidden, swap)|
      && Over(buf, |Encode(recs, swap)|, Cell(r, swap)) == Encode(recs + [r], swap) + Cell(hidden, swap)[|Cell(r, swap)|..]
  {
    FullParts(buf, recs, hidden, swap);
    var r := Rec(name, value);
    EncodeSplit(recs, [r], swap);
    OneCell(r, swap);
    CellSize(r, swap);
    CellSize(hidden, swap);
    FullIs(buf, recs, hidden, swap);
    hide Encode, Cell, Over, Readable, Full;
    if Reclen(name, value) <= Reclen(hidden.name, hidden.value) {
      OverTail(buf, Encode(recs, swap), Cell(hidden, swap), Cell(r, swap));
    }
  }

  lemma FullIs(buf: seq<Byte>, recs: seq<Rec>, hidden: Rec, swap: bool)
    requires Full(buf, recs, hidden, swap)
    ensures buf == Encode(recs, swap) + Cell(hidden, swap)
  {}

  /** A set of a name that can be read deletes its record, and the hidden one comes back. The room was
      checked without it: the check passes a record longer than the one replaced by up to the length
      of the hidden one, while there is room only for one that is no longer. */
  lemma FullSetAgain(buf: seq<Byte>, recs: seq<Rec>, hidden: Rec, name: Name, value: seq<Byte>, swap: bool)
    requires Full(buf, recs, hidden, swap) && Index(recs, name) < |recs|
    ensures Readable(buf, recs, swap)
    ensures var found, after, mid := recs[Index(recs, name)], Without(recs, name) + [hidden], Cleared(buf, recs, name, swap);
      && Readable(mid, after, swap)
      && (SetCode(recs, |buf|, name, value, false, false, swap) == 0 <==>
          Reclen(name, value) <= Reclen(found.name, found.value) + Reclen(hidden.name, hidden.value))
      && (|Encode(after, swap)| + Reclen(name, value) <= |buf| <==> Reclen(name, value) <= Reclen(found.name, found.value))
      && (|Encode(after, swap)| + Reclen(name, value) <= |buf| ==>
          var r := Rec(name, value);
          && |Encode(after, swap)| + |Cell(r, swap)| <= |buf| && |Encode(after + [r], swap)| <= |buf|
          && Over(mid, |Encode(after, swap)|, Cell(r, swap)) ==
             Encode(after + [r], swap) + Zeros(|buf| - |Encode(after + [r], swap)|))
  {
    hide *;
    FullDeleted(buf, recs, hidden, name, swap);
    FullParts(buf, recs, hidden, swap);
    Space(buf, recs, name, swap);
    ClearedIs(buf, recs, name, swap);
    SetCodeIs(recs, |buf|, name, value, swap);
    var after, mid := Without(recs, name) + [hidden], Cleared(buf, recs, name, swap);
    PackedReadable(mid, after, swap);
    if |Encode(after, swap)| + Reclen(name, value) <= |buf| {
      Appended(mid, after, Rec(name, value), swap);
    }
  }

  lemma ClearedIs(buf: seq<Byte>, recs: seq<Rec>, name: Name, swap: bool)
    requires Readable(buf, recs, swap) && Index(recs, name) < |recs|
    ensures Cleared(buf, recs, name, swap) == Deleted(buf, recs, name, swap)
  {}

  lemma SetCodeIs(recs: seq<Rec>, size: nat, name: Name, value: seq<Byte>, swap: bool)
    ensures SetCode(recs, size, name, value, false, false, swap) == 0 <==>
      Reclen(name, value) <= size - |Encode(Without(recs, name), swap)|
  {
    hide Encode, Without, Index;
  }

  /** The filling set leaves such a buffer. */
  lemma FilledFull(buf: seq<Byte>, recs: seq<Rec>, name: Name, value: seq<Byte>, swap: bool)
    requires 4 <= |buf| < SIGN && Sound(recs) && Distinct(recs) && Named(name) && Reclen(name, value) < SIGN
    requires buf == Encode(Without(recs, name) + [Rec(name, value)], swap)
    ensures Full(buf, Without(recs, name), Rec(name, value), swap)
  {
    var rest, r := Without(recs, name), Rec(name, value);
    SoundAdded(recs, name, value);
    WithoutMap(recs, name);
    AddedMap(rest, name, value);
    EncodeSplit(rest, [r], swap);
    OneCell(r, swap);
    hide Encode, Cell, Sound, Distinct, Without, MapOf, Named, Reclen;
  }
}
