/** Whole runs of set, get and del that go on after a set has filled the buffer: the map that can be read and
    the record behind it that no scan sees. */
module NamevalStore {
  import opened Words
  import opened NamevalModel
  import opened Nameval
  import opened NamevalMap
  import opened NamevalRun

  datatype Hidden = Nothing | Hid(name: Name, value: seq<Byte>)

  /** What can be read, and the record that a filling set has left behind it. */
  datatype Store = Store(t: Table, hid: Hidden)

  function More(t: Table, n: Name, v: seq<Byte>): Table { Table(t.m[n := v], t.used + Reclen(n, v)) }

  /** Deleting a name brings the hidden record back. */
  function Freed(s: Store, n: Name): Table
  {
    var t := Table(s.t.m - {n}, Kept(s.t, n));
    if s.hid.Hid? then More(t, s.hid.name, s.hid.value) else t
  }

  /** What stands before the record that a set of `n` writes: it goes over a hidden one unless a deletion has
      brought that back. */
  function Base(s: Store, n: Name): Table { if n in s.t.m then Freed(s, n) else s.t }

  function StoreStep(s: Store, size: nat, op: Op): (Store, Reply)
  {
    var reply := TableStep(s.t, size, op).1;
    if op.GetOp? || reply.code != 0 then (s, reply)
    else if op.DelOp? then (Store(Freed(s, op.name), Nothing), reply)
    else
      var t2 := More(Base(s, op.name), op.name, op.value);
      (if t2.used < size then Store(t2, Nothing) else Store(Base(s, op.name), Hid(op.name, op.value)), reply)
  }

  /** What is left of the hidden record behind one of `n` bytes that is written over it. */
  function Rest(h: Hidden, n: nat): seq<Byte>
    requires h.Hid?
  {
    var b := Body(Rec(h.name, h.value));
    if 4 <= n <= |b| + 4 then b[n - 4..] else []
  }

  /** A set on a full buffer keeps it in order if it replaces a record that is no shorter, or goes over the hidden
      record and leaves nothing but zeros of it. */
  predicate Safe(s: Store, size: nat, op: Op)
  {
    op.SetOp? && TableStep(s.t, size, op).1.code == 0 && s.hid.Hid? ==>
      if op.name in s.t.m then Reclen(op.name, op.value) <= Reclen(op.name, s.t.m[op.name])
      else var rest := Rest(s.hid, Reclen(op.name, op.value)); rest == Zeros(|rest|)
  }

  function StoreRun(s: Store, size: nat, ops: seq<Op>): (Store, seq<Reply>)
    decreases |ops|
  {
    if ops == [] then (s, []) else
    var (s1, replies) := StoreRun(s, size, ops[..|ops| - 1]);
    var (s2, reply) := StoreStep(s1, size, ops[|ops| - 1]);
    (s2, replies + [reply])
  }

  predicate SafeRun(s: Store, size: nat, ops: seq<Op>)
  {
    forall i :: 0 <= i < |ops| ==> Safe(StoreRun(s, size, ops[..i]).0, size, ops[i])
  }

  /** The buffer holds the store: back to back records and zeros, or records and the hidden one. */
  ghost predicate Holds(buf: seq<Byte>, s: Store, recs: seq<Rec>, swap: bool)
  {
    && Abs(recs, swap) == s.t
    && match s.hid
       case Nothing => Packed(buf, recs, swap)
       case Hid(n, v) => Full(buf, recs, Rec(n, v), swap)
  }

  // ----- What the buffer holds

  function Back(s: Store): seq<Rec> { if s.hid.Hid? then [Rec(s.hid.name, s.hid.value)] else [] }

  /** The records before the one that a set writes. */
  function BaseRecs(s: Store, recs: seq<Rec>, n: Name): seq<Rec>
  {
    if Index(recs, n) < |recs| then Without(recs, n) + Back(s) else recs
  }

  lemma HoldsFacts(buf: seq<Byte>, s: Store, recs: seq<Rec>, swap: bool)
    requires Holds(buf, s, recs, swap)
    ensures Readable(buf, recs, swap) && 4 <= |buf| < SIGN && Sound(recs) && Distinct(recs) && Abs(recs, swap) == s.t
    ensures Sound(recs + Back(s)) && Distinct(recs + Back(s))
  {
    match s.hid
    case Nothing =>
      PackedParts(buf, recs, swap);
      PackedReadable(buf, recs, swap);
      assert recs + [] == recs;
      hide *;
    case Hid(n, v) =>
      FullParts(buf, recs, Rec(n, v), swap);
      FullOrder(buf, recs, Rec(n, v), swap);
      FrontOrder(recs, Rec(n, v));
      hide Full, Sound, Distinct, Abs, Readable;
  }

  lemma FrontOrder(recs: seq<Rec>, r: Rec)
    requires Sound(recs + [r]) && Distinct(recs + [r])
    ensures Sound(recs) && Distinct(recs)
  {
    var all := recs + [r];
    assert forall k :: 0 <= k < |recs| ==> recs[k] == all[k];
  }

  /** The records that a deletion leaves, with the hidden one behind them. */
  lemma FreedIs(s: Store, recs: seq<Rec>, n: Name, swap: bool)
    requires Abs(recs, swap) == s.t && Distinct(recs) && Sound(recs) && Sound(recs + Back(s)) && Distinct(recs + Back(s))
    requires Index(recs, n) < |recs|
    ensures var after := Without(recs, n) + Back(s);
      Abs(after, swap) == Freed(s, n) && Distinct(after) && Sound(after) && Index(after, n) == |after|
  {
    RemovedAbs(recs, n, swap);
    SoundAdded(recs, n, []);
    AbsIs(recs, swap);
    var rest := Without(recs, n);
    if s.hid.Hid? {
      var h := Rec(s.hid.name, s.hid.value);
      FullRest(recs, h, n);
      LastNew(rest, h);
      LastNew(recs, h);
      IndexFound(recs, n);
      Joined(rest, h, swap);
      IndexFound(rest + [h], n);
      AbsIs(rest + [h], swap);
    } else {
      assert rest + [] == rest;
      IndexFound(rest, n);
      AbsIs(rest, swap);
    }
    hide MapOf, Encode, Without, Distinct, Index, Kept, Reclen, Abs, Sound;
  }

  lemma LastNew(recs: seq<Rec>, r: Rec)
    requires Distinct(recs + [r])
    ensures Distinct(recs) && r.name !in MapOf(recs)
  {
    var all := recs + [r];
    assert r == all[|recs|];
    assert forall k :: 0 <= k < |recs| ==> recs[k] == all[k];
    IndexFound(recs, r.name);
  }

  lemma Joined(recs: seq<Rec>, r: Rec, swap: bool)
    requires Distinct(recs) && r.name !in MapOf(recs)
    ensures Distinct(recs + [r]) && Abs(recs + [r], swap) == More(Abs(recs, swap), r.name, r.value)
  {
    hide MapOf, Encode, Distinct, Reclen, Abs;
    AddedMap(recs, r.name, r.value);
    EncodeSplit(recs, [r], swap);
    OneCell(r, swap);
    CellSize(r, swap);
    AbsIs(recs, swap);
    AbsIs(recs + [r], swap);
  }

  /** What a set finds before its own record, in the records and in the store. */
  lemma BaseIs(s: Store, recs: seq<Rec>, n: Name, swap: bool)
    requires Abs(recs, swap) == s.t && Distinct(recs) && Sound(recs) && Sound(recs + Back(s)) && Distinct(recs + Back(s))
    ensures var after := BaseRecs(s, recs, n);
      Abs(after, swap) == Base(s, n) && Distinct(after) && Sound(after) && Index(after, n) == |after|
    ensures Index(recs, n) < |recs| <==> n in s.t.m
  {
    IndexFound(recs, n);
    AbsIs(recs, swap);
    if Index(recs, n) < |recs| { FreedIs(s, recs, n, swap); }
    hide MapOf, Encode, Without, Distinct, Index, Freed, Abs, Sound;
  }

  // ----- A set

  lemma AnyFlags(recs: seq<Rec>, size: nat, op: Op, swap: bool)
    requires op.SetOp? && SetCode(recs, size, op.name, op.value, op.creating, op.replacing, swap) == 0
    ensures SetCode(recs, size, op.name, op.value, false, false, swap) == 0
  {
    hide Encode, Without, Index, Reclen;
  }

  /** What is in the buffer after a record has been written. */
  ghost predicate Written(buf: seq<Byte>, recs: seq<Rec>, swap: bool)
  {
    |Encode(recs, swap)| <= |buf| && buf == Encode(recs, swap) + Zeros(|buf| - |Encode(recs, swap)|)
  }

  /** The set finds the records `after` once the old one is deleted, has room behind them, and writes its
      record in order. */
  ghost predicate Planned(buf: seq<Byte>, recs: seq<Rec>, after: seq<Rec>, r: Rec, swap: bool)
  {
    Readable(buf, recs, swap) &&
    var mid := Nameval.Cleared(buf, recs, r.name, swap);
    && Readable(mid, after, swap) && |Encode(after, swap)| + Reclen(r.name, r.value) <= |buf|
    && Written(Over(mid, |Encode(after, swap)|, Cell(r, swap)), after + [r], swap)
  }

  lemma IsPlanned(buf: seq<Byte>, recs: seq<Rec>, after: seq<Rec>, r: Rec, swap: bool, mid: seq<Byte>)
    requires Readable(buf, recs, swap) && mid == Nameval.Cleared(buf, recs, r.name, swap) && Readable(mid, after, swap)
    requires |Encode(after, swap)| + Reclen(r.name, r.value) <= |buf| && |Encode(after + [r], swap)| <= |buf|
    requires var now := Over(mid, |Encode(after, swap)|, Cell(r, swap));
      now == Encode(after + [r], swap) + Zeros(|now| - |Encode(after + [r], swap)|)
    ensures Planned(buf, recs, after, r, swap)
  {
    hide Readable, Encode, Zeros, Reclen, Nameval.Cleared, Cell, Over;
  }

  lemma NothingBase(s: Store, recs: seq<Rec>, n: Name)
    requires s.hid.Nothing?
    ensures BaseRecs(s, recs, n) == Without(recs, n)
  {}

  lemma PlanOnPacked(buf: seq<Byte>, s: Store, recs: seq<Rec>, op: Op, swap: bool)
    requires op.SetOp? && Holds(buf, s, recs, swap) && s.hid.Nothing?
    requires SetCode(recs, |buf|, op.name, op.value, op.creating, op.replacing, swap) == 0
    ensures Planned(buf, recs, BaseRecs(s, recs, op.name), Rec(op.name, op.value), swap)
  {
    PackedOf(buf, s, recs, swap);
    hide *;
    var r := Rec(op.name, op.value);
    PackedParts(buf, recs, swap);
    SetFits(buf, recs, op, swap);
    ClearedPacked(buf, recs, op.name, swap);
    NothingBase(s, recs, op.name);
    var mid, after := Nameval.Cleared(buf, recs, op.name, swap), Without(recs, op.name);
    Appended(mid, after, r, swap);
    IsPlanned(buf, recs, after, r, swap, mid);
  }

  lemma PackedOf(buf: seq<Byte>, s: Store, recs: seq<Rec>, swap: bool)
    requires Holds(buf, s, recs, swap)
    ensures s.hid.Nothing? ==> Packed(buf, recs, swap)
    ensures s.hid.Hid? ==> Full(buf, recs, Rec(s.hid.name, s.hid.value), swap)
    ensures Abs(recs, swap) == s.t
  {
    hide Packed, Full, Abs;
  }

  lemma AgainBase(s: Store, recs: seq<Rec>, n: Name)
    requires s.hid.Hid?
    ensures BaseRecs(s, recs, n) == if Index(recs, n) < |recs| then Without(recs, n) + [Rec(s.hid.name, s.hid.value)] else recs
  {}

  predicate ZeroRest(s: Store, op: Op)
    requires op.SetOp? && s.hid.Hid?
  {
    var rest := Rest(s.hid, Reclen(op.name, op.value));
    rest == Zeros(|rest|)
  }

  lemma SafeAgain(s: Store, recs: seq<Rec>, size: nat, op: Op, swap: bool)
    requires op.SetOp? && Abs(recs, swap) == s.t && s.hid.Hid? && TableStep(s.t, size, op).1.code == 0
    ensures Safe(s, size, op) <==>
      if Index(recs, op.name) < |recs|
      then Reclen(op.name, op.value) <= Reclen(recs[Index(recs, op.name)].name, recs[Index(recs, op.name)].value)
      else ZeroRest(s, op)
  {
    IndexFound(recs, op.name);
    AbsIs(recs, swap);
    hide MapOf, Encode, Abs, TableStep, Reclen, Rest, Zeros;
  }

  lemma PlanAgain(buf: seq<Byte>, s: Store, recs: seq<Rec>, op: Op, swap: bool)
    requires op.SetOp? && Holds(buf, s, recs, swap) && s.hid.Hid? && Index(recs, op.name) < |recs|
    ensures Planned(buf, recs, BaseRecs(s, recs, op.name), Rec(op.name, op.value), swap) <==>
      Reclen(op.name, op.value) <= Reclen(recs[Index(recs, op.name)].name, recs[Index(recs, op.name)].value)
  {
    hide *;
    PackedOf(buf, s, recs, swap);
    AgainBase(s, recs, op.name);
    var h, r := Rec(s.hid.name, s.hid.value), Rec(op.name, op.value);
    FullSetAgain(buf, recs, h, op.name, op.value, swap);
    var mid, after := Nameval.Cleared(buf, recs, op.name, swap), Without(recs, op.name) + [h];
    CellSize(r, swap);
    if |Encode(after, swap)| + Reclen(r.name, r.value) <= |buf| { IsPlanned(buf, recs, after, r, swap, mid); }
    PlannedRoom(buf, recs, after, r, swap);
  }

  lemma PlannedRoom(buf: seq<Byte>, recs: seq<Rec>, after: seq<Rec>, r: Rec, swap: bool)
    ensures Planned(buf, recs, after, r, swap) ==> |Encode(after, swap)| + Reclen(r.name, r.value) <= |buf|
  {
    hide Encode, Readable, Reclen;
  }

  /** The bytes that stay behind a record written over the hidden one. */
  lemma RestIs(h: Hidden, r: Rec, swap: bool)
    requires h.Hid? && Reclen(r.name, r.value) <= Reclen(h.name, h.value)
    ensures |Cell(Rec(h.name, h.value), swap)| == Reclen(h.name, h.value) && |Cell(r, swap)| == Reclen(r.name, r.value)
    ensures Rest(h, Reclen(r.name, r.value)) == Cell(Rec(h.name, h.value), swap)[|Cell(r, swap)|..]
  {
    hide Put;
  }

  lemma TailZeros(now: seq<Byte>, a: seq<Byte>, rest: seq<Byte>)
    requires now == a + rest
    ensures rest == Zeros(|rest|) <==> now == a + Zeros(|now| - |a|)
  {
    if now == a + Zeros(|now| - |a|) {
      assert rest == now[|a|..] == Zeros(|rest|);
    }
  }

  lemma PlanOver(buf: seq<Byte>, s: Store, recs: seq<Rec>, op: Op, swap: bool)
    requires op.SetOp? && Holds(buf, s, recs, swap) && s.hid.Hid? && Index(recs, op.name) == |recs|
    requires SetCode(recs, |buf|, op.name, op.value, false, false, swap) == 0
    ensures Planned(buf, recs, BaseRecs(s, recs, op.name), Rec(op.name, op.value), swap) <==> ZeroRest(s, op)
  {
    hide *;
    PackedOf(buf, s, recs, swap);
    AgainBase(s, recs, op.name);
    var h, r := Rec(s.hid.name, s.hid.value), Rec(op.name, op.value);
    FullSetNew(buf, recs, h, op.name, op.value, swap);
    RestIs(s.hid, r, swap);
    EncodeSplit(recs, [r], swap);
    OneCell(r, swap);
    FullParts(buf, recs, h, swap);
    var now := Over(buf, |Encode(recs, swap)|, Cell(r, swap));
    TailZeros(now, Encode(recs + [r], swap), Rest(s.hid, Reclen(r.name, r.value)));
    IsZeroRest(s, op);
    if ZeroRest(s, op) { IsPlanned(buf, recs, recs, r, swap, buf); }
    PlannedTail(buf, recs, r, swap, now);
  }

  lemma IsZeroRest(s: Store, op: Op)
    requires op.SetOp? && s.hid.Hid?
    ensures var rest := Rest(s.hid, Reclen(op.name, op.value)); ZeroRest(s, op) <==> rest == Zeros(|rest|)
  {}

  lemma PlannedTail(buf: seq<Byte>, recs: seq<Rec>, r: Rec, swap: bool, now: seq<Byte>)
    requires Readable(buf, recs, swap) && Nameval.Cleared(buf, recs, r.name, swap) == buf
    requires |Encode(recs, swap)| + |Cell(r, swap)| <= |buf| && now == Over(buf, |Encode(recs, swap)|, Cell(r, swap))
    ensures Planned(buf, recs, recs, r, swap) ==> now == Encode(recs + [r], swap) + Zeros(|now| - |Encode(recs + [r], swap)|)
  {
    hide Encode, Readable, Reclen, Over, Zeros, Cell, Nameval.Cleared;
  }

  /** A set that passes the checks is carried out in good order if and only if it is safe: otherwise it writes
      beyond the end of the buffer, or leaves bytes of the hidden record behind its own. */
  lemma SafeExact(buf: seq<Byte>, s: Store, recs: seq<Rec>, op: Op, swap: bool)
    requires op.SetOp? && Holds(buf, s, recs, swap)
    requires SetCode(recs, |buf|, op.name, op.value, op.creating, op.replacing, swap) == 0
    ensures Planned(buf, recs, BaseRecs(s, recs, op.name), Rec(op.name, op.value), swap) <==> Safe(s, |buf|, op)
  {
    hide *;
    PackedOf(buf, s, recs, swap);
    if s.hid.Nothing? {
      PlanOnPacked(buf, s, recs, op, swap);
      SafeOnPacked(s, |buf|, op);
    } else {
      HoldsFacts(buf, s, recs, swap);
      SetFits(buf, recs, op, swap);
      SafeAgain(s, recs, |buf|, op, swap);
      AnyFlags(recs, |buf|, op, swap);
      if Index(recs, op.name) < |recs| { PlanAgain(buf, s, recs, op, swap); } else { PlanOver(buf, s, recs, op, swap); }
    }
  }

  lemma SafeOnPacked(s: Store, size: nat, op: Op)
    requires s.hid.Nothing?
    ensures Safe(s, size, op)
  {}

  /** The record has been written: the buffer is full now, or in good order. */
  lemma SetHolds(buf: seq<Byte>, s: Store, recs: seq<Rec>, op: Op, swap: bool)
    requires op.SetOp? && 4 <= |buf| < SIGN && Named(op.name) && Reclen(op.name, op.value) < SIGN
    requires Abs(recs, swap) == s.t && Distinct(recs) && Sound(recs) && Sound(recs + Back(s)) && Distinct(recs + Back(s))
    requires TableStep(s.t, |buf|, op).1.code == 0
    requires Written(buf, BaseRecs(s, recs, op.name) + [Rec(op.name, op.value)], swap)
    ensures var after, r, s2 := BaseRecs(s, recs, op.name), Rec(op.name, op.value), StoreStep(s, |buf|, op).0;
      Holds(buf, s2, if s2.hid.Hid? then after else after + [r], swap)
  {
    hide *;
    var after, r := BaseRecs(s, recs, op.name), Rec(op.name, op.value);
    BaseIs(s, recs, op.name, swap);
    IndexFound(after, op.name);
    Joined(after, r, swap);
    AbsIs(after + [r], swap);
    SoundMore(after, r);
    EncodeSplit(after, [r], swap);
    OneCell(r, swap);
    if |Encode(after + [r], swap)| < |buf| {
      IsWritten(buf, after + [r], swap);
      IsPacked(buf, after + [r], swap);
    } else {
      IsWritten(buf, after + [r], swap);
      NoZeros(buf, Encode(after + [r], swap));
      IsFull(buf, after, r, swap);
    }
    SetStore(s, |buf|, op);
    ToHolds(buf, StoreStep(s, |buf|, op).0, after, r, swap);
  }

  lemma SetStore(s: Store, size: nat, op: Op)
    requires op.SetOp? && TableStep(s.t, size, op).1.code == 0
    ensures var t2 := More(Base(s, op.name), op.name, op.value);
      StoreStep(s, size, op).0 ==
        if t2.used < size then Store(t2, Nothing) else Store(Base(s, op.name), Hid(op.name, op.value))
  {
    hide TableStep, More, Base;
  }

  lemma ToHolds(buf: seq<Byte>, s: Store, after: seq<Rec>, r: Rec, swap: bool)
    requires s.hid.Nothing? ==> Packed(buf, after + [r], swap) && Abs(after + [r], swap) == s.t
    requires s.hid.Hid? ==> s.hid == Hid(r.name, r.value) && Full(buf, after, r, swap) && Abs(after, swap) == s.t
    ensures Holds(buf, s, if s.hid.Hid? then after else after + [r], swap)
  {
    hide Packed, Full, Abs;
  }

  lemma SoundMore(recs: seq<Rec>, r: Rec)
    requires Sound(recs) && Named(r.name) && Reclen(r.name, r.value) < SIGN
    ensures Sound(recs + [r])
  {}

  lemma IsWritten(buf: seq<Byte>, recs: seq<Rec>, swap: bool)
    requires Written(buf, recs, swap)
    ensures |Encode(recs, swap)| <= |buf| && buf == Encode(recs, swap) + Zeros(|buf| - |Encode(recs, swap)|)
  {}

  lemma NoZeros(buf: seq<Byte>, a: seq<Byte>)
    requires |a| == |buf| && buf == a + Zeros(|buf| - |a|)
    ensures buf == a
  {}

  lemma IsFull(buf: seq<Byte>, recs: seq<Rec>, r: Rec, swap: bool)
    requires 4 <= |buf| < SIGN && Sound(recs + [r]) && Distinct(recs + [r]) && buf == Encode(recs, swap) + Cell(r, swap)
    ensures Full(buf, recs, r, swap)
  {}

  // ----- One operation

  lemma PlannedParts(buf: seq<Byte>, recs: seq<Rec>, after: seq<Rec>, r: Rec, swap: bool)
    requires Planned(buf, recs, after, r, swap)
    ensures Readable(buf, recs, swap)
    ensures var mid := Nameval.Cleared(buf, recs, r.name, swap);
      && Readable(mid, after, swap) && |Encode(after, swap)| + Reclen(r.name, r.value) <= |buf|
      && |Cell(r, swap)| == Reclen(r.name, r.value)
      && Written(Over(mid, |Encode(after, swap)|, Cell(r, swap)), after + [r], swap)
  {
    hide Readable, Encode, Reclen, Nameval.Cleared, Written, Over;
  }

  /** What an operation has answered and left. */
  ghost predicate Done(buf: seq<Byte>, s: Store, size: nat, op: Op, swap: bool, reply: Reply, recs: seq<Rec>)
  {
    var (s2, reply2) := StoreStep(s, size, op);
    reply == reply2 && Holds(buf, s2, recs, swap)
  }

  lemma SetDone(buf: seq<Byte>, now: seq<Byte>, s: Store, recs: seq<Rec>, op: Op, swap: bool, code: int)
    requires op.SetOp? && Holds(buf, s, recs, swap) && Proper(op) && |now| == |buf|
    requires code == SetCode(recs, |buf|, op.name, op.value, op.creating, op.replacing, swap)
    requires if code == 0 then Written(now, BaseRecs(s, recs, op.name) + [Rec(op.name, op.value)], swap) else now == buf
    ensures var s2 := StoreStep(s, |buf|, op).0;
      Done(now, s, |buf|, op, swap, Reply(code, []),
           if code != 0 then recs else if s2.hid.Hid? then BaseRecs(s, recs, op.name) else BaseRecs(s, recs, op.name) + [Rec(op.name, op.value)])
  {
    hide *;
    HoldsFacts(buf, s, recs, swap);
    SetFits(buf, recs, op, swap);
    ProperSet(op);
    if code == 0 { SetHolds(now, s, recs, op, swap); }
    StepReply(s, |buf|, op);
    var s2 := StoreStep(s, |buf|, op).0;
    ToDone(now, s, |buf|, op, swap, Reply(code, []),
      if code != 0 then recs else if s2.hid.Hid? then BaseRecs(s, recs, op.name) else BaseRecs(s, recs, op.name) + [Rec(op.name, op.value)]);
  }

  lemma StepReply(s: Store, size: nat, op: Op)
    ensures StoreStep(s, size, op).1 == TableStep(s.t, size, op).1
    ensures op.GetOp? || TableStep(s.t, size, op).1.code != 0 ==> StoreStep(s, size, op).0 == s
    ensures op.DelOp? && TableStep(s.t, size, op).1.code == 0 ==> StoreStep(s, size, op).0 == Store(Freed(s, op.name), Nothing)
  {
    hide TableStep, Freed, Base, More;
  }

  lemma ToDone(buf: seq<Byte>, s: Store, size: nat, op: Op, swap: bool, reply: Reply, recs: seq<Rec>)
    requires reply == StoreStep(s, size, op).1 && Holds(buf, StoreStep(s, size, op).0, recs, swap)
    ensures Done(buf, s, size, op, swap, reply, recs)
  {
    hide StoreStep, Holds;
  }

  lemma DelDone(buf: seq<Byte>, s: Store, recs: seq<Rec>, op: Op, swap: bool)
    requires op.DelOp? && Holds(buf, s, recs, swap)
    ensures Readable(buf, recs, swap)
    ensures Index(recs, op.name) < |recs| ==>
      Done(Deleted(buf, recs, op.name, swap), s, |buf|, op, swap, Reply(0, []), Without(recs, op.name) + Back(s))
    ensures Index(recs, op.name) == |recs| ==> Done(buf, s, |buf|, op, swap, Reply(-ENODATA, []), recs)
  {
    hide *;
    HoldsFacts(buf, s, recs, swap);
    PackedOf(buf, s, recs, swap);
    DelReply(recs, |buf|, op, swap);
    StepReply(s, |buf|, op);
    if Index(recs, op.name) < |recs| {
      FreedIs(s, recs, op.name, swap);
      BackIs(s, recs, op.name);
      if s.hid.Hid? { FullDeleted(buf, recs, Rec(s.hid.name, s.hid.value), op.name, swap); }
      else { DeletedPacked(buf, recs, op.name, swap); }
      var now, s2 := Deleted(buf, recs, op.name, swap), Store(Freed(s, op.name), Nothing);
      PackedHolds(now, s2, Without(recs, op.name) + Back(s), swap);
      ToDone(now, s, |buf|, op, swap, Reply(0, []), Without(recs, op.name) + Back(s));
    } else {
      ToDone(buf, s, |buf|, op, swap, Reply(-ENODATA, []), recs);
    }
  }

  lemma BackIs(s: Store, recs: seq<Rec>, n: Name)
    ensures Without(recs, n) + Back(s) == if s.hid.Hid? then Without(recs, n) + [Rec(s.hid.name, s.hid.value)] else Without(recs, n)
  {}

  lemma PackedHolds(buf: seq<Byte>, s: Store, recs: seq<Rec>, swap: bool)
    requires s.hid.Nothing? && Packed(buf, recs, swap) && Abs(recs, swap) == s.t
    ensures Holds(buf, s, recs, swap)
  {
    hide Packed, Abs;
  }

  lemma DelReply(recs: seq<Rec>, size: nat, op: Op, swap: bool)
    requires op.DelOp? && Distinct(recs)
    ensures TableStep(Abs(recs, swap), size, op).1 == Reply(if Index(recs, op.name) < |recs| then 0 else -ENODATA, [])
    ensures -ENODATA != 0
  {
    StepRefines(recs, size, op, swap);
    hide Abs, TableStep, Without, Index, Distinct;
  }

  lemma GetDone(buf: seq<Byte>, s: Store, recs: seq<Rec>, op: Op, swap: bool)
    requires op.GetOp? && Holds(buf, s, recs, swap)
    ensures Readable(buf, recs, swap)
    ensures var code := GetCode(recs, op.name, op.bsize);
      Done(buf, s, |buf|, op, swap, Reply(code, if code >= 0 && op.bsize > 0 then Lookup(recs, op.name) else []), recs)
  {
    HoldsFacts(buf, s, recs, swap);
    StepRefines(recs, |buf|, op, swap);
    hide Holds, Abs, TableStep, Without, Index, Distinct, Readable, Sound, GetCode, Lookup;
  }

  method SetStep(xb: array<Byte>, op: Op, swap: bool, ghost s: Store, ghost recs: seq<Rec>) returns (reply: Reply, ghost now: seq<Rec>)
    requires op.SetOp? && Holds(xb[..], s, recs, swap) && Proper(op) && Safe(s, xb.Length, op)
    modifies xb
    ensures Done(xb[..], s, xb.Length, op, swap, reply, now)
  {
    ghost var buf, after, r := xb[..], BaseRecs(s, recs, op.name), Rec(op.name, op.value);
    hide *;
    ghost var planned := SetCode(recs, |buf|, op.name, op.value, op.creating, op.replacing, swap);
    if planned == 0 {
      SafeExact(buf, s, recs, op, swap);
      PlannedParts(buf, recs, after, r, swap);
    }
    HoldsFacts(buf, s, recs, swap);
    ProperSet(op);
    var code, _ := Set(xb, op.name, op.value, op.creating, op.replacing, swap, recs, after);
    SetDone(buf, xb[..], s, recs, op, swap, code);
    reply := Reply(code, []);
    now := if code != 0 then recs else if StoreStep(s, |buf|, op).0.hid.Hid? then after else after + [r];
  }

  lemma DelCode(recs: seq<Rec>, n: Name)
    ensures (if Index(recs, n) < |recs| then 0 else -ENODATA) == 0 <==> Index(recs, n) < |recs|
    ensures Index(recs, n) <= |recs|
  {}

  /** One operation on a store that may be full. */
  method DoStep(xb: array<Byte>, op: Op, swap: bool, ghost s: Store, ghost recs: seq<Rec>) returns (reply: Reply, ghost now: seq<Rec>)
    requires Holds(xb[..], s, recs, swap) && Proper(op) && Safe(s, xb.Length, op)
    modifies xb
    ensures Done(xb[..], s, xb.Length, op, swap, reply, now)
  {
    assert Named(op.name);
    hide *;
    match op
    case SetOp(_, _, _, _) =>
      reply, now := SetStep(xb, op, swap, s, recs);
    case DelOp(name) =>
      DelDone(xb[..], s, recs, op, swap);
      DelCode(recs, name);
      var code := Del(xb, name, swap, recs);
      reply := Reply(code, []);
      now := if code == 0 then Without(recs, name) + Back(s) else recs;
    case GetOp(_, _) =>
      GetDone(xb[..], s, recs, op, swap);
      reply := Fetch(xb, op, swap, recs);
      now := recs;
  }

  // ----- Whole runs

  lemma StoreRunStep(s: Store, size: nat, ops: seq<Op>, i: nat)
    requires i < |ops|
    ensures var (s1, replies) := StoreRun(s, size, ops[..i]); var (s2, reply) := StoreStep(s1, size, ops[i]);
      StoreRun(s, size, ops[..i + 1]) == (s2, replies + [reply])
  {
    assert ops[..i + 1][..i] == ops[..i];
    hide StoreStep;
  }

  lemma RunDone(buf: seq<Byte>, s: Store, size: nat, ops: seq<Op>, i: nat, swap: bool, reply: Reply, now: seq<Rec>)
    requires i < |ops| && Done(buf, StoreRun(s, size, ops[..i]).0, size, ops[i], swap, reply, now)
    ensures Holds(buf, StoreRun(s, size, ops[..i + 1]).0, now, swap)
    ensures StoreRun(s, size, ops[..i + 1]).1 == StoreRun(s, size, ops[..i]).1 + [reply]
  {
    StoreRunStep(s, size, ops, i);
    hide StoreStep, StoreRun, Holds;
  }

  lemma SafeAt(s: Store, size: nat, ops: seq<Op>, i: nat)
    requires SafeRun(s, size, ops) && i < |ops|
    ensures Safe(StoreRun(s, size, ops[..i]).0, size, ops[i])
  {
    hide StoreRun, Safe;
  }

  /** Every run of set, get and del on a buffer in good order or full, in which every set on the full buffer is
      safe: the replies are those of the store, and the buffer holds it. */
  method RunStore(xb: array<Byte>, ops: seq<Op>, swap: bool, ghost s: Store, ghost recs: seq<Rec>)
    returns (replies: seq<Reply>, ghost now: seq<Rec>)
    requires Holds(xb[..], s, recs, swap) && (forall op :: op in ops ==> Proper(op)) && SafeRun(s, xb.Length, ops)
    modifies xb
    ensures replies == StoreRun(s, xb.Length, ops).1
    ensures Holds(xb[..], StoreRun(s, xb.Length, ops).0, now, swap)
  {
    assert ops[..0] == [];
    assert StoreRun(s, xb.Length, []) == (s, []);
    hide *;
    replies, now := [], recs;
    var i := 0;
    while i < |ops|
      invariant i <= |ops| && replies == StoreRun(s, xb.Length, ops[..i]).1
      invariant Holds(xb[..], StoreRun(s, xb.Length, ops[..i]).0, now, swap)
    {
      SafeAt(s, xb.Length, ops, i);
      var reply;
      reply, now := DoStep(xb, ops[i], swap, StoreRun(s, xb.Length, ops[..i]).0, now);
      RunDone(xb[..], s, xb.Length, ops, i, swap, reply, now);
      replies := replies + [reply];
      i := i + 1;
    }
    assert ops[..i] == ops;
  }

  /** As long as every set leaves a byte free it is the run of the map, and safe. */
  lemma {:induction false} RoomyStore(t: Table, size: nat, ops: seq<Op>)
    requires Roomy(t, size, ops)
    ensures StoreRun(Store(t, Nothing), size, ops) == (Store(TableRun(t, size, ops).0, Nothing), TableRun(t, size, ops).1)
    decreases |ops|
  {
    hide TableStep;
    if ops != [] {
      var init, op := ops[..|ops| - 1], ops[|ops| - 1];
      RoomyStore(t, size, init);
      RoomyStep(TableRun(t, size, init).0, size, op);
    }
  }

  lemma RoomyStep(t: Table, size: nat, op: Op)
    requires TableStep(t, size, op).0.used < size
    ensures var (t2, reply) := TableStep(t, size, op);
      StoreStep(Store(t, Nothing), size, op) == (Store(t2, Nothing), reply)
  {
    if op.SetOp? { assert (t.m - {op.name})[op.name := op.value] == t.m[op.name := op.value]; }
    hide Reclen;
  }
}
