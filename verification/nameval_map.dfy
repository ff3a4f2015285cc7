/** The name/value store is a finite map with a byte budget. */
module NamevalMap {
  import opened Words
  import opened NamevalModel
  import opened Nameval

  type Name = seq<Byte>

  /** The map, and the bytes its records take. */
  datatype Table = Table(m: map<Name, seq<Byte>>, used: int)

  function Names(recs: seq<Rec>): set<Name> { set r | r in recs :: r.name }

  function MapOf(recs: seq<Rec>): map<Name, seq<Byte>>
  {
    map n | n in Names(recs) :: Lookup(recs, n)
  }

  function Lookup(recs: seq<Rec>, n: Name): seq<Byte>
  {
    var i := Index(recs, n);
    if i < |recs| then recs[i].value else []
  }

  ghost function Abs(recs: seq<Rec>, swap: bool): Table { Table(MapOf(recs), |Encode(recs, swap)|) }

  datatype Op =
    | SetOp(name: Name, value: seq<Byte>, creating: bool, replacing: bool)
    | DelOp(name: Name)
    | GetOp(name: Name, bsize: nat)

  /** The error code, and the value that a get hands out. */
  datatype Reply = Reply(code: int, value: seq<Byte>)

  /** What the routines on the buffer do to its records. */
  function RecStep(recs: seq<Rec>, size: nat, op: Op, swap: bool): (seq<Rec>, Reply)
  {
    match op
    case SetOp(n, v, creating, replacing) =>
      var code := SetCode(recs, size, n, v, creating, replacing, swap);
      (if code == 0 then Without(recs, n) + [Rec(n, v)] else recs, Reply(code, []))
    case DelOp(n) =>
      if Index(recs, n) < |recs| then (Without(recs, n), Reply(0, [])) else (recs, Reply(-ENODATA, []))
    case GetOp(n, bsize) =>
      var code := GetCode(recs, n, bsize);
      (recs, Reply(code, if code >= 0 && bsize > 0 then Lookup(recs, n) else []))
  }

  function Kept(t: Table, n: Name): int { t.used - if n in t.m then Reclen(n, t.m[n]) else 0 }

  /** The same on the map. */
  function TableStep(t: Table, size: nat, op: Op): (Table, Reply)
  {
    match op
    case SetOp(n, v, creating, replacing) =>
      if creating && n in t.m then (t, Reply(-EEXIST, []))
      else if replacing && n !in t.m then (t, Reply(-ENODATA, []))
      else if Kept(t, n) + Reclen(n, v) > size then (t, Reply(-ENOSPC, []))
      else (Table(t.m[n := v], Kept(t, n) + Reclen(n, v)), Reply(0, []))
    case DelOp(n) =>
      if n in t.m then (Table(t.m - {n}, Kept(t, n)), Reply(0, [])) else (t, Reply(-ENODATA, []))
    case GetOp(n, bsize) =>
      (t, if n !in t.m then Reply(-ENODATA, [])
          else if bsize == 0 then Reply(|t.m[n]|, [])
          else if |t.m[n]| <= bsize then Reply(|t.m[n]|, t.m[n])
          else Reply(-ERANGE, []))
  }

  // ----- Records and their map

  lemma {:induction false} IndexFound(recs: seq<Rec>, n: Name)
    ensures Index(recs, n) < |recs| <==> n in Names(recs)
    ensures n in MapOf(recs) <==> Index(recs, n) < |recs|
    ensures n in MapOf(recs) ==> MapOf(recs)[n] == recs[Index(recs, n)].value
  {
    if n in Names(recs) {
      var r :| r in recs && r.name == n;
      var k :| 0 <= k < |recs| && recs[k] == r;
    }
    if Index(recs, n) < |recs| { assert recs[Index(recs, n)] in recs; }
  }

  lemma DistinctIndex(recs: seq<Rec>, k: nat)
    requires Distinct(recs) && k < |recs|
    ensures Index(recs, recs[k].name) == k
  {}

  lemma WithoutMembers(recs: seq<Rec>, n: Name, r: Rec)
    requires Distinct(recs)
    ensures r in Without(recs, n) <==> r in recs && r.name != n
  {
    var i := Index(recs, n);
    if i < |recs| {
      assert recs == recs[..i] + [recs[i]] + recs[i + 1..];
    }
  }

  lemma MapMember(recs: seq<Rec>, r: Rec)
    requires Distinct(recs)
    ensures r in recs <==> r.name in MapOf(recs) && MapOf(recs)[r.name] == r.value
  {
    IndexFound(recs, r.name);
    if r in recs {
      var k :| 0 <= k < |recs| && recs[k] == r;
      DistinctIndex(recs, k);
    }
  }

  /** Two lists of distinct records with the same members give the same map. */
  lemma SameMap(a: seq<Rec>, m: map<Name, seq<Byte>>)
    requires Distinct(a)
    requires forall r: Rec :: r in a <==> r.name in m && m[r.name] == r.value
    ensures MapOf(a) == m
  {
    forall n ensures n in MapOf(a) <==> n in m
      ensures n in m ==> MapOf(a)[n] == m[n]
    {
      if n in m { MapMember(a, Rec(n, m[n])); assert Rec(n, m[n]) in a; }
      if n in MapOf(a) { MapMember(a, Rec(n, MapOf(a)[n])); assert Rec(n, MapOf(a)[n]).name in m; }
    }
  }

  lemma WithoutMap(recs: seq<Rec>, n: Name)
    requires Distinct(recs)
    ensures Distinct(Without(recs, n)) && MapOf(Without(recs, n)) == MapOf(recs) - {n}
  {
    forall r: Rec ensures r in Without(recs, n) <==> r.name in MapOf(recs) - {n} && (MapOf(recs) - {n})[r.name] == r.value {
      WithoutMembers(recs, n, r);
      MapMember(recs, r);
    }
    WithoutDistinct(recs, n);
    SameMap(Without(recs, n), MapOf(recs) - {n});
  }

  lemma WithoutDistinct(recs: seq<Rec>, n: Name)
    requires Distinct(recs)
    ensures Distinct(Without(recs, n))
  {}

  lemma AddedMap(recs: seq<Rec>, n: Name, v: seq<Byte>)
    requires Distinct(recs) && n !in MapOf(recs)
    ensures Distinct(recs + [Rec(n, v)]) && MapOf(recs + [Rec(n, v)]) == MapOf(recs)[n := v]
  {
    var more := recs + [Rec(n, v)];
    forall k | 0 <= k < |recs| ensures recs[k].name != n {
      MapMember(recs, recs[k]);
    }
    forall r: Rec ensures r in more <==> r.name in MapOf(recs)[n := v] && MapOf(recs)[n := v][r.name] == r.value {
      MapMember(recs, r);
    }
    SameMap(more, MapOf(recs)[n := v]);
  }

  lemma Budget(recs: seq<Rec>, n: Name, swap: bool)
    ensures |Encode(Without(recs, n), swap)| == Kept(Abs(recs, swap), n)
  {
    IndexFound(recs, n);
    var i := Index(recs, n);
    if i < |recs| {
      EncodeAt(recs, i, swap);
      EncodeSplit(recs[..i], recs[i + 1..], swap);
      hide Encode, Cell;
    }
  }

  // ----- Refinement

  lemma AddedAbs(recs: seq<Rec>, n: Name, v: seq<Byte>, swap: bool)
    requires Distinct(recs)
    ensures var recs2 := Without(recs, n) + [Rec(n, v)];
      Distinct(recs2) && Abs(recs2, swap) == Table(MapOf(recs)[n := v], Kept(Abs(recs, swap), n) + Reclen(n, v))
  {
    hide *;
    Budget(recs, n, swap);
    WithoutMap(recs, n);
    AddedMap(Without(recs, n), n, v);
    EncodeSplit(Without(recs, n), [Rec(n, v)], swap);
    OneCell(Rec(n, v), swap);
    AbsIs(Without(recs, n) + [Rec(n, v)], swap);
    assert (MapOf(recs) - {n})[n := v] == MapOf(recs)[n := v];
  }

  lemma AbsIs(recs: seq<Rec>, swap: bool)
    ensures Abs(recs, swap) == Table(MapOf(recs), |Encode(recs, swap)|)
  {}

  lemma RemovedAbs(recs: seq<Rec>, n: Name, swap: bool)
    requires Distinct(recs)
    ensures Distinct(Without(recs, n)) && Abs(Without(recs, n), swap) == Table(MapOf(recs) - {n}, Kept(Abs(recs, swap), n))
  {
    Budget(recs, n, swap);
    WithoutMap(recs, n);
    hide MapOf, Encode, Without, Distinct, Kept;
  }

  /** A name's presence and value, in the records and in the map. */
  lemma Seen(recs: seq<Rec>, n: Name, swap: bool)
    ensures Index(recs, n) < |recs| <==> n in Abs(recs, swap).m
    ensures n in Abs(recs, swap).m ==> Lookup(recs, n) == Abs(recs, swap).m[n] && recs[Index(recs, n)].value == Lookup(recs, n)
    ensures |Encode(Without(recs, n), swap)| == Kept(Abs(recs, swap), n)
    ensures Abs(recs, swap).m == MapOf(recs)
  {
    IndexFound(recs, n);
    Budget(recs, n, swap);
  }

  /** Every operation on the records is the operation on the map, with the same reply. */
  lemma StepRefines(recs: seq<Rec>, size: nat, op: Op, swap: bool)
    requires Distinct(recs)
    ensures var (recs2, reply) := RecStep(recs, size, op, swap); var (t2, reply2) := TableStep(Abs(recs, swap), size, op);
      Distinct(recs2) && Abs(recs2, swap) == t2 && reply == reply2
  {
    hide MapOf, Encode, Without, Distinct, Index, Kept, Reclen, Lookup, Abs;
    Seen(recs, op.name, swap);
    match op
    case SetOp(n, v, _, _) => AddedAbs(recs, n, v, swap);
    case DelOp(n) => RemovedAbs(recs, n, swap);
    case GetOp(_, _) =>
  }

  predicate HasName(recs: seq<Rec>, n: Name) { exists r :: r in recs && r.name == n }

  lemma NameFound(recs: seq<Rec>, n: Name)
    ensures HasName(recs, n) <==> Index(recs, n) < |recs|
  {
    IndexFound(recs, n);
    if HasName(recs, n) {
      var r :| r in recs && r.name == n;
      assert n in Names(recs);
    }
    if Index(recs, n) < |recs| { assert recs[Index(recs, n)] in recs; }
  }

  /** What a set answers: a name that is to be new and is there, one that is to be there and is not, and a record for
      which the others leave no room, in this order; otherwise it is done. */
  lemma SetAnswers(recs: seq<Rec>, size: nat, n: Name, v: seq<Byte>, creating: bool, replacing: bool, swap: bool)
    ensures var code := SetCode(recs, size, n, v, creating, replacing, swap);
      && (code == -17 <==> creating && HasName(recs, n))
      && (code == -61 <==> code != -17 && replacing && !HasName(recs, n))
      && (code == -28 <==> code != -17 && code != -61 && |Encode(Without(recs, n), swap)| + 5 + |n| + |v| > size)
      && (code == 0 || code == -17 || code == -61 || code == -28)
  {
    NameFound(recs, n);
    hide Encode, Without, HasName;
  }

  /** What a get answers: nothing there, its length if there is no room for it at all or enough, else too little room. */
  lemma GetAnswers(recs: seq<Rec>, n: Name, bsize: nat)
    requires Distinct(recs)
    ensures var code := GetCode(recs, n, bsize);
      && (code == -61 <==> !HasName(recs, n))
      && forall r :: r in recs && r.name == n ==> code == if bsize == 0 || |r.value| <= bsize then |r.value| else -34
  {
    NameFound(recs, n);
    forall r | r in recs && r.name == n ensures r == recs[Index(recs, n)] {
      var k :| 0 <= k < |recs| && recs[k] == r;
      DistinctIndex(recs, k);
    }
    hide HasName;
  }

  function TableRun(t: Table, size: nat, ops: seq<Op>): (Table, seq<Reply>)
    decreases |ops|
  {
    if ops == [] then (t, []) else
    var (t1, replies) := TableRun(t, size, ops[..|ops| - 1]);
    var (t2, reply) := TableStep(t1, size, ops[|ops| - 1]);
    (t2, replies + [reply])
  }

  /** Names are free of NUL and a record's length fits 32 bits. */
  predicate Proper(op: Op) { Named(op.name) && (op.SetOp? ==> Reclen(op.name, op.value) < SIGN) }

  /** At least one byte is free, at first and after every operation. */
  predicate Roomy(t: Table, size: nat, ops: seq<Op>)
    decreases |ops|
  {
    TableRun(t, size, ops).0.used < size && (ops == [] || Roomy(t, size, ops[..|ops| - 1]))
  }

  // ----- The byte that must stay free

  /** A set that fills the buffer to its last byte reports success, yet the new record cannot be
      seen any more; with a byte to spare it can. */
  lemma SetSeen(buf: seq<Byte>, recs: seq<Rec>, name: Name, value: seq<Byte>, swap: bool)
    requires 4 <= |buf| < SIGN && Sound(recs) && Distinct(recs) && Named(name) && Reclen(name, value) < SIGN
    requires var recs2 := Without(recs, name) + [Rec(name, value)];
      |Encode(recs2, swap)| <= |buf| && buf == Encode(recs2, swap) + Zeros(|buf| - |Encode(recs2, swap)|)
    ensures var recs2 := Without(recs, name) + [Rec(name, value)];
      if |Encode(recs2, swap)| < |buf| then Readable(buf, recs2, swap) && Packed(buf, recs2, swap)
      else Readable(buf, Without(recs, name), swap) && name !in MapOf(Without(recs, name))
  {
    var rest, r := Without(recs, name), Rec(name, value);
    hide MapOf, Encode, Without, Distinct, Cell, Readable, Zeros, Named, Sound, Packed, Reclen;
    SoundAdded(recs, name, value);
    WithoutMap(recs, name);
    AddedMap(rest, name, value);
    EncodeSplit(rest, [r], swap);
    OneCell(r, swap);
    if |Encode(rest + [r], swap)| < |buf| {
      IsPacked(buf, rest + [r], swap);
      PackedReadable(buf, rest + [r], swap);
    } else {
      assert buf == Encode(rest, swap) + Cell(r, swap);
      FullReadable(buf, rest, r, swap);
    }
  }

  lemma IsPacked(buf: seq<Byte>, recs: seq<Rec>, swap: bool)
    requires 4 <= |buf| < SIGN && Sound(recs) && Distinct(recs) && |Encode(recs, swap)| < |buf|
    requires buf == Encode(recs, swap) + Zeros(|buf| - |Encode(recs, swap)|)
    ensures Packed(buf, recs, swap)
  {}

  lemma SoundAdded(recs: seq<Rec>, n: Name, v: seq<Byte>)
    requires Sound(recs)
    ensures Sound(Without(recs, n))
    ensures Named(n) && Reclen(n, v) < SIGN ==> Sound(Without(recs, n) + [Rec(n, v)])
  {}

  lemma FullReadable(buf: seq<Byte>, rest: seq<Rec>, r: Rec, swap: bool)
    requires 4 <= |buf| < SIGN && Sound(rest) && Distinct(rest) && Reclen(r.name, r.value) < SIGN
    requires buf == Encode(rest, swap) + Cell(r, swap)
    ensures Readable(buf, rest, swap)
  {
    LastWord(buf, Encode(rest, swap), r, swap);
    hide Encode, Sound, Distinct, Word, Cell;
  }

  lemma LastWord(buf: seq<Byte>, a: seq<Byte>, r: Rec, swap: bool)
    requires Reclen(r.name, r.value) < SIGN && buf == a + Cell(r, swap)
    ensures |a| + Reclen(r.name, r.value) == |buf| && buf[..|a|] == a && Word(buf, |a|, swap) == Reclen(r.name, r.value)
  {
    var n := Reclen(r.name, r.value);
    Words.RoundTrip(n, swap);
    hide Put, Get;
    assert buf[|a|..|a| + 4] == Cell(r, swap)[..4] == Put(n, swap);
  }

  /** nval_list with room for all of them lists every name of the map once, in order. */
  lemma {:induction false} ListsAll(recs: seq<Rec>, done: nat, bsize: nat, swap: bool)
    requires done + |Encode(recs, swap)| < bsize
    ensures Listed(recs, done, bsize) == Joined(recs)
    decreases |recs|
  {
    if recs != [] {
      EncodeAt(recs, 0, swap);
      assert recs[..0] == [];
      hide Encode, Cell;
      ListsAll(recs[1..], done + |recs[0].name| + 1, bsize, swap);
    }
  }

  function Joined(recs: seq<Rec>): seq<Byte>
  {
    if recs == [] then [] else recs[0].name + [0] + Joined(recs[1..])
  }

  /** The list names the first records, as many as leave a byte of the room free: `k` of them, and no more would. */
  lemma {:induction false} ListsFirst(recs: seq<Rec>, done: nat, bsize: nat) returns (k: nat)
    ensures k <= |recs| && Listed(recs, done, bsize) == Joined(recs[..k])
    ensures k > 0 ==> done + |Joined(recs[..k])| < bsize
    ensures forall j :: k < j <= |recs| ==> done + |Joined(recs[..j])| >= bsize
    decreases |recs|
  {
    if recs == [] || done + |recs[0].name| + 1 >= bsize {
      k := 0;
      forall j | 0 < j <= |recs| ensures done + |Joined(recs[..j])| >= bsize { assert recs[..j][0] == recs[0]; }
    } else {
      var d := |recs[0].name| + 1;
      k := ListsFirst(recs[1..], done + d, bsize);
      k := k + 1;
      JoinedNext(recs, k);
      forall j | k < j <= |recs| ensures done + |Joined(recs[..j])| >= bsize { JoinedNext(recs, j); }
    }
  }

  lemma JoinedNext(recs: seq<Rec>, j: nat)
    requires 0 < j <= |recs|
    ensures Joined(recs[..j]) == recs[0].name + [0] + Joined(recs[1..][..j - 1])
  {
    assert recs[..j][1..] == recs[1..][..j - 1];
  }

  lemma OneCell(r: Rec, swap: bool)
    ensures Encode([r], swap) == Cell(r, swap)
  {
    assert [r][..0] == [];
    hide Cell;
  }
}
