/** The bitmap of the page allocator is the free set of the virtual-memory machine. */
module PageFree {
  import opened PageMap
  import M = CowModel

  /** The pages that a map calls free. */
  function FreeSet(m: seq<bv32>): set<nat> { set p: nat | p < 32 * |m| && IsFree(m, p) }

  lemma InSet(m: seq<bv32>, p: nat)
    ensures p in FreeSet(m) <==> IsFree(m, p)
  {}

  /** Taking and giving a page, seen as sets. */
  lemma Moves(m: seq<bv32>, p: nat)
    requires p / 32 < |m|
    ensures FreeSet(Taken(m, p)) == FreeSet(m) - {p} && FreeSet(Given(m, p)) == FreeSet(m) + {p}
  {
    forall q: nat ensures q in FreeSet(Taken(m, p)) <==> q in FreeSet(m) && q != p
      ensures q in FreeSet(Given(m, p)) <==> q in FreeSet(m) || q == p
    {
      TakenFree(m, p, q);
      InSet(m, q);
      InSet(Taken(m, p), q);
      InSet(Given(m, p), q);
    }
    hide IsFree, FreeSet, Taken, Given;
  }

  /** The lowest free page of the map is the page that the machine takes. */
  lemma Lowest(m: seq<bv32>, free: set<nat>, p: nat)
    requires |m| == M.PAGES / 32 && FreeSet(m) == free && IsFree(m, p) && forall q: nat :: q < p ==> !IsFree(m, q)
    ensures M.FirstFree(free, 0) == p && p < M.PAGES
  {
    InSet(m, p);
    assert p < M.PAGES by { assert p / 32 < 512; }
    var f := M.FirstFree(free, 0);
    InSet(m, f);
    hide IsFree, FreeSet;
  }

  lemma NoneFree(m: seq<bv32>, free: set<nat>)
    requires FreeSet(m) == free && forall q: nat :: !IsFree(m, q)
    ensures M.FirstFree(free, 0) == M.PAGES
  {
    InSet(m, M.FirstFree(free, 0));
    hide IsFree, FreeSet;
  }

  /** get_page on the bitmap takes the page that the machine's get_page takes, and fails when that does. */
  method Allocate(m: array<bv32>, ghost s: M.State) returns (p: int)
    requires m.Length == M.PAGES / 32 && FreeSet(m[..]) == s.free
    modifies m
    ensures match M.GetPage(s)
      case Done(v) => p == v.1 && FreeSet(m[..]) == v.0.free
      case Stuck(_) => p == -1 && m[..] == old(m[..])
  {
    hide IsFree, FreeSet, Taken, M.FirstFree;
    p := PageMap.GetPage(m);
    if p >= 0 {
      Lowest(old(m[..]), s.free, p);
      Moves(old(m[..]), p);
    } else {
      NoneFree(old(m[..]), s.free);
    }
  }

  /** put_page on the bitmap is that of the machine. */
  method Release(m: array<bv32>, p: nat, ghost s: M.State)
    requires m.Length == M.PAGES / 32 && FreeSet(m[..]) == s.free && p < M.PAGES
    modifies m
    ensures FreeSet(m[..]) == M.PutPage(s, p).free
  {
    hide IsFree, FreeSet, Given;
    Moves(m[..], p);
    PageMap.PutPage(m, p);
  }
}
