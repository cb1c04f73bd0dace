/** The free list of pages as the kernel keeps it: `le_next` and `le_prev` links threaded through
    the page records (include/queue.h), and the search for adjacent pages on it
    (kern/pmap.c, `page_alloc_sequent`). */
module PageSequent {
  import opened Options

  const NIL: int := -1

  /** The list without its elements a .. b - 1. */
  function Without<T>(l: seq<T>, a: nat, b: nat): seq<T>
    requires a <= b <= |l|
  {
    l[..a] + l[b..]
  }

  /** The element at position `k`, NIL past the end. */
  function At(l: seq<nat>, k: int): int
    requires k >= -1
  {
    if 0 <= k < |l| then l[k] else NIL
  }

  predicate Differ(l: seq<nat>, j: int, k: int) {
    0 <= j < |l| && 0 <= k < |l| && j != k ==> l[j] != l[k]
  }

  ghost predicate Distinct(l: seq<nat>) {
    forall j, k :: Differ(l, j, k)
  }

  predicate NextOk(next: seq<int>, l: seq<nat>, k: int) {
    0 <= k < |l| ==> l[k] < |next| && next[l[k]] == At(l, k + 1)
  }

  predicate PrevOk(prev: seq<int>, l: seq<nat>, k: int) {
    0 <= k < |l| ==> l[k] < |prev| && prev[l[k]] == At(l, k - 1)
  }

  /** `first`, `next` and `prev` represent the list `l`. `prev` is the page whose `le_next` field
      points here, NIL for the list head. */
  ghost predicate Links(first: int, next: seq<int>, prev: seq<int>, l: seq<nat>) {
    && |next| == |prev|
    && Distinct(l)
    && first == At(l, 0)
    && (forall k :: NextOk(next, l, k))
    && (forall k :: PrevOk(prev, l, k))
  }

  // ----- what a run of adjacent pages is -----

  predicate Adjacent(l: seq<nat>, j: int)
    requires 0 < j < |l|
  {
    l[j - 1] == l[j] + 1
  }

  /** The `n` list elements that end at position `e` are pages x + n - 1, ..., x + 1, x. */
  predicate RunEndsAt(l: seq<nat>, e: int, n: int) {
    && 0 <= e < |l| && 1 <= n <= e + 1
    && forall j | e - n + 1 < j <= e :: Adjacent(l, j)
  }

  /** Such a run is one contiguous range of pages, given from the highest page to the lowest. */
  lemma {:induction false} RunIsRange(l: seq<nat>, e: int, n: int, d: nat)
    requires RunEndsAt(l, e, n) && d < n
    ensures l[e - d] == l[e] + d
  {
    if d > 0 {
      RunIsRange(l, e, n, d - 1);
      assert Adjacent(l, e - d + 1);
    }
  }

  /** `cnt` is the length of the longest run that ends at position `e`. */
  ghost predicate Longest(l: seq<nat>, e: int, cnt: int) {
    RunEndsAt(l, e, cnt) && (e - cnt >= 0 ==> !Adjacent(l, e - cnt + 1))
  }

  lemma RunStep(l: seq<nat>, e: int, n: int, j: int)
    requires RunEndsAt(l, e, n) && e - n + 1 < j <= e
    ensures Adjacent(l, j)
  {
  }

  lemma LongestBounds(l: seq<nat>, e: int, cnt: int, n: int)
    requires Longest(l, e, cnt) && cnt < n
    ensures !RunEndsAt(l, e, n)
  {
    if RunEndsAt(l, e, n) { RunStep(l, e, n, e - cnt + 1); }
  }

  // ----- unlinking -----

  function UnlinkNext(next: seq<int>, prev: seq<int>, p: nat): seq<int>
    requires p < |next| == |prev|
  {
    if 0 <= prev[p] < |next| then next[prev[p] := next[p]] else next
  }

  function UnlinkPrev(next: seq<int>, prev: seq<int>, p: nat): seq<int>
    requires p < |next| == |prev|
  {
    if 0 <= next[p] < |prev| then prev[next[p] := prev[p]] else prev
  }

  function UnlinkFirst(first: int, next: seq<int>, prev: seq<int>, p: nat): int
    requires p < |next| == |prev|
  {
    if prev[p] == NIL then next[p] else first
  }

  lemma UnlinkedNext(first: int, next: seq<int>, prev: seq<int>, l: seq<nat>, k: nat, i: int)
    requires Links(first, next, prev, l) && k < |l| && l[k] < |next|
    ensures NextOk(UnlinkNext(next, prev, l[k]), Without(l, k, k + 1), i)
  {
    assert NextOk(next, l, k) && PrevOk(prev, l, k);
    var i' := if i < k then i else i + 1;
    assert NextOk(next, l, i') && Differ(l, i', k) && Differ(l, i', k - 1);
  }

  lemma UnlinkedPrev(first: int, next: seq<int>, prev: seq<int>, l: seq<nat>, k: nat, i: int)
    requires Links(first, next, prev, l) && k < |l| && l[k] < |next|
    ensures PrevOk(UnlinkPrev(next, prev, l[k]), Without(l, k, k + 1), i)
  {
    assert NextOk(next, l, k) && PrevOk(prev, l, k);
    var i' := if i < k then i else i + 1;
    assert PrevOk(prev, l, i') && Differ(l, i', k) && Differ(l, i', k + 1);
  }

  /** After the writes of LIST_REMOVE the links represent the list without that element. */
  lemma Unlinked(first: int, next: seq<int>, prev: seq<int>, l: seq<nat>, k: nat)
    requires Links(first, next, prev, l) && k < |l|
    ensures l[k] < |next| && Links(UnlinkFirst(first, next, prev, l[k]), UnlinkNext(next, prev, l[k]),
                  UnlinkPrev(next, prev, l[k]), Without(l, k, k + 1))
  {
    var l' := Without(l, k, k + 1);
    assert NextOk(next, l, k) && PrevOk(prev, l, k);
    forall i, j ensures Differ(l', i, j) {
      assert Differ(l, if i < k then i else i + 1, if j < k then j else j + 1);
    }
    forall i ensures NextOk(UnlinkNext(next, prev, l[k]), l', i) {
      UnlinkedNext(first, next, prev, l, k, i);
    }
    forall i ensures PrevOk(UnlinkPrev(next, prev, l[k]), l', i) {
      UnlinkedPrev(first, next, prev, l, k, i);
    }
  }

  function PushNext(first: int, next: seq<int>, p: nat): seq<int>
    requires p < |next|
  {
    next[p := first]
  }

  function PushPrev(first: int, prev: seq<int>, p: nat): seq<int>
    requires p < |prev|
  {
    (if 0 <= first < |prev| then prev[first := p] else prev)[p := NIL]
  }

  lemma Linked(first: int, next: seq<int>, prev: seq<int>, l: seq<nat>, p: nat)
    requires Links(first, next, prev, l) && p < |next| && p !in l
    ensures Links(p, PushNext(first, next, p), PushPrev(first, prev, p), [p] + l)
  {
    var l' := [p] + l;
    assert NextOk(next, l, 0) && PrevOk(prev, l, 0);
    forall i, j ensures Differ(l', i, j) {
      assert Differ(l, i - 1, j - 1);
    }
    forall i ensures NextOk(PushNext(first, next, p), l', i) {
      assert NextOk(next, l, i - 1) && (1 <= i < |l'| ==> l'[i] == l[i - 1]);
    }
    forall i ensures PrevOk(PushPrev(first, prev, p), l', i) {
      assert Differ(l, i - 1, 0);
      assert PrevOk(prev, l, i - 1) && (1 <= i < |l'| ==> l'[i] == l[i - 1]);
    }
  }

  class FreeList {
    var first: int
    var next: seq<int>
    var prev: seq<int>
    var refs: seq<nat>
    var data: seq<seq<nat>>
    ghost var list: seq<nat>

    ghost predicate Valid()
      reads this
    {
      && |next| == |prev| == |refs| == |data|
      && Links(first, next, prev, list)
    }

    /** An empty list over `npage` page records. */
    constructor (npage: nat)
      ensures Valid() && list == [] && |next| == npage
    {
      next := seq(npage, i => NIL);
      prev := seq(npage, i => NIL);
      refs := seq(npage, i => 0);
      data := seq(npage, i => []);
      first, list := NIL, [];
    }

    /** LIST_INSERT_HEAD. */
    method InsertHead(p: nat)
      requires Valid() && p < |next| && p !in list
      modifies this`first, this`list, this`next, this`prev
      ensures Valid() && list == [p] + old(list)
    {
      ghost var n, v := next, prev;
      Linked(first, n, v, list, p);
      assert NextOk(n, list, 0);
      next := next[p := first];
      if first != NIL { prev := prev[first := p]; }
      first, list := p, [p] + list;
      prev := prev[p := NIL];
    }

    /** LIST_REMOVE: takes out the page at position `k`; its own links keep their values. */
    method Remove(p: nat, ghost k: nat)
      requires Valid() && k < |list| && list[k] == p < |next|
      modifies this`first, this`list, this`next, this`prev
      ensures Valid() && list == Without(old(list), k, k + 1)
      ensures |next| == |old(next)| && next[p] == old(next[p])
    {
      ghost var n, v := next, prev;
      Unlinked(first, n, v, list, k);
      assert NextOk(n, list, k) && PrevOk(v, list, k) && Differ(list, k, k - 1);
      assert NextOk(n, list, k - 1) && NextOk(n, list, k + 1) && Differ(list, k, k + 1);
      if next[p] != NIL { prev := prev[next[p] := prev[p]]; }
      assert prev == UnlinkPrev(n, v, p);
      assert prev[p] == v[p] && v[p] != p;
      if prev[p] != NIL { next := next[prev[p] := next[p]]; } else { first := next[p]; }
      assert next == UnlinkNext(n, v, p);
      list := Without(list, k, k + 1);
    }

    /** The scan: the position where the first run of `n` pages ends, and the page it starts at. */
    method FindRun(n: int) returns (found: bool, start: int, pp: int, ghost e: int)
      requires Valid()
      ensures found ==> RunEndsAt(list, e, n) && pp == list[e] && start == list[e - n + 1]
      ensures found ==> forall d | 0 <= d < e :: !RunEndsAt(list, d, n)
      ensures !found ==> forall d :: !RunEndsAt(list, d, n)
    {
      var before, cnt := NIL, 0;
      start, pp, e := NIL, first, 0;
      while pp != NIL
        invariant 0 <= e <= |list| && pp == At(list, e)
        invariant e == 0 ==> cnt == 0
        invariant e > 0 ==> Longest(list, e - 1, cnt) && before == list[e - 1] && start == list[e - cnt]
        invariant e > 0 ==> n < 1 || cnt < n
        invariant forall d | 0 <= d < e :: !RunEndsAt(list, d, n)
        decreases |list| - e
      {
        ghost var was := cnt;
        if cnt > 0 {
          if pp != before - 1 {
            cnt := 0;
            start := pp;
          }
        } else {
          start := pp;
        }
        before := pp;
        cnt := cnt + 1;
        LongestNext(list, e, if e == 0 then 0 else was);
        assert Longest(list, e, cnt);
        if cnt == n {
          return true, start, pp, e;
        }
        NotHere(list, e, cnt, n);
        assert NextOk(next, list, e);
        pp := next[pp];
        e := e + 1;
      }
      return false, start, pp, e;
    }

    /** `page_alloc_sequent`: it takes out the first run of `n` adjacent pages, in list order, and
        keeps the order of the rest; the pages are zeroed and their count is raised; it returns the
        lowest page. It fails only when there is no such run, and then changes nothing. */
    method AllocSequent(n: int) returns (r: Option<nat>, ghost e: int)
      requires Valid()
      modifies this
      ensures Valid()
      ensures r.None? <==> forall d :: !RunEndsAt(old(list), d, n)
      ensures r.None? ==> unchanged(this)
      ensures r.Some? ==>
                && RunEndsAt(old(list), e, n) && (forall d | 0 <= d < e :: !RunEndsAt(old(list), d, n))
                && r.value == old(list)[e]
                && list == Without(old(list), e - n + 1, e + 1)
                && refs == Raised(old(refs), r.value, n)
                && data == Zeroed(old(data), r.value, n)
    {
      var found, start, pp;
      found, start, pp, e := FindRun(n);
      if !found { return None, e; }
      TakeRun(start, pp, e, n);
      return Some(pp), e;
    }

    /** The removal loop, from the highest page of the run to the lowest. */
    method TakeRun(start: int, pp: nat, ghost e: int, ghost n: int)
      requires Valid() && RunEndsAt(list, e, n) && pp == list[e] && start == list[e - n + 1]
      modifies this
      ensures Valid() && list == Without(old(list), e - n + 1, e + 1)
      ensures refs == Raised(old(refs), pp, n) && data == Zeroed(old(data), pp, n)
    {
      ghost var l, a := list, e - n + 1;
      var t := start;
      ghost var k := 0;
      assert NextOk(next, list, e);
      ClaimNone(refs, data, pp + n);
      while t != next[pp]
        invariant 0 <= k <= n && Valid() && |next| == |old(next)|
        invariant list == Without(l, a, a + k) && t == At(l, a + k) && next[pp] == At(l, e + 1)
        invariant refs == Raised(old(refs), pp + n - k, k) && data == Zeroed(old(data), pp + n - k, k)
        decreases n - k
      {
        RunIsRange(l, e, n, n - 1 - k);
        assert NextOk(old(next), l, a + k);
        ClaimNext(old(refs), old(data), t, k);
        t := TakeStep(l, a, a + k, e, t);
        k := k + 1;
      }
      assert k == n by {
        if k < n { AtOnce(l, a + k, e + 1); }
      }
    }

    /** One round of that loop: position `b` of the original list `l` goes. */
    method TakeStep(ghost l: seq<nat>, ghost a: nat, ghost b: nat, ghost e: nat, t: nat) returns (t': int)
      requires Valid() && a <= b <= e < |l| && list == Without(l, a, b) && t == l[b] && l[e] < |next|
      modifies this
      ensures Valid() && |next| == |old(next)| && list == Without(l, a, b + 1)
      ensures t' == At(l, b + 1) && next[l[e]] == At(l, e + 1)
      ensures t < |refs| == |data| == |old(refs)| == |old(data)|
      ensures refs == old(refs)[t := (old(refs)[t] + 1) % 65536] && data == old(data)[t := Zeros()]
    {
      WithoutNext(l, a, b);
      WithoutAt(l, a, b, a);
      ghost var nx := next;
      assert NextOk(nx, list, a);
      Remove(t, a);
      assert NextOk(next, list, e - (b + 1 - a));
      AfterRemoval(l, a, b, e, nx, next);
      data := data[t := Zeros()];
      refs := refs[t := (refs[t] + 1) % 65536];
      t' := next[t];
    }
  }

  /** Pages lo .. lo + n - 1 gain a reference. */
  function Raised(refs: seq<nat>, lo: int, n: int): seq<nat> {
    seq(|refs|, p requires 0 <= p < |refs| => if lo <= p < lo + n then (refs[p] + 1) % 65536 else refs[p])
  }

  function Zeroed(data: seq<seq<nat>>, lo: int, n: int): seq<seq<nat>> {
    seq(|data|, p requires 0 <= p < |data| => if lo <= p < lo + n then Zeros() else data[p])
  }

  lemma ClaimNone(refs: seq<nat>, data: seq<seq<nat>>, lo: int)
    ensures Raised(refs, lo, 0) == refs && Zeroed(data, lo, 0) == data
  {
  }

  lemma ClaimNext(refs: seq<nat>, data: seq<seq<nat>>, t: nat, k: nat)
    requires t < |refs| == |data|
    ensures Raised(refs, t + 1, k)[t := (Raised(refs, t + 1, k)[t] + 1) % 65536] == Raised(refs, t, k + 1)
    ensures Zeroed(data, t + 1, k)[t := Zeros()] == Zeroed(data, t, k + 1)
  {
  }

  /** What the loop reads from the links after it has unlinked position `b` of the original list. */
  lemma AfterRemoval(l: seq<nat>, a: nat, b: nat, e: nat, next: seq<int>, next': seq<int>)
    requires a <= b <= e < |l|
    requires NextOk(next, Without(l, a, b), a) && NextOk(next', Without(l, a, b + 1), e - (b + 1 - a))
    requires l[b] < |next| == |next'| && l[e] < |next'| && next'[l[b]] == next[l[b]]
    ensures next'[l[b]] == At(l, b + 1) && next'[l[e]] == At(l, e + 1)
  {
    WithoutAt(l, a, b, a);
    WithoutAt(l, a, b, a + 1);
    if b < e {
      WithoutAt(l, a, b + 1, e - (b + 1 - a));
      WithoutAt(l, a, b + 1, e - (b + 1 - a) + 1);
    }
  }

  lemma WithoutAt(l: seq<nat>, a: nat, b: nat, i: nat)
    requires a <= b <= |l|
    ensures At(Without(l, a, b), i) == if i < a then At(l, i) else At(l, i + b - a)
  {
    assert |Without(l, a, b)| == |l| - (b - a);
    assert a <= i < |Without(l, a, b)| ==> Without(l, a, b)[i] == l[b..][i - a];
  }

  lemma WithoutNext(l: seq<nat>, a: nat, b: nat)
    requires a <= b < |l|
    ensures Without(Without(l, a, b), a, a + 1) == Without(l, a, b + 1)
  {
  }

  lemma AtOnce(l: seq<nat>, i: nat, j: nat)
    requires Distinct(l) && i < j && i < |l|
    ensures At(l, i) != At(l, j)
  {
    assert Differ(l, i, j);
  }

  function Zeros(): seq<nat> { seq(4096, i => 0) }

  lemma LongestNext(l: seq<nat>, e: int, cnt: int)
    requires 0 <= e < |l| && (e > 0 ==> Longest(l, e - 1, cnt))
    ensures if e > 0 && Adjacent(l, e) then Longest(l, e, cnt + 1) else Longest(l, e, 1)
  {
  }

  lemma NotHere(l: seq<nat>, e: int, cnt: int, n: int)
    requires Longest(l, e, cnt) && (n < 1 || cnt < n) && (forall d | 0 <= d < e :: !RunEndsAt(l, d, n))
    ensures forall d | 0 <= d < e + 1 :: !RunEndsAt(l, d, n)
  {
    if n >= 1 { LongestBounds(l, e, cnt, n); }
  }
}
