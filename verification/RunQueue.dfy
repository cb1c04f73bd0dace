/** The run queue as the kernel keeps it: a tail queue threaded through the environments
    (include/queue.h), and what TAILQ_REMOVE does to it. `env_free` removes its victim whether or not it is
    on the queue (kern/env.c:286); module Envs has the queue as a sequence. */
module RunQueue {
  import opened Options
  import P = PageSequent

  const NIL: int := P.NIL
  const UNSET: int := -2               // a tqe_prev that is still zero: the slot was never queued

  /** `prev` is the element whose `tqe_next` field points here, NIL for the head, UNSET for none; `last` is the
      element whose `tqe_next` field ends the queue, NIL for the head of an empty one. */
  datatype Queue = Queue(first: int, last: int, next: seq<int>, prev: seq<int>)

  /** The links represent the list `l`. */
  ghost predicate Holds(q: Queue, l: seq<nat>) {
    P.Links(q.first, q.next, q.prev, l) && q.last == P.At(l, |l| - 1)
  }

  /** An element number or NIL. */
  predicate Link(q: Queue, x: int) { x == NIL || 0 <= x < |q.next| }

  predicate Element(q: Queue, e: nat) {
    e < |q.next| && |q.prev| == |q.next| && Link(q, q.next[e]) && (q.prev[e] == UNSET || Link(q, q.prev[e]))
  }

  /** TAILQ_REMOVE; None if it writes through a null pointer. */
  function Remove(q: Queue, e: nat): Option<Queue>
    requires Element(q, e)
  {
    if q.prev[e] == UNSET then None
    else
      Some(Queue(P.UnlinkFirst(q.first, q.next, q.prev, e), if q.next[e] == NIL then q.prev[e] else q.last,
                 P.UnlinkNext(q.next, q.prev, e), P.UnlinkPrev(q.next, q.prev, e)))
  }

  /** It goes through, and the queue is `l` afterwards. */
  ghost predicate Leaves(q: Queue, l: seq<nat>, e: nat)
    requires Element(q, e)
  {
    Remove(q, e).Some? && Holds(Remove(q, e).value, l)
  }

  /** An element of the queue has its links in range, and is taken out, with the order of the others kept. */
  lemma RemovePresent(q: Queue, l: seq<nat>, k: nat)
    requires Holds(q, l) && k < |l|
    ensures Element(q, l[k]) && Leaves(q, P.Without(l, k, k + 1), l[k])
  {
    assert P.NextOk(q.next, l, k) && P.PrevOk(q.prev, l, k);
    assert P.NextOk(q.next, l, k + 1) && P.NextOk(q.next, l, k - 1);
    P.Unlinked(q.first, q.next, q.prev, l, k);
  }

  /** The element has been on a queue, and what the two writes of TAILQ_REMOVE put into live links is what is
      there already. */
  predicate Harmless(q: Queue, l: seq<nat>, e: nat)
    requires Element(q, e)
  {
    && q.prev[e] != UNSET
    && (if q.next[e] == NIL then q.last == q.prev[e] else q.next[e] in l ==> q.prev[q.next[e]] == q.prev[e])
    && (if q.prev[e] == NIL then q.first == q.next[e] else q.prev[e] in l ==> q.next[q.prev[e]] == q.next[e])
  }

  /** An element that is not on the queue, with whatever links it has from earlier: removing it leaves the
      queue as it is if and only if it has such links and they still say what the queue says. */
  lemma RemoveAbsentIff(q: Queue, l: seq<nat>, e: nat)
    requires Holds(q, l) && Element(q, e) && e !in l
    ensures Leaves(q, l, e) <==> Harmless(q, l, e)
  {
    if q.prev[e] == UNSET { return; }
    var q' := Remove(q, e).value;
    if Harmless(q, l, e) {
      forall k ensures P.NextOk(q'.next, l, k) {
        assert P.NextOk(q.next, l, k);
      }
      forall k ensures P.PrevOk(q'.prev, l, k) {
        assert P.PrevOk(q.prev, l, k);
      }
    } else if Holds(q', l) {
      SameLinks(q, q', l, q.next[e]);
      SameLinks(q, q', l, q.prev[e]);
    }
  }

  /** The list determines the links of its elements. */
  lemma SameLinks(q: Queue, q': Queue, l: seq<nat>, x: int)
    requires Holds(q, l) && Holds(q', l) && |q'.next| == |q.next|
    ensures q'.first == q.first && q'.last == q.last
    ensures x in l ==> 0 <= x < |q.next| && q'.next[x] == q.next[x] && q'.prev[x] == q.prev[x]
  {
    if x in l {
      var k :| 0 <= k < |l| && l[k] == x;
      assert P.NextOk(q.next, l, k) && P.NextOk(q'.next, l, k) && P.PrevOk(q.prev, l, k) && P.PrevOk(q'.prev, l, k);
    }
  }

  /** Environment 0 headed the queue 0, 1, 2 when it blocked in a receive; since then 1 has had its turn.
      Destroying 0 now cuts 2 off: it is runnable, and on no queue. */
  lemma StaleRemoveCuts()
    ensures var q := Queue(2, 1, [1, NIL, 1], [NIL, 2, NIL]);
            Holds(q, [2, 1]) && Element(q, 0) && !Harmless(q, [2, 1], 0) && Leaves(q, [1], 0)
  {
  }

  /** An environment that was never queued, in a slot used for the first time: `spawn` destroys its child when
      loading fails, and TAILQ_REMOVE has nowhere to write. */
  lemma NeverQueued(q: Queue, l: seq<nat>, e: nat)
    requires Holds(q, l) && Element(q, e) && q.prev[e] == UNSET
    ensures e !in l && Remove(q, e) == None && !Harmless(q, l, e)
  {
    forall k | 0 <= k < |l| ensures l[k] != e {
      assert P.PrevOk(q.prev, l, k);
    }
  }
}
