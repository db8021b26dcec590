/** The circular doubly linked list of kernel/bio.c.

    `next` and `prev` hold list indices; index n stands for bcache.head, and
    indices below n for the buffers.  `order` is the list from the most to
    the least recently used element.
 */
module RecencyList {
  import opened Counting

  /** The k-th element of the ring; both ends meet in the list head. */
  function At(head: nat, order: seq<nat>, k: int): (i: nat)
  {
    if 0 <= k < |order| then order[k] else head
  }

  /** `next` and `prev` spell out `order` forwards and backwards around `head`. */
  ghost predicate Ring(next: seq<nat>, prev: seq<nat>, head: nat, order: seq<nat>)
  {
    && |next| == |prev| && head < |next|
    && Distinct(order)
    && (forall k :: 0 <= k < |order| ==> order[k] < |next| && order[k] != head)
    && (forall j, k :: -1 <= j < k == j + 1 <= |order| ==>
          next[At(head, order, j)] == At(head, order, k) && prev[At(head, order, k)] == At(head, order, j))
  }

  function Without(order: seq<nat>, k: nat): (r: seq<nat>)
    requires k < |order|
  {
    order[..k] + order[k + 1..]
  }

  ghost predicate MovedToFront(was: seq<nat>, now: seq<nat>, i: nat)
  {
    exists k: nat :: k < |was| && was[k] == i && now == [i] + Without(was, k)
  }

  /** Take b out: its neighbours become neighbours of each other. */
  lemma Unlink(next: seq<nat>, prev: seq<nat>, head: nat, order: seq<nat>, k: nat)
    requires Ring(next, prev, head, order) && k < |order|
    ensures var b := order[k];
            && prev[b] < |next| && next[b] < |prev|
            && b !in Without(order, k)
            && Ring(next[prev[b] := next[b]], prev[next[b] := prev[b]], head, Without(order, k))
  {
    var b, o := order[k], Without(order, k);
    assert At(head, order, k) == b;
    assert prev[b] == At(head, order, k - 1) && next[b] == At(head, order, k + 1);
    var n', p' := next[prev[b] := next[b]], prev[next[b] := prev[b]];
    forall i, j | -1 <= i < j == i + 1 <= |o|
      ensures n'[At(head, o, i)] == At(head, o, j) && p'[At(head, o, j)] == At(head, o, i)
    {
      var i0, j0 := if i < k then i else i + 1, if j < k then j else j + 1;
      assert At(head, o, i) == At(head, order, i0) && At(head, o, j) == At(head, order, j0);
      if j != k {
        assert next[At(head, order, i0)] == At(head, order, j0);
      }
    }
  }

  /** Put b between the head and the first element. */
  lemma LinkFirst(next: seq<nat>, prev: seq<nat>, head: nat, order: seq<nat>, b: nat)
    requires Ring(next, prev, head, order)
    requires b < |next| && b != head && b !in order
    ensures var first := next[head];
            && first < |prev|
            && Ring(next[b := first][head := b], prev[b := head][first := b], head, [b] + order)
  {
    var first, o := next[head], [b] + order;
    assert At(head, order, -1) == head && first == At(head, order, 0);
    var n', p' := next[b := first][head := b], prev[b := head][first := b];
    forall i, j | -1 <= i < j == i + 1 <= |o|
      ensures n'[At(head, o, i)] == At(head, o, j) && p'[At(head, o, j)] == At(head, o, i)
    {
      if i >= 0 {
        assert At(head, o, j) == At(head, order, i);
        if i > 0 {
          assert At(head, o, i) == At(head, order, i - 1);
          assert next[At(head, order, i - 1)] == At(head, order, i);
        }
      }
    }
  }

  class Recency {
    const n: nat
    const next: array<nat>
    const prev: array<nat>
    ghost var order: seq<nat>

    ghost predicate Linked()
      reads this, next, prev
    {
      next != prev && next.Length == n + 1 && Ring(next[..], prev[..], n, order)
    }

    /** Every element is in the list exactly once. */
    ghost predicate Valid()
      reads this, next, prev
    {
      Linked() && |order| == n
    }

    /** binit: an empty list, then every buffer inserted behind the head. */
    constructor (n: nat)
      ensures Valid() && this.n == n && fresh(next) && fresh(prev)
      ensures forall k :: 0 <= k < n ==> order[k] == n - 1 - k
    {
      this.n := n;
      next := new nat[n + 1](_ => n);
      prev := new nat[n + 1](_ => n);
      order := [];
      new;
      var b := 0;
      while b < n
        invariant b <= n && |order| == b
        invariant forall k :: 0 <= k < b ==> order[k] == b - 1 - k
        invariant Linked()
      {
        LinkBehindHead(b);
        b := b + 1;
      }
    }

    method LinkBehindHead(b: nat)
      requires Linked() && b < n && b !in order
      modifies next, prev, this
      ensures Linked() && order == [b] + old(order)
    {
      LinkFirst(next[..], prev[..], n, order, b);
      ghost var n0: seq<nat>, p0: seq<nat> := next[..], prev[..];
      next[b] := next[n];
      prev[b] := n;
      prev[next[n]] := b;
      next[n] := b;
      order := [b] + order;
      assert next[..] == n0[b := n0[n]][n := b];
      assert prev[..] == p0[b := n][n0[n] := b];
    }

    method MoveToFront(i: nat)
      requires Valid() && i < n
      modifies next, prev, this
      ensures Valid()
      ensures MovedToFront(old(order), order, i)
    {
      PermutationCovers(order, n);
      assert i in order;
      ghost var k: nat :| k < n && order[k] == i;
      Unlink(next[..], prev[..], n, order, k);
      ghost var n0: seq<nat>, p0: seq<nat> := next[..], prev[..];
      assert At(n, order, k) == i;
      prev[next[i]] := prev[i];
      next[prev[i]] := next[i];
      assert prev[..] == p0[n0[i] := p0[i]];
      assert next[..] == n0[p0[i] := n0[i]];
      order := Without(order, k);
      LinkBehindHead(i);
    }
  }

  // ---- Recency ----------------------------------------------------------

  ghost predicate Before(order: seq<nat>, a: nat, b: nat)
  {
    exists j, k :: 0 <= j < k < |order| && order[j] == a && order[k] == b
  }

  /** The last time that a was moved to the front; -1 if it never was. */
  ghost function LastMove(moves: seq<nat>, a: nat): (t: int)
    ensures -1 <= t < |moves| && (t >= 0 ==> moves[t] == a)
    ensures forall u :: t < u < |moves| ==> moves[u] != a
  {
    if moves == [] then -1
    else if moves[|moves| - 1] == a then |moves| - 1
    else LastMove(moves[..|moves| - 1], a)
  }

  /** Where an entry goes when entry k is moved to the front. */
  lemma MovedAt(was: seq<nat>, k: nat, j: nat)
    requires k < |was| && j < |was| && j != k
    ensures |[was[k]] + Without(was, k)| == |was|
    ensures ([was[k]] + Without(was, k))[if j < k then j + 1 else j] == was[j]
  {
  }

  lemma MovedOrder(was: seq<nat>, now: seq<nat>, i: nat, a: nat, b: nat)
    requires MovedToFront(was, now, i) && a != b && b != i
    requires if a == i then b in was else Before(was, a, b)
    ensures Before(now, a, b)
  {
    var k: nat :| k < |was| && was[k] == i && now == [i] + Without(was, k);
    hide Without;
    if a == i {
      var n: nat :| n < |was| && was[n] == b;
      MovedAt(was, k, n);
      var m := if n < k then n + 1 else n;
      assert 0 < m && now[0] == a && now[m] == b;
    } else {
      var j, l :| 0 <= j < l < |was| && was[j] == a && was[l] == b;
      MovedAt(was, k, j);
      MovedAt(was, k, l);
      var m, n := if j < k then j + 1 else j, if l < k then l + 1 else l;
      assert m < n && now[m] == a && now[n] == b;
    }
  }

  lemma MovedSame(was: seq<nat>, now: seq<nat>, i: nat)
    requires MovedToFront(was, now, i) && Distinct(was)
    ensures Distinct(now) && forall x :: x in now <==> x in was
  {
    var k: nat :| k < |was| && was[k] == i && now == [i] + Without(was, k);
    forall x | x in was ensures x in now {
      var j: nat :| j < |was| && was[j] == x;
      assert now[if j < k then j + 1 else if j == k then 0 else j] == x;
    }
  }

  /** After any moves to the front, what was moved later comes first. */
  lemma {:induction false} LaterMoveFirst(orders: seq<seq<nat>>, moves: seq<nat>, a: nat, b: nat)
    requires |orders| == |moves| + 1 && Distinct(orders[0]) && a in orders[0] && b in orders[0]
    requires forall t :: 0 <= t < |moves| ==> MovedToFront(orders[t], orders[t + 1], moves[t])
    requires LastMove(moves, a) > LastMove(moves, b)
    ensures Before(orders[|moves|], a, b) && Distinct(orders[|moves|])
    decreases |moves|
  {
    var n := |moves| - 1;
    hide MovedToFront, Before;
    OrdersSame(orders, moves, n);
    MovedSame(orders[n], orders[n + 1], moves[n]);
    if moves[n] != a { LaterMoveFirst(orders[..n + 1], moves[..n], a, b); }
    MovedOrder(orders[n], orders[n + 1], moves[n], a, b);
  }

  lemma {:induction false} OrdersSame(orders: seq<seq<nat>>, moves: seq<nat>, t: nat)
    requires |orders| == |moves| + 1 && Distinct(orders[0]) && t <= |moves|
    requires forall u :: 0 <= u < |moves| ==> MovedToFront(orders[u], orders[u + 1], moves[u])
    ensures Distinct(orders[t]) && forall x :: x in orders[t] <==> x in orders[0]
  {
    if t > 0 {
      OrdersSame(orders, moves, t - 1);
      hide MovedToFront;
      MovedSame(orders[t - 1], orders[t], moves[t - 1]);
    }
  }
}
