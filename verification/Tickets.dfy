/** The newest-request guard: tickets, of which only the last one begun may write its answer. */
module Tickets {

  datatype Guard = Guard(newest: nat, alive: bool)

  function Begun(g: Guard): Guard {
    g.(newest := g.newest + 1)
  }

  predicate IsCurrent(g: Guard, ticket: nat) {
    g.alive && ticket == g.newest
  }

  function Unmounted(g: Guard): Guard {
    Guard(g.newest + 1, false)
  }

  /** `useLatestRequest`: the counter and the mounted flag. */
  class LatestRequest {
    var newest: nat
    var alive: bool

    function State(): Guard
      reads this
    {
      Guard(newest, alive)
    }

    constructor ()
      ensures State() == Guard(0, true)
    {
      newest, alive := 0, true;
    }

    /** A ticket no one has held before; the ones before it stop being current. */
    method Begin() returns (ticket: nat)
      modifies this
      ensures State() == Begun(old(State())) && ticket == newest
      ensures forall t: nat :: IsCurrent(State(), t) <==> alive && t == ticket
    {
      newest := newest + 1;
      ticket := newest;
    }

    method Retire()
      modifies this
      ensures State() == Begun(old(State()))
      ensures forall t: nat :: t <= old(newest) ==> !IsCurrent(State(), t)
    {
      newest := newest + 1;
    }

    method Unmount()
      modifies this
      ensures State() == Unmounted(old(State()))
      ensures forall t: nat :: !IsCurrent(State(), t)
    {
      alive := false;
      newest := newest + 1;
    }

    method Mount()
      modifies this
      ensures State() == old(State()).(alive := true)
    {
      alive := true;
    }
  }

  // ---- answers in any order ----

  datatype Reply<T> = Reply(ticket: nat, outcome: T)

  /** Replies to different questions. */
  predicate Different<T>(replies: seq<Reply<T>>) {
    forall i, j :: 0 <= i < j < |replies| ==> replies[i].ticket != replies[j].ticket
  }

  /** The state once the replies have arrived one after another. */
  function Arrived<S, T>(answer: (S, Reply<T>) -> S, s: S, replies: seq<Reply<T>>): S {
    if replies == [] then s
    else answer(Arrived(answer, s, replies[..|replies| - 1]), replies[|replies| - 1])
  }

  /** Replies to two questions leave the same state in either order. */
  ghost predicate Commutes<S(!new), T(!new)>(answer: (S, Reply<T>) -> S) {
    forall s: S, p: Reply<T>, q: Reply<T> :: p.ticket != q.ticket ==> answer(answer(s, p), q) == answer(answer(s, q), p)
  }

  lemma {:induction false} ArrivedNext<S, T>(answer: (S, Reply<T>) -> S, s: S, replies: seq<Reply<T>>, r: Reply<T>)
    ensures Arrived(answer, s, replies + [r]) == answer(Arrived(answer, s, replies), r)
  {
    assert (replies + [r])[..|replies|] == replies;
  }

  /** A reply may as well come after all that follow it. */
  lemma {:induction false} ComesLast<S(!new), T(!new)>(answer: (S, Reply<T>) -> S, s: S, a: seq<Reply<T>>, r: Reply<T>,
                                           b: seq<Reply<T>>)
    requires Commutes(answer) && forall q :: q in b ==> q.ticket != r.ticket
    ensures Arrived(answer, s, a + [r] + b) == answer(Arrived(answer, s, a + b), r)
    decreases |b|
  {
    hide Arrived;
    if b == [] {
      assert a + [r] + b == a + [r] && a + b == a;
      ArrivedNext(answer, s, a, r);
    } else {
      var front, last := b[..|b| - 1], b[|b| - 1];
      ComesLast(answer, s, a, r, front);
      assert a + [r] + b == (a + [r] + front) + [last] && a + b == (a + front) + [last];
      ArrivedNext(answer, s, a + [r] + front, last);
      ArrivedNext(answer, s, a + front, last);
    }
  }

  /** The same replies leave the same state in whatever order they arrive. */
  lemma {:induction false} ArrivedInAnyOrder<S(!new), T(!new)>(answer: (S, Reply<T>) -> S, s: S, a: seq<Reply<T>>,
                                                             b: seq<Reply<T>>)
    requires Commutes(answer) && Different(a) && Different(b) && forall r :: r in a <==> r in b
    ensures Arrived(answer, s, a) == Arrived(answer, s, b)
    decreases |a|
  {
    assert b != [] ==> b[0] in a;
    if a != [] {
      hide Commutes;
      var front, last := a[..|a| - 1], a[|a| - 1];
      assert last in b;
      var j :| 0 <= j < |b| && b[j] == last;
      var rest := b[..j] + b[j + 1..];
      assert b == b[..j] + [last] + b[j + 1..];
      Without(a, b, j);
      ArrivedInAnyOrder(answer, s, front, rest);
      ComesLast(answer, s, b[..j], last, b[j + 1..]);
    }
  }

  /** What is left of two rearrangements without one reply. */
  lemma {:induction false} Without<T>(a: seq<Reply<T>>, b: seq<Reply<T>>, j: nat)
    requires Different(a) && Different(b) && forall r :: r in a <==> r in b
    requires a != [] && j < |b| && b[j] == a[|a| - 1]
    ensures var front, rest := a[..|a| - 1], b[..j] + b[j + 1..];
            Different(front) && Different(rest) && forall r :: r in front <==> r in rest
    ensures forall q :: q in b[j + 1..] ==> q.ticket != b[j].ticket
  {
    var front, rest := a[..|a| - 1], b[..j] + b[j + 1..];
    forall r ensures r in front <==> r in a && r != b[j] {
      if r in front { var i :| 0 <= i < |front| && front[i] == r; assert a[i].ticket != b[j].ticket; }
      if r in a && r != b[j] { var i :| 0 <= i < |a| && a[i] == r; assert front[i] == r; }
    }
    forall r ensures r in rest <==> r in b && r != b[j] { Skipped(b, j, r); }
    forall i, k | 0 <= i < k < |rest| ensures rest[i].ticket != rest[k].ticket {
      assert rest[i] == b[if i < j then i else i + 1] && rest[k] == b[if k < j then k else k + 1];
    }
  }

  lemma {:induction false} Skipped<T>(b: seq<Reply<T>>, j: nat, r: Reply<T>)
    requires Different(b) && j < |b|
    ensures r in b[..j] + b[j + 1..] <==> r in b && r != b[j]
  {
    var rest := b[..j] + b[j + 1..];
    if r in rest {
      var i :| 0 <= i < |rest| && rest[i] == r;
      assert r == b[if i < j then i else i + 1];
    }
    if r in b && r != b[j] {
      var i :| 0 <= i < |b| && b[i] == r;
      assert r == rest[if i < j then i else i - 1];
    }
  }
}
