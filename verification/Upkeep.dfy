/** Runs of a limiter: timed uses of it, with periodic sweeps in between. */
module Upkeep {

  datatype Op<A> = Use(what: A, at: real) | Sweep(maxIdle: real, at: real)

  /** The clock never goes back. */
  ghost predicate InOrder<A(!new)>(ops: seq<Op<A>>) { forall i, j :: 0 <= i < j < |ops| ==> ops[i].at <= ops[j].at }

  /** ... and starts at `now` or later. */
  ghost predicate Ordered<A(!new)>(now: real, ops: seq<Op<A>>) { InOrder(ops) && (ops != [] ==> now <= ops[0].at) }

  /** Every sweep of the run uses an idle bound of at least `maxIdle`. */
  ghost predicate SweptFrom<A(!new)>(ops: seq<Op<A>>, maxIdle: real) { forall i :: 0 <= i < |ops| && ops[i].Sweep? ==> ops[i].maxIdle >= maxIdle }

  /** Every sweep of the run uses the idle bound `maxIdle`. */
  ghost predicate SweptAt<A(!new)>(ops: seq<Op<A>>, maxIdle: real) { forall i :: 0 <= i < |ops| && ops[i].Sweep? ==> ops[i].maxIdle == maxIdle }

  /** The run without its sweeps */
  ghost function Unswept<A>(ops: seq<Op<A>>): seq<Op<A>> {
    if ops == [] then [] else (if ops[0].Use? then [ops[0]] else []) + Unswept(ops[1..])
  }

  lemma OrderedTail<A(!new)>(now: real, ops: seq<Op<A>>)
    requires Ordered(now, ops) && ops != []
    ensures now <= ops[0].at && Ordered(ops[0].at, ops[1..])
  {
    assert forall i :: 0 <= i < |ops[1..]| ==> ops[1..][i] == ops[i + 1];
  }

  lemma {:induction false} UnsweptConcat<A>(a: seq<Op<A>>, b: seq<Op<A>>)
    ensures Unswept(a + b) == Unswept(a) + Unswept(b)
  {
    if a == [] {
      assert a + b == b;
    } else {
      UnsweptConcat(a[1..], b);
      assert (a + b)[1..] == a[1..] + b;
    }
  }

  lemma {:induction false} UnsweptUses<A(!new)>(ops: seq<Op<A>>)
    requires forall i :: 0 <= i < |ops| ==> ops[i].Use?
    ensures Unswept(ops) == ops
  {
    if ops != [] {
      UnsweptUses(ops[1..]);
      assert ops == [ops[0]] + ops[1..];
    }
  }
}
