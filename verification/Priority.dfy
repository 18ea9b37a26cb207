/** First come, first served, over whole runs: nobody trades while an older order of the same kind waits. */
module Priorities {
  import opened Matching
  import opened Books
  import opened Markets

  /** While an order rests, no later order of its side, instrument and price has traded at all. */
  ghost predicate InTurn(m: Market) {
    forall k, id :: k in m.book && Behind(m, k, id) ==> Filled(m.log, id) == 0
  }

  /** Order `id` is one of those filed under `k`, now or earlier, and came after the oldest that rests there. */
  predicate Behind(m: Market, k: Key, id: int)
    requires k in m.book
  {
    && id in Orders(m.log) && KeyOf(Orders(m.log)[id]) == k
    && m.book[k] != [] && id > m.book[k][0].id
  }

  /** Who is younger than the oldest order left does not take part in a match. */
  lemma YoungerDoNotTrade(o: Order, queue: seq<Order>, id: int)
    requires o.qty > 0 && id != o.id && Positive(queue) && Increasing(queue)
    requires Match(o, queue).queue != [] && id > Match(o, queue).queue[0].id
    ensures FilledBy(Match(o, queue).execs, id) == 0
    ensures queue != [] && queue[0].id <= Match(o, queue).queue[0].id
  {
    hide Match, FilledBy, QtyOf;
    var rest := Match(o, queue).queue;
    MatchKeepsQueue(o, queue);
    var d := |queue| - |rest|;
    assert rest[0].id == queue[d].id;
    if j :| 0 <= j < |queue| && queue[j].id == id {
      assert j > d;
      KeptAsWas(o, queue, j - d);
      QtyOfEntry(queue, j);
      QtyOfEntry(rest, j - d);
      MatchConservesResting(o, queue, id);
    } else {
      OthersDoNotTrade(o, queue, id);
    }
  }

  /** The newcomer itself trades only when nobody of its kind waits. */
  lemma NewcomerWaits(m: Market, o: Order)
    requires Markets.Inv(m) && o.id == m.nextId && o.qty > 0 && KeyOf(o) in m.book
    ensures Submit(m.book, o).execs == [] && Filled(m.log, o.id) == 0
  {
    NextIdIsFresh(m);
    SubmitByLevel(m.book, o);
    assert Conserved(m, o.id);
    assert KeyOf(o).Opposite() !in m.book;
  }

  lemma OlderOrderWaits(m: Market, o: Order, k: Key, id: int)
    requires Markets.Inv(m) && InTurn(m) && o.id == m.nextId && o.qty > 0
    requires k in Submit(m.book, o).book && id in Orders(m.log) && KeyOf(Orders(m.log)[id]) == k
    requires id > Queue(Submit(m.book, o).book, k)[0].id
    ensures Filled(m.log, id) + FilledBy(Submit(m.book, o).execs, id) == 0
  {
    var own, opp := KeyOf(o), KeyOf(o).Opposite();
    SubmitQueues(m.book, o, k);
    assert id < m.nextId;
    if k == opp {
      YoungerDoNotTrade(o, Queue(m.book, opp), id);
    } else {
      RestsWhereFiled(m, opp, id);
      OthersDoNotTrade(o, Queue(m.book, opp), id);
    }
    assert k in m.book && Behind(m, k, id);
  }

  /** If somebody older is in front of the newcomer, it was there before. */
  lemma FrontIsOlder(m: Market, o: Order)
    requires Markets.Inv(m) && o.id == m.nextId && o.qty > 0
    requires var queue := Queue(Submit(m.book, o).book, KeyOf(o)); queue != [] && queue[0].id < o.id
    ensures KeyOf(o) in m.book
  {
    SubmitQueues(m.book, o, KeyOf(o));
  }

  lemma NothingFilled(id: int)
    ensures FilledBy([], id) == 0
  {
  }

  lemma TurnAfterPlace(m: Market, o: Order, k: Key, id: int)
    requires Markets.Inv(m) && InTurn(m) && o.id == m.nextId && o.qty > 0
    requires k in Submit(m.book, o).book && Submit(m.book, o).book[k] != [] && id > Submit(m.book, o).book[k][0].id
    requires id in Orders(m.log)[o.id := o] && KeyOf(Orders(m.log)[o.id := o][id]) == k
    ensures Filled(m.log, id) + FilledBy(Submit(m.book, o).execs, id) == 0
  {
    hide Submit, Markets.Inv, InTurn, Filled, FilledBy, Orders;
    if id == o.id {
      FrontIsOlder(m, o);
      NewcomerWaits(m, o);
      NothingFilled(id);
    } else {
      OlderOrderWaits(m, o, k, id);
    }
  }

  /** What a placement comes to for those that wait. */
  lemma PlaceAsSubmit(m: Market, o: Order, id: int)
    requires o.id == m.nextId
    ensures Place(m, o).book == Submit(m.book, o).book
    ensures o.qty <= 0 ==> Place(m, o).book == m.book && Place(m, o).log == m.log
    ensures o.qty > 0 ==> Orders(Place(m, o).log) == Orders(m.log)[o.id := o]
    ensures o.qty > 0 ==> Filled(Place(m, o).log, id) == Filled(m.log, id) + FilledBy(Submit(m.book, o).execs, id)
  {
    hide Submit, Filled, Withdrawn, FilledBy, Orders;
    assert o.(id := m.nextId) == o;
    if o.qty > 0 {
      LogPlace(m.log, o, Submit(m.book, o).execs);
    } else {
      NothingSubmitted(m.book, o);
      assert m.log + [] == m.log;
    }
  }

  lemma PlaceKeepsTurns(m: Market, order: Order)
    requires Markets.Inv(m) && InTurn(m)
    ensures InTurn(Place(m, order))
  {
    var o, m' := order.(id := m.nextId), Place(m, order);
    assert m' == Place(m, o);
    hide Place, Submit, Markets.Inv, Filled, FilledBy, Orders;
    forall k, id | k in m'.book && Behind(m', k, id)
      ensures Filled(m'.log, id) == 0
    {
      PlaceAsSubmit(m, o, id);
      if o.qty > 0 {
        TurnAfterPlace(m, o, k, id);
      } else {
        assert Behind(m, k, id);
      }
    }
  }

  lemma WithdrawKeepsTurns(m: Market, id: int, fd: int, serial: nat)
    requires Markets.Inv(m) && InTurn(m)
    ensures InTurn(Withdraw(m, id, fd, serial))
  {
    if Owned(m.book, id, fd, serial) {
      var k, i := WithdrawAt(m, id, fd, serial);
      var m' := Withdraw(m, id, fd, serial);
      LogStep(m.log, Cancelled(m.book[k][i]));
      assert Increasing(m.book[k]);
      hide Markets.Inv, Withdraw, Orders, Filled;
      forall k', x | k' in m'.book && Behind(m', k', x)
        ensures Filled(m'.log, x) == 0
      {
        assert k' in m.book && Behind(m, k', x);
      }
    }
  }

  lemma {:induction false} RunKeepsTurns(ops: seq<Op>)
    ensures InTurn(Run(ops))
    decreases |ops|
  {
    if ops == [] {
    } else {
      hide InTurn, Place, Withdraw;
      var front := Run(ops[..|ops| - 1]);
      RunKeepsInv(ops[..|ops| - 1]);
      RunKeepsTurns(ops[..|ops| - 1]);
      match ops[|ops| - 1] {
        case PlaceOp(o) => PlaceKeepsTurns(front, o);
        case CancelOp(id, fd, serial) => WithdrawKeepsTurns(front, id, fd, serial);
      }
    }
  }

  /** So whoever waits has been overtaken by no one: not by those that wait behind it, nor by any that are gone. */
  lemma NobodyOvertakes(ops: seq<Op>, k: Key, i: nat, id: int)
    requires k in Run(ops).book && i < |Run(ops).book[k]|
    requires id in Orders(Run(ops).log) && KeyOf(Orders(Run(ops).log)[id]) == k && id > Run(ops).book[k][i].id
    ensures Filled(Run(ops).log, id) == 0
  {
    var m := Run(ops);
    RunKeepsInv(ops);
    RunKeepsTurns(ops);
    assert Increasing(m.book[k]);
    hide Run;
    assert Behind(m, k, id);
  }
}
