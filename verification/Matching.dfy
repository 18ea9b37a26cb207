/** Orders, fills, and how one incoming order consumes the queue resting opposite it. */
module Matching {

  datatype Side = Buy | Sell {
    function Other(): Side {
      if Buy? then Sell else Buy
    }
  }

  /** A resting or incoming order; `qty` is what remains of it. */
  datatype Order = Order(id: int, side: Side, instrument: string, qty: int, price: int, ownerFd: int, ownerSeq: nat)

  datatype Fill = Fill(instrument: string, qty: int, price: int, buyerFd: int, sellFd: int, buyerSeq: nat, sellSeq: nat)

  /** A fill together with the ids of the two orders it filled, which the program itself does not record. */
  datatype Exec = Exec(fill: Fill, buyId: int, sellId: int)

  /** Where an order is filed: one queue per side, instrument and price. */
  datatype Key = Key(side: Side, instrument: string, price: int) {
    function Opposite(): Key {
      Key(side.Other(), instrument, price)
    }
  }

  function KeyOf(o: Order): Key {
    Key(o.side, o.instrument, o.price)
  }

  function Min(a: int, b: int): int {
    if a <= b then a else b
  }

  /** The fill of `traded` units between an incoming and a resting order. */
  function Execute(o: Order, resting: Order, traded: int): Exec {
    if o.side == Buy then
      Exec(Fill(o.instrument, traded, o.price, o.ownerFd, resting.ownerFd, o.ownerSeq, resting.ownerSeq),
           o.id, resting.id)
    else
      Exec(Fill(o.instrument, traded, o.price, resting.ownerFd, o.ownerFd, resting.ownerSeq, o.ownerSeq),
           resting.id, o.id)
  }

  /** What is left of the incoming order, what is left of the queue, and the executions in order. */
  datatype Matched = Matched(left: int, queue: seq<Order>, execs: seq<Exec>)

  function Match(o: Order, queue: seq<Order>): Matched
    decreases |queue|
  {
    if o.qty <= 0 || queue == [] then Matched(o.qty, queue, [])
    else
      var traded := Min(o.qty, queue[0].qty);
      var e := Execute(o, queue[0], traded);
      if queue[0].qty == traded then
        var m := Match(o.(qty := o.qty - traded), queue[1..]);
        m.(execs := [e] + m.execs)
      else
        Matched(o.qty - traded, [queue[0].(qty := queue[0].qty - traded)] + queue[1..], [e])
  }

  // ---------------------------------------------------------------- quantities

  predicate Positive(queue: seq<Order>) {
    forall i :: 0 <= i < |queue| ==> queue[i].qty > 0
  }

  predicate Increasing(queue: seq<Order>) {
    forall i, j :: 0 <= i < j < |queue| ==> queue[i].id < queue[j].id
  }

  function Total(queue: seq<Order>): int {
    if queue == [] then 0 else queue[0].qty + Total(queue[1..])
  }

  /** The quantity of order `id` resting in a queue. */
  function QtyOf(queue: seq<Order>, id: int): int {
    if queue == [] then 0 else (if queue[0].id == id then queue[0].qty else 0) + QtyOf(queue[1..], id)
  }

  function Volume(execs: seq<Exec>): int {
    if execs == [] then 0 else execs[0].fill.qty + Volume(execs[1..])
  }

  /** How much of order `id` some executions filled. */
  function FilledBy(execs: seq<Exec>, id: int): int {
    if execs == [] then 0 else Part(execs[0], id) + FilledBy(execs[1..], id)
  }

  function Part(e: Exec, id: int): int {
    (if e.buyId == id then e.fill.qty else 0) + (if e.sellId == id then e.fill.qty else 0)
  }

  lemma {:induction false} TotalOfPositive(queue: seq<Order>)
    requires Positive(queue)
    ensures Total(queue) >= |queue|
  {
    if queue == [] {
    } else {
      TotalOfPositive(queue[1..]);
    }
  }

  lemma {:induction false} TotalSplit(a: seq<Order>, b: seq<Order>)
    ensures Total(a + b) == Total(a) + Total(b)
  {
    if a == [] {
      assert a + b == b;
    } else {
      assert (a + b)[1..] == a[1..] + b;
      TotalSplit(a[1..], b);
    }
  }

  lemma {:induction false} QtyOfSplit(a: seq<Order>, b: seq<Order>, id: int)
    ensures QtyOf(a + b, id) == QtyOf(a, id) + QtyOf(b, id)
  {
    if a == [] {
      assert a + b == b;
    } else {
      assert (a + b)[1..] == a[1..] + b;
      QtyOfSplit(a[1..], b, id);
    }
  }

  lemma {:induction false} QtyOfAbsent(queue: seq<Order>, id: int)
    requires forall i :: 0 <= i < |queue| ==> queue[i].id != id
    ensures QtyOf(queue, id) == 0
  {
    if queue == [] {
    } else {
      QtyOfAbsent(queue[1..], id);
    }
  }

  /** In a queue in id order, the quantity of an id is that of its one entry. */
  lemma {:induction false} QtyOfEntry(queue: seq<Order>, i: nat)
    requires Increasing(queue) && i < |queue|
    ensures QtyOf(queue, queue[i].id) == queue[i].qty
    decreases |queue|
  {
    if i == 0 {
      QtyOfAbsent(queue[1..], queue[0].id);
    } else {
      QtyOfEntry(queue[1..], i - 1);
    }
  }

  lemma {:induction false} FilledBySplit(a: seq<Exec>, b: seq<Exec>, id: int)
    ensures FilledBy(a + b, id) == FilledBy(a, id) + FilledBy(b, id)
  {
    if a == [] {
      assert a + b == b;
    } else {
      assert (a + b)[1..] == a[1..] + b;
      FilledBySplit(a[1..], b, id);
    }
  }

  // ------------------------------------------------------ what one match does

  /** The executions in closed form: which resting orders trade, in what order, and for how much. */
  ghost predicate ExecsInClosedForm(o: Order, queue: seq<Order>, execs: seq<Exec>) {
    && |execs| <= |queue|
    // the oldest orders trade, each for what is still wanted when its turn comes
    && (forall i :: 0 <= i < |execs| ==>
          Total(queue[..i]) < o.qty &&
          execs[i] == Execute(o, queue[i], Min(queue[i].qty, o.qty - Total(queue[..i]))))
    // and no further order is reached, because nothing is wanted any more
    && (|execs| < |queue| ==> Total(queue[..|execs|]) >= o.qty)
  }

  /** The remainders in closed form: the queue keeps its youngest orders, the oldest survivor possibly reduced. */
  ghost predicate RestInClosedForm(o: Order, queue: seq<Order>, m: Matched) {
    && m.left == o.qty - Min(o.qty, Total(queue))
    && Volume(m.execs) == Min(o.qty, Total(queue)) == Total(queue) - Total(m.queue)
    && |m.queue| <= |queue|
    && (m.queue != [] ==>
          && m.queue[1..] == queue[|queue| - |m.queue| + 1..]
          && var first := queue[|queue| - |m.queue|];
             m.queue[0] == first.(qty := m.queue[0].qty) && 0 < m.queue[0].qty <= first.qty)
  }

  lemma TotalTake(queue: seq<Order>, i: nat)
    requires 1 <= i <= |queue|
    ensures Total(queue[..i]) == queue[0].qty + Total(queue[1..][..i - 1])
  {
    assert queue[..i][1..] == queue[1..][..i - 1];
  }

  /** The closed form, one execution further back. */
  lemma ExecsFormCons(o: Order, o': Order, queue: seq<Order>, execs: seq<Exec>)
    requires queue != [] && o' == o.(qty := o.qty - queue[0].qty) && 0 < queue[0].qty < o.qty
    requires ExecsInClosedForm(o', queue[1..], execs)
    ensures ExecsInClosedForm(o, queue, [Execute(o, queue[0], queue[0].qty)] + execs)
  {
    var all, rest := [Execute(o, queue[0], queue[0].qty)] + execs, queue[1..];
    hide Total;
    assert Total(queue[..0]) == 0 by {
      TotalOfNothing();
    }
    forall i | 1 <= i < |all|
      ensures Total(queue[..i]) < o.qty
      ensures all[i] == Execute(o, queue[i], Min(queue[i].qty, o.qty - Total(queue[..i])))
    {
      TotalTake(queue, i);
      assert all[i] == execs[i - 1] && queue[i] == rest[i - 1];
    }
    if |all| < |queue| {
      TotalTake(queue, |all|);
    }
  }

  lemma TotalOfNothing()
    ensures Total([]) == 0
  {
  }

  lemma {:induction false} ExecsClosedForm(o: Order, queue: seq<Order>)
    requires o.qty > 0 && Positive(queue)
    ensures ExecsInClosedForm(o, queue, Match(o, queue).execs)
    decreases |queue|
  {
    if queue == [] {
    } else {
      var o', rest := o.(qty := o.qty - Min(o.qty, queue[0].qty)), queue[1..];
      assert queue[..0] == [] && queue[..1][1..] == [] && Total(queue[..1]) == queue[0].qty;
      if queue[0].qty < o.qty {
        ExecsClosedForm(o', rest);
        ExecsFormCons(o, o', queue, Match(o', rest).execs);
      }
    }
  }

  lemma RestFormCons(o: Order, o': Order, queue: seq<Order>, m: Matched)
    requires queue != [] && o' == o.(qty := o.qty - queue[0].qty) && 0 < queue[0].qty < o.qty
    requires RestInClosedForm(o', queue[1..], m)
    ensures RestInClosedForm(o, queue, m.(execs := [Execute(o, queue[0], queue[0].qty)] + m.execs))
  {
    var execs, rest := [Execute(o, queue[0], queue[0].qty)] + m.execs, queue[1..];
    assert execs[1..] == m.execs;
    assert Volume(execs) == queue[0].qty + Volume(m.execs) && Total(queue) == queue[0].qty + Total(rest);
    if m.queue != [] {
      assert rest[|rest| - |m.queue| + 1..] == queue[|queue| - |m.queue| + 1..];
    }
  }

  lemma {:induction false} RestClosedForm(o: Order, queue: seq<Order>)
    requires o.qty > 0 && Positive(queue)
    ensures RestInClosedForm(o, queue, Match(o, queue))
    decreases |queue|
  {
    if queue == [] {
    } else {
      var o', rest := o.(qty := o.qty - Min(o.qty, queue[0].qty)), queue[1..];
      TotalOfPositive(rest);
      if queue[0].qty < o.qty {
        RestClosedForm(o', rest);
        RestFormCons(o, o', queue, Match(o', rest));
      } else {
        var m := Match(o, queue);
        assert m.execs[1..] == [] && (queue[0].qty > o.qty ==> m.queue[1..] == rest);
        assert rest != [] ==> rest[1..] == queue[2..];
      }
    }
  }

  /** Every execution is between the incoming order and an order of the queue, and within what both offer. */
  lemma MatchParties(o: Order, queue: seq<Order>, e: Exec)
    requires o.qty > 0 && Positive(queue) && e in Match(o, queue).execs
    ensures exists i :: 0 <= i < |queue| && e == Execute(o, queue[i], e.fill.qty)
                        && 0 < e.fill.qty <= queue[i].qty && e.fill.qty <= o.qty
  {
    ExecsClosedForm(o, queue);
    var i :| 0 <= i < |Match(o, queue).execs| && Match(o, queue).execs[i] == e;
    TotalOfPositive(queue[..i]);
    assert Positive(queue) && queue[i].qty > 0;
    assert e == Execute(o, queue[i], e.fill.qty);
  }

  /** What a resting order loses is what its executions filled. */
  lemma {:induction false} MatchConservesResting(o: Order, queue: seq<Order>, id: int)
    requires id != o.id
    ensures QtyOf(queue, id) == QtyOf(Match(o, queue).queue, id) + FilledBy(Match(o, queue).execs, id)
    decreases |queue|
  {
    if o.qty <= 0 || queue == [] {
    } else {
      var traded := Min(o.qty, queue[0].qty);
      var m := Match(o, queue);
      if queue[0].qty == traded {
        MatchConservesResting(o.(qty := o.qty - traded), queue[1..], id);
      } else {
        assert m.queue[1..] == queue[1..];
      }
      assert m.execs[1..] == if queue[0].qty == traded then Match(o.(qty := o.qty - traded), queue[1..]).execs else [];
    }
  }

  /** What the incoming order loses is what its executions filled. */
  lemma {:induction false} MatchConservesIncoming(o: Order, queue: seq<Order>)
    requires forall i :: 0 <= i < |queue| ==> queue[i].id != o.id
    ensures o.qty == Match(o, queue).left + FilledBy(Match(o, queue).execs, o.id)
    decreases |queue|
  {
    if o.qty <= 0 || queue == [] {
    } else {
      var traded := Min(o.qty, queue[0].qty);
      if queue[0].qty == traded {
        MatchConservesIncoming(o.(qty := o.qty - traded), queue[1..]);
      }
      assert Match(o, queue).execs[1..] ==
             if queue[0].qty == traded then Match(o.(qty := o.qty - traded), queue[1..]).execs else [];
    }
  }

  /** Every execution exhausts one of its two orders. */
  lemma {:induction false} MatchExhausts(o: Order, queue: seq<Order>)
    requires o.qty > 0 && Positive(queue)
    ensures var m := Match(o, queue);
            |m.execs| + |m.queue| + (if m.left > 0 then 1 else 0) <= |queue| + 1
    decreases |queue|
  {
    if queue == [] {
    } else {
      var traded := Min(o.qty, queue[0].qty);
      if queue[0].qty == traded && o.qty > traded {
        MatchExhausts(o.(qty := o.qty - traded), queue[1..]);
      }
    }
  }

  predicate At(e: Exec, instrument: string, price: int) {
    e.fill.instrument == instrument && e.fill.price == price
  }

  /** All executions of a match are at the instrument and price of the incoming order. */
  lemma {:induction false} MatchStaysAtItsLevel(o: Order, queue: seq<Order>)
    ensures forall e :: e in Match(o, queue).execs ==> At(e, o.instrument, o.price)
    decreases |queue|
  {
    if o.qty <= 0 || queue == [] {
    } else if queue[0].qty == Min(o.qty, queue[0].qty) {
      MatchStaysAtItsLevel(o.(qty := o.qty - queue[0].qty), queue[1..]);
    }
  }
}
