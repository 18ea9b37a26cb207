/**
  The book together with its history: every order submitted to it, every execution, every cancellation.
  What holds of every history is proved here for all runs of placements and cancels.
*/
module Markets {
  import opened Matching
  import opened Books

  datatype Event =
    | Submitted(order: Order)   // with the quantity asked for
    | Traded(exec: Exec)
    | Cancelled(order: Order)   // with the quantity that was still resting

  datatype Market = Market(nextId: nat, book: Book, log: seq<Event>)

  function Trades(execs: seq<Exec>): seq<Event> {
    if execs == [] then [] else Trades(execs[..|execs| - 1]) + [Traded(execs[|execs| - 1])]
  }

  /** `next_id` followed at once by `submit`, as the server does for every order. */
  function Place(m: Market, order: Order): Market {
    var o := order.(id := m.nextId);
    var s := Submit(m.book, o);
    Market(m.nextId + 1, s.book, m.log + if o.qty > 0 then [Submitted(o)] + Trades(s.execs) else [])
  }

  ghost function Resting(b: Book, id: int): Order
    requires Rests(b, id)
  {
    var k, i :| k in b && 0 <= i < |b[k]| && b[k][i].id == id;
    b[k][i]
  }

  lemma OwnedRests(b: Book, id: int, fd: int, serial: nat)
    requires Owned(b, id, fd, serial)
    ensures Rests(b, id)
  {
    var k, i :| k in b && 0 <= i < |b[k]| && Mine(b[k][i], id, fd, serial);
    assert b[k][i].id == id;
  }

  ghost function Withdraw(m: Market, id: int, fd: int, serial: nat): Market {
    if Owned(m.book, id, fd, serial) then
      OwnedRests(m.book, id, fd, serial);
      m.(book := Delete(m.book, id), log := m.log + [Cancelled(Resting(m.book, id))])
    else m
  }

  datatype Op =
    | PlaceOp(order: Order)                     // its id is ignored: the book assigns one
    | CancelOp(id: int, fd: int, serial: nat)

  ghost function Apply(m: Market, op: Op): Market {
    match op
    case PlaceOp(o) => Place(m, o)
    case CancelOp(id, fd, serial) => Withdraw(m, id, fd, serial)
  }

  ghost function Run(ops: seq<Op>): Market {
    if ops == [] then Market(0, map[], []) else Apply(Run(ops[..|ops| - 1]), ops[|ops| - 1])
  }

  // --------------------------------------------------------- reading a history

  /** Every order ever submitted, by id, as it was submitted. */
  function Orders(log: seq<Event>): map<int, Order> {
    if log == [] then map[]
    else
      var last, before := log[|log| - 1], Orders(log[..|log| - 1]);
      if last.Submitted? then before[last.order.id := last.order] else before
  }

  function Filled(log: seq<Event>, id: int): int {
    if log == [] then 0
    else
      var last := log[|log| - 1];
      Filled(log[..|log| - 1], id) + if last.Traded? then Part(last.exec, id) else 0
  }

  function Withdrawn(log: seq<Event>, id: int): int {
    if log == [] then 0
    else
      var last := log[|log| - 1];
      Withdrawn(log[..|log| - 1], id) + if last.Cancelled? && last.order.id == id then last.order.qty else 0
  }

  lemma LogStep(log: seq<Event>, e: Event)
    ensures (log + [e])[..|log + [e]| - 1] == log
    ensures Orders(log + [e]) == if e.Submitted? then Orders(log)[e.order.id := e.order] else Orders(log)
    ensures forall id :: Filled(log + [e], id) == Filled(log, id) + if e.Traded? then Part(e.exec, id) else 0
    ensures forall id :: Withdrawn(log + [e], id) ==
              Withdrawn(log, id) + if e.Cancelled? && e.order.id == id then e.order.qty else 0
  {
  }

  lemma {:induction false} LogTrades(log: seq<Event>, execs: seq<Exec>)
    ensures Orders(log + Trades(execs)) == Orders(log)
    ensures forall id :: Filled(log + Trades(execs), id) == Filled(log, id) + FilledBy(execs, id)
    ensures forall id :: Withdrawn(log + Trades(execs), id) == Withdrawn(log, id)
    decreases |execs|
  {
    if execs == [] {
      assert log + [] == log;
    } else {
      var front, last := execs[..|execs| - 1], execs[|execs| - 1];
      LogTrades(log, front);
      LogStep(log + Trades(front), Traded(last));
      assert log + Trades(execs) == log + Trades(front) + [Traded(last)];
      forall id
        ensures FilledBy(execs, id) == FilledBy(front, id) + Part(last, id)
      {
        assert execs == front + [last];
        FilledBySplit(front, [last], id);
        assert FilledBy([last], id) == Part(last, id) + FilledBy([last][1..], id);
      }
    }
  }

  /** The history after a placement. */
  lemma LogPlace(log: seq<Event>, o: Order, execs: seq<Exec>)
    ensures var log' := log + ([Submitted(o)] + Trades(execs));
            && Orders(log') == Orders(log)[o.id := o]
            && (forall id :: Filled(log', id) == Filled(log, id) + FilledBy(execs, id))
            && (forall id :: Withdrawn(log', id) == Withdrawn(log, id))
  {
    LogStep(log, Submitted(o));
    LogTrades(log + [Submitted(o)], execs);
    assert log + ([Submitted(o)] + Trades(execs)) == log + [Submitted(o)] + Trades(execs);
  }

  // ------------------------------------------------------------- the invariant

  /** A resting order is the submitted order with some of its quantity gone; only a queue's front may have lost any. */
  ghost predicate Untouched(m: Market) {
    forall k, i :: k in m.book && 0 <= i < |m.book[k]| ==> RestsAs(m.book[k][i], i, Orders(m.log))
  }

  predicate RestsAs(x: Order, i: int, orders: map<int, Order>) {
    && x.id in orders
    && x == orders[x.id].(qty := x.qty)
    && x.qty <= orders[x.id].qty
    && (i > 0 ==> x == orders[x.id])
  }

  ghost predicate Numbered(m: Market) {
    forall id :: id in Orders(m.log) ==> 0 <= id < m.nextId && Orders(m.log)[id].id == id && Orders(m.log)[id].qty > 0
  }

  /** Nothing of an order is lost or made up: it traded, it rests, or it was withdrawn. */
  ghost predicate Conserved(m: Market, id: int) {
    if id in Orders(m.log) then
      var o := Orders(m.log)[id];
      o.qty == Filled(m.log, id) + QtyOf(Queue(m.book, KeyOf(o)), id) + Withdrawn(m.log, id)
    else
      Filled(m.log, id) == 0 && Withdrawn(m.log, id) == 0
  }

  /** The execution is between a buy and a sell of that instrument and price, and names their owners. */
  predicate Attributed(e: Exec, orders: map<int, Order>) {
    && e.buyId in orders && e.sellId in orders
    && var b, s := orders[e.buyId], orders[e.sellId];
       && 0 < e.fill.qty <= b.qty && e.fill.qty <= s.qty
       && b.side == Buy && s.side == Sell
       && b.instrument == s.instrument == e.fill.instrument && b.price == s.price == e.fill.price
       && e.fill.buyerFd == b.ownerFd && e.fill.buyerSeq == b.ownerSeq
       && e.fill.sellFd == s.ownerFd && e.fill.sellSeq == s.ownerSeq
  }

  /** Every execution of the history is between two orders submitted before it. */
  ghost predicate AllAttributed(log: seq<Event>) {
    forall j :: 0 <= j < |log| && log[j].Traded? ==> Attributed(log[j].exec, Orders(log[..j]))
  }

  /** What is withdrawn is what was left of an order submitted before, its owner unchanged. */
  ghost predicate AllWithdrawn(log: seq<Event>) {
    forall j :: 0 <= j < |log| && log[j].Cancelled? ==> LeftOver(log[j].order, Orders(log[..j]))
  }

  predicate LeftOver(x: Order, orders: map<int, Order>) {
    x.id in orders && x == orders[x.id].(qty := x.qty) && 0 < x.qty <= orders[x.id].qty
  }

  /** No id is given to two orders. */
  ghost predicate SubmittedOnce(log: seq<Event>) {
    forall j :: 0 <= j < |log| && log[j].Submitted? ==> log[j].order.id !in Orders(log[..j])
  }

  ghost predicate Inv(m: Market) {
    && Books.Inv(m.book)
    && Numbered(m)
    && Untouched(m)
    && (forall id :: Conserved(m, id))
    && AllAttributed(m.log)
    && AllWithdrawn(m.log)
    && SubmittedOnce(m.log)
  }

  lemma NextIdIsFresh(m: Market)
    requires Numbered(m) && Untouched(m)
    ensures Fresh(m.book, m.nextId) && m.nextId !in Orders(m.log)
  {
    forall k, i | k in m.book && 0 <= i < |m.book[k]|
      ensures m.book[k][i].id < m.nextId
    {
      assert RestsAs(m.book[k][i], i, Orders(m.log));
    }
  }

  // ---------------------------------------------------------- placing an order

  /** The queues after a submission. */
  lemma SubmitQueues(b: Book, o: Order, k: Key)
    requires o.qty > 0
    ensures var m := Match(o, Queue(b, KeyOf(o).Opposite()));
            Queue(Submit(b, o).book, k) ==
              if k == KeyOf(o) then Queue(b, k) + (if m.left > 0 then [o.(qty := m.left)] else [])
              else if k == KeyOf(o).Opposite() then m.queue
              else Queue(b, k)
  {
  }

  /** The orders left opposite: reduced at the front at most. */
  lemma OppositeStaysUntouched(m: Market, o: Order, i: nat)
    requires Books.Inv(m.book) && Untouched(m) && o.qty > 0
    requires i < |Match(o, Queue(m.book, KeyOf(o).Opposite())).queue|
    ensures RestsAs(Match(o, Queue(m.book, KeyOf(o).Opposite())).queue[i], i, Orders(m.log))
  {
    var queue := Queue(m.book, KeyOf(o).Opposite());
    var rest := Match(o, queue).queue;
    MatchKeepsQueue(o, queue);
    var d := |queue| - |rest|;
    assert RestsAs(queue[d + i], d + i, Orders(m.log));
    if i > 0 {
      KeptAsWas(o, queue, i);
    }
  }

  /** A remainder finds its own queue empty, because the book was not crossed. */
  lemma RemainderRestsInFront(b: Book, o: Order)
    requires Books.Inv(b) && o.qty > 0
    ensures var m := Match(o, Queue(b, KeyOf(o).Opposite()));
            m.left <= o.qty && (KeyOf(o) in b ==> m.left == o.qty)
  {
    var opp := KeyOf(o).Opposite();
    assert opp.Opposite() == KeyOf(o);
    RestClosedForm(o, Queue(b, opp));
    TotalOfPositive(Queue(b, opp));
  }

  lemma EntryAfterPlace(m: Market, o: Order, k: Key, i: nat)
    requires Inv(m) && o.qty > 0 && o.id == m.nextId && i < |Queue(Submit(m.book, o).book, k)|
    ensures RestsAs(Queue(Submit(m.book, o).book, k)[i], i, Orders(m.log)[o.id := o])
  {
    NextIdIsFresh(m);
    SubmitQueues(m.book, o, k);
    var queue := Queue(m.book, k);
    if k == KeyOf(o).Opposite() {
      OppositeStaysUntouched(m, o, i);
    } else if k == KeyOf(o) && i == |queue| {
      RemainderRestsInFront(m.book, o);
    } else {
      assert RestsAs(m.book[k][i], i, Orders(m.log));
    }
  }

  lemma PlaceKeepsUntouched(m: Market, order: Order)
    requires Inv(m)
    ensures Untouched(Place(m, order))
  {
    var o := order.(id := m.nextId);
    if o.qty > 0 {
      LogPlace(m.log, o, Submit(m.book, o).execs);
      var book := Submit(m.book, o).book;
      forall k, i | k in book && 0 <= i < |book[k]|
        ensures RestsAs(book[k][i], i, Orders(m.log)[o.id := o])
      {
        EntryAfterPlace(m, o, k, i);
      }
    } else {
      assert Place(m, order).log == m.log;
    }
  }

  lemma KeptAsWas(o: Order, queue: seq<Order>, i: nat)
    requires o.qty > 0 && Positive(queue) && 0 < i < |Match(o, queue).queue|
    ensures |Match(o, queue).queue| <= |queue|
    ensures Match(o, queue).queue[i] == queue[|queue| - |Match(o, queue).queue| + i]
  {
    RestClosedForm(o, queue);
    var q := Match(o, queue).queue;
    assert q[i] == q[1..][i - 1];
  }

  /** Only orders of the opposite queue, and the incoming one, take part in a match. */
  lemma {:induction false} OthersDoNotTrade(o: Order, queue: seq<Order>, id: int)
    requires id != o.id && forall i :: 0 <= i < |queue| ==> queue[i].id != id
    ensures FilledBy(Match(o, queue).execs, id) == 0
    decreases |queue|
  {
    if o.qty <= 0 || queue == [] {
    } else {
      var traded := Min(o.qty, queue[0].qty);
      if queue[0].qty == traded {
        OthersDoNotTrade(o.(qty := o.qty - traded), queue[1..], id);
      }
      assert Match(o, queue).execs[1..] ==
             if queue[0].qty == traded then Match(o.(qty := o.qty - traded), queue[1..]).execs else [];
    }
  }

  lemma RestsWhereFiled(m: Market, k: Key, id: int)
    requires Inv(m) && (id in Orders(m.log) ==> KeyOf(Orders(m.log)[id]) != k)
    ensures forall i :: 0 <= i < |Queue(m.book, k)| ==> Queue(m.book, k)[i].id != id
  {
    forall i | 0 <= i < |Queue(m.book, k)|
      ensures Queue(m.book, k)[i].id != id
    {
      assert RestsAs(m.book[k][i], i, Orders(m.log));
      assert KeyOf(m.book[k][i]) == k;
    }
  }

  lemma IncomingConserves(m: Market, o: Order)
    requires Inv(m) && o.qty > 0 && o.id == m.nextId
    ensures o.qty == FilledBy(Submit(m.book, o).execs, o.id) + QtyOf(Queue(Submit(m.book, o).book, KeyOf(o)), o.id)
  {
    var own, opp := KeyOf(o), KeyOf(o).Opposite();
    NextIdIsFresh(m);
    RestsWhereFiled(m, own, o.id);
    RestsWhereFiled(m, opp, o.id);
    SubmitQueues(m.book, o, own);
    MatchConservesIncoming(o, Queue(m.book, opp));
    RemainderRestsInFront(m.book, o);
    hide Books.Inv;
    QtyOfAbsent(Queue(m.book, own), o.id);
    MatchLeaves(o, Queue(m.book, opp));
    AppendedQty(Queue(m.book, own), o, Match(o, Queue(m.book, opp)).left, o.id);
  }

  lemma MatchLeaves(o: Order, queue: seq<Order>)
    requires o.qty > 0 && Positive(queue)
    ensures Match(o, queue).left >= 0
  {
    RestClosedForm(o, queue);
  }

  lemma CounterpartyConserves(m: Market, o: Order, id: int)
    requires Inv(m) && o.qty > 0 && o.id == m.nextId && id in Orders(m.log)
    ensures var k := KeyOf(Orders(m.log)[id]);
            QtyOf(Queue(m.book, k), id) ==
              FilledBy(Submit(m.book, o).execs, id) + QtyOf(Queue(Submit(m.book, o).book, k), id)
  {
    var k, opp := KeyOf(Orders(m.log)[id]), KeyOf(o).Opposite();
    NextIdIsFresh(m);
    SubmitQueues(m.book, o, k);
    if k == opp {
      MatchConservesResting(o, Queue(m.book, opp), id);
    } else {
      RestsWhereFiled(m, opp, id);
      OthersDoNotTrade(o, Queue(m.book, opp), id);
      AppendedQty(Queue(m.book, k), o, Match(o, Queue(m.book, opp)).left, id);
    }
  }

  lemma StrangerDoesNotTrade(m: Market, o: Order, id: int)
    requires Inv(m) && o.qty > 0 && id != o.id && id !in Orders(m.log)
    ensures FilledBy(Submit(m.book, o).execs, id) == 0
  {
    RestsWhereFiled(m, KeyOf(o).Opposite(), id);
    OthersDoNotTrade(o, Queue(m.book, KeyOf(o).Opposite()), id);
  }

  lemma PlaceConserves(m: Market, order: Order, id: int)
    requires Inv(m) && order.qty > 0
    ensures Conserved(Place(m, order), id)
  {
    hide Submit, Books.Inv, Untouched, AllAttributed;
    var o := order.(id := m.nextId);
    NextIdIsFresh(m);
    LogPlace(m.log, o, Submit(m.book, o).execs);
    assert Conserved(m, id) && Conserved(m, o.id);
    if id == o.id {
      IncomingConserves(m, o);
    } else if id in Orders(m.log) {
      CounterpartyConserves(m, o, id);
    } else {
      StrangerDoesNotTrade(m, o, id);
    }
  }

  lemma AppendedQty(queue: seq<Order>, o: Order, left: int, id: int)
    ensures QtyOf(queue + (if left > 0 then [o.(qty := left)] else []), id) ==
              QtyOf(queue, id) + if left > 0 && o.id == id then left else 0
  {
    if left > 0 {
      QtyOfSplit(queue, [o.(qty := left)], id);
      assert [o.(qty := left)][1..] == [];
    } else {
      assert queue + [] == queue;
    }
  }

  lemma {:induction false} TradesAreTheLog(execs: seq<Exec>)
    ensures |Trades(execs)| == |execs| && forall j :: 0 <= j < |execs| ==> Trades(execs)[j] == Traded(execs[j])
  {
    if execs == [] {
    } else {
      TradesAreTheLog(execs[..|execs| - 1]);
    }
  }

  lemma OrdersOnlyGrow(log: seq<Event>, execs: seq<Exec>, j: nat)
    requires j <= |execs|
    ensures |Trades(execs)| == |execs| && Orders(log + Trades(execs)[..j]) == Orders(log)
  {
    TradesAreTheLog(execs);
    TradesAreTheLog(execs[..j]);
    assert Trades(execs)[..j] == Trades(execs[..j]);
    LogTrades(log, execs[..j]);
  }

  lemma AppendAttributes(log: seq<Event>, tail: seq<Event>)
    requires AllAttributed(log)
    requires forall t :: 0 <= t < |tail| && tail[t].Traded? ==> Attributed(tail[t].exec, Orders(log + tail[..t]))
    ensures AllAttributed(log + tail)
  {
    hide Attributed, Orders;
    var log' := log + tail;
    forall j | 0 <= j < |log'| && log'[j].Traded?
      ensures Attributed(log'[j].exec, Orders(log'[..j]))
    {
      if j < |log| {
        assert log'[..j] == log[..j] && log'[j] == log[j];
      } else {
        assert log'[..j] == log + tail[..j - |log|] && log'[j] == tail[j - |log|];
      }
    }
  }

  lemma ExecutionIsAttributed(m: Market, o: Order, execs: seq<Exec>, t: nat)
    requires o.id !in Orders(m.log) && t < |execs| && Attributed(execs[t], Orders(m.log)[o.id := o])
    ensures var tail := [Submitted(o)] + Trades(execs);
            |Trades(execs)| == |execs| && tail[t + 1] == Traded(execs[t])
            && Attributed(execs[t], Orders(m.log + tail[..t + 1]))
  {
    hide Attributed;
    var tail := [Submitted(o)] + Trades(execs);
    TradesAreTheLog(execs);
    OrdersOnlyGrow(m.log + [Submitted(o)], execs, t);
    LogStep(m.log, Submitted(o));
    assert tail[..t + 1] == [Submitted(o)] + Trades(execs)[..t];
    assert m.log + ([Submitted(o)] + Trades(execs)[..t]) == m.log + [Submitted(o)] + Trades(execs)[..t];
  }

  lemma PlaceLog(m: Market, order: Order)
    ensures var o := order.(id := m.nextId);
            Place(m, order).log == m.log + if o.qty > 0 then [Submitted(o)] + Trades(Submit(m.book, o).execs) else []
  {
  }

  lemma PlaceAttributes(m: Market, order: Order)
    requires Inv(m)
    ensures AllAttributed(Place(m, order).log)
  {
    hide Books.Inv, Untouched, Numbered, Conserved, AllAttributed, AllWithdrawn, SubmittedOnce, Fresh, Attributed,
         Orders, Match, Submit, Place, Trades;
    var o := order.(id := m.nextId);
    PlaceLog(m, order);
    if o.qty > 0 {
      var execs := Submit(m.book, o).execs;
      var tail := [Submitted(o)] + Trades(execs);
      NextIdIsFresh(m);
      SubmitMatches(m.book, o);
      TradesAreTheLog(execs);
      forall t | 0 <= t < |tail| && tail[t].Traded?
        ensures Attributed(tail[t].exec, Orders(m.log + tail[..t]))
      {
        PartiesAreKnown(m, o, execs[t - 1]);
        ExecutionIsAttributed(m, o, execs, t - 1);
      }
      AppendAttributes(m.log, tail);
    } else {
      assert m.log + [] == m.log;
    }
  }

  /** A placement adds one submission, then executions only. */
  lemma PlaceAdds(m: Market, order: Order)
    ensures var log' := Place(m, order).log;
            && m.log <= log'
            && (order.qty > 0 && |log'| > |m.log| ==> log'[|m.log|] == Submitted(order.(id := m.nextId)))
            && (forall j :: |m.log| < j < |log'| ==> log'[j].Traded?)
            && (order.qty <= 0 ==> log' == m.log)
  {
    hide Submit;
    var o := order.(id := m.nextId);
    if o.qty > 0 {
      var execs, log' := Submit(m.book, o).execs, Place(m, order).log;
      TradesAreTheLog(execs);
      assert forall j :: |m.log| < j < |log'| ==> log'[j] == Trades(execs)[j - |m.log| - 1];
    }
  }

  lemma PlaceSubmitsOnce(m: Market, order: Order)
    requires Numbered(m) && Untouched(m) && SubmittedOnce(m.log)
    ensures SubmittedOnce(Place(m, order).log)
  {
    hide Untouched, Numbered, Place;
    NextIdIsFresh(m);
    PlaceAdds(m, order);
    var log' := Place(m, order).log;
    forall j | 0 <= j < |log'| && log'[j].Submitted?
      ensures log'[j].order.id !in Orders(log'[..j])
    {
      assert j <= |m.log| && log'[..j] == m.log[..j];
      if j == |m.log| {
        assert m.log[..j] == m.log;
      } else {
        assert log'[j] == m.log[j];
      }
    }
  }

  lemma PlaceWithdrawsNothing(m: Market, order: Order)
    requires AllWithdrawn(m.log)
    ensures AllWithdrawn(Place(m, order).log)
  {
    hide Place, LeftOver;
    PlaceAdds(m, order);
    var log' := Place(m, order).log;
    forall j | 0 <= j < |log'| && log'[j].Cancelled?
      ensures LeftOver(log'[j].order, Orders(log'[..j]))
    {
      assert j < |m.log| && log'[j] == m.log[j] && log'[..j] == m.log[..j];
    }
  }

  /** An order once submitted stays in the records as it was. */
  lemma {:induction false} EarlierOrdersStay(log: seq<Event>, j: nat, id: int)
    requires SubmittedOnce(log) && j <= |log| && id in Orders(log[..j])
    ensures id in Orders(log) && Orders(log)[id] == Orders(log[..j])[id]
    decreases |log| - j
  {
    if j == |log| {
      assert log[..j] == log;
    } else {
      assert log[..j + 1] == log[..j] + [log[j]];
      LogStep(log[..j], log[j]);
      EarlierOrdersStay(log, j + 1, id);
    }
  }

  lemma PartiesAreKnown(m: Market, o: Order, e: Exec)
    requires Inv(m) && o.qty > 0 && o.id !in Orders(m.log)
    requires e in Match(o, Queue(m.book, KeyOf(o).Opposite())).execs
    ensures Attributed(e, Orders(m.log)[o.id := o])
  {
    var opp := KeyOf(o).Opposite();
    MatchParties(o, Queue(m.book, opp), e);
    var i :| 0 <= i < |m.book[opp]| && e == Execute(o, m.book[opp][i], e.fill.qty)
             && 0 < e.fill.qty <= m.book[opp][i].qty && e.fill.qty <= o.qty;
    EntryIsKnown(m, opp, i);
    hide Inv, Match;
  }

  lemma EntryIsKnown(m: Market, k: Key, i: nat)
    requires Inv(m) && k in m.book && i < |m.book[k]|
    ensures RestsAs(m.book[k][i], i, Orders(m.log)) && KeyOf(m.book[k][i]) == k
  {
  }

  lemma PlaceKeepsNumbered(m: Market, order: Order)
    requires Numbered(m)
    ensures Numbered(Place(m, order))
  {
    hide Submit, Filled, Withdrawn, FilledBy;
    var o := order.(id := m.nextId);
    if o.qty > 0 {
      LogPlace(m.log, o, Submit(m.book, o).execs);
    } else {
      assert Place(m, order).log == m.log;
    }
  }

  lemma PlaceConservesAll(m: Market, order: Order)
    requires Inv(m)
    ensures forall id :: Conserved(Place(m, order), id)
  {
    if order.qty > 0 {
      hide Inv, Place, Conserved;
      forall id
        ensures Conserved(Place(m, order), id)
      {
        PlaceConserves(m, order, id);
      }
    } else {
      NothingSubmitted(m.book, order.(id := m.nextId));
      hide Submit, Books.Inv, Untouched, Numbered, AllAttributed, SubmittedOnce;
      assert Place(m, order) == m.(nextId := m.nextId + 1) by {
        assert m.log + [] == m.log;
      }
      forall id
        ensures Conserved(Place(m, order), id)
      {
        assert Conserved(m, id);
      }
    }
  }

  lemma PlaceKeepsInv(m: Market, order: Order)
    requires Inv(m)
    ensures Inv(Place(m, order))
  {
    hide Books.Inv, Untouched, Numbered, Conserved, AllAttributed, AllWithdrawn, SubmittedOnce, Fresh, Submit;
    NextIdIsFresh(m);
    SubmitKeepsInv(m.book, order.(id := m.nextId));
    PlaceKeepsNumbered(m, order);
    PlaceKeepsUntouched(m, order);
    PlaceConservesAll(m, order);
    PlaceAttributes(m, order);
    PlaceWithdrawsNothing(m, order);
    PlaceSubmitsOnce(m, order);
  }

  // ------------------------------------------------------ withdrawing an order

  /** A successful cancel, by the position of the order it removes. */
  lemma WithdrawAt(m: Market, id: int, fd: int, serial: nat) returns (k: Key, i: nat)
    requires Books.Inv(m.book) && Owned(m.book, id, fd, serial)
    ensures k in m.book && i < |m.book[k]| && Mine(m.book[k][i], id, fd, serial)
    ensures Withdraw(m, id, fd, serial) ==
              m.(book := Put(m.book, k, Cut(m.book[k], i)), log := m.log + [Cancelled(m.book[k][i])])
  {
    OwnedRests(m.book, id, fd, serial);
    k, i :| k in m.book && 0 <= i < |m.book[k]| && Mine(m.book[k][i], id, fd, serial);
    assert m.book[k][i].id == id;
    DeleteByLevel(m.book, k, i);
  }

  lemma QtyAfterCut(queue: seq<Order>, i: nat, id: int)
    requires Increasing(queue) && i < |queue|
    ensures QtyOf(Cut(queue, i), id) == if id == queue[i].id then 0 else QtyOf(queue, id)
  {
    if id == queue[i].id {
      QtyOfAbsent(Cut(queue, i), id);
    } else {
      assert queue == queue[..i] + ([queue[i]] + queue[i + 1..]);
      QtyOfSplit(queue[..i], [queue[i]] + queue[i + 1..], id);
      QtyOfSplit(queue[..i], queue[i + 1..], id);
      assert ([queue[i]] + queue[i + 1..])[1..] == queue[i + 1..];
    }
  }

  lemma CutConserves(m: Market, k: Key, i: nat, id: int)
    requires Inv(m) && k in m.book && i < |m.book[k]|
    ensures Conserved(m.(book := Put(m.book, k, Cut(m.book[k], i)),
                         log := m.log + [Cancelled(m.book[k][i])]), id)
  {
    var queue := m.book[k];
    LogStep(m.log, Cancelled(queue[i]));
    assert Conserved(m, id);
    assert RestsAs(queue[i], i, Orders(m.log));
    assert KeyOf(queue[i]) == k;
    QtyAfterCut(queue, i, id);
    QtyOfEntry(queue, i);
  }

  lemma CutKeepsUntouched(m: Market, k: Key, i: nat)
    requires Inv(m) && k in m.book && i < |m.book[k]|
    ensures Untouched(m.(book := Put(m.book, k, Cut(m.book[k], i)),
                         log := m.log + [Cancelled(m.book[k][i])]))
  {
    var b := m.book;
    var cut := Cut(b[k], i);
    var b' := Put(b, k, cut);
    LogStep(m.log, Cancelled(b[k][i]));
    forall k', j | k' in b' && 0 <= j < |b'[k']|
      ensures RestsAs(b'[k'][j], j, Orders(m.log))
    {
      if k' == k {
        var was := if j < i then j else j + 1;
        assert b'[k][j] == b[k][was] && RestsAs(b[k][was], was, Orders(m.log));
      } else {
        assert RestsAs(b[k'][j], j, Orders(m.log));
      }
    }
  }

  lemma WithdrawKeepsLog(m: Market, x: Order)
    requires AllAttributed(m.log) && AllWithdrawn(m.log) && SubmittedOnce(m.log)
    requires LeftOver(x, Orders(m.log))
    ensures var log' := m.log + [Cancelled(x)]; AllAttributed(log') && AllWithdrawn(log') && SubmittedOnce(log')
  {
    hide LeftOver, Attributed;
    var log' := m.log + [Cancelled(x)];
    forall j | 0 <= j < |log'|
      ensures log'[..j] == m.log[..j] && (j < |m.log| ==> log'[j] == m.log[j])
    {
    }
    assert m.log[..|m.log|] == m.log;
  }

  lemma WithdrawKeepsInv(m: Market, id: int, fd: int, serial: nat)
    requires Inv(m)
    ensures Inv(Withdraw(m, id, fd, serial))
  {
    if Owned(m.book, id, fd, serial) {
      var k, i := WithdrawAt(m, id, fd, serial);
      CutKeepsInv(m.book, k, i);
      CutKeepsUntouched(m, k, i);
      assert RestsAs(m.book[k][i], i, Orders(m.log)) && m.book[k][i].qty > 0;
      WithdrawKeepsLog(m, m.book[k][i]);
      LogStep(m.log, Cancelled(m.book[k][i]));
      var m' := Withdraw(m, id, fd, serial);
      forall id'
        ensures Conserved(m', id')
      {
        CutConserves(m, k, i, id');
      }
      hide Books.Inv, Untouched, Conserved, AllAttributed, AllWithdrawn, SubmittedOnce;
    }
  }

  lemma {:induction false} RunKeepsInv(ops: seq<Op>)
    ensures Inv(Run(ops))
    decreases |ops|
  {
    if ops == [] {
    } else {
      RunKeepsInv(ops[..|ops| - 1]);
      match ops[|ops| - 1] {
        case PlaceOp(o) => PlaceKeepsInv(Run(ops[..|ops| - 1]), o);
        case CancelOp(id, fd, serial) => WithdrawKeepsInv(Run(ops[..|ops| - 1]), id, fd, serial);
      }
    }
  }
}
