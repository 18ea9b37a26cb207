/** Sums and counts over whole histories: traded volume, resting totals, and how many executions there can be. */
module MarketTotals {
  import opened Matching
  import opened Books
  import opened Markets

  // -------------------------------------------------------------------- volume

  /** All quantity ever submitted to one side of one level. */
  function Asked(log: seq<Event>, k: Key): int {
    if log == [] then 0
    else
      var last := log[|log| - 1];
      Asked(log[..|log| - 1], k) + if last.Submitted? && KeyOf(last.order) == k then last.order.qty else 0
  }

  /** All quantity ever withdrawn from one side of one level. */
  function WithdrawnAt(log: seq<Event>, k: Key): int {
    if log == [] then 0
    else
      var last := log[|log| - 1];
      WithdrawnAt(log[..|log| - 1], k) + if last.Cancelled? && KeyOf(last.order) == k then last.order.qty else 0
  }

  /** All quantity ever traded at one instrument and price. */
  function TradedAt(log: seq<Event>, instrument: string, price: int): int {
    if log == [] then 0
    else
      var last := log[|log| - 1];
      TradedAt(log[..|log| - 1], instrument, price)
      + if last.Traded? && At(last.exec, instrument, price) then last.exec.fill.qty else 0
  }

  /** One side of a level balances: asked is traded, resting, or withdrawn. */
  ghost predicate Balanced(m: Market, k: Key) {
    Asked(m.log, k) == TradedAt(m.log, k.instrument, k.price) + Total(Queue(m.book, k)) + WithdrawnAt(m.log, k)
  }

  lemma TotalsStep(log: seq<Event>, e: Event, k: Key)
    ensures Asked(log + [e], k) == Asked(log, k) + if e.Submitted? && KeyOf(e.order) == k then e.order.qty else 0
    ensures WithdrawnAt(log + [e], k) ==
              WithdrawnAt(log, k) + if e.Cancelled? && KeyOf(e.order) == k then e.order.qty else 0
    ensures TradedAt(log + [e], k.instrument, k.price) == TradedAt(log, k.instrument, k.price)
              + if e.Traded? && At(e.exec, k.instrument, k.price) then e.exec.fill.qty else 0
  {
    assert (log + [e])[..|log + [e]| - 1] == log;
  }

  /** Executions all at one level move the volume of that level by their sum, and of no other. */
  lemma {:induction false} TotalsTrades(log: seq<Event>, execs: seq<Exec>, o: Order, k: Key)
    requires forall e :: e in execs ==> At(e, o.instrument, o.price)
    ensures Asked(log + Trades(execs), k) == Asked(log, k)
    ensures WithdrawnAt(log + Trades(execs), k) == WithdrawnAt(log, k)
    ensures TradedAt(log + Trades(execs), k.instrument, k.price) ==
              TradedAt(log, k.instrument, k.price) + if Concerns(o, k) then Volume(execs) else 0
    decreases |execs|
  {
    if execs == [] {
      assert log + [] == log;
    } else {
      var front, last := execs[..|execs| - 1], execs[|execs| - 1];
      TotalsTrades(log, front, o, k);
      TotalsStep(log + Trades(front), Traded(last), k);
      assert log + Trades(execs) == log + Trades(front) + [Traded(last)];
      VolumeSnoc(front, last);
      assert execs == front + [last] && last in execs;
    }
  }

  lemma {:induction false} VolumeSnoc(execs: seq<Exec>, e: Exec)
    ensures Volume(execs + [e]) == Volume(execs) + e.fill.qty
  {
    if execs == [] {
    } else {
      assert (execs + [e])[1..] == execs[1..] + [e];
      VolumeSnoc(execs[1..], e);
    }
  }

  lemma TotalsPlace(log: seq<Event>, o: Order, execs: seq<Exec>, k: Key)
    requires forall e :: e in execs ==> At(e, o.instrument, o.price)
    ensures var log' := log + ([Submitted(o)] + Trades(execs));
            && Asked(log', k) == Asked(log, k) + (if k == KeyOf(o) then o.qty else 0)
            && WithdrawnAt(log', k) == WithdrawnAt(log, k)
            && TradedAt(log', k.instrument, k.price) ==
                 TradedAt(log, k.instrument, k.price) + if Concerns(o, k) then Volume(execs) else 0
  {
    TotalsStep(log, Submitted(o), k);
    TotalsTrades(log + [Submitted(o)], execs, o, k);
    assert log + ([Submitted(o)] + Trades(execs)) == log + [Submitted(o)] + Trades(execs);
  }

  lemma SubmitTotal(b: Book, o: Order, k: Key)
    requires Books.Inv(b) && o.qty > 0
    ensures var s := Submit(b, o);
            && (forall e :: e in s.execs ==> At(e, o.instrument, o.price))
            && Total(Queue(s.book, k)) == Total(Queue(b, k)) + (if k == KeyOf(o) then o.qty else 0)
                                          - (if Concerns(o, k) then Volume(s.execs) else 0)
  {
    var queue := Queue(b, KeyOf(o).Opposite());
    MatchStaysAtItsLevel(o, queue);
    RestClosedForm(o, queue);
    SubmitQueues(b, o, k);
    TwoKeys(o, k);
    if k == KeyOf(o) {
      AppendedTotal(Queue(b, k), o, Match(o, queue).left);
      RemainderNotNegative(o, queue);
    }
  }

  lemma RemainderNotNegative(o: Order, queue: seq<Order>)
    requires o.qty > 0 && Positive(queue)
    ensures Match(o, queue).left == o.qty - Volume(Match(o, queue).execs) >= 0
  {
    RestClosedForm(o, queue);
  }

  lemma AppendedTotal(queue: seq<Order>, o: Order, left: int)
    ensures Total(queue + (if left > 0 then [o.(qty := left)] else [])) == Total(queue) + if left > 0 then left else 0
  {
    if left > 0 {
      TotalSplit(queue, [o.(qty := left)]);
      assert [o.(qty := left)][1..] == [];
    } else {
      assert queue + [] == queue;
    }
  }

  lemma PlaceBalances(m: Market, order: Order, k: Key)
    requires Books.Inv(m.book) && Balanced(m, k)
    ensures Balanced(Place(m, order), k)
  {
    var o := order.(id := m.nextId);
    if o.qty > 0 {
      SubmitTotal(m.book, o, k);
      hide Submit, Books.Inv;
      TotalsPlace(m.log, o, Submit(m.book, o).execs, k);
    } else {
      assert Place(m, order).log == m.log;
    }
  }

  lemma CutTotal(queue: seq<Order>, i: nat)
    requires i < |queue|
    ensures Total(Cut(queue, i)) == Total(queue) - queue[i].qty
  {
    TotalSplit(queue[..i], queue[i + 1..]);
    TotalSplit(queue[..i], [queue[i]] + queue[i + 1..]);
    assert queue == queue[..i] + ([queue[i]] + queue[i + 1..]);
    assert ([queue[i]] + queue[i + 1..])[1..] == queue[i + 1..];
  }

  lemma CutBalances(m: Market, k': Key, i: nat, k: Key)
    requires k' in m.book && i < |m.book[k']| && KeyOf(m.book[k'][i]) == k' && Balanced(m, k)
    ensures Balanced(m.(book := Put(m.book, k', Cut(m.book[k'], i)), log := m.log + [Cancelled(m.book[k'][i])]), k)
  {
    hide Asked, TradedAt, WithdrawnAt, Cut;
    TotalsStep(m.log, Cancelled(m.book[k'][i]), k);
    CutTotal(m.book[k'], i);
  }

  lemma WithdrawBalances(m: Market, id: int, fd: int, serial: nat, k: Key)
    requires Books.Inv(m.book) && Balanced(m, k)
    ensures Balanced(Withdraw(m, id, fd, serial), k)
  {
    if Owned(m.book, id, fd, serial) {
      var k', i := WithdrawAt(m, id, fd, serial);
      assert KeyOf(m.book[k'][i]) == k';
      assert m.book[k'] != [];
      hide Withdraw, Books.Inv, Owned;
      CutBalances(m, k', i, k);
    }
  }

  lemma {:induction false} RunBalances(ops: seq<Op>, k: Key)
    ensures Balanced(Run(ops), k)
    decreases |ops|
  {
    if ops == [] {
    } else {
      var before := ops[..|ops| - 1];
      RunKeepsInv(before);
      RunBalances(before, k);
      match ops[|ops| - 1] {
        case PlaceOp(o) => PlaceBalances(Run(before), o, k);
        case CancelOp(id, fd, serial) => WithdrawBalances(Run(before), id, fd, serial, k);
      }
    }
  }

  /**
    At every level of every run the traded volume is as large as it can be: the smaller of the two sides'
    quantities, withdrawn remainders not counted. What one side has beyond that is what rests.
  */
  lemma TradedVolume(ops: seq<Op>, instrument: string, price: int)
    ensures var m, buy, sell := Run(ops), Key(Buy, instrument, price), Key(Sell, instrument, price);
            var bought := Asked(m.log, buy) - WithdrawnAt(m.log, buy);
            var sold := Asked(m.log, sell) - WithdrawnAt(m.log, sell);
            && TradedAt(m.log, instrument, price) == Min(bought, sold)
            && Total(Queue(m.book, buy)) == bought - Min(bought, sold)
            && Total(Queue(m.book, sell)) == sold - Min(bought, sold)
  {
    hide Run;
    var buy, sell := Key(Buy, instrument, price), Key(Sell, instrument, price);
    RunOneSideOnly(ops, buy);
    RunBalances(ops, buy);
    RunBalances(ops, sell);
  }

  lemma RunOneSideOnly(ops: seq<Op>, k: Key)
    ensures Min(Total(Queue(Run(ops).book, k)), Total(Queue(Run(ops).book, k.Opposite()))) == 0
  {
    RunKeepsInv(ops);
    OneSideOnly(Run(ops).book, k);
  }

  lemma OneSideOnly(b: Book, k: Key)
    requires Books.Inv(b)
    ensures Min(Total(Queue(b, k)), Total(Queue(b, k.Opposite()))) == 0
  {
    TotalOfPositive(Queue(b, k));
    TotalOfPositive(Queue(b, k.Opposite()));
  }

  // -------------------------------------------------------- order independence

  predicate CancelFree(ops: seq<Op>) {
    forall i :: 0 <= i < |ops| ==> ops[i].PlaceOp?
  }

  /** What one operation asks for at a level. */
  function Asks(op: Op, k: Key): int {
    if op.PlaceOp? && op.order.qty > 0 && KeyOf(op.order) == k then op.order.qty else 0
  }

  function AllAsks(ops: seq<Op>, k: Key): int {
    if ops == [] then 0 else AllAsks(ops[..|ops| - 1], k) + Asks(ops[|ops| - 1], k)
  }

  lemma PlaceAsks(m: Market, order: Order, k: Key)
    requires Books.Inv(m.book)
    ensures Asked(Place(m, order).log, k) == Asked(m.log, k) + Asks(PlaceOp(order), k)
    ensures WithdrawnAt(Place(m, order).log, k) == WithdrawnAt(m.log, k)
  {
    var o := order.(id := m.nextId);
    if o.qty > 0 {
      SubmitTotal(m.book, o, k);
      hide Submit, Books.Inv;
      TotalsPlace(m.log, o, Submit(m.book, o).execs, k);
    } else {
      assert Place(m, order).log == m.log;
    }
  }

  lemma {:induction false} AskedIsWhatWasAsked(ops: seq<Op>, k: Key)
    requires CancelFree(ops)
    ensures Asked(Run(ops).log, k) == AllAsks(ops, k) && WithdrawnAt(Run(ops).log, k) == 0
    decreases |ops|
  {
    if ops == [] {
    } else {
      var before := ops[..|ops| - 1];
      AskedIsWhatWasAsked(before, k);
      RunKeepsInv(before);
      PlaceAsks(Run(before), ops[|ops| - 1].order, k);
      hide Place, Markets.Inv;
    }
  }

  lemma {:induction false} AllAsksOfPart(ops: seq<Op>, i: nat, k: Key)
    requires i < |ops|
    ensures AllAsks(ops, k) == AllAsks(ops[..i] + ops[i + 1..], k) + Asks(ops[i], k)
    decreases |ops|
  {
    var cut := ops[..i] + ops[i + 1..];
    if i == |ops| - 1 {
      assert cut == ops[..|ops| - 1];
    } else {
      var front := ops[..|ops| - 1];
      AllAsksOfPart(front, i, k);
      assert cut[..|cut| - 1] == front[..i] + front[i + 1..];
    }
  }

  /** A rearrangement of `ops` has its last operation somewhere, and the others around it. */
  lemma LastIsThere(ops: seq<Op>, ops': seq<Op>) returns (i: nat)
    requires ops != [] && multiset(ops) == multiset(ops')
    ensures i < |ops'| && ops'[i] == ops[|ops| - 1]
    ensures multiset(ops[..|ops| - 1]) == multiset(ops'[..i] + ops'[i + 1..])
  {
    var front, last := ops[..|ops| - 1], ops[|ops| - 1];
    assert ops == front + [last];
    assert last in multiset(ops');
    i :| 0 <= i < |ops'| && ops'[i] == last;
    var cut := ops'[..i] + ops'[i + 1..];
    assert ops' == ops'[..i] + [last] + ops'[i + 1..];
    assert multiset(cut) == multiset(ops') - multiset{last} == multiset(front);
  }

  lemma {:induction false} AllAsksOfPermutation(ops: seq<Op>, ops': seq<Op>, k: Key)
    requires multiset(ops) == multiset(ops')
    ensures AllAsks(ops, k) == AllAsks(ops', k)
    decreases |ops|
  {
    if ops == [] {
      assert |multiset(ops')| == 0;
    } else {
      var i := LastIsThere(ops, ops');
      AllAsksOfPart(ops', i, k);
      AllAsksOfPermutation(ops[..|ops| - 1], ops'[..i] + ops'[i + 1..], k);
    }
  }

  lemma PermutationIsCancelFree(ops: seq<Op>, ops': seq<Op>)
    requires CancelFree(ops) && multiset(ops) == multiset(ops')
    ensures CancelFree(ops')
  {
    forall i | 0 <= i < |ops'|
      ensures ops'[i].PlaceOp?
    {
      assert ops'[i] in multiset(ops');
      assert ops'[i] in ops;
    }
  }

  /** However the same orders arrive, each level trades the same volume and is left with the same totals. */
  lemma ArrivalOrderDoesNotMatter(ops: seq<Op>, ops': seq<Op>, instrument: string, price: int)
    requires CancelFree(ops) && multiset(ops) == multiset(ops')
    ensures var buy, sell := Key(Buy, instrument, price), Key(Sell, instrument, price);
            && TradedAt(Run(ops).log, instrument, price) == TradedAt(Run(ops').log, instrument, price)
                 == Min(AllAsks(ops, buy), AllAsks(ops, sell))
            && Total(Queue(Run(ops).book, buy)) == Total(Queue(Run(ops').book, buy))
            && Total(Queue(Run(ops).book, sell)) == Total(Queue(Run(ops').book, sell))
  {
    hide Run, AllAsks, Asked, WithdrawnAt, TradedAt, Total, Queue;
    var buy, sell := Key(Buy, instrument, price), Key(Sell, instrument, price);
    PermutationIsCancelFree(ops, ops');
    AskedIsWhatWasAsked(ops, buy);
    AskedIsWhatWasAsked(ops, sell);
    AskedIsWhatWasAsked(ops', buy);
    AskedIsWhatWasAsked(ops', sell);
    AllAsksOfPermutation(ops, ops', buy);
    AllAsksOfPermutation(ops, ops', sell);
    TradedVolume(ops, instrument, price);
    TradedVolume(ops', instrument, price);
  }

  // ------------------------------------------------------------ counting events

  function Submissions(log: seq<Event>): nat {
    if log == [] then 0
    else Submissions(log[..|log| - 1]) + if log[|log| - 1].Submitted? then 1 else 0
  }

  function Executions(log: seq<Event>): nat {
    if log == [] then 0
    else Executions(log[..|log| - 1]) + if log[|log| - 1].Traded? then 1 else 0
  }

  function Cancellations(log: seq<Event>): nat {
    if log == [] then 0
    else Cancellations(log[..|log| - 1]) + if log[|log| - 1].Cancelled? then 1 else 0
  }

  function IdSet(queue: seq<Order>): set<int> {
    set i | 0 <= i < |queue| :: queue[i].id
  }

  ghost function RestingIds(b: Book): set<int> {
    set k, i | k in b && 0 <= i < |b[k]| :: b[k][i].id
  }

  lemma {:induction false} IdSetSize(queue: seq<Order>)
    requires Increasing(queue)
    ensures |IdSet(queue)| == |queue|
  {
    if queue == [] {
    } else {
      var front, last := queue[..|queue| - 1], queue[|queue| - 1];
      IdSetSize(front);
      assert IdSet(queue) == IdSet(front) + {last.id};
      assert last.id !in IdSet(front);
    }
  }

  lemma RestingIdsByLevel(b: Book, k: Key, id: int)
    requires Books.Inv(b)
    ensures id in RestingIds(b) <==> id in RestingIds(b - {k}) || id in IdSet(Queue(b, k))
    ensures !(id in RestingIds(b - {k}) && id in IdSet(Queue(b, k)))
  {
    RestingIdsAreResting(b, id);
    RestingIdsAreResting(b - {k}, id);
    RestsByLevel(b, k, id);
    if id in IdSet(Queue(b, k)) {
      RestsOnce(b, k, id);
    }
  }

  lemma RestingIdsAreResting(b: Book, id: int)
    ensures id in RestingIds(b) <==> Rests(b, id)
  {
  }

  lemma RestingSize(b: Book, k: Key)
    requires Books.Inv(b)
    ensures |RestingIds(b)| == |RestingIds(b - {k})| + |Queue(b, k)|
    ensures Books.Inv(b - {k})
  {
    hide RestingIds, IdSet;
    IdSetSize(Queue(b, k));
    PutKeepsInv(b, k, []);
    forall id
      ensures id in RestingIds(b) <==> id in RestingIds(b - {k}) || id in IdSet(Queue(b, k))
      ensures !(id in RestingIds(b - {k}) && id in IdSet(Queue(b, k)))
    {
      RestingIdsByLevel(b, k, id);
    }
    DisjointUnionSize(RestingIds(b), RestingIds(b - {k}), IdSet(Queue(b, k)));
  }

  lemma DisjointUnionSize<T>(all: set<T>, a: set<T>, b: set<T>)
    requires forall x :: x in all <==> x in a || x in b
    requires forall x :: !(x in a && x in b)
    ensures |all| == |a| + |b|
  {
    assert all == a + b && a !! b;
  }

  lemma RestingSizeTwo(b: Book, k: Key, k': Key)
    requires Books.Inv(b) && k != k'
    ensures |RestingIds(b)| == |RestingIds(b - {k} - {k'})| + |Queue(b, k)| + |Queue(b, k')|
  {
    RestingSize(b, k);
    RestingSize(b - {k}, k');
  }

  lemma CountStep(log: seq<Event>, e: Event)
    ensures Submissions(log + [e]) == Submissions(log) + if e.Submitted? then 1 else 0
    ensures Executions(log + [e]) == Executions(log) + if e.Traded? then 1 else 0
    ensures Cancellations(log + [e]) == Cancellations(log) + if e.Cancelled? then 1 else 0
  {
    assert (log + [e])[..|log + [e]| - 1] == log;
  }

  lemma {:induction false} CountTrades(log: seq<Event>, execs: seq<Exec>)
    ensures Submissions(log + Trades(execs)) == Submissions(log)
    ensures Executions(log + Trades(execs)) == Executions(log) + |execs|
    ensures Cancellations(log + Trades(execs)) == Cancellations(log)
    decreases |execs|
  {
    if execs == [] {
      assert log + [] == log;
    } else {
      var front, last := execs[..|execs| - 1], execs[|execs| - 1];
      CountTrades(log, front);
      CountStep(log + Trades(front), Traded(last));
      assert log + Trades(execs) == log + Trades(front) + [Traded(last)];
    }
  }

  ghost predicate Bounded(m: Market) {
    Executions(m.log) + |RestingIds(m.book)| + Cancellations(m.log) <= Submissions(m.log)
  }

  /** Outside the two queues of its instrument and price a submission leaves the book alone. */
  lemma RemoteQueuesStay(b: Book, o: Order)
    ensures var own, opp := KeyOf(o), KeyOf(o).Opposite(); Submit(b, o).book - {own} - {opp} == b - {own} - {opp}
  {
    var own, opp := KeyOf(o), KeyOf(o).Opposite();
    var b' := Submit(b, o).book;
    hide Submit;
    forall k
      ensures SameAt(b - {own} - {opp}, b' - {own} - {opp}, k)
    {
      TwoKeys(o, k);
      if !Concerns(o, k) {
        SubmitIsLocal(b, o, k);
      }
    }
    SameEverywhere(b - {own} - {opp}, b' - {own} - {opp});
  }

  lemma SubmitResting(b: Book, o: Order)
    requires Books.Inv(b) && Fresh(b, o.id) && o.qty > 0
    ensures var s := Submit(b, o);
            |s.execs| + |RestingIds(s.book)| <= |RestingIds(b)| + 1
  {
    hide Books.Inv, Fresh, Match, RestingIds, Submit;
    var own, opp := KeyOf(o), KeyOf(o).Opposite();
    var b' := Submit(b, o).book;
    SubmitKeepsInv(b, o);
    RestingSizeTwo(b, own, opp);
    RestingSizeTwo(b', own, opp);
    RemoteQueuesStay(b, o);
    SubmitQueues(b, o, own);
    SubmitQueues(b, o, opp);
    LevelIsPositive(b, opp);
    MatchExhausts(o, Queue(b, opp));
    SubmitMatches(b, o);
  }

  lemma LevelIsPositive(b: Book, k: Key)
    requires Books.Inv(b)
    ensures Positive(Queue(b, k))
  {
  }

  lemma CountPlace(log: seq<Event>, o: Order, execs: seq<Exec>)
    ensures var log' := log + ([Submitted(o)] + Trades(execs));
            && Submissions(log') == Submissions(log) + 1
            && Executions(log') == Executions(log) + |execs|
            && Cancellations(log') == Cancellations(log)
  {
    CountStep(log, Submitted(o));
    CountTrades(log + [Submitted(o)], execs);
    assert log + ([Submitted(o)] + Trades(execs)) == log + [Submitted(o)] + Trades(execs);
  }

  lemma PlaceKeepsBound(m: Market, order: Order)
    requires Books.Inv(m.book) && Fresh(m.book, m.nextId) && Bounded(m)
    ensures Bounded(Place(m, order))
  {
    hide Submit, RestingIds;
    var o := order.(id := m.nextId);
    if o.qty > 0 {
      SubmitResting(m.book, o);
      CountPlace(m.log, o, Submit(m.book, o).execs);
    } else {
      assert Place(m, order).log == m.log;
      NothingSubmitted(m.book, o);
    }
  }

  lemma CutResting(b: Book, k: Key, i: nat)
    requires Books.Inv(b) && k in b && i < |b[k]|
    requires Books.Inv(Put(b, k, Cut(b[k], i)))
    ensures |RestingIds(Put(b, k, Cut(b[k], i)))| == |RestingIds(b)| - 1
  {
    var b' := Put(b, k, Cut(b[k], i));
    RestingSize(b, k);
    RestingSize(b', k);
    hide Books.Inv, RestingIds;
    assert b' - {k} == b - {k};
  }

  lemma WithdrawKeepsBound(m: Market, id: int, fd: int, serial: nat)
    requires Books.Inv(m.book) && Bounded(m)
    ensures Bounded(Withdraw(m, id, fd, serial))
  {
    if Owned(m.book, id, fd, serial) {
      CancelKeepsInv(m.book, id, fd, serial);
      var k, i := WithdrawAt(m, id, fd, serial);
      CutResting(m.book, k, i);
      hide Withdraw, Books.Inv, RestingIds;
      CountStep(m.log, Cancelled(m.book[k][i]));
    }
  }

  /** Every execution uses up an order, so there are never more executions than orders; what rests counts too. */
  lemma {:induction false} ExecutionsAreBounded(ops: seq<Op>)
    ensures Bounded(Run(ops))
    decreases |ops|
  {
    if ops == [] {
    } else {
      var before := ops[..|ops| - 1];
      RunKeepsInv(before);
      ExecutionsAreBounded(before);
      NextIdIsFresh(Run(before));
      match ops[|ops| - 1] {
        case PlaceOp(o) => PlaceKeepsBound(Run(before), o);
        case CancelOp(id, fd, serial) => WithdrawKeepsBound(Run(before), id, fd, serial);
      }
    }
  }
}
