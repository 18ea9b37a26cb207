/**
  The simple form of the book. As only equal prices match, each instrument and price is a market of its own:
  one queue of orders all on one side. The nested two-sided book is a refinement of these independent queues.
*/
module Levels {
  import opened Matching
  import opened Books
  import opened Markets

  /** One queue and the side its orders are on; an empty level counts as a buy level. */
  datatype Level = Level(side: Side, queue: seq<Order>)

  function Normal(side: Side, queue: seq<Order>): Level {
    if queue == [] then Level(Buy, []) else Level(side, queue)
  }

  datatype LevelOp =
    | Enter(order: Order)
    | Leave(id: int, fd: int, serial: nat)

  function CutMine(queue: seq<Order>, id: int, fd: int, serial: nat): seq<Order> {
    if queue == [] then []
    else if Mine(queue[0], id, fd, serial) then CutMine(queue[1..], id, fd, serial)
    else [queue[0]] + CutMine(queue[1..], id, fd, serial)
  }

  function Step(l: Level, op: LevelOp): (Level, seq<Exec>) {
    match op
    case Enter(o) =>
      if l.queue == [] || l.side == o.side then (Level(o.side, l.queue + [o]), [])
      else
        var m := Match(o, l.queue);
        (if m.left > 0 then Level(o.side, [o.(qty := m.left)]) else Normal(l.side, m.queue), m.execs)
    case Leave(id, fd, serial) => (Normal(l.side, CutMine(l.queue, id, fd, serial)), [])
  }

  function RunLevel(ops: seq<LevelOp>): (Level, seq<Exec>) {
    if ops == [] then (Level(Buy, []), [])
    else
      var (l, execs) := RunLevel(ops[..|ops| - 1]);
      var (l', more) := Step(l, ops[|ops| - 1]);
      (l', execs + more)
  }

  // ---------------------------------------------------------------- projection

  function Placements(ops: seq<Op>): nat {
    if ops == [] then 0 else Placements(ops[..|ops| - 1]) + if ops[|ops| - 1].PlaceOp? then 1 else 0
  }

  /** What the `n`-th placement, or a cancel, means for one level. */
  function ProjectOp(op: Op, n: nat, instrument: string, price: int): seq<LevelOp> {
    match op
    case PlaceOp(order) =>
      var o := order.(id := n);
      if o.qty > 0 && o.instrument == instrument && o.price == price then [Enter(o)] else []
    case CancelOp(id, fd, serial) => [Leave(id, fd, serial)]
  }

  /** The part of a run that concerns one level: orders for it, under their ids, and every cancel. */
  function Project(ops: seq<Op>, instrument: string, price: int): seq<LevelOp> {
    if ops == [] then []
    else
      var before := ops[..|ops| - 1];
      Project(before, instrument, price) + ProjectOp(ops[|ops| - 1], Placements(before), instrument, price)
  }

  function LevelOf(b: Book, instrument: string, price: int): Level {
    var buys := Queue(b, Key(Buy, instrument, price));
    if buys != [] then Level(Buy, buys) else Normal(Sell, Queue(b, Key(Sell, instrument, price)))
  }

  /** The executions of a history at one level. */
  function ExecsAt(log: seq<Event>, instrument: string, price: int): seq<Exec> {
    if log == [] then []
    else
      var last := log[|log| - 1];
      ExecsAt(log[..|log| - 1], instrument, price) +
      if last.Traded? && At(last.exec, instrument, price) then [last.exec] else []
  }

  /** Nothing is lost in the simple form: a book is determined by its levels. */
  lemma LevelsDetermineBook(b: Book, c: Book)
    requires Books.Inv(b) && Books.Inv(c)
    requires forall instrument, price :: LevelOf(b, instrument, price) == LevelOf(c, instrument, price)
    ensures b == c
  {
    forall k: Key
      ensures Queue(b, k) == Queue(c, k)
    {
      assert LevelOf(b, k.instrument, k.price) == LevelOf(c, k.instrument, k.price);
      QueueOfLevel(b, k);
      QueueOfLevel(c, k);
    }
    QueuesDecide(b, c);
  }

  lemma QueueOfLevel(b: Book, k: Key)
    requires Books.Inv(b)
    ensures var l := LevelOf(b, k.instrument, k.price);
            Queue(b, k) == if l.side == k.side then l.queue else []
  {
    assert k == Key(k.side, k.instrument, k.price);
    assert k.Opposite() == Key(k.side.Other(), k.instrument, k.price);
  }

  // ---------------------------------------------------------------- refinement

  lemma ExecsAtStep(log: seq<Event>, e: Event, instrument: string, price: int)
    ensures ExecsAt(log + [e], instrument, price) ==
              ExecsAt(log, instrument, price) + if e.Traded? && At(e.exec, instrument, price) then [e.exec] else []
  {
    assert (log + [e])[..|log + [e]| - 1] == log;
  }

  lemma {:induction false} ExecsAtTrades(log: seq<Event>, execs: seq<Exec>, o: Order, instrument: string, price: int)
    requires forall e :: e in execs ==> At(e, o.instrument, o.price)
    ensures ExecsAt(log + Trades(execs), instrument, price) ==
              ExecsAt(log, instrument, price) + if o.instrument == instrument && o.price == price then execs else []
    decreases |execs|
  {
    hide ExecsAt;
    if execs == [] {
      assert log + [] == log;
    } else {
      var front, last := execs[..|execs| - 1], execs[|execs| - 1];
      ExecsAtTrades(log, front, o, instrument, price);
      ExecsAtStep(log + Trades(front), Traded(last), instrument, price);
      assert log + Trades(execs) == log + Trades(front) + [Traded(last)];
      assert last in execs && execs == front + [last];
    }
  }

  lemma ExecsAtPlace(m: Market, order: Order, instrument: string, price: int)
    ensures ExecsAt(Place(m, order).log, instrument, price) ==
              ExecsAt(m.log, instrument, price)
              + if order.instrument == instrument && order.price == price
                then Submit(m.book, order.(id := m.nextId)).execs else []
  {
    hide Match, ExecsAt, Trades;
    var o := order.(id := m.nextId);
    var execs := Submit(m.book, o).execs;
    if o.qty > 0 {
      MatchStaysAtItsLevel(o, Queue(m.book, KeyOf(o).Opposite()));
      var log' := m.log + [Submitted(o)];
      ExecsAtStep(m.log, Submitted(o), instrument, price);
      assert ExecsAt(m.log, instrument, price) + [] == ExecsAt(m.log, instrument, price);
      ExecsAtTrades(log', execs, o, instrument, price);
      assert m.log + ([Submitted(o)] + Trades(execs)) == log' + Trades(execs);
    } else {
      assert Place(m, order).log == m.log;
      assert ExecsAt(m.log, instrument, price) + [] == ExecsAt(m.log, instrument, price);
    }
  }

  /** One submission, seen from its own level. */
  lemma SubmitRefines(b: Book, o: Order)
    requires Books.Inv(b) && o.qty > 0
    ensures Step(LevelOf(b, o.instrument, o.price), Enter(o)) ==
              (LevelOf(Submit(b, o).book, o.instrument, o.price), Submit(b, o).execs)
  {
    var own, opp := KeyOf(o), KeyOf(o).Opposite();
    assert opp.Opposite() == own;
    SubmitQueues(b, o, own);
    SubmitQueues(b, o, opp);
    SubmitByLevel(b, o);
    QueueOfLevel(b, own);
    QueueOfLevel(b, opp);
    if opp in b && Match(o, b[opp]).left > 0 {
      RemainderMeansDry(o, b[opp]);
    }
    hide Books.Inv, Submit;
    assert o.(qty := o.qty) == o;
  }

  /** One submission, seen from another level. */
  lemma SubmitElsewhere(b: Book, o: Order, instrument: string, price: int)
    requires o.instrument != instrument || o.price != price
    ensures LevelOf(Submit(b, o).book, instrument, price) == LevelOf(b, instrument, price)
  {
    SubmitIsLocal(b, o, Key(Buy, instrument, price));
    SubmitIsLocal(b, o, Key(Sell, instrument, price));
  }

  lemma {:induction false} CutNothing(queue: seq<Order>, id: int, fd: int, serial: nat)
    requires forall i :: 0 <= i < |queue| ==> !Mine(queue[i], id, fd, serial)
    ensures CutMine(queue, id, fd, serial) == queue
  {
    if queue == [] {
    } else {
      CutNothing(queue[1..], id, fd, serial);
    }
  }

  lemma {:induction false} CutOne(queue: seq<Order>, i: nat, id: int, fd: int, serial: nat)
    requires Increasing(queue) && i < |queue| && Mine(queue[i], id, fd, serial)
    ensures CutMine(queue, id, fd, serial) == Cut(queue, i)
    decreases |queue|
  {
    if i == 0 {
      CutNothing(queue[1..], id, fd, serial);
      assert Cut(queue, 0) == queue[1..];
    } else {
      CutOne(queue[1..], i - 1, id, fd, serial);
      CutTail(queue, i);
    }
  }

  /** A cancel is the same cut at every queue: it finds its order at one of them, or at none. */
  lemma WithdrawQueues(m: Market, id: int, fd: int, serial: nat, k: Key)
    requires Books.Inv(m.book)
    ensures Queue(Withdraw(m, id, fd, serial).book, k) == CutMine(Queue(m.book, k), id, fd, serial)
  {
    if Owned(m.book, id, fd, serial) {
      var k', i := WithdrawAt(m, id, fd, serial);
      if k == k' {
        CutOne(m.book[k], i, id, fd, serial);
      } else {
        NotMineElsewhere(m.book, k', i, k, id, fd, serial);
        CutNothing(Queue(m.book, k), id, fd, serial);
      }
    } else {
      CutNothing(Queue(m.book, k), id, fd, serial);
    }
  }

  lemma NotMineElsewhere(b: Book, k: Key, i: nat, k': Key, id: int, fd: int, serial: nat)
    requires UniqueIds(b) && k in b && i < |b[k]| && b[k][i].id == id && k' != k
    ensures forall j :: 0 <= j < |Queue(b, k')| ==> !Mine(Queue(b, k')[j], id, fd, serial)
  {
    forall j | 0 <= j < |Queue(b, k')|
      ensures b[k'][j].id != b[k][i].id
    {
    }
  }

  lemma WithdrawRefines(m: Market, id: int, fd: int, serial: nat, instrument: string, price: int)
    requires Books.Inv(m.book)
    ensures Step(LevelOf(m.book, instrument, price), Leave(id, fd, serial)) ==
              (LevelOf(Withdraw(m, id, fd, serial).book, instrument, price), [])
    ensures ExecsAt(Withdraw(m, id, fd, serial).log, instrument, price) == ExecsAt(m.log, instrument, price)
  {
    var buy, sell := Key(Buy, instrument, price), Key(Sell, instrument, price);
    WithdrawQueues(m, id, fd, serial, buy);
    WithdrawQueues(m, id, fd, serial, sell);
    QueueOfLevel(m.book, buy);
    QueueOfLevel(m.book, sell);
    if Owned(m.book, id, fd, serial) {
      var log' := Withdraw(m, id, fd, serial).log;
      assert log'[..|log'| - 1] == m.log;
    }
  }

  lemma {:induction false} IdsAreNumbered(ops: seq<Op>)
    ensures Run(ops).nextId == Placements(ops)
  {
    if ops == [] {
    } else {
      IdsAreNumbered(ops[..|ops| - 1]);
    }
  }

  lemma LevelSnoc(ops: seq<LevelOp>, op: LevelOp)
    ensures var (l, execs) := RunLevel(ops);
            var (l', more) := Step(l, op);
            RunLevel(ops + [op]) == (l', execs + more)
  {
    assert (ops + [op])[..|ops + [op]| - 1] == ops;
  }

  /** The queue and the executions of a level are those of its own run. */
  ghost predicate RunsAs(m: Market, instrument: string, price: int, part: seq<LevelOp>) {
    RunLevel(part) == (LevelOf(m.book, instrument, price), ExecsAt(m.log, instrument, price))
  }

  lemma PlaceRunsAlone(m: Market, order: Order, instrument: string, price: int, part: seq<LevelOp>)
    requires Books.Inv(m.book) && RunsAs(m, instrument, price, part)
    ensures RunsAs(Place(m, order), instrument, price, part + ProjectOp(PlaceOp(order), m.nextId, instrument, price))
  {
    hide Submit, Match, LevelOf, Step;
    var o := order.(id := m.nextId);
    ExecsAtPlace(m, order, instrument, price);
    assert part + [] == part;
    assert ExecsAt(m.log, instrument, price) + [] == ExecsAt(m.log, instrument, price);
    if o.qty <= 0 {
      assert Place(m, order).log == m.log;
      NothingSubmitted(m.book, o);
    } else if o.instrument == instrument && o.price == price {
      SubmitRefines(m.book, o);
      LevelSnoc(part, Enter(o));
    } else {
      SubmitElsewhere(m.book, o, instrument, price);
    }
  }

  lemma WithdrawRunsAlone(m: Market, id: int, fd: int, serial: nat, instrument: string, price: int, part: seq<LevelOp>)
    requires Books.Inv(m.book) && RunsAs(m, instrument, price, part)
    ensures RunsAs(Withdraw(m, id, fd, serial), instrument, price, part + [Leave(id, fd, serial)])
  {
    hide Withdraw, LevelOf, Step;
    WithdrawRefines(m, id, fd, serial, instrument, price);
    LevelSnoc(part, Leave(id, fd, serial));
    assert ExecsAt(m.log, instrument, price) + [] == ExecsAt(m.log, instrument, price);
  }

  lemma OneMoreRunsAlone(m: Market, op: Op, instrument: string, price: int, part: seq<LevelOp>)
    requires Books.Inv(m.book) && RunsAs(m, instrument, price, part)
    ensures RunsAs(Apply(m, op), instrument, price, part + ProjectOp(op, m.nextId, instrument, price))
  {
    hide RunsAs, Place, Withdraw;
    match op {
      case PlaceOp(order) => PlaceRunsAlone(m, order, instrument, price, part);
      case CancelOp(id, fd, serial) => WithdrawRunsAlone(m, id, fd, serial, instrument, price, part);
    }
  }

  lemma NothingRunsAlone(instrument: string, price: int)
    ensures RunsAs(Run([]), instrument, price, [])
  {
  }

  lemma ProjectSnoc(ops: seq<Op>, op: Op, instrument: string, price: int)
    ensures Project(ops + [op], instrument, price) ==
              Project(ops, instrument, price) + ProjectOp(op, Run(ops).nextId, instrument, price)
    ensures Run(ops + [op]) == Apply(Run(ops), op)
  {
    assert (ops + [op])[..|ops + [op]| - 1] == ops;
    IdsAreNumbered(ops);
  }

  /** Each level of a run is the run of that level alone: its queue and its executions, whatever else happened. */
  lemma {:induction false} EveryLevelRunsAlone(ops: seq<Op>, instrument: string, price: int)
    ensures RunsAs(Run(ops), instrument, price, Project(ops, instrument, price))
    decreases |ops|
  {
    hide RunsAs, Apply, ProjectOp;
    if ops == [] {
      NothingRunsAlone(instrument, price);
      assert ops == [] && Project([], instrument, price) == [];
    } else {
      var before, last := ops[..|ops| - 1], ops[|ops| - 1];
      EveryLevelRunsAlone(before, instrument, price);
      RunKeepsInv(before);
      OneMoreRunsAlone(Run(before), last, instrument, price, Project(before, instrument, price));
      ProjectSnoc(before, last, instrument, price);
      assert ops == before + [last];
    }
  }
}
