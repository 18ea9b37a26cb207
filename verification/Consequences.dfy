/** What the server invariant means for clients: who is told what, who can cancel what, and what the bytes say. */
module Consequences {
  import opened Wrappers
  import opened Matching
  import opened Protocol
  import opened Framing
  import opened Markets
  import opened Channels
  import opened Exchange
  import opened Sessions
  import opened Safety
  import Books

  /** `s` is a session of the state: one that is connected, or one that ended. */
  predicate Ever(c: Core, s: Session) {
    (s.fd in c.sessions && c.sessions[s.fd] == s) || (s.serial in c.closed && c.closed[s.serial] == s)
  }

  predicate Live(c: Core, s: Session) {
    s.fd in c.sessions && c.sessions[s.fd] == s
  }

  lemma EverIsGood(c: Core, s: Session)
    requires Safety.Inv(c) && Ever(c, s)
    ensures Live(c, s) ==> Good(s, true, c.hist, OrdersOf(c))
    ensures !Live(c, s) ==> Good(s, false, c.hist, OrdersOf(c))
  {
  }

  // ------------------------------------------------------------------- the market

  ghost predicate Reached(m: Market) {
    exists ops :: m == Markets.Run(ops)
  }

  lemma PlaceReaches(m: Market, o: Order)
    requires Reached(m) && o.id == m.nextId
    ensures Reached(Place(m, o))
  {
    hide Place;
    var ops :| m == Markets.Run(ops);
    var ops' := ops + [PlaceOp(o)];
    assert ops'[..|ops'| - 1] == ops;
    assert Markets.Run(ops') == Place(m, o);
  }

  lemma WithdrawReaches(m: Market, id: int, fd: int, serial: nat)
    requires Reached(m)
    ensures Reached(Withdraw(m, id, fd, serial))
  {
    hide Withdraw;
    var ops :| m == Markets.Run(ops);
    var ops' := ops + [CancelOp(id, fd, serial)];
    assert ops'[..|ops'| - 1] == ops;
    assert Markets.Run(ops') == Withdraw(m, id, fd, serial);
  }

  lemma DeliverKeepsMarket(c: Core, e: Exec)
    ensures Deliver(c, e).market == c.market
  {
  }

  lemma {:induction false} DeliverAllKeepsMarket(c: Core, execs: seq<Exec>)
    ensures DeliverAll(c, execs).market == c.market
  {
    hide Deliver;
    if execs == [] {
    } else {
      DeliverAllKeepsMarket(c, execs[..|execs| - 1]);
      DeliverKeepsMarket(DeliverAll(c, execs[..|execs| - 1]), execs[|execs| - 1]);
    }
  }

  lemma BuyOrSellReaches(c: Core, fd: int, t: seq<string>)
    requires Reached(c.market) && fd in c.sessions && t != []
    ensures Reached(Exchange.BuyOrSell(c, fd, t).market)
  {
    hide Reached, Parse, Place, DeliverAll, Post, Books.Submit;
    if |t| == 4 && t[1] in INSTRUMENTS && Parse(t[2], 1).Some? && Parse(t[3], 1).Some? {
      var side := if t[0] == "BUY" then Buy else Sell;
      var qty, price := Parse(t[2], 1).value, Parse(t[3], 1).value;
      var o := Order(c.market.nextId, side, t[1], qty, price, fd, c.sessions[fd].serial);
      PlaceReaches(c.market, o);
      var told := Send(c, fd, Accepted(o.id));
      var placed := told.(market := Place(c.market, o), hist := told.hist + [InMarket(Submitted(o))]);
      DeliverAllKeepsMarket(placed, Books.Submit(c.market.book, o).execs);
    }
  }

  lemma CancelCmdReaches(c: Core, fd: int, t: seq<string>)
    requires Reached(c.market) && fd in c.sessions && t != []
    ensures Reached(Exchange.CancelCmd(c, fd, t).market)
  {
    hide Reached, Parse, Withdraw, Post, Books.Owned;
    if |t| == 2 && Parse(t[1], 0).Some? {
      WithdrawReaches(c.market, Parse(t[1], 0).value, fd, c.sessions[fd].serial);
    }
  }

  /** The line is noted and the role settled; what remains is to dispatch the command. */
  function Settled(c: Core, fd: int, line: string): Core
    requires fd in c.sessions && Tokens(line) != []
  {
    SetRole(Note(c, fd, line), fd, Tokens(line)[0])
  }

  lemma HandleLineReaches(c: Core, fd: int, line: string)
    requires Reached(c.market)
    ensures Reached(Exchange.HandleLine(c, fd, line).market)
  {
    hide Reached, Exchange.BuyOrSell, Exchange.CancelCmd, Post, Tokens;
    var t := Tokens(line);
    if fd in c.sessions && t != [] {
      var c' := Settled(c, fd, line);
      BuyOrSellReaches(c', fd, t);
      CancelCmdReaches(c', fd, t);
    }
  }

  lemma {:induction false} HandleAllReaches(c: Core, fd: int, lines: seq<string>)
    requires Reached(c.market)
    ensures Reached(HandleAll(c, fd, lines).market)
    decreases |lines|
  {
    hide Reached, Exchange.HandleLine, IsQuit;
    if lines == [] {
    } else {
      HandleLineReaches(c, fd, lines[0]);
      if !IsQuit(lines[0]) {
        HandleAllReaches(Exchange.HandleLine(c, fd, lines[0]), fd, lines[1..]);
      }
    }
  }

  lemma {:induction false} ReadableReaches(m: Machine, fd: int, recvs: seq<Received>)
    requires Reached(m.core.market)
    ensures Reached(Readable(m, fd, recvs).core.market)
    decreases |recvs|
  {
    hide Reached, HandleAll, Lines, Quits, Rest;
    if fd !in m.core.sessions || recvs == [] {
    } else {
      match recvs[0] {
        case Got(bytes) =>
          if bytes != "" {
            HandleAllReaches(m.core, fd, Lines(Inbuf(m, fd) + bytes));
            ReadableReaches(Arrive(m, fd, bytes).0, fd, recvs[1..]);
          }
        case TryAgain => ReadableReaches(m, fd, recvs[1..]);
        case Exhausted =>
        case Broken =>
      }
    }
  }

  /** The server's market is always that of some run of placements and cancels, so every law of those runs holds. */
  lemma {:induction false} MarketIsARun(steps: seq<Step>)
    ensures Reached(Exchange.Run(steps).core.market)
    decreases |steps|
  {
    if steps == [] {
      assert Exchange.Run(steps).core.market == Markets.Run([]);
    } else {
      hide Reached, Readable, Channels.Drain;
      var m := Exchange.Run(steps[..|steps| - 1]);
      MarketIsARun(steps[..|steps| - 1]);
      match steps[|steps| - 1] {
        case AcceptStep(fd, script) =>
        case ReadStep(fd, recvs) => ReadableReaches(m, fd, recvs);
        case WriteStep(fd) =>
        case HangupStep(fd) =>
      }
    }
  }

  /** The life of an order: what it asked for is what was traded, what still rests, and what was withdrawn. */
  lemma OrderAccounting(m: Market, id: int)
    requires Markets.Inv(m) && id in Orders(m.log)
    ensures var o := Orders(m.log)[id];
            var resting := QtyOf(Books.Queue(m.book, KeyOf(o)), id);
            && o.qty == Filled(m.log, id) + resting + Withdrawn(m.log, id)
            && (Books.Rests(m.book, id) <==> resting > 0)
  {
    var o := Orders(m.log)[id];
    var queue := Books.Queue(m.book, KeyOf(o));
    assert Conserved(m, id);
    if Books.Rests(m.book, id) {
      var k, i :| k in m.book && 0 <= i < |m.book[k]| && m.book[k][i].id == id;
      assert RestsAs(m.book[k][i], i, Orders(m.log)) && KeyOf(m.book[k][i]) == k;
      QtyOfEntry(queue, i);
    } else {
      forall i | 0 <= i < |queue|
        ensures queue[i].id != id
      {
        assert m.book[KeyOf(o)][i].id == queue[i].id;
      }
      QtyOfAbsent(queue, id);
    }
  }

  /** First come, first served: whoever is not at the front of a queue came later and has not traded at all. */
  lemma OnlyTheFrontTrades(m: Market, k: Key, i: nat)
    requires Markets.Inv(m) && k in m.book && 0 < i < |m.book[k]|
    ensures var x := m.book[k][i];
            && x.id in Orders(m.log) && x == Orders(m.log)[x.id]
            && m.book[k][i - 1].id < x.id
            && Filled(m.log, x.id) + Withdrawn(m.log, x.id) == 0
  {
    var x := m.book[k][i];
    assert RestsAs(x, i, Orders(m.log)) && KeyOf(x) == k;
    assert Conserved(m, x.id);
    QtyOfEntry(m.book[k], i);
  }

  // ----------------------------------------------------------- execution dues

  /** What a session is told as an owner was caused by an event of the market's history. */
  lemma {:induction false} DuesAreReal(hist: seq<Happening>, serial: nat, m: Msg) returns (event: Event)
    requires m in Expected(hist, serial).dues
    ensures event in MarketLog(hist) && m in Due(event, serial)
    decreases |hist|
  {
    var front, last := hist[..|hist| - 1], hist[|hist| - 1];
    if m in Expected(front, serial).dues {
      event := DuesAreReal(front, serial, m);
    } else {
      event := last.event;
    }
  }

  /** Accepted orders and cancels of the history were told to their owner. */
  lemma {:induction false} AnswersAreGiven(hist: seq<Happening>, event: Event, serial: nat, m: Msg)
    requires event in MarketLog(hist) && !event.Traded? && m in Due(event, serial)
    ensures m in Expected(hist, serial).dues
    decreases |hist|
  {
    var front, last := hist[..|hist| - 1], hist[|hist| - 1];
    if event in MarketLog(front) {
      AnswersAreGiven(front, event, serial, m);
    }
  }

  lemma {:induction false} TradesAreReal(hist: seq<Happening>, serial: nat, e: Exec)
    requires e in Expected(hist, serial).trades
    ensures Traded(e) in MarketLog(hist)
    decreases |hist|
  {
    if hist == [] {
    } else {
      var front, last := hist[..|hist| - 1], hist[|hist| - 1];
      if e in Expected(front, serial).trades {
        TradesAreReal(front, serial, e);
      }
    }
  }

  lemma {:induction false} InDues(log: seq<Msg>, m: Msg)
    ensures ForTrader(m) ==> (m in DuesIn(log) <==> m in log)
    ensures m.Trade? ==> (m.exec in TradesIn(log) <==> m in log)
  {
    if log == [] {
    } else {
      var front, last := log[..|log| - 1], log[|log| - 1];
      InDues(front, m);
      assert log == front + [last];
    }
  }

  /** An execution of the history fits the orders it names. */
  lemma RealIsAttributed(m: Market, e: Exec)
    requires Markets.Inv(m) && Traded(e) in m.log
    ensures exists j :: 0 <= j < |m.log| && m.log[j] == Traded(e) && Attributed(e, Orders(m.log[..j]))
  {
    var j :| 0 <= j < |m.log| && m.log[j] == Traded(e);
    assert m.log[j].Traded? && m.log[j].exec == e;
  }

  /**
    Whoever holds a descriptor now, or held it before: a BOUGHT or SOLD reaches only the very session that placed
    the order, after the ORDER_ACCEPTED for it, and only for an execution that took place.
  */
  lemma ReportsReachTheOwner(c: Core, s: Session, i: nat)
    requires Safety.Inv(c) && Ever(c, s) && i < |s.log| && (s.log[i].Bought? || s.log[i].Sold?)
    ensures var e := s.log[i].exec;
            var id := if s.log[i].Bought? then e.buyId else e.sellId;
            && Traded(e) in c.market.log
            && id in OrdersOf(c) && OrdersOf(c)[id].ownerSeq == s.serial && OrdersOf(c)[id].ownerFd == s.fd
            && Accepted(id) in s.log[..i]
            && s.role == Trader
  {
    ReportIsReal(c, s, i);
    EverIsGood(c, s);
    hide Safety.Inv, Carried, WellTold;
    var e := s.log[i].exec;
    var id := if s.log[i].Bought? then e.buyId else e.sellId;
    assert Accepted(id) in s.log[..i];
    assert Accepted(id) in s.log;
    assert s.log[i] in s.log && ForTrader(s.log[i]);
  }

  lemma ReportsComeFromTrades(event: Event, serial: nat, m: Msg)
    requires m in Due(event, serial) && (m.Bought? || m.Sold?)
    ensures event == Traded(m.exec)
  {
  }

  lemma ReportIsReal(c: Core, s: Session, i: nat)
    requires Safety.Inv(c) && Ever(c, s) && i < |s.log| && (s.log[i].Bought? || s.log[i].Sold?)
    ensures Traded(s.log[i].exec) in c.market.log
  {
    ReportsAreExact(c, s);
    HistoryIsTheMarkets(c);
    hide Safety.Inv, Expected, MarketLog, AllDues, Ever, Live;
    var m := s.log[i];
    InDues(s.log, m);
    var event := DuesAreReal(c.hist, s.serial, m);
    ReportsComeFromTrades(event, s.serial, m);
  }

  lemma HistoryIsTheMarkets(c: Core)
    requires Safety.Inv(c)
    ensures MarketLog(c.hist) == c.market.log
  {
  }

  /** What a session was told as an owner is what was due to it while it was connected. */
  lemma ReportsAreExact(c: Core, s: Session)
    requires Safety.Inv(c) && Ever(c, s)
    ensures DuesIn(s.log) == Expected(c.hist, s.serial).dues
    ensures Live(c, s) ==> DuesIn(s.log) == AllDues(c.market.log, s.serial)
  {
    EverIsGood(c, s);
    HistoryIsTheMarkets(c);
  }

  /**
    A market-data client is told TRADE exactly for the executions in its instruments while it was subscribed,
    each of them real; it never gets a trader's message, and a trader never gets TRADE.
  */
  lemma TradesAreExact(c: Core, s: Session)
    requires Safety.Inv(c) && Ever(c, s)
    ensures TradesIn(s.log) == Expected(c.hist, s.serial).trades && MarketLog(c.hist) == c.market.log
    ensures Live(c, s) ==> s.subs == Expected(c.hist, s.serial).subs
    ensures forall e :: e in TradesIn(s.log) ==> Traded(e) in c.market.log
    ensures forall m :: m in s.log && m.Trade? ==> s.role == MarketData
    ensures forall m :: m in s.log && ForTrader(m) ==> s.role == Trader
  {
    EverIsGood(c, s);
    HistoryIsTheMarkets(c);
    forall e | e in TradesIn(s.log)
      ensures Traded(e) in c.market.log
    {
      TradesAreReal(c.hist, s.serial, e);
    }
  }

  // ----------------------------------------------------------------------- cancel

  /** Ownership by descriptor and serial number is ownership by the session that placed the order. */
  lemma OwnedByTheSession(c: Core, fd: int, id: int)
    requires Safety.Inv(c) && fd in c.sessions
    ensures Books.Owned(c.market.book, id, fd, c.sessions[fd].serial) <==>
              Books.Rests(c.market.book, id) && id in OrdersOf(c) && OrdersOf(c)[id].ownerSeq == c.sessions[fd].serial
    ensures Books.Owned(c.market.book, id, fd, c.sessions[fd].serial) ==> c.sessions[fd].role == Trader
  {
    var s := c.sessions[fd];
    assert Good(s, true, c.hist, OrdersOf(c)) && s.fd == fd;
    if Books.Rests(c.market.book, id) {
      var k, i :| k in c.market.book && 0 <= i < |c.market.book[k]| && c.market.book[k][i].id == id;
      var x := c.market.book[k][i];
      assert RestsAs(x, i, OrdersOf(c));
      Books.OwnerDecides(c.market.book, k, i, fd, s.serial);
    } else if Books.Owned(c.market.book, id, fd, s.serial) {
      OwnedRests(c.market.book, id, fd, s.serial);
    }
  }

  /** Nobody but the session under `fd` is touched: the others are as they were, and no one came or left. */
  predicate OthersUntouched(c: Core, c': Core, fd: int) {
    && c'.sessions.Keys == c.sessions.Keys && c'.closed == c.closed && c'.nextSerial == c.nextSerial
    && (forall other :: other in c.sessions && other != fd ==> c'.sessions[other] == c.sessions[other])
  }

  /** The session under `fd` is told `m` and nothing more, and nobody else is touched. */
  predicate Answered(c: Core, c': Core, fd: int, m: Msg) {
    && fd in c.sessions && OthersUntouched(c, c', fd)
    && c'.sessions[fd].fd == c.sessions[fd].fd && c'.sessions[fd].serial == c.sessions[fd].serial
    && c'.sessions[fd].log == c.sessions[fd].log + [m]
  }

  /** Neither the session's name nor its subscriptions have changed. */
  predicate SameProfile(c: Core, c': Core, fd: int)
    requires fd in c.sessions && fd in c'.sessions
  {
    c'.sessions[fd].username == c.sessions[fd].username && c'.sessions[fd].subs == c.sessions[fd].subs
  }

  lemma SendAnswers(c: Core, fd: int, m: Msg)
    requires fd in c.sessions
    ensures Answered(c, Send(c, fd, m), fd, m) && SameProfile(c, Send(c, fd, m), fd)
    ensures Send(c, fd, m).sessions[fd].role == c.sessions[fd].role
    ensures Send(c, fd, m).market == c.market && Send(c, fd, m).hist == c.hist
  {
    hide Channels.Enqueue, Text;
  }

  /** The session is told an error, and that is all: only its role may be settled by the attempt. */
  predicate Refused(c: Core, c': Core, fd: int, reason: string) {
    c'.market == c.market && Answered(c, c', fd, Error(reason)) && SameProfile(c, c', fd)
  }

  lemma RefusalIsError(c: Core, fd: int, reason: string)
    requires fd in c.sessions
    ensures Refused(c, Send(c, fd, Error(reason)), fd, reason)
  {
    hide Send;
    SendAnswers(c, fd, Error(reason));
  }

  lemma CancelOrderAnswer(c: Core, fd: int, id: int, text: string)
    requires fd in c.sessions
    ensures var c' := CancelOrder(c, fd, id, text);
            if Books.Owned(c.market.book, id, fd, c.sessions[fd].serial) then
              && Answered(c, c', fd, Withdrawal(id)) && SameProfile(c, c', fd)
              && c'.market == Withdraw(c.market, id, fd, c.sessions[fd].serial)
            else Refused(c, c', fd, "cannot cancel order " + text)
  {
    hide Send, Withdraw, Books.Owned, Refused;
    var serial := c.sessions[fd].serial;
    if Books.Owned(c.market.book, id, fd, serial) {
      OwnedRests(c.market.book, id, fd, serial);
      var gone := Cancelled(Resting(c.market.book, id));
      var taken := c.(market := Withdraw(c.market, id, fd, serial), hist := c.hist + [InMarket(gone)]);
      SendAnswers(taken, fd, Withdrawal(id));
    } else {
      RefusalIsError(c, fd, "cannot cancel order " + text);
    }
  }

  /** Refused after the role was settled is refused. */
  lemma RefusedAfterRole(c: Core, c': Core, fd: int, line: string, reason: string)
    requires fd in c.sessions && Tokens(line) != [] && Refused(Settled(c, fd, line), c', fd, reason)
    ensures Refused(c, c', fd, reason)
  {
    assert Settled(c, fd, line).sessions[fd].log == c.sessions[fd].log;
  }

  /** What `Parse` accepts, and what it gives. */
  lemma ParseRange(w: string, low: nat)
    ensures Parse(w, low).Some? <==> Numeral(w) && low <= Value(w) <= 2147483647
    ensures Parse(w, low).Some? ==> Parse(w, low).value == Value(w)
  {
  }

  /** What a client reads when its CANCEL with the argument `w` fails. */
  function WhyNotCancelled(role: Role, w: string): string {
    if role == MarketData then "market-data clients cannot send CANCEL"
    else if !(Numeral(w) && Value(w) <= 2147483647) then "order id must be an integer in 0..2147483647"
    else "cannot cancel order " + w
  }

  /** The answer to CANCEL, from the state it arrives in. */
  lemma CancelAnswer(c: Core, fd: int, line: string)
    requires fd in c.sessions && |Tokens(line)| == 2 && Tokens(line)[0] == "CANCEL"
    requires forall id :: Books.Owned(c.market.book, id, fd, c.sessions[fd].serial) ==> c.sessions[fd].role == Trader
    ensures var c', id := Exchange.HandleLine(c, fd, line), Parse(Tokens(line)[1], 0);
            if id.Some? && Books.Owned(c.market.book, id.value, fd, c.sessions[fd].serial) then
              && Answered(c, c', fd, Withdrawal(id.value)) && SameProfile(c, c', fd)
              && c'.market == Withdraw(c.market, id.value, fd, c.sessions[fd].serial)
            else Refused(c, c', fd, WhyNotCancelled(c.sessions[fd].role, Tokens(line)[1]))
  {
    hide Parse, Withdraw, Books.Owned, Send, CancelOrder, Tokens, Refused;
    var t := Tokens(line);
    ParseRange(t[1], 0);
    var r, c' := Settled(c, fd, line), Exchange.HandleLine(c, fd, line);
    assert r.sessions[fd].log == c.sessions[fd].log && r.sessions[fd].serial == c.sessions[fd].serial;
    if r.sessions[fd].role != Trader {
      assert "market-data clients cannot send " + "CANCEL" == "market-data clients cannot send CANCEL";
      RefusalIsError(r, fd, "market-data clients cannot send CANCEL");
      RefusedAfterRole(c, c', fd, line, "market-data clients cannot send CANCEL");
    } else if Parse(t[1], 0).None? {
      RefusalIsError(r, fd, "order id must be an integer in 0..2147483647");
      RefusedAfterRole(c, c', fd, line, "order id must be an integer in 0..2147483647");
    } else {
      CancelOrderAnswer(r, fd, Parse(t[1], 0).value, t[1]);
      if !Books.Owned(c.market.book, Parse(t[1], 0).value, fd, c.sessions[fd].serial) {
        RefusedAfterRole(c, c', fd, line, "cannot cancel order " + t[1]);
      }
    }
  }

  /** Order `id` was placed by session `s`. */
  predicate Placed(c: Core, id: int, s: Session) {
    id in OrdersOf(c) && OrdersOf(c)[id].ownerSeq == s.serial
  }

  /** The book `b'` is `b` without the order `id`; every other order rests as it did. */
  ghost predicate Lacks(b': Books.Book, b: Books.Book, id: int) {
    && !Books.Rests(b', id)
    && (forall k, x :: x in Books.Queue(b', k) <==> x in Books.Queue(b, k) && x.id != id)
  }

  lemma DeletionIsExact(b: Books.Book, id: int, fd: int, serial: nat)
    requires Books.Inv(b) && Books.Owned(b, id, fd, serial)
    ensures Lacks(Books.Delete(b, id), b, id)
  {
    Books.CancelIsDeletion(b, id, fd, serial);
    assert Books.Cancel(b, id, fd, serial) == (true, Books.Delete(b, id));
    hide Books.Delete, Books.Queue;
  }

  /**
    A connected client's CANCEL, spelled in whatever way, succeeds exactly when its one argument names an order
    that is resting and was placed by this very session.
  */
  lemma CancelSucceedsExactlyForTheOwner(c: Core, fd: int, line: string)
    requires Safety.Inv(c) && fd in c.sessions && |Tokens(line)| == 2 && Tokens(line)[0] == "CANCEL"
    ensures var c', s, w := Exchange.HandleLine(c, fd, line), c.sessions[fd], Tokens(line)[1];
            if Numeral(w) && Value(w) <= 2147483647
              && Books.Rests(c.market.book, Value(w)) && Placed(c, Value(w), s) then
              && Answered(c, c', fd, Withdrawal(Value(w))) && SameProfile(c, c', fd)
              && Lacks(c'.market.book, c.market.book, Value(w))
            else Refused(c, c', fd, WhyNotCancelled(s.role, w))
  {
    ParseRange(Tokens(line)[1], 0);
    hide Exchange.HandleLine, Tokens, Parse, Value, Safety.Inv, Refused, Books.Rests, Books.Owned, Books.Delete, Lacks;
    var s := c.sessions[fd];
    forall id
      ensures Books.Owned(c.market.book, id, fd, s.serial) <==> Books.Rests(c.market.book, id) && Placed(c, id, s)
      ensures Books.Owned(c.market.book, id, fd, s.serial) ==> s.role == Trader
    {
      OwnedByTheSession(c, fd, id);
    }
    CancelAnswer(c, fd, line);
    var id := Parse(Tokens(line)[1], 0);
    if id.Some? && Books.Owned(c.market.book, id.value, fd, s.serial) {
      BookPart(c);
      DeletionIsExact(c.market.book, id.value, fd, s.serial);
      assert Exchange.HandleLine(c, fd, line).market.book == Books.Delete(c.market.book, id.value);
    }
  }

  lemma BookPart(c: Core)
    requires Safety.Inv(c)
    ensures Books.Inv(c.market.book)
  {
  }

  // ------------------------------------------------------------------- the stream

  /**
    From the server's queue to the client's screen: what the client's line buffer yields, however the bytes are
    cut, are the messages meant for it, in order, from the first on; all of them once the queue is empty.
    After a hard error this needs a kernel that has taken nothing more.
  */
  lemma ClientSeesItsMessages(c: Core, s: Session, chunks: seq<string>)
    requires Safety.Inv(c) && Ever(c, s) && Sticky(Given(s.chan))
    requires Concat(chunks) == s.chan.accepted
    ensures Receive("", chunks).0 <= Texts(s.log)
    ensures Failed !in Given(s.chan) && s.chan.outbuf == [] ==> Receive("", chunks).0 == Texts(s.log)
  {
    EverIsGood(c, s);
    ReceiveIgnoresChunks("", chunks);
    assert "" + s.chan.accepted == s.chan.accepted;
    CarriesMessages(s.chan, Texts(s.log));
    if Failed !in Given(s.chan) && s.chan.outbuf == [] {
      assert s.chan.accepted + "" == s.chan.accepted;
      LinesOfFrame(Texts(s.log));
    }
  }

  /** No byte is missing or out of place: those taken and those queued are the framed messages. */
  predicate Whole(s: Session) {
    s.chan.accepted + Concat(s.chan.outbuf) == Frame(Texts(s.log))
  }

  /** A good session's bytes, by the answers the kernel gave. */
  lemma GoodIsWhole(s: Session, live: bool, hist: seq<Happening>, orders: map<int, Order>)
    requires Good(s, live, hist, orders)
    ensures Failed !in Given(s.chan) ==> Whole(s)
    ensures live && Whole(s) ==> Failed !in Given(s.chan)
    ensures Whole(s) && Failed in Given(s.chan) ==>
              s.chan.outbuf != [] && Failed !in Given(s.chan)[..|Given(s.chan)| - 1]
  {
    hide WellTold, WellTyped, WellOwned, AckFirst, Texts, Armed, AllOneLine;
    CarriesMessages(s.chan, Texts(s.log));
  }

  /** For a connected session: exactly as long as no send has met a hard error. */
  lemma StreamIsWhole(c: Core, s: Session)
    requires Safety.Inv(c) && Ever(c, s)
    ensures Failed !in Given(s.chan) ==> Whole(s)
    ensures Live(c, s) && Whole(s) ==> Failed !in Given(s.chan)
    ensures Whole(s) && Failed in Given(s.chan) ==>
              !Live(c, s) && s.chan.outbuf != [] && Failed !in Given(s.chan)[..|Given(s.chan)| - 1]
  {
    hide Safety.Inv, Good, Whole;
    EverIsGood(c, s);
    GoodIsWhole(s, Live(c, s), c.hist, OrdersOf(c));
  }

  /** The write event is armed exactly while something waits to be sent, and no waiting chunk is empty. */
  lemma NoLostWakeup(c: Core, fd: int)
    requires Safety.Inv(c) && fd in c.sessions
    ensures var chan := c.sessions[fd].chan;
            (chan.wantWrite <==> chan.outbuf != []) && "" !in chan.outbuf
  {
    assert Good(c.sessions[fd], true, c.hist, OrdersOf(c));
  }

  /** A client reads from a BOUGHT, SOLD or TRADE line exactly what was traded. */
  lemma ExecutionsAreReadable(c: Core, s: Session, i: nat)
    requires Safety.Inv(c) && Ever(c, s) && i < |s.log|
    requires s.log[i].Bought? || s.log[i].Sold? || s.log[i].Trade?
    ensures var m, f := s.log[i], s.log[i].exec.fill;
            var word := if m.Bought? then "BOUGHT" else if m.Sold? then "SOLD" else "TRADE";
            && Tokens(Text(m)) == [word, f.instrument, ToString(f.qty), ToString(f.price)]
            && Parse(ToString(f.qty), 1) == Some(f.qty) && Parse(ToString(f.price), 1) == Some(f.price)
  {
    hide Safety.Inv, Tokens, Parse, ToString, MsgBought, MsgSold, MsgTrade;
    MessagesAreReal(c, s, i);
    var f := s.log[i].exec.fill;
    FillIsInRange(c, s.log[i].exec);
    ReportRoundTrip(f.instrument, f.qty, f.price);
  }

  /** What the words of a message are, for those that read it. */
  predicate CanBeRead(m: Msg) {
    match m
    case Ok => Text(m) == "OK" && Tokens(Text(m)) == ["OK"]
    case Error(reason) => Text(m) == "ERROR " + reason && Tokens(Text(m)) == ["ERROR"] + Tokens(reason)
    case Accepted(id) => Tokens(Text(m)) == ["ORDER_ACCEPTED", ToString(id)] && Reads(ToString(id), id)
    case Withdrawal(id) => Tokens(Text(m)) == ["ORDER_CANCELLED", ToString(id)] && Reads(ToString(id), id)
    case Bought(e) => ReadsAs(Tokens(Text(m)), "BOUGHT", e.fill)
    case Sold(e) => ReadsAs(Tokens(Text(m)), "SOLD", e.fill)
    case Trade(e) => ReadsAs(Tokens(Text(m)), "TRADE", e.fill)
  }

  predicate Reads(w: string, n: int) {
    Numeral(w) && Value(w) == n
  }

  predicate ReadsAs(words: seq<string>, first: string, f: Fill) {
    && words == [first, f.instrument, ToString(f.qty), ToString(f.price)]
    && Reads(ToString(f.qty), f.qty) && Reads(ToString(f.price), f.price)
  }

  /** Every message of every session says what happened, in words that give it back. */
  lemma MessageIsReadable(c: Core, s: Session, i: nat)
    requires Safety.Inv(c) && Ever(c, s) && i < |s.log|
    ensures CanBeRead(s.log[i])
  {
    hide Safety.Inv, Tokens, Numeral, Value, ToString, MsgBought, MsgSold, MsgTrade;
    var m := s.log[i];
    match m {
      case Ok => ErrorRoundTrip("");
      case Error(reason) => ErrorRoundTrip(reason);
      case Accepted(id) =>
        IdIsKnown(c, s, i);
        AnswerRoundTrip(id);
      case Withdrawal(id) =>
        IdIsKnown(c, s, i);
        AnswerRoundTrip(id);
      case Bought(e) => ReportIsReadable(c, s, i);
      case Sold(e) => ReportIsReadable(c, s, i);
      case Trade(e) => ReportIsReadable(c, s, i);
    }
  }

  lemma ReportIsReadable(c: Core, s: Session, i: nat)
    requires Safety.Inv(c) && Ever(c, s) && i < |s.log|
    requires s.log[i].Bought? || s.log[i].Sold? || s.log[i].Trade?
    ensures CanBeRead(s.log[i])
  {
    hide Safety.Inv, Tokens, Numeral, Value, ToString, MsgBought, MsgSold, MsgTrade;
    ExecutionsAreReadable(c, s, i);
    MessagesAreReal(c, s, i);
    FillIsInRange(c, s.log[i].exec);
    PrintThenParse(s.log[i].exec.fill.qty);
    PrintThenParse(s.log[i].exec.fill.price);
  }

  lemma IdIsKnown(c: Core, s: Session, i: nat)
    requires Safety.Inv(c) && Ever(c, s) && i < |s.log| && (s.log[i].Accepted? || s.log[i].Withdrawal?)
    ensures s.log[i].id in OrdersOf(c) && s.log[i].id >= 0
  {
    EverIsGood(c, s);
    MarketPart(c);
    hide Safety.Inv, Carried, WellTold, WellTyped, AckFirst, Sound, LastFailure;
    assert s.log[i] in s.log;
  }

  lemma MessagesAreReal(c: Core, s: Session, i: nat)
    requires Safety.Inv(c) && Ever(c, s) && i < |s.log|
    requires s.log[i].Bought? || s.log[i].Sold? || s.log[i].Trade?
    ensures Traded(s.log[i].exec) in c.market.log
  {
    hide Safety.Inv;
    if s.log[i].Trade? {
      InDues(s.log, s.log[i]);
      TradesAreExact(c, s);
    } else {
      ReportsReachTheOwner(c, s, i);
    }
  }

  lemma FillIsInRange(c: Core, e: Exec)
    requires Safety.Inv(c) && Traded(e) in c.market.log
    ensures e.fill.instrument in INSTRUMENTS && 1 <= e.fill.qty <= MAX_VALUE && 1 <= e.fill.price <= MAX_VALUE
  {
    MarketPart(c);
    hide Safety.Inv, Books.Inv, Untouched, Numbered, AllAttributed, SubmittedOnce, Conserved;
    RealIsAttributed(c.market, e);
    var j :| 0 <= j < |c.market.log| && c.market.log[j] == Traded(e) && Attributed(e, Orders(c.market.log[..j]));
    EarlierOrdersStay(c.market.log, j, e.buyId);
    assert Listed(OrdersOf(c)[e.buyId]);
  }

  lemma MarketPart(c: Core)
    requires Safety.Inv(c)
    ensures Markets.Inv(c.market) && AllListed(OrdersOf(c))
  {
  }

  // ------------------------------------------------------------------- ownership

  /** The session that an order belongs to: a connected one, or one that ended. */
  lemma OwnerOf(c: Core, id: int) returns (s: Session)
    requires Safety.Inv(c) && id in OrdersOf(c)
    ensures Ever(c, s) && IsOwner(s, OrdersOf(c)[id])
  {
    OwnerIsGood(c, id);
    var o := OrdersOf(c)[id];
    s := if o.ownerSeq in c.closed then c.closed[o.ownerSeq] else c.sessions[o.ownerFd];
  }

  /** A withdrawn order is one of those submitted, and its owner has been told. */
  lemma CancelIsTold(c: Core, o: Order) returns (s: Session)
    requires Safety.Inv(c) && Cancelled(o) in c.market.log
    ensures Ever(c, s) && s.serial == o.ownerSeq && Withdrawal(o.id) in s.log
  {
    MarketPart(c);
    CancelledWasSubmitted(c.market, o);
    hide Safety.Inv;
    s := OwnerOf(c, o.id);
    AnswerIsTold(c, s, Cancelled(o), Withdrawal(o.id));
  }

  lemma CancelledWasSubmitted(m: Market, o: Order)
    requires Markets.Inv(m) && Cancelled(o) in m.log
    ensures o.id in Orders(m.log) && o == Orders(m.log)[o.id].(qty := o.qty) && 0 < o.qty <= Orders(m.log)[o.id].qty
  {
    var j :| 0 <= j < |m.log| && m.log[j] == Cancelled(o);
    hide Books.Inv, Untouched, Numbered, AllAttributed, Conserved;
    assert m.log[j].Cancelled? && m.log[j].order == o;
    assert LeftOver(o, Orders(m.log[..j]));
    EarlierOrdersStay(m.log, j, o.id);
  }

  lemma AnswerIsTold(c: Core, s: Session, event: Event, m: Msg)
    requires Safety.Inv(c) && Ever(c, s)
    requires event in c.market.log && !event.Traded? && m in Due(event, s.serial)
    ensures m in s.log
  {
    HistoryIsTheMarkets(c);
    AnswersAreGiven(c.hist, event, s.serial, m);
    ReportsAreExact(c, s);
    InDues(s.log, m);
  }

  /** A session is told ORDER_CANCELLED only for an order of its own that was withdrawn. */
  lemma CancelIsReal(c: Core, s: Session, id: int) returns (o: Order)
    requires Safety.Inv(c) && Ever(c, s) && Withdrawal(id) in s.log
    ensures Cancelled(o) in c.market.log && o.id == id && o.ownerSeq == s.serial && Placed(c, id, s)
  {
    hide Safety.Inv, Good, Expected, MarketLog, AllDues, Markets.Inv, AllListed;
    ReportsAreExact(c, s);
    HistoryIsTheMarkets(c);
    InDues(s.log, Withdrawal(id));
    var event := DuesAreReal(c.hist, s.serial, Withdrawal(id));
    assert event.Cancelled? && event.order.id == id && event.order.ownerSeq == s.serial;
    o := event.order;
    MarketPart(c);
    CancelledWasSubmitted(c.market, o);
  }

  /** Two sessions that got the same report are one session. */
  lemma OneRecipient(c: Core, s: Session, s': Session, e: Exec)
    requires Safety.Inv(c) && Ever(c, s) && Ever(c, s')
    requires (Bought(e) in s.log && Bought(e) in s'.log) || (Sold(e) in s.log && Sold(e) in s'.log)
    ensures s == s'
  {
    hide Safety.Inv;
    var m := if Bought(e) in s.log && Bought(e) in s'.log then Bought(e) else Sold(e);
    var i :| 0 <= i < |s.log| && s.log[i] == m;
    var j :| 0 <= j < |s'.log| && s'.log[j] == m;
    ReportsReachTheOwner(c, s, i);
    ReportsReachTheOwner(c, s', j);
    SerialDecides(c, s, s');
  }

  lemma SerialDecides(c: Core, s: Session, s': Session)
    requires Safety.Inv(c) && Ever(c, s) && Ever(c, s') && s.serial == s'.serial && s.fd == s'.fd
    ensures s == s'
  {
  }

  lemma OwnerIsGood(c: Core, id: int)
    requires Safety.Inv(c) && id in OrdersOf(c)
    ensures var o := OrdersOf(c)[id];
            if o.ownerSeq in c.closed then
              Ever(c, c.closed[o.ownerSeq]) && IsOwner(c.closed[o.ownerSeq], o)
            else
              o.ownerFd in c.sessions && Ever(c, c.sessions[o.ownerFd]) && IsOwner(c.sessions[o.ownerFd], o)
  {
    var o := OrdersOf(c)[id];
    assert HasHome(o, c) && o.id == id;
    if o.ownerSeq in c.closed {
      assert Good(c.closed[o.ownerSeq], false, c.hist, OrdersOf(c));
    } else {
      assert Good(c.sessions[o.ownerFd], true, c.hist, OrdersOf(c));
    }
  }

  predicate IsOwner(s: Session, o: Order) {
    s.serial == o.ownerSeq && s.fd == o.ownerFd && s.role == Trader && Accepted(o.id) in s.log
  }
}
