/**
  What holds of one session, now or after it ended: its bytes, its role, and that it was told exactly
  what it should have been told.
*/
module Sessions {
  import opened Matching
  import opened Protocol
  import opened Framing
  import opened Markets
  import opened Channels
  import opened Exchange

  // ---------------------------------------------------- what the history demands

  /** What a history means for one session: whether it is open, its subscriptions, and what it must be told. */
  datatype Expect = Expect(live: bool, subs: set<string>, trades: seq<Exec>, dues: seq<Msg>)

  /** The reports an execution causes for the session that placed one of its orders, or both. */
  function ReportsOf(e: Exec, serial: nat): seq<Msg> {
    (if e.fill.buyerSeq == serial then [Bought(e)] else []) + (if e.fill.sellSeq == serial then [Sold(e)] else [])
  }

  /** What a session is told of an event as the owner of an order. */
  function Due(event: Event, serial: nat): seq<Msg> {
    match event
    case Submitted(o) => if o.ownerSeq == serial then [Accepted(o.id)] else []
    case Cancelled(o) => if o.ownerSeq == serial then [Withdrawal(o.id)] else []
    case Traded(e) => ReportsOf(e, serial)
  }

  /** A session that ended misses its executions; nobody submits or cancels for it any more. */
  function Next(x: Expect, h: Happening, serial: nat): Expect {
    match h
    case Opened(q) => if q == serial then x.(live := true) else x
    case Closed(q) => if q == serial then x.(live := false, subs := {}) else x
    case Subscribed(q, instrument) => if q == serial then x.(subs := x.subs + {instrument}) else x
    case Unsubscribed(q, instrument) => if q == serial then x.(subs := x.subs - {instrument}) else x
    case Handled(q, line) => x
    case InMarket(event) =>
      x.(trades := x.trades + (if event.Traded? && event.exec.fill.instrument in x.subs then [event.exec] else []),
         dues := x.dues + (if event.Traded? && !x.live then [] else Due(event, serial)))
  }

  function Expected(hist: seq<Happening>, serial: nat): Expect {
    if hist == [] then Expect(false, {}, [], [])
    else Next(Expected(hist[..|hist| - 1], serial), hist[|hist| - 1], serial)
  }

  lemma ExpectedSnoc(hist: seq<Happening>, h: Happening, serial: nat)
    ensures Expected(hist + [h], serial) == Next(Expected(hist, serial), h, serial)
  {
    assert (hist + [h])[..|hist + [h]| - 1] == hist;
  }

  /** What the history says about the market. */
  function MarketLog(hist: seq<Happening>): seq<Event> {
    if hist == [] then []
    else
      var last := hist[|hist| - 1];
      MarketLog(hist[..|hist| - 1]) + if last.InMarket? then [last.event] else []
  }

  lemma MarketLogSnoc(hist: seq<Happening>, h: Happening)
    ensures MarketLog(hist + [h]) == MarketLog(hist) + if h.InMarket? then [h.event] else []
  {
    assert (hist + [h])[..|hist + [h]| - 1] == hist;
  }

  /** What is due to one session from a whole market history. */
  function AllDues(log: seq<Event>, serial: nat): seq<Msg> {
    if log == [] then [] else AllDues(log[..|log| - 1], serial) + Due(log[|log| - 1], serial)
  }

  lemma AllDuesSnoc(log: seq<Event>, e: Event, serial: nat)
    ensures AllDues(log + [e], serial) == AllDues(log, serial) + Due(e, serial)
  {
    assert (log + [e])[..|log + [e]| - 1] == log;
  }

  /** One happening more, as the market's history sees it. */
  lemma DueSnoc(hist: seq<Happening>, h: Happening, serial: nat)
    ensures AllDues(MarketLog(hist + [h]), serial) ==
              AllDues(MarketLog(hist), serial) + if h.InMarket? then Due(h.event, serial) else []
  {
    MarketLogSnoc(hist, h);
    if h.InMarket? {
      AllDuesSnoc(MarketLog(hist), h.event, serial);
    } else {
      assert MarketLog(hist) + [] == MarketLog(hist);
      assert AllDues(MarketLog(hist), serial) + [] == AllDues(MarketLog(hist), serial);
    }
  }

  // ------------------------------------------------------- what a log contains

  function Texts(log: seq<Msg>): seq<string> {
    if log == [] then [] else Texts(log[..|log| - 1]) + [Text(log[|log| - 1])]
  }

  /** The executions a log announces as TRADE, in order. */
  function TradesIn(log: seq<Msg>): seq<Exec> {
    if log == [] then []
    else TradesIn(log[..|log| - 1]) + if log[|log| - 1].Trade? then [log[|log| - 1].exec] else []
  }

  /** Messages about one's own orders. */
  predicate ForTrader(m: Msg) {
    m.Accepted? || m.Withdrawal? || m.Bought? || m.Sold?
  }

  /** The ORDER_ACCEPTED, ORDER_CANCELLED, BOUGHT and SOLD messages of a log, in order. */
  function DuesIn(log: seq<Msg>): seq<Msg> {
    if log == [] then []
    else DuesIn(log[..|log| - 1]) + if ForTrader(log[|log| - 1]) then [log[|log| - 1]] else []
  }

  /** Every report comes after the ORDER_ACCEPTED of the order it is about. */
  ghost predicate AckFirst(log: seq<Msg>) {
    forall i :: 0 <= i < |log| ==>
      && (log[i].Bought? ==> Accepted(log[i].exec.buyId) in log[..i])
      && (log[i].Sold? ==> Accepted(log[i].exec.sellId) in log[..i])
  }

  lemma LogSnoc(log: seq<Msg>, m: Msg)
    ensures Texts(log + [m]) == Texts(log) + [Text(m)]
    ensures TradesIn(log + [m]) == TradesIn(log) + if m.Trade? then [m.exec] else []
    ensures DuesIn(log + [m]) == DuesIn(log) + if ForTrader(m) then [m] else []
  {
    assert (log + [m])[..|log + [m]| - 1] == log;
  }

  lemma AckFirstSnoc(log: seq<Msg>, m: Msg)
    requires AckFirst(log)
    requires m.Bought? ==> Accepted(m.exec.buyId) in log
    requires m.Sold? ==> Accepted(m.exec.sellId) in log
    ensures AckFirst(log + [m])
  {
    var log' := log + [m];
    forall i | 0 <= i < |log'|
      ensures log'[i].Bought? ==> Accepted(log'[i].exec.buyId) in log'[..i]
      ensures log'[i].Sold? ==> Accepted(log'[i].exec.sellId) in log'[..i]
    {
      if i < |log| {
        assert log'[..i] == log[..i] && log'[i] == log[i];
      } else {
        assert log'[..i] == log;
      }
    }
  }

  // ------------------------------------------------------ the session invariant

  /** The channel carries the texts of the log, each of which is one line. */
  ghost predicate Carried(s: Session) {
    Carries(s.chan, Texts(s.log)) && AllOneLine(Texts(s.log))
  }

  /**
    The session was told what the history demands: nothing more, nothing less, and in that order. While it is
    open, this is all that is due to it from the whole history.
  */
  predicate WellTold(s: Session, live: bool, hist: seq<Happening>) {
    && Expected(hist, s.serial) == Expect(live, if live then s.subs else {}, TradesIn(s.log), DuesIn(s.log))
    && (live ==> DuesIn(s.log) == AllDues(MarketLog(hist), s.serial))
  }

  /** A username is a trader's, a subscription is a market-data client's, and so are the messages. */
  predicate WellTyped(s: Session) {
    && (s.username != "" ==> s.role == Trader)
    && (s.subs != {} ==> s.role == MarketData)
    && (forall m :: m in s.log && ForTrader(m) ==> s.role == Trader)
    && (forall m :: m in s.log && m.Trade? ==> s.role == MarketData)
  }

  /** Its orders are those that name it as owner: all of them acknowledged, no others, and no others cancelled. */
  ghost predicate WellOwned(s: Session, orders: map<int, Order>) {
    && (forall id :: id in orders && orders[id].ownerSeq == s.serial ==>
          orders[id].ownerFd == s.fd && s.role == Trader && Accepted(id) in s.log)
    && (forall id :: Accepted(id) in s.log || Withdrawal(id) in s.log ==>
          id in orders && orders[id].ownerSeq == s.serial)
  }

  ghost predicate Good(s: Session, live: bool, hist: seq<Happening>, orders: map<int, Order>) {
    && (if live then Sound(s.chan) else LastFailure(s.chan))
    && Carried(s)
    && WellTold(s, live, hist)
    && WellTyped(s)
    && WellOwned(s, orders)
    && AckFirst(s.log)
  }

  // ------------------------------------------------------------- it is preserved

  lemma PushCarries(s: Session, m: Msg)
    requires Sound(s.chan) && Carried(s) && OneLine(Text(m))
    ensures Sound(Post(s, m).chan) && Carried(Post(s, m))
  {
    LogSnoc(s.log, m);
    EnqueueKeepsArmed(s.chan, Text(m));
    EnqueueCarries(s.chan, Text(m), Texts(s.log));
  }

  /** A message that reports nothing: OK or an error. */
  predicate Plain(m: Msg) {
    (m.Ok? || m.Error?) && OneLine(Text(m))
  }

  lemma PlainKeepsGood(s: Session, m: Msg, hist: seq<Happening>, orders: map<int, Order>)
    requires Good(s, true, hist, orders) && Plain(m)
    ensures Good(Post(s, m), true, hist, orders)
  {
    hide Carried, Sound, Post, AckFirst, WellTold, WellTyped, WellOwned;
    PushCarries(s, m);
    AckFirstSnoc(s.log, m);
    SameSession(s, m);
    PlainTellsNothing(s, m, hist);
    PlainKeepsKind(s, m, orders);
  }

  lemma PlainTellsNothing(s: Session, m: Msg, hist: seq<Happening>)
    requires WellTold(s, true, hist) && Plain(m)
    ensures WellTold(Post(s, m), true, hist)
  {
    hide Post, Expected, TradesIn, DuesIn, AllDues, MarketLog, OneLine;
    SameSession(s, m);
    LogSnoc(s.log, m);
    assert TradesIn(s.log) + [] == TradesIn(s.log) && DuesIn(s.log) + [] == DuesIn(s.log);
  }

  lemma PlainKeepsKind(s: Session, m: Msg, orders: map<int, Order>)
    requires WellTyped(s) && WellOwned(s, orders) && Plain(m)
    ensures WellTyped(Post(s, m)) && WellOwned(Post(s, m), orders)
  {
    hide Post, OneLine;
    SameSession(s, m);
  }

  /** Nothing in `h` concerns the session. */
  predicate Elsewhere(h: Happening, serial: nat) {
    match h
    case Opened(q) => q != serial
    case Closed(q) => q != serial
    case Subscribed(q, instrument) => q != serial
    case Unsubscribed(q, instrument) => q != serial
    case Handled(q, line) => true
    case InMarket(event) => !event.Traded? && Due(event, serial) == []
  }

  lemma ElsewhereKeepsGood(s: Session, live: bool, hist: seq<Happening>, h: Happening, orders: map<int, Order>)
    requires Good(s, live, hist, orders) && Elsewhere(h, s.serial)
    ensures Good(s, live, hist + [h], orders)
  {
    hide Expected, AllDues, MarketLog;
    ExpectedSnoc(hist, h, s.serial);
    DueSnoc(hist, h, s.serial);
  }

  lemma ClosedKeepsGood(s: Session, hist: seq<Happening>, e: Exec, orders: map<int, Order>)
    requires Good(s, false, hist, orders)
    ensures Good(s, false, hist + [InMarket(Traded(e))], orders)
  {
    hide Expected, TradesIn, DuesIn, AllDues, MarketLog, Carried, WellTyped, WellOwned, AckFirst, LastFailure, Due;
    ExpectedSnoc(hist, InMarket(Traded(e)), s.serial);
    assert TradesIn(s.log) + [] == TradesIn(s.log) && DuesIn(s.log) + [] == DuesIn(s.log);
  }

  lemma RoleKeepsGood(s: Session, cmd: string, hist: seq<Happening>, orders: map<int, Order>)
    requires Good(s, true, hist, orders)
    ensures Good(s.(role := AssignRole(s.role, cmd)), true, hist, orders)
  {
  }

  lemma LoginKeepsGood(s: Session, name: string, hist: seq<Happening>, orders: map<int, Order>)
    requires Good(s, true, hist, orders) && s.role == Trader
    ensures Good(s.(username := name), true, hist, orders)
  {
  }

  lemma SubscribeKeepsGood(s: Session, instrument: string, hist: seq<Happening>, orders: map<int, Order>)
    requires Good(s, true, hist, orders) && s.role == MarketData
    ensures Good(s.(subs := s.subs + {instrument}), true, hist + [Subscribed(s.serial, instrument)], orders)
    ensures Good(s.(subs := s.subs - {instrument}), true, hist + [Unsubscribed(s.serial, instrument)], orders)
  {
    ExpectedSnoc(hist, Subscribed(s.serial, instrument), s.serial);
    ExpectedSnoc(hist, Unsubscribed(s.serial, instrument), s.serial);
    DueSnoc(hist, Subscribed(s.serial, instrument), s.serial);
    DueSnoc(hist, Unsubscribed(s.serial, instrument), s.serial);
  }

  lemma CloseKeepsGood(s: Session, hist: seq<Happening>, orders: map<int, Order>)
    requires Good(s, true, hist, orders)
    ensures Good(s, false, hist + [Closed(s.serial)], orders)
  {
    ExpectedSnoc(hist, Closed(s.serial), s.serial);
  }

  lemma DrainKeepsGood(s: Session, hist: seq<Happening>, orders: map<int, Order>)
    requires Good(s, true, hist, orders)
    ensures Drain(s.chan).0 ==> Good(s.(chan := Drain(s.chan).1), true, hist, orders)
    ensures Good(s.(chan := Drain(s.chan).1), false, hist + [Closed(s.serial)], orders)
  {
    hide Drain, Carries, AllOneLine, AckFirst;
    DrainKeeps(s.chan);
    DrainCarries(s.chan, Texts(s.log));
    DrainLosesNothing(s.chan);
    ExpectedSnoc(hist, Closed(s.serial), s.serial);
  }

  // ------------------------------------------------------------------ executions

  function Told(s: Session, fd: int, serial: nat, m: Msg): Session {
    if s.fd == fd && s.serial == serial then Post(s, m) else s
  }

  /** What the delivery of one execution does to a session. */
  function After(s: Session, e: Exec): Session {
    var a := Told(s, e.fill.buyerFd, e.fill.buyerSeq, Bought(e));
    var b := Told(a, e.fill.sellFd, e.fill.sellSeq, Sold(e));
    if Listens(b, e.fill.instrument) then Post(b, Trade(e)) else b
  }

  /** An order the server lets into the market. */
  predicate Listed(o: Order) {
    o.instrument in INSTRUMENTS && 1 <= o.qty <= MAX_VALUE && 1 <= o.price <= MAX_VALUE
  }

  predicate AllListed(orders: map<int, Order>) {
    forall id :: id in orders ==> Listed(orders[id])
  }

  lemma DigitsAreOneLine(s: string)
    requires Numeral(s)
    ensures OneLine(s)
  {
    forall i | 0 <= i < |s|
      ensures s[i] != '\n' && s[i] != '\r'
    {
      assert IsDigit(s[i]);
    }
  }

  lemma IntIsOneLine(n: int)
    ensures OneLine(ToString(n))
  {
    if n >= 0 {
      PrintThenParse(n);
      DigitsAreOneLine(ToString(n));
    } else {
      PrintThenParse(-n);
      DigitsAreOneLine(ToString(-n));
      OneLineConcat("-", ToString(-n));
    }
  }

  lemma OneLineConcat(a: string, b: string)
    requires OneLine(a) && OneLine(b)
    ensures OneLine(a + b)
  {
  }

  lemma ReportIsOneLine(e: Exec)
    requires e.fill.instrument in INSTRUMENTS && e.fill.qty >= 0 && e.fill.price >= 0
    ensures OneLine(Text(Bought(e))) && OneLine(Text(Sold(e))) && OneLine(Text(Trade(e)))
  {
    hide ToString, Join, OneLine, MsgBought, MsgSold, MsgTrade;
    var f := e.fill;
    ReportIsJoin(f.instrument, f.qty, f.price);
    PrintThenParse(f.qty);
    PrintThenParse(f.price);
    assert IsWord(f.instrument);
    JoinIsOneLine(["BOUGHT", f.instrument, ToString(f.qty), ToString(f.price)]);
    JoinIsOneLine(["SOLD", f.instrument, ToString(f.qty), ToString(f.price)]);
    JoinIsOneLine(["TRADE", f.instrument, ToString(f.qty), ToString(f.price)]);
  }

  /** One report reaches the session, when it is the one that placed the order. */
  lemma TellKeeps(s: Session, m: Msg, orders: map<int, Order>)
    requires Sound(s.chan) && Carried(s) && WellTyped(s) && WellOwned(s, orders) && AckFirst(s.log)
    requires OneLine(Text(m))
    requires m.Bought? ==> m.exec.buyId in orders && orders[m.exec.buyId].ownerSeq == s.serial
    requires m.Sold? ==> m.exec.sellId in orders && orders[m.exec.sellId].ownerSeq == s.serial
    requires m.Trade? ==> s.role == MarketData
    requires m.Bought? || m.Sold? || m.Trade?
    ensures var s': Session := Post(s, m);
            Sound(s'.chan) && Carried(s') && WellTyped(s') && WellOwned(s', orders) && AckFirst(s'.log)
  {
    hide Carried, Sound, Channels.Enqueue, AckFirst, Text;
    PushCarries(s, m);
    AckFirstSnoc(s.log, m);
  }

  lemma ToldReports(s: Session, fd: int, serial: nat, m: Msg)
    requires m.Bought? || m.Sold?
    ensures var t := Told(s, fd, serial, m);
            && t.fd == s.fd && t.serial == s.serial && t.role == s.role && t.subs == s.subs
            && DuesIn(t.log) == DuesIn(s.log) + (if s.fd == fd && s.serial == serial then [m] else [])
            && TradesIn(t.log) == TradesIn(s.log)
  {
    LogSnoc(s.log, m);
    assert DuesIn(s.log) + [] == DuesIn(s.log) && TradesIn(s.log) + [] == TradesIn(s.log);
  }

  lemma AfterTells(s: Session, e: Exec)
    ensures var t := After(s, e);
            && t.fd == s.fd && t.serial == s.serial && t.role == s.role && t.subs == s.subs
            && DuesIn(t.log) == DuesIn(s.log)
                 + (if s.fd == e.fill.buyerFd && s.serial == e.fill.buyerSeq then [Bought(e)] else [])
                 + (if s.fd == e.fill.sellFd && s.serial == e.fill.sellSeq then [Sold(e)] else [])
            && TradesIn(t.log) == TradesIn(s.log) + (if Listens(s, e.fill.instrument) then [e] else [])
  {
    hide Told, TradesIn, DuesIn, Post;
    var a := Told(s, e.fill.buyerFd, e.fill.buyerSeq, Bought(e));
    var b := Told(a, e.fill.sellFd, e.fill.sellSeq, Sold(e));
    ToldReports(s, e.fill.buyerFd, e.fill.buyerSeq, Bought(e));
    ToldReports(a, e.fill.sellFd, e.fill.sellSeq, Sold(e));
    SameSession(b, Trade(e));
    LogSnoc(b.log, Trade(e));
    assert DuesIn(b.log) + [] == DuesIn(b.log) && TradesIn(s.log) + [] == TradesIn(s.log);
  }

  /** Who trades with itself is told both sides of it, the purchase first. */
  lemma SelfTradeIsToldTwice(s: Session, e: Exec)
    requires s.fd == e.fill.buyerFd == e.fill.sellFd && s.serial == e.fill.buyerSeq == e.fill.sellSeq
    requires s.role == Trader
    ensures After(s, e).log == s.log + [Bought(e), Sold(e)]
  {
    hide Channels.Enqueue;
    assert s.log + [Bought(e)] + [Sold(e)] == s.log + [Bought(e), Sold(e)];
  }

  /** The session gets BOUGHT, SOLD and TRADE exactly as the history with the new execution demands. */
  lemma AfterIsWellTold(s: Session, e: Exec, hist: seq<Happening>, orders: map<int, Order>)
    requires WellTold(s, true, hist) && WellTyped(s) && WellOwned(s, orders) && Attributed(e, orders)
    ensures WellTold(After(s, e), true, hist + [InMarket(Traded(e))])
  {
    hide After, Expected, TradesIn, DuesIn, AllDues, MarketLog, WellOwned, WellTyped, Attributed;
    ExpectedSnoc(hist, InMarket(Traded(e)), s.serial);
    DueSnoc(hist, InMarket(Traded(e)), s.serial);
    OwnersAreHere(s, e, orders);
    AfterTells(s, e);
    var bought := if e.fill.buyerSeq == s.serial then [Bought(e)] else [];
    var sold := if e.fill.sellSeq == s.serial then [Sold(e)] else [];
    assert DuesIn(s.log) + bought + sold == DuesIn(s.log) + (bought + sold);
  }

  /** An owner named by a fill is found under its descriptor; a subscriber is a market-data client. */
  lemma OwnersAreHere(s: Session, e: Exec, orders: map<int, Order>)
    requires WellTyped(s) && WellOwned(s, orders) && Attributed(e, orders)
    ensures e.fill.buyerSeq == s.serial ==> e.fill.buyerFd == s.fd
    ensures e.fill.sellSeq == s.serial ==> e.fill.sellFd == s.fd
    ensures e.fill.instrument in s.subs ==> s.role == MarketData
  {
  }

  lemma DeliveryKeepsGood(s: Session, e: Exec, hist: seq<Happening>, orders: map<int, Order>)
    requires Good(s, true, hist, orders) && Attributed(e, orders) && AllListed(orders)
    ensures Good(After(s, e), true, hist + [InMarket(Traded(e))], orders)
  {
    AfterIsWellTold(s, e, hist, orders);
    hide Carried, AckFirst, WellTold, Sound, Post, OneLine;
    assert Listed(orders[e.buyId]);
    ReportIsOneLine(e);
    var a := Told(s, e.fill.buyerFd, e.fill.buyerSeq, Bought(e));
    if s.fd == e.fill.buyerFd && s.serial == e.fill.buyerSeq {
      TellKeeps(s, Bought(e), orders);
    }
    SameSession(s, Bought(e));
    var b := Told(a, e.fill.sellFd, e.fill.sellSeq, Sold(e));
    if a.fd == e.fill.sellFd && a.serial == e.fill.sellSeq {
      TellKeeps(a, Sold(e), orders);
    }
    SameSession(a, Sold(e));
    if Listens(b, e.fill.instrument) {
      TellKeeps(b, Trade(e), orders);
    }
  }

  lemma SameSession(s: Session, m: Msg)
    ensures Post(s, m).fd == s.fd && Post(s, m).serial == s.serial && Post(s, m).role == s.role
    ensures Post(s, m).subs == s.subs && Post(s, m).username == s.username && Post(s, m).log == s.log + [m]
  {
  }

  // ---------------------------------------------------------------------- orders

  /** A new order of another session. */
  lemma OthersOrderKeepsGood(s: Session, live: bool, hist: seq<Happening>, orders: map<int, Order>, o: Order)
    requires Good(s, live, hist, orders) && o.id !in orders && o.ownerSeq != s.serial
    ensures Good(s, live, hist + [InMarket(Submitted(o))], orders[o.id := o])
  {
    hide Expected, AllDues, MarketLog, Carried, AckFirst;
    ExpectedSnoc(hist, InMarket(Submitted(o)), s.serial);
    DueSnoc(hist, InMarket(Submitted(o)), s.serial);
  }

  /** The answer to a new order or to a cancel. */
  lemma AnswerKeeps(s: Session, m: Msg, h: Happening, hist: seq<Happening>)
    requires Sound(s.chan) && Carried(s) && WellTold(s, true, hist) && WellTyped(s) && AckFirst(s.log)
    requires (m.Accepted? || m.Withdrawal?) && s.role == Trader
    requires h.InMarket? && !h.event.Traded? && Due(h.event, s.serial) == [m]
    ensures var t: Session := Post(s, m);
            Sound(t.chan) && Carried(t) && WellTold(t, true, hist + [h]) && WellTyped(t) && AckFirst(t.log)
  {
    hide Carried, Sound, Post, AckFirst, Text, Expected, TradesIn, DuesIn, AllDues, MarketLog;
    ExpectedSnoc(hist, h, s.serial);
    DueSnoc(hist, h, s.serial);
    AnswerIsOneLine(m);
    PushCarries(s, m);
    LogSnoc(s.log, m);
    AckFirstSnoc(s.log, m);
    SameSession(s, m);
  }

  lemma AnswerIsOneLine(m: Msg)
    requires m.Accepted? || m.Withdrawal?
    ensures OneLine(Text(m))
  {
    IntIsOneLine(m.id);
    OneLineConcat(if m.Accepted? then "ORDER_ACCEPTED " else "ORDER_CANCELLED ", ToString(m.id));
  }

  /** A new order of its own, acknowledged. */
  lemma OwnOrderKeepsGood(s: Session, hist: seq<Happening>, orders: map<int, Order>, o: Order)
    requires Good(s, true, hist, orders) && o.id !in orders && s.role == Trader
    requires o.ownerSeq == s.serial && o.ownerFd == s.fd
    ensures Good(Post(s, Accepted(o.id)), true, hist + [InMarket(Submitted(o))], orders[o.id := o])
  {
    hide Carried, Sound, Post, AckFirst, WellTold, WellTyped;
    AnswerKeeps(s, Accepted(o.id), InMarket(Submitted(o)), hist);
    SameSession(s, Accepted(o.id));
  }

  /** A confirmed cancel. */
  lemma CancelKeepsGood(s: Session, hist: seq<Happening>, orders: map<int, Order>, id: int, gone: Order)
    requires Good(s, true, hist, orders) && s.role == Trader
    requires gone.id == id && gone.ownerSeq == s.serial && id in orders && orders[id].ownerSeq == s.serial
    ensures Good(Post(s, Withdrawal(id)), true, hist + [InMarket(Cancelled(gone))], orders)
  {
    hide Carried, Sound, Post, AckFirst, WellTold, WellTyped;
    AnswerKeeps(s, Withdrawal(id), InMarket(Cancelled(gone)), hist);
    SameSession(s, Withdrawal(id));
  }

  /** The history holds nothing for a session. */
  predicate Nothing(hist: seq<Happening>, serial: nat) {
    Expected(hist, serial) == Expect(false, {}, [], []) && AllDues(MarketLog(hist), serial) == []
  }

  /** Only sessions with a smaller serial number are concerned. */
  predicate Below(h: Happening, bound: nat) {
    match h
    case Opened(q) => q < bound
    case Closed(q) => q < bound
    case Subscribed(q, instrument) => q < bound
    case Unsubscribed(q, instrument) => q < bound
    case Handled(q, line) => q < bound
    case InMarket(event) =>
      match event
      case Submitted(o) => o.ownerSeq < bound
      case Cancelled(o) => o.ownerSeq < bound
      case Traded(e) => e.fill.buyerSeq < bound && e.fill.sellSeq < bound
  }

  lemma StillNothing(hist: seq<Happening>, h: Happening, serial: nat)
    requires Nothing(hist, serial) && Below(h, serial)
    ensures Nothing(hist + [h], serial)
  {
    hide Expected, MarketLog, AllDues;
    ExpectedSnoc(hist, h, serial);
    DueSnoc(hist, h, serial);
  }

  /** A session just opened. */
  lemma FreshIsGood(s: Session, hist: seq<Happening>, orders: map<int, Order>)
    requires s.role == Unknown && s.username == "" && s.subs == {} && s.log == []
    requires s.chan == Channels.Open(s.chan.script)
    requires forall id :: id in orders ==> orders[id].ownerSeq != s.serial
    requires Nothing(hist, s.serial)
    ensures Good(s, true, hist + [Opened(s.serial)], orders)
  {
    ExpectedSnoc(hist, Opened(s.serial), s.serial);
    DueSnoc(hist, Opened(s.serial), s.serial);
    assert Concat([]) == "" && Stream(s.chan) == "";
  }
}
