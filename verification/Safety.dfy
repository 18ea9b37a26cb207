/** The server invariant, and that every step of every run keeps it. */
module Safety {
  import opened Matching
  import opened Protocol
  import opened Framing
  import opened Markets
  import opened Channels
  import opened Exchange
  import opened Sessions
  import Books

  function OrdersOf(c: Core): map<int, Order> {
    Orders(c.market.log)
  }

  /** Sessions sit under their own descriptor; serial numbers are never used twice. */
  predicate Keyed(c: Core) {
    && (forall fd :: fd in c.sessions ==>
          c.sessions[fd].fd == fd && c.sessions[fd].serial < c.nextSerial && c.sessions[fd].serial !in c.closed)
    && (forall fd, fd' :: fd in c.sessions && fd' in c.sessions && c.sessions[fd].serial == c.sessions[fd'].serial ==>
          fd == fd')
    && (forall q :: q in c.closed ==> c.closed[q].serial == q < c.nextSerial)
  }

  /** No two connected traders share a username. */
  predicate Named(c: Core) {
    forall fd, fd' :: fd in c.sessions && fd' in c.sessions ==>
      c.sessions[fd].username == c.sessions[fd'].username != "" ==> fd == fd'
  }

  /** Every order ever submitted belongs to a session that is there, or to one that ended. */
  predicate Homed(c: Core) {
    forall id :: id in OrdersOf(c) ==> HasHome(OrdersOf(c)[id], c)
  }

  predicate HasHome(o: Order, c: Core) {
    o.ownerSeq in c.closed || (o.ownerFd in c.sessions && c.sessions[o.ownerFd].serial == o.ownerSeq)
  }

  ghost predicate AllGood(c: Core) {
    && (forall fd :: fd in c.sessions ==> Good(c.sessions[fd], true, c.hist, OrdersOf(c)))
    && (forall q :: q in c.closed ==> Good(c.closed[q], false, c.hist, OrdersOf(c)))
  }

  /** For a serial number not handed out yet the history holds nothing. */
  ghost predicate Unheard(c: Core) {
    forall q: nat :: q >= c.nextSerial ==> Nothing(c.hist, q)
  }

  ghost predicate Base(c: Core) {
    && Unheard(c) && Keyed(c) && Named(c) && Homed(c) && AllListed(OrdersOf(c)) && AllGood(c) && Markets.Inv(c.market)
  }

  ghost predicate Inv(c: Core) {
    Base(c) && MarketLog(c.hist) == c.market.log
  }

  lemma LaterKeepsUnheard(c: Core, c': Core, h: Happening)
    requires Unheard(c) && c'.nextSerial >= c.nextSerial && c'.hist == c.hist + [h] && Below(h, c'.nextSerial)
    ensures Unheard(c')
  {
    hide Nothing;
    forall q: nat | q >= c'.nextSerial
      ensures Nothing(c'.hist, q)
    {
      StillNothing(c.hist, h, q);
    }
  }

  lemma SameHistory(c: Core, c': Core)
    requires Unheard(c) && c'.nextSerial >= c.nextSerial && c'.hist == c.hist
    ensures Unheard(c')
  {
  }

  lemma AttributedBelow(c: Core, e: Exec)
    requires Keyed(c) && Homed(c) && Attributed(e, OrdersOf(c))
    ensures Below(InMarket(Traded(e)), c.nextSerial)
  {
    assert HasHome(OrdersOf(c)[e.buyId], c) && HasHome(OrdersOf(c)[e.sellId], c);
  }

  // -------------------------------------------------------- one session changes

  /** Only the session itself is concerned by what it did. */
  predicate OwnAffair(hs: seq<Happening>, serial: nat) {
    hs == [] || (|hs| == 1 && (hs[0].Subscribed? || hs[0].Unsubscribed?) && hs[0].serial == serial)
  }

  lemma OthersUnaffected(s: Session, live: bool, hist: seq<Happening>, hs: seq<Happening>, serial: nat,
                         orders: map<int, Order>)
    requires Good(s, live, hist, orders) && OwnAffair(hs, serial) && s.serial != serial
    ensures Good(s, live, hist + hs, orders)
  {
    hide Good;
    if hs == [] {
      assert hist + hs == hist;
    } else {
      assert hs == [hs[0]];
      ElsewhereKeepsGood(s, live, hist, hs[0], orders);
    }
  }

  /** Who is where does not depend on what a session sends or receives. */
  lemma ReplaceKeepsPlaces(c: Core, c': Core, fd: int, s: Session)
    requires Keyed(c) && Named(c) && fd in c.sessions
    requires s.fd == fd && s.serial == c.sessions[fd].serial
    requires s.username == c.sessions[fd].username || !NameTaken(c, fd, s.username)
    requires c'.sessions == c.sessions[fd := s] && c'.closed == c.closed && c'.nextSerial == c.nextSerial
    ensures Keyed(c') && Named(c')
    ensures forall o :: HasHome(o, c) ==> HasHome(o, c')
  {
  }

  lemma ReplaceKeepsBase(c: Core, fd: int, s: Session, hs: seq<Happening>)
    requires Base(c) && fd in c.sessions
    requires s.fd == fd && s.serial == c.sessions[fd].serial && OwnAffair(hs, s.serial)
    requires s.username == c.sessions[fd].username || !NameTaken(c, fd, s.username)
    requires Good(s, true, c.hist + hs, OrdersOf(c))
    ensures Base(c.(sessions := c.sessions[fd := s], hist := c.hist + hs))
    ensures MarketLog(c.hist + hs) == MarketLog(c.hist)
  {
    hide Good, Markets.Inv, Keyed, Named, HasHome, Unheard, MarketLog, Orders, Listed;
    var c' := c.(sessions := c.sessions[fd := s], hist := c.hist + hs);
    ReplaceKeepsPlaces(c, c', fd, s);
    SerialsDiffer(c, fd);
    forall other | other in c.sessions && other != fd
      ensures Good(c.sessions[other], true, c'.hist, OrdersOf(c))
    {
      OthersUnaffected(c.sessions[other], true, c.hist, hs, s.serial, OrdersOf(c));
    }
    forall q | q in c.closed
      ensures Good(c.closed[q], false, c'.hist, OrdersOf(c))
    {
      OthersUnaffected(c.closed[q], false, c.hist, hs, s.serial, OrdersOf(c));
    }
    if hs == [] {
      assert c.hist + hs == c.hist;
      SameHistory(c, c');
    } else {
      assert hs == [hs[0]];
      MarketLogSnoc(c.hist, hs[0]);
      LaterKeepsUnheard(c, c', hs[0]);
    }
  }

  lemma SerialsDiffer(c: Core, fd: int)
    requires Keyed(c) && fd in c.sessions
    ensures forall other :: other in c.sessions && other != fd ==> c.sessions[other].serial != c.sessions[fd].serial
    ensures forall q :: q in c.closed ==> c.closed[q].serial == q != c.sessions[fd].serial
    ensures c.sessions[fd].serial < c.nextSerial
  {
  }

  lemma SendKeepsInv(c: Core, fd: int, m: Msg)
    requires Inv(c) && fd in c.sessions && Plain(m)
    ensures Inv(Send(c, fd, m))
  {
    hide Good, Markets.Inv, Post;
    var s := c.sessions[fd];
    PlainKeepsGood(s, m, c.hist, OrdersOf(c));
    SameSession(s, m);
    assert c.hist + [] == c.hist;
    ReplaceKeepsBase(c, fd, Post(s, m), []);
  }

  // ------------------------------------------------------------------ delivery

  lemma ReportEach(c: Core, fd: int, serial: nat, m: Msg)
    requires forall other :: other in c.sessions ==> c.sessions[other].fd == other
    ensures Report(c, fd, serial, m) ==
              c.(sessions := map other | other in c.sessions :: Told(c.sessions[other], fd, serial, m))
  {
    hide Post;
    var told := map other | other in c.sessions :: Told(c.sessions[other], fd, serial, m);
    var sent := Report(c, fd, serial, m).sessions;
    assert sent.Keys == told.Keys;
    forall other | other in c.sessions
      ensures sent[other] == told[other]
    {
      assert c.sessions[other].fd == other;
    }
    assert sent == told;
  }

  /** Reports and broadcast together: each session gets what concerns it. */
  lemma DeliverEach(c: Core, e: Exec)
    requires forall other :: other in c.sessions ==> c.sessions[other].fd == other
    ensures Deliver(c, e) == c.(hist := c.hist + [InMarket(Traded(e))],
                                sessions := map fd | fd in c.sessions :: After(c.sessions[fd], e))
  {
    hide Told, Report, Post;
    var c1 := c.(hist := c.hist + [InMarket(Traded(e))]);
    ReportEach(c1, e.fill.buyerFd, e.fill.buyerSeq, Bought(e));
    var c2 := Report(c1, e.fill.buyerFd, e.fill.buyerSeq, Bought(e));
    forall fd | fd in c.sessions
      ensures c2.sessions[fd].fd == fd
    {
      ToldReports(c.sessions[fd], e.fill.buyerFd, e.fill.buyerSeq, Bought(e));
    }
    ReportEach(c2, e.fill.sellFd, e.fill.sellSeq, Sold(e));
    var delivered := map fd | fd in c.sessions :: After(c.sessions[fd], e);
    assert Deliver(c, e).sessions == delivered;
  }

  lemma AfterSameSession(s: Session, e: Exec)
    ensures After(s, e).fd == s.fd && After(s, e).serial == s.serial && After(s, e).username == s.username
  {
  }

  lemma KeyedFds(c: Core)
    requires Keyed(c)
    ensures forall fd :: fd in c.sessions ==> c.sessions[fd].fd == fd
  {
  }

  /** Who is where does not depend on what the sessions are told. */
  lemma EachKeepsPlaces(c: Core, c': Core)
    requires Keyed(c) && Named(c)
    requires c'.sessions.Keys == c.sessions.Keys && c'.closed == c.closed && c'.nextSerial == c.nextSerial
    requires forall fd :: fd in c.sessions ==>
               && c'.sessions[fd].fd == c.sessions[fd].fd && c'.sessions[fd].serial == c.sessions[fd].serial
               && c'.sessions[fd].username == c.sessions[fd].username
    ensures Keyed(c') && Named(c')
    ensures forall o :: HasHome(o, c) ==> HasHome(o, c')
  {
  }

  lemma DeliverKeepsBase(c: Core, e: Exec)
    requires Base(c) && Attributed(e, OrdersOf(c))
    ensures Base(Deliver(c, e)) && Deliver(c, e).market == c.market
    ensures MarketLog(Deliver(c, e).hist) == MarketLog(c.hist) + [Traded(e)]
  {
    hide Good, Markets.Inv, After, Attributed, Deliver, Unheard, Keyed, Named, HasHome, MarketLog, Orders, Listed;
    KeyedFds(c);
    DeliverEach(c, e);
    AttributedBelow(c, e);
    LaterKeepsUnheard(c, Deliver(c, e), InMarket(Traded(e)));
    var c' := Deliver(c, e);
    forall fd | fd in c.sessions
      ensures After(c.sessions[fd], e).fd == c.sessions[fd].fd
      ensures After(c.sessions[fd], e).serial == c.sessions[fd].serial
      ensures After(c.sessions[fd], e).username == c.sessions[fd].username
      ensures Good(After(c.sessions[fd], e), true, c'.hist, OrdersOf(c))
    {
      AfterSameSession(c.sessions[fd], e);
      DeliveryKeepsGood(c.sessions[fd], e, c.hist, OrdersOf(c));
    }
    forall q | q in c.closed
      ensures Good(c.closed[q], false, c'.hist, OrdersOf(c))
    {
      ClosedKeepsGood(c.closed[q], c.hist, e, OrdersOf(c));
    }
    EachKeepsPlaces(c, c');
    MarketLogSnoc(c.hist, InMarket(Traded(e)));
  }

  lemma {:induction false} DeliverAllKeepsBase(c: Core, execs: seq<Exec>)
    requires Base(c) && forall i :: 0 <= i < |execs| ==> Attributed(execs[i], OrdersOf(c))
    ensures Base(DeliverAll(c, execs)) && DeliverAll(c, execs).market == c.market
    ensures MarketLog(DeliverAll(c, execs).hist) == MarketLog(c.hist) + Trades(execs)
    decreases |execs|
  {
    hide Base, Attributed, Deliver, MarketLog, Orders;
    if execs == [] {
      assert MarketLog(c.hist) + [] == MarketLog(c.hist);
    } else {
      var front, last := execs[..|execs| - 1], execs[|execs| - 1];
      DeliverAllKeepsBase(c, front);
      DeliverKeepsBase(DeliverAll(c, front), last);
      assert MarketLog(c.hist) + Trades(front) + [Traded(last)] == MarketLog(c.hist) + Trades(execs);
    }
  }

  // -------------------------------------------------------------------- orders

  lemma PlaceKeepsHistory(m: Market, o: Order)
    requires Markets.Inv(m) && o.id == m.nextId && o.qty > 0
    ensures Markets.Inv(Place(m, o)) && o.id !in Orders(m.log)
    ensures Orders(Place(m, o).log) == Orders(m.log)[o.id := o]
    ensures Place(m, o).log == m.log + [Submitted(o)] + Trades(Books.Submit(m.book, o).execs)
  {
    hide Books.Inv, Untouched, Numbered, Conserved, AllAttributed, Books.Fresh, Books.Submit, Orders;
    PlaceKeepsInv(m, o);
    NextIdIsFresh(m);
    assert o.(id := m.nextId) == o;
    LogPlace(m.log, o, Books.Submit(m.book, o).execs);
    assert m.log + ([Submitted(o)] + Trades(Books.Submit(m.book, o).execs))
        == m.log + [Submitted(o)] + Trades(Books.Submit(m.book, o).execs);
  }

  lemma PlaceAttributesAll(m: Market, o: Order)
    requires Markets.Inv(m) && o.id == m.nextId && o.qty > 0
    ensures var execs := Books.Submit(m.book, o).execs;
            forall i :: 0 <= i < |execs| ==> Attributed(execs[i], Orders(m.log)[o.id := o])
  {
    NextIdIsFresh(m);
    hide Markets.Inv, Attributed;
    var execs := Books.Submit(m.book, o).execs;
    forall i | 0 <= i < |execs|
      ensures Attributed(execs[i], Orders(m.log)[o.id := o])
    {
      PartiesAreKnown(m, o, execs[i]);
    }
  }

  /** The order is acknowledged and in the market; its executions are yet to be told. */
  lemma EnterKeepsBase(c: Core, fd: int, o: Order)
    requires Base(c) && fd in c.sessions && c.sessions[fd].role == Trader
    requires o.id == c.market.nextId && o.ownerFd == fd && o.ownerSeq == c.sessions[fd].serial && Listed(o)
    ensures Base(Send(c, fd, Accepted(o.id)).(market := Place(c.market, o), hist := c.hist + [InMarket(Submitted(o))]))
  {
    hide Good, Markets.Inv, Post, Place, Listed, Keyed, Named, HasHome, Unheard;
    assert o.qty > 0 by { ListedIsPositive(o); }
    PlaceKeepsHistory(c.market, o);
    var s := c.sessions[fd];
    var c' := Send(c, fd, Accepted(o.id)).(market := Place(c.market, o), hist := c.hist + [InMarket(Submitted(o))]);
    SameSession(s, Accepted(o.id));
    SerialsDiffer(c, fd);
    KeyedAt(c, fd);
    ReplaceKeepsPlaces(c, c', fd, Post(s, Accepted(o.id)));
    OwnerIsHome(c', fd, o);
    LaterKeepsUnheard(c, c', InMarket(Submitted(o)));
    OwnOrderKeepsGood(s, c.hist, OrdersOf(c), o);
    forall other | other in c.sessions && other != fd
      ensures Good(c.sessions[other], true, c'.hist, OrdersOf(c'))
    {
      OthersOrderKeepsGood(c.sessions[other], true, c.hist, OrdersOf(c), o);
    }
    forall q | q in c.closed
      ensures Good(c.closed[q], false, c'.hist, OrdersOf(c'))
    {
      OthersOrderKeepsGood(c.closed[q], false, c.hist, OrdersOf(c), o);
    }
  }

  lemma OwnerIsHome(c: Core, fd: int, o: Order)
    requires fd in c.sessions && o.ownerFd == fd && o.ownerSeq == c.sessions[fd].serial
    ensures HasHome(o, c)
  {
  }

  lemma ListedIsPositive(o: Order)
    requires Listed(o)
    ensures o.qty > 0
  {
  }

  lemma PlaceOrderKeepsInv(c: Core, fd: int, side: Side, instrument: string, qty: int, price: int)
    requires Inv(c) && fd in c.sessions && c.sessions[fd].role == Trader
    requires instrument in INSTRUMENTS && 1 <= qty <= MAX_VALUE && 1 <= price <= MAX_VALUE
    ensures Inv(PlaceOrder(c, fd, side, instrument, qty, price))
  {
    hide Unheard, Keyed, Named, Homed, AllGood, AllListed, Markets.Inv, Place, DeliverAll, Post, Books.Submit,
         Attributed;
    var o := Order(c.market.nextId, side, instrument, qty, price, fd, c.sessions[fd].serial);
    EnterKeepsBase(c, fd, o);
    PlaceKeepsHistory(c.market, o);
    PlaceAttributesAll(c.market, o);
    var placed := Send(c, fd, Accepted(o.id)).(market := Place(c.market, o), hist := c.hist + [InMarket(Submitted(o))]);
    MarketLogSnoc(c.hist, InMarket(Submitted(o)));
    DeliverAllKeepsBase(placed, Books.Submit(c.market.book, o).execs);
  }

  lemma CancelOrderKeepsInv(c: Core, fd: int, id: int, text: string)
    requires Inv(c) && fd in c.sessions && c.sessions[fd].role == Trader && IsWord(text)
    ensures Inv(CancelOrder(c, fd, id, text))
  {
    hide Base, Send;
    var serial := c.sessions[fd].serial;
    if Books.Owned(c.market.book, id, fd, serial) {
      ConfirmedCancelKeepsInv(c, fd, id, text);
    } else {
      WordErrorIsPlain("cannot cancel order ", text);
      SendKeepsInv(c, fd, Error("cannot cancel order " + text));
    }
  }

  lemma ConfirmedCancelKeepsInv(c: Core, fd: int, id: int, text: string)
    requires Inv(c) && fd in c.sessions && c.sessions[fd].role == Trader
    requires Books.Owned(c.market.book, id, fd, c.sessions[fd].serial)
    ensures Inv(CancelOrder(c, fd, id, text))
  {
    hide Good, Markets.Inv, Post, Withdraw, Keyed, Named, HasHome, Unheard;
    var s := c.sessions[fd];
    OwnedRests(c.market.book, id, fd, s.serial);
    var gone := Resting(c.market.book, id);
    var h := InMarket(Cancelled(gone));
    CancelledIsOwn(c.market, id, fd, s.serial);
    WithdrawHistory(c.market, id, fd, s.serial);
    WithdrawKeepsInv(c.market, id, fd, s.serial);
    var c' := CancelOrder(c, fd, id, text);
    CancelKeepsGood(s, c.hist, OrdersOf(c), id, gone);
    SameSession(s, Withdrawal(id));
    SerialsDiffer(c, fd);
    KeyedAt(c, fd);
    ReplaceKeepsPlaces(c, c', fd, Post(s, Withdrawal(id)));
    forall other | other in c.sessions && other != fd
      ensures Good(c.sessions[other], true, c'.hist, OrdersOf(c))
    {
      ElsewhereKeepsGood(c.sessions[other], true, c.hist, h, OrdersOf(c));
    }
    forall q | q in c.closed
      ensures Good(c.closed[q], false, c'.hist, OrdersOf(c))
    {
      ElsewhereKeepsGood(c.closed[q], false, c.hist, h, OrdersOf(c));
    }
    MarketLogSnoc(c.hist, h);
    LaterKeepsUnheard(c, c', h);
  }

  /** The order that a cancel takes out is the caller's. */
  lemma CancelledIsOwn(m: Market, id: int, fd: int, serial: nat)
    requires Markets.Inv(m) && Books.Owned(m.book, id, fd, serial) && Books.Rests(m.book, id)
    ensures Resting(m.book, id).id == id && Resting(m.book, id).ownerSeq == serial
    ensures id in Orders(m.log) && Orders(m.log)[id].ownerSeq == serial
  {
    var k, i := WithdrawAt(m, id, fd, serial);
    LogStep(m.log, Cancelled(m.book[k][i]));
    assert (m.log + [Cancelled(m.book[k][i])])[|m.log|] == (m.log + [Cancelled(Resting(m.book, id))])[|m.log|];
    assert RestsAs(m.book[k][i], i, Orders(m.log));
  }

  lemma WithdrawHistory(m: Market, id: int, fd: int, serial: nat)
    requires Books.Owned(m.book, id, fd, serial) && Books.Rests(m.book, id)
    ensures Withdraw(m, id, fd, serial).log == m.log + [Cancelled(Resting(m.book, id))]
    ensures Orders(Withdraw(m, id, fd, serial).log) == Orders(m.log)
  {
    LogStep(m.log, Cancelled(Resting(m.book, id)));
  }

  // ------------------------------------------------------------------ error text

  lemma WordErrorIsPlain(text: string, word: string)
    requires OneLine(text) && IsWord(word)
    ensures Plain(Error(text + word))
  {
    assert OneLine("ERROR ");
    OneLineConcat(text, word);
    OneLineConcat("ERROR ", text + word);
  }

  lemma ErrorIsPlain(text: string)
    requires OneLine(text)
    ensures Plain(Error(text))
  {
    assert OneLine("ERROR ");
    OneLineConcat("ERROR ", text);
  }

  // -------------------------------------------------------------------- commands

  lemma SetRoleKeepsInv(c: Core, fd: int, cmd: string)
    requires Inv(c) && fd in c.sessions
    ensures Inv(SetRole(c, fd, cmd))
  {
    hide Good, Markets.Inv;
    var s := c.sessions[fd];
    RoleKeepsGood(s, cmd, c.hist, OrdersOf(c));
    assert c.hist + [] == c.hist;
    ReplaceKeepsBase(c, fd, s.(role := AssignRole(s.role, cmd)), []);
  }

  lemma LoginKeepsInv(c: Core, fd: int, t: seq<string>)
    requires Inv(c) && fd in c.sessions && t != [] && c.sessions[fd].role == Trader
    ensures Inv(Login(c, fd, t))
  {
    hide Base, Send;
    ErrorIsPlain("usage: LOGIN <username>");
    ErrorIsPlain("already logged in");
    ErrorIsPlain("username already in use");
    if |t| != 2 {
      SendKeepsInv(c, fd, Error("usage: LOGIN <username>"));
    } else if c.sessions[fd].username != "" {
      SendKeepsInv(c, fd, Error("already logged in"));
    } else if NameTaken(c, fd, t[1]) {
      SendKeepsInv(c, fd, Error("username already in use"));
    } else {
      var c' := c.(sessions := c.sessions[fd := c.sessions[fd].(username := t[1])]);
      NameKeepsInv(c, fd, t[1]);
      OkIsPlain();
      SendKeepsInv(c', fd, Ok);
    }
  }

  lemma NameKeepsInv(c: Core, fd: int, name: string)
    requires Inv(c) && fd in c.sessions && c.sessions[fd].role == Trader && !NameTaken(c, fd, name)
    ensures Inv(c.(sessions := c.sessions[fd := c.sessions[fd].(username := name)]))
  {
    hide Good, Markets.Inv;
    LoginKeepsGood(c.sessions[fd], name, c.hist, OrdersOf(c));
    assert c.hist + [] == c.hist;
    KeyedAt(c, fd);
    ReplaceKeepsBase(c, fd, c.sessions[fd].(username := name), []);
  }

  lemma KeyedAt(c: Core, fd: int)
    requires Keyed(c) && fd in c.sessions
    ensures c.sessions[fd].fd == fd
  {
  }

  lemma OkIsPlain()
    ensures Plain(Ok)
  {
  }

  lemma BuyOrSellKeepsInv(c: Core, fd: int, t: seq<string>)
    requires Inv(c) && fd in c.sessions && c.sessions[fd].role == Trader
    requires t != [] && (forall i :: 0 <= i < |t| ==> IsWord(t[i]))
    ensures Inv(BuyOrSell(c, fd, t))
  {
    hide Base, Send, Parse, PlaceOrder, Plain;
    if |t| != 4 {
      UsageIsPlain(t[0], " <instrument> <quantity> <price>");
      SendKeepsInv(c, fd, Error("usage: " + t[0] + " <instrument> <quantity> <price>"));
    } else if t[1] !in INSTRUMENTS {
      WordErrorIsPlain("unknown instrument ", t[1]);
      SendKeepsInv(c, fd, Error("unknown instrument " + t[1]));
    } else if Parse(t[2], 1).None? {
      QuantityErrorIsPlain();
      SendKeepsInv(c, fd, Error("quantity must be an integer in 1..2147483647"));
    } else if Parse(t[3], 1).None? {
      PriceErrorIsPlain();
      SendKeepsInv(c, fd, Error("price must be an integer in 1..2147483647"));
    } else {
      ParsedIsInRange(t[2]);
      ParsedIsInRange(t[3]);
      PlaceOrderKeepsInv(c, fd, if t[0] == "BUY" then Buy else Sell, t[1], Parse(t[2], 1).value, Parse(t[3], 1).value);
    }
  }

  lemma QuantityErrorIsPlain()
    ensures Plain(Error("quantity must be an integer in 1..2147483647"))
  {
    ErrorIsPlain("quantity must be an integer in 1..2147483647");
  }

  lemma PriceErrorIsPlain()
    ensures Plain(Error("price must be an integer in 1..2147483647"))
  {
    ErrorIsPlain("price must be an integer in 1..2147483647");
  }

  lemma ParsedIsInRange(s: string)
    requires Parse(s, 1).Some?
    ensures 1 <= Parse(s, 1).value <= MAX_VALUE
  {
  }

  lemma UsageIsPlain(cmd: string, rest: string)
    requires IsWord(cmd) && OneLine(rest)
    ensures Plain(Error("usage: " + cmd + rest))
  {
    OneLineConcat("usage: ", cmd);
    OneLineConcat("usage: " + cmd, rest);
    ErrorIsPlain("usage: " + cmd + rest);
  }

  lemma CancelCmdKeepsInv(c: Core, fd: int, t: seq<string>)
    requires Inv(c) && fd in c.sessions && c.sessions[fd].role == Trader
    requires t != [] && (forall i :: 0 <= i < |t| ==> IsWord(t[i]))
    ensures Inv(CancelCmd(c, fd, t))
  {
    hide Base, Send, Parse, CancelOrder;
    if |t| != 2 {
      ErrorIsPlain("usage: CANCEL <order_id>");
      SendKeepsInv(c, fd, Error("usage: CANCEL <order_id>"));
    } else if Parse(t[1], 0).None? {
      ErrorIsPlain("order id must be an integer in 0..2147483647");
      SendKeepsInv(c, fd, Error("order id must be an integer in 0..2147483647"));
    } else {
      CancelOrderKeepsInv(c, fd, Parse(t[1], 0).value, t[1]);
    }
  }

  lemma SubscriptionKeepsInv(c: Core, fd: int, t: seq<string>)
    requires Inv(c) && fd in c.sessions && c.sessions[fd].role == MarketData
    requires t != [] && (forall i :: 0 <= i < |t| ==> IsWord(t[i]))
    ensures Inv(Subscription(c, fd, t))
  {
    hide Base, Send;
    OkIsPlain();
    if |t| != 2 {
      UsageIsPlain(t[0], " <instrument>");
      SendKeepsInv(c, fd, Error("usage: " + t[0] + " <instrument>"));
    } else if t[1] !in INSTRUMENTS {
      WordErrorIsPlain("unknown instrument ", t[1]);
      SendKeepsInv(c, fd, Error("unknown instrument " + t[1]));
    } else {
      SubscribeKeepsInv(c, fd, t[1]);
      var s := c.sessions[fd];
      if t[0] == "SUBSCRIBE" {
        SendKeepsInv(c.(sessions := c.sessions[fd := s.(subs := s.subs + {t[1]})],
                        hist := c.hist + [Subscribed(s.serial, t[1])]), fd, Ok);
      } else {
        SendKeepsInv(c.(sessions := c.sessions[fd := s.(subs := s.subs - {t[1]})],
                        hist := c.hist + [Unsubscribed(s.serial, t[1])]), fd, Ok);
      }
    }
  }

  lemma SubscribeKeepsInv(c: Core, fd: int, instrument: string)
    requires Inv(c) && fd in c.sessions && c.sessions[fd].role == MarketData
    ensures var s := c.sessions[fd];
            Inv(c.(sessions := c.sessions[fd := s.(subs := s.subs + {instrument})],
                   hist := c.hist + [Subscribed(s.serial, instrument)]))
    ensures var s := c.sessions[fd];
            Inv(c.(sessions := c.sessions[fd := s.(subs := s.subs - {instrument})],
                   hist := c.hist + [Unsubscribed(s.serial, instrument)]))
  {
    hide Good, Markets.Inv;
    var s := c.sessions[fd];
    KeyedAt(c, fd);
    SubscribeKeepsGood(s, instrument, c.hist, OrdersOf(c));
    ReplaceKeepsBase(c, fd, s.(subs := s.subs + {instrument}), [Subscribed(s.serial, instrument)]);
    ReplaceKeepsBase(c, fd, s.(subs := s.subs - {instrument}), [Unsubscribed(s.serial, instrument)]);
  }

  // ---------------------------------------------------------------------- closing

  /** A session ends, after perhaps some last bytes of it were sent. */
  lemma EndKeepsInv(c: Core, fd: int, s: Session)
    requires Inv(c) && fd in c.sessions && s.serial == c.sessions[fd].serial
    requires Good(s, false, c.hist + [Closed(s.serial)], OrdersOf(c))
    ensures Inv(CloseSession(c.(sessions := c.sessions[fd := s]), fd))
  {
    hide Good, Markets.Inv, Unheard, Keyed, Named, HasHome, Orders, Listed, MarketLog;
    var h := Closed(s.serial);
    var c' := c.(sessions := c.sessions - {fd}, closed := c.closed[s.serial := s], hist := c.hist + [h]);
    assert c.sessions[fd := s] - {fd} == c.sessions - {fd};
    assert CloseSession(c.(sessions := c.sessions[fd := s]), fd) == c';
    SerialsDiffer(c, fd);
    EndKeepsPlaces(c, c', fd, s);
    LaterKeepsUnheard(c, c', h);
    forall other | other in c'.sessions
      ensures Good(c.sessions[other], true, c'.hist, OrdersOf(c))
    {
      ElsewhereKeepsGood(c.sessions[other], true, c.hist, h, OrdersOf(c));
    }
    forall q | q in c.closed
      ensures Good(c.closed[q], false, c'.hist, OrdersOf(c))
    {
      ElsewhereKeepsGood(c.closed[q], false, c.hist, h, OrdersOf(c));
    }
    MarketLogSnoc(c.hist, h);
  }

  lemma EndKeepsPlaces(c: Core, c': Core, fd: int, s: Session)
    requires Keyed(c) && Named(c) && fd in c.sessions && s.serial == c.sessions[fd].serial
    requires c'.sessions == c.sessions - {fd} && c'.closed == c.closed[s.serial := s] && c'.nextSerial == c.nextSerial
    ensures Keyed(c') && Named(c')
    ensures forall o :: HasHome(o, c) ==> HasHome(o, c')
  {
  }

  lemma CloseSessionKeepsInv(c: Core, fd: int)
    requires Inv(c) && fd in c.sessions
    ensures Inv(CloseSession(c, fd))
  {
    hide Good, Markets.Inv;
    var s := c.sessions[fd];
    CloseKeepsGood(s, c.hist, OrdersOf(c));
    assert c.sessions[fd := s] == c.sessions;
    EndKeepsInv(c, fd, s);
  }

  // ------------------------------------------------------------------------ lines

  lemma SettledRole(c: Core, fd: int, cmd: string)
    requires fd in c.sessions
    ensures SetRole(c, fd, cmd).sessions.Keys == c.sessions.Keys
    ensures TraderCmd(cmd) || MarketDataCmd(cmd) ==> SetRole(c, fd, cmd).sessions[fd].role != Unknown
  {
  }

  lemma DispatchKeepsInv(c: Core, fd: int, t: seq<string>)
    requires Inv(c) && fd in c.sessions && t != [] && (forall i :: 0 <= i < |t| ==> IsWord(t[i]))
    ensures Inv(Dispatch(c, fd, t))
  {
    hide Base, Send, Login, BuyOrSell, CancelCmd, Subscription, CloseSession;
    var cmd, role := t[0], c.sessions[fd].role;
    if TraderCmd(cmd) && role != Trader {
      WordErrorIsPlain("market-data clients cannot send ", cmd);
      SendKeepsInv(c, fd, Error("market-data clients cannot send " + cmd));
    } else if MarketDataCmd(cmd) && role != MarketData {
      WordErrorIsPlain("traders cannot send ", cmd);
      SendKeepsInv(c, fd, Error("traders cannot send " + cmd));
    } else if cmd == "LOGIN" {
      LoginKeepsInv(c, fd, t);
    } else if cmd == "BUY" || cmd == "SELL" {
      BuyOrSellKeepsInv(c, fd, t);
    } else if cmd == "CANCEL" {
      CancelCmdKeepsInv(c, fd, t);
    } else if MarketDataCmd(cmd) {
      SubscriptionKeepsInv(c, fd, t);
    } else if cmd == "QUIT" {
      CloseSessionKeepsInv(c, fd);
    } else {
      ErrorIsPlain("unknown command");
      SendKeepsInv(c, fd, Error("unknown command"));
    }
  }

  lemma NoteKeepsInv(c: Core, fd: int, line: string)
    requires Inv(c) && fd in c.sessions
    ensures Inv(Note(c, fd, line))
  {
    hide Good, Markets.Inv, Unheard;
    var h := Handled(c.sessions[fd].serial, line);
    forall other | other in c.sessions
      ensures Good(c.sessions[other], true, c.hist + [h], OrdersOf(c))
    {
      ElsewhereKeepsGood(c.sessions[other], true, c.hist, h, OrdersOf(c));
    }
    forall q | q in c.closed
      ensures Good(c.closed[q], false, c.hist + [h], OrdersOf(c))
    {
      ElsewhereKeepsGood(c.closed[q], false, c.hist, h, OrdersOf(c));
    }
    LaterKeepsUnheard(c, Note(c, fd, line), h);
    MarketLogSnoc(c.hist, h);
  }

  lemma ObeyKeepsInv(c: Core, fd: int, t: seq<string>)
    requires Inv(c) && fd in c.sessions && (forall i :: 0 <= i < |t| ==> IsWord(t[i]))
    ensures Inv(Obey(c, fd, t))
  {
    hide Base, Send, Dispatch, SetRole;
    if t == [] {
      ErrorIsPlain("empty");
      SendKeepsInv(c, fd, Error("empty"));
    } else {
      SetRoleKeepsInv(c, fd, t[0]);
      SettledRole(c, fd, t[0]);
      DispatchKeepsInv(SetRole(c, fd, t[0]), fd, t);
    }
  }

  lemma HandleLineKeepsInv(c: Core, fd: int, line: string)
    requires Inv(c)
    ensures Inv(HandleLine(c, fd, line))
  {
    hide Inv, Obey;
    if fd in c.sessions {
      NoteKeepsInv(c, fd, line);
      ObeyKeepsInv(Note(c, fd, line), fd, Tokens(line));
    }
  }

  lemma {:induction false} HandleAllKeepsInv(c: Core, fd: int, lines: seq<string>)
    requires Inv(c)
    ensures Inv(HandleAll(c, fd, lines))
    decreases |lines|
  {
    hide Inv, HandleLine;
    if lines == [] {
    } else {
      HandleLineKeepsInv(c, fd, lines[0]);
      if !IsQuit(lines[0]) {
        HandleAllKeepsInv(HandleLine(c, fd, lines[0]), fd, lines[1..]);
      }
    }
  }

  // ------------------------------------------------------------------------ steps

  /** The core is safe, and what waits in an input buffer belongs to a live session and is no complete line. */
  ghost predicate Safe(m: Machine) {
    && Inv(m.core)
    && m.inbufs.Keys == m.core.sessions.Keys
    && (forall fd :: fd in m.inbufs ==> '\n' !in m.inbufs[fd])
  }

  lemma AcceptKeepsSafe(m: Machine, fd: int, script: seq<Answer>)
    requires Safe(m)
    ensures Safe(Accept(m, fd, script))
  {
    hide Good, Markets.Inv, Unheard, Keyed, Named, HasHome, Orders, MarketLog, Nothing, Listed;
    var c := m.core;
    if fd !in c.sessions {
      var c', h := Accept(m, fd, script).core, Opened(c.nextSerial);
      NextIsNew(c);
      AcceptKeepsPlaces(c, c', fd);
      LaterKeepsUnheard(c, c', h);
      forall other | other in c.sessions
        ensures Good(c.sessions[other], true, c'.hist, OrdersOf(c))
      {
        ElsewhereKeepsGood(c.sessions[other], true, c.hist, h, OrdersOf(c));
      }
      forall q | q in c.closed
        ensures Good(c.closed[q], false, c'.hist, OrdersOf(c))
      {
        ElsewhereKeepsGood(c.closed[q], false, c.hist, h, OrdersOf(c));
      }
      FreshIsGood(c'.sessions[fd], c.hist, OrdersOf(c));
      MarketLogSnoc(c.hist, h);
    }
  }

  /** The next serial number is nobody's yet. */
  lemma NextIsNew(c: Core)
    requires Unheard(c) && Keyed(c)
    ensures Nothing(c.hist, c.nextSerial)
    ensures forall fd :: fd in c.sessions ==> c.sessions[fd].serial < c.nextSerial
    ensures forall q :: q in c.closed ==> c.closed[q].serial == q < c.nextSerial
  {
  }

  lemma AcceptKeepsPlaces(c: Core, c': Core, fd: int)
    requires Keyed(c) && Named(c) && fd !in c.sessions
    requires fd in c'.sessions && c'.sessions == c.sessions[fd := c'.sessions[fd]]
    requires c'.sessions[fd].fd == fd && c'.sessions[fd].serial == c.nextSerial && c'.sessions[fd].username == ""
    requires c'.closed == c.closed && c'.nextSerial == c.nextSerial + 1
    ensures Keyed(c') && Named(c')
    ensures forall o :: HasHome(o, c) ==> HasHome(o, c') && o.ownerSeq != c.nextSerial
  {
    assert Named(c') by {
      hide Keyed;
    }
    assert Keyed(c') by {
      hide Named;
    }
    hide Named;
  }

  lemma HangupKeepsSafe(m: Machine, fd: int)
    requires Safe(m)
    ensures Safe(Hangup(m, fd))
  {
    hide Inv;
    if fd in m.core.sessions {
      CloseSessionKeepsInv(m.core, fd);
    }
  }

  lemma ArriveKeepsSafe(m: Machine, fd: int, bytes: string)
    requires Safe(m) && fd in m.core.sessions
    ensures Safe(Arrive(m, fd, bytes).0)
  {
    hide Inv, HandleAll, Quits, Lines;
    var lines := Lines(Inbuf(m, fd) + bytes);
    HandleAllKeepsInv(m.core, fd, lines);
    HandleAllKeepsKeys(m.core, fd, lines);
  }

  lemma {:induction false} HandleAllKeepsKeys(c: Core, fd: int, lines: seq<string>)
    requires fd in c.sessions
    ensures HandleAll(c, fd, lines).sessions.Keys == if Quits(lines) then c.sessions.Keys - {fd} else c.sessions.Keys
    decreases |lines|
  {
    hide HandleLine, IsQuit;
    if lines == [] {
    } else {
      QuitsCons(lines);
      HandleLineKeepsKeys(c, fd, lines[0]);
      if !IsQuit(lines[0]) {
        HandleAllKeepsKeys(HandleLine(c, fd, lines[0]), fd, lines[1..]);
      }
    }
  }

  lemma {:induction false} ReadableKeepsSafe(m: Machine, fd: int, recvs: seq<Received>)
    requires Safe(m)
    ensures Safe(Readable(m, fd, recvs))
    decreases |recvs|
  {
    hide Safe, Arrive, Hangup;
    if fd !in m.core.sessions || recvs == [] {
    } else {
      HangupKeepsSafe(m, fd);
      match recvs[0] {
        case Got(bytes) =>
          if bytes != "" {
            ArriveKeepsSafe(m, fd, bytes);
            ReadableKeepsSafe(Arrive(m, fd, bytes).0, fd, recvs[1..]);
          }
        case TryAgain => ReadableKeepsSafe(m, fd, recvs[1..]);
        case Exhausted =>
        case Broken =>
      }
    }
  }

  lemma WritableKeepsSafe(m: Machine, fd: int)
    requires Safe(m)
    ensures Safe(Writable(m, fd))
  {
    hide Good, Markets.Inv, Channels.Drain, CloseSession;
    if fd in m.core.sessions {
      var c, s := m.core, m.core.sessions[fd];
      var s' := s.(chan := Channels.Drain(s.chan).1);
      DrainKeepsGood(s, c.hist, OrdersOf(c));
      KeyedAt(c, fd);
      assert c.hist + [] == c.hist;
      if Channels.Drain(s.chan).0 {
        ReplaceKeepsBase(c, fd, s', []);
      } else {
        EndKeepsInv(c, fd, s');
        CloseRemoves(c.(sessions := c.sessions[fd := s']), fd);
      }
    }
  }

  lemma CloseRemoves(c: Core, fd: int)
    ensures CloseSession(c, fd).sessions.Keys == c.sessions.Keys - {fd}
  {
  }

  lemma StartIsSafe()
    ensures Safe(Start())
  {
  }

  lemma StepKeepsSafe(m: Machine, step: Step)
    requires Safe(m)
    ensures Safe(Exchange.Apply(m, step))
  {
    hide Safe, Accept, Readable, Writable, Hangup;
    match step {
      case AcceptStep(fd, script) => AcceptKeepsSafe(m, fd, script);
      case ReadStep(fd, recvs) => ReadableKeepsSafe(m, fd, recvs);
      case WriteStep(fd) => WritableKeepsSafe(m, fd);
      case HangupStep(fd) => HangupKeepsSafe(m, fd);
    }
  }

  /** Whatever clients and kernel do, in whatever order, the server stays safe. */
  lemma {:induction false} RunIsSafe(steps: seq<Step>)
    ensures Safe(Exchange.Run(steps))
    decreases |steps|
  {
    hide Safe, Exchange.Apply;
    if steps == [] {
      StartIsSafe();
    } else {
      RunIsSafe(steps[..|steps| - 1]);
      StepKeepsSafe(Exchange.Run(steps[..|steps| - 1]), steps[|steps| - 1]);
    }
  }
}
