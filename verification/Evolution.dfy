/** What never goes back: roles, names, histories and delivered bytes, from any state of a run to any later one. */
module Evolution {
  import opened Matching
  import opened Protocol
  import opened Framing
  import opened Markets
  import opened Channels
  import opened Exchange
  import opened Sessions
  import opened Safety
  import Books

  /** `s'` is the same session, later. */
  predicate Continues(s: Session, s': Session) {
    && s'.fd == s.fd && s'.serial == s.serial && s'.chan.script == s.chan.script
    && (s.role != Unknown ==> s'.role == s.role)
    && (s.username != "" ==> s'.username == s.username)
    && s.log <= s'.log
    && s.chan.accepted <= s'.chan.accepted
  }

  /** The session is still there, or it ended and is remembered. */
  predicate LivesOn(s: Session, c: Core) {
    || (s.fd in c.sessions && Continues(s, c.sessions[s.fd]))
    || (s.serial in c.closed && Continues(s, c.closed[s.serial]))
  }

  /** Sessions continue or end, ended sessions stay as they were, and the histories only grow. */
  ghost predicate Evolves(c: Core, c': Core) {
    && (forall fd :: fd in c.sessions ==> LivesOn(c.sessions[fd], c'))
    && (forall q :: q in c.closed ==> q in c'.closed && c'.closed[q] == c.closed[q])
    && c.nextSerial <= c'.nextSerial
    && c.hist <= c'.hist && c.market.log <= c'.market.log
  }

  lemma EvolvesTrans(a: Core, b: Core, c: Core)
    requires Keyed(a) && Keyed(b) && Evolves(a, b) && Evolves(b, c)
    ensures Evolves(a, c)
  {
    forall fd | fd in a.sessions
      ensures LivesOn(a.sessions[fd], c)
    {
      var s := a.sessions[fd];
      assert s.fd == fd && LivesOn(s, b);
      if s.fd in b.sessions && Continues(s, b.sessions[s.fd]) {
        assert LivesOn(b.sessions[s.fd], c);
      }
    }
  }

  /** Each session by itself, nothing opened or closed. */
  lemma EvolvesByEach(c: Core, c': Core)
    requires Keyed(c) && c'.closed == c.closed && c'.nextSerial == c.nextSerial
    requires c.sessions.Keys == c'.sessions.Keys
    requires forall fd :: fd in c.sessions ==> Continues(c.sessions[fd], c'.sessions[fd])
    requires c.hist <= c'.hist && c.market.log <= c'.market.log
    ensures Evolves(c, c')
  {
  }

  lemma EvolvesRefl(c: Core)
    requires Keyed(c)
    ensures Evolves(c, c)
  {
  }

  lemma PostContinues(s: Session, m: Msg)
    ensures Continues(s, Post(s, m))
  {
  }

  lemma AfterContinues(s: Session, e: Exec)
    ensures Continues(s, After(s, e))
  {
    hide Post;
    PostContinues(s, Bought(e));
    var a := Told(s, e.fill.buyerFd, e.fill.buyerSeq, Bought(e));
    PostContinues(a, Sold(e));
    var b := Told(a, e.fill.sellFd, e.fill.sellSeq, Sold(e));
    PostContinues(b, Trade(e));
  }

  lemma SendEvolves(c: Core, fd: int, m: Msg)
    requires Keyed(c)
    ensures Evolves(c, Send(c, fd, m))
  {
    hide Post;
    forall other | other in c.sessions
      ensures Continues(c.sessions[other], Send(c, fd, m).sessions[other])
    {
      PostContinues(c.sessions[other], m);
    }
    EvolvesByEach(c, Send(c, fd, m));
  }

  lemma ReplaceEvolves(c: Core, fd: int, s: Session, hs: seq<Happening>)
    requires Keyed(c) && fd in c.sessions && Continues(c.sessions[fd], s)
    ensures Evolves(c, c.(sessions := c.sessions[fd := s], hist := c.hist + hs))
  {
    EvolvesByEach(c, c.(sessions := c.sessions[fd := s], hist := c.hist + hs));
  }

  lemma DeliverEvolves(c: Core, e: Exec)
    requires Keyed(c)
    ensures Evolves(c, Deliver(c, e))
  {
    hide After, Deliver;
    DeliverEach(c, e);
    forall fd | fd in c.sessions
      ensures Continues(c.sessions[fd], Deliver(c, e).sessions[fd])
    {
      AfterContinues(c.sessions[fd], e);
    }
    EvolvesByEach(c, Deliver(c, e));
  }

  lemma {:induction false} DeliverAllEvolves(c: Core, execs: seq<Exec>)
    requires Base(c) && forall i :: 0 <= i < |execs| ==> Attributed(execs[i], OrdersOf(c))
    ensures Evolves(c, DeliverAll(c, execs))
    decreases |execs|
  {
    hide Base, Attributed, Deliver, Evolves, Orders;
    BaseIsKeyed(c);
    if execs == [] {
      EvolvesRefl(c);
    } else {
      var front := execs[..|execs| - 1];
      DeliverAllEvolves(c, front);
      DeliverAllKeepsBase(c, front);
      BaseIsKeyed(DeliverAll(c, front));
      DeliverEvolves(DeliverAll(c, front), execs[|execs| - 1]);
      EvolvesTrans(c, DeliverAll(c, front), DeliverAll(c, execs));
    }
  }

  lemma BaseIsKeyed(c: Core)
    requires Base(c)
    ensures Keyed(c)
  {
  }

  lemma InvIsKeyed(c: Core)
    requires Safety.Inv(c)
    ensures Keyed(c)
  {
  }

  lemma EnterEvolves(c: Core, fd: int, o: Order)
    requires Keyed(c) && fd in c.sessions
    ensures Evolves(c, Send(c, fd, Accepted(o.id)).(
                         market := Place(c.market, o), hist := c.hist + [InMarket(Submitted(o))]))
  {
    hide Post, Books.Submit;
    var c' := Send(c, fd, Accepted(o.id)).(market := Place(c.market, o), hist := c.hist + [InMarket(Submitted(o))]);
    PostContinues(c.sessions[fd], Accepted(o.id));
    EvolvesByEach(c, c');
  }

  lemma PlaceOrderEvolves(c: Core, fd: int, side: Side, instrument: string, qty: int, price: int)
    requires Safety.Inv(c) && fd in c.sessions && c.sessions[fd].role == Trader
    requires instrument in INSTRUMENTS && 1 <= qty <= MAX_VALUE && 1 <= price <= MAX_VALUE
    ensures Evolves(c, Exchange.PlaceOrder(c, fd, side, instrument, qty, price))
  {
    hide Unheard, Keyed, Named, Homed, AllGood, AllListed, Markets.Inv, Place, DeliverAll, Post, Books.Submit,
         Attributed, Evolves;
    var o := Order(c.market.nextId, side, instrument, qty, price, fd, c.sessions[fd].serial);
    EnterKeepsBase(c, fd, o);
    EnterEvolves(c, fd, o);
    PlaceKeepsHistory(c.market, o);
    PlaceAttributesAll(c.market, o);
    var placed := Send(c, fd, Accepted(o.id)).(market := Place(c.market, o), hist := c.hist + [InMarket(Submitted(o))]);
    DeliverAllEvolves(placed, Books.Submit(c.market.book, o).execs);
    EvolvesTrans(c, placed, DeliverAll(placed, Books.Submit(c.market.book, o).execs));
  }

  lemma BuyOrSellEvolves(c: Core, fd: int, t: seq<string>)
    requires Safety.Inv(c) && fd in c.sessions && c.sessions[fd].role == Trader && t != []
    ensures Evolves(c, Exchange.BuyOrSell(c, fd, t))
  {
    hide Safety.Inv, Parse, Send, Exchange.PlaceOrder, Evolves;
    InvIsKeyed(c);
    if |t| != 4 {
      SendEvolves(c, fd, Error("usage: " + t[0] + " <instrument> <quantity> <price>"));
    } else if t[1] !in INSTRUMENTS {
      SendEvolves(c, fd, Error("unknown instrument " + t[1]));
    } else if Parse(t[2], 1).None? {
      SendEvolves(c, fd, Error("quantity must be an integer in 1..2147483647"));
    } else if Parse(t[3], 1).None? {
      SendEvolves(c, fd, Error("price must be an integer in 1..2147483647"));
    } else {
      ParsedIsInRange(t[2]);
      ParsedIsInRange(t[3]);
      PlaceOrderEvolves(c, fd, if t[0] == "BUY" then Buy else Sell, t[1], Parse(t[2], 1).value, Parse(t[3], 1).value);
    }
  }

  lemma CancelOrderEvolves(c: Core, fd: int, id: int, text: string)
    requires Keyed(c) && fd in c.sessions
    ensures Evolves(c, CancelOrder(c, fd, id, text))
  {
    hide Post, Books.Delete;
    PostContinues(c.sessions[fd], Withdrawal(id));
    if Books.Owned(c.market.book, id, fd, c.sessions[fd].serial) {
      EvolvesByEach(c, CancelOrder(c, fd, id, text));
    } else {
      SendEvolves(c, fd, Error("cannot cancel order " + text));
    }
  }

  lemma CancelCmdEvolves(c: Core, fd: int, t: seq<string>)
    requires Keyed(c) && fd in c.sessions && t != []
    ensures Evolves(c, Exchange.CancelCmd(c, fd, t))
  {
    hide Send, Parse, CancelOrder, Evolves;
    if |t| != 2 {
      SendEvolves(c, fd, Error("usage: CANCEL <order_id>"));
    } else if Parse(t[1], 0).None? {
      SendEvolves(c, fd, Error("order id must be an integer in 0..2147483647"));
    } else {
      CancelOrderEvolves(c, fd, Parse(t[1], 0).value, t[1]);
    }
  }

  /** A command that changes one session's fields and then answers. */
  lemma ReplaceAndSendEvolves(c: Core, fd: int, s: Session, hs: seq<Happening>, m: Msg)
    requires Keyed(c) && fd in c.sessions && Continues(c.sessions[fd], s)
    ensures Evolves(c, Send(c.(sessions := c.sessions[fd := s], hist := c.hist + hs), fd, m))
  {
    hide Post;
    var c' := c.(sessions := c.sessions[fd := s], hist := c.hist + hs);
    PostContinues(s, m);
    EvolvesByEach(c, Send(c', fd, m));
  }

  lemma LoginEvolves(c: Core, fd: int, t: seq<string>)
    requires Keyed(c) && fd in c.sessions && t != []
    ensures Evolves(c, Exchange.Login(c, fd, t))
  {
    hide Send, Evolves;
    SendEvolves(c, fd, Error("usage: LOGIN <username>"));
    SendEvolves(c, fd, Error("already logged in"));
    SendEvolves(c, fd, Error("username already in use"));
    if |t| == 2 && c.sessions[fd].username == "" {
      assert c.hist + [] == c.hist;
      ReplaceAndSendEvolves(c, fd, c.sessions[fd].(username := t[1]), [], Ok);
    }
  }

  lemma SubscriptionEvolves(c: Core, fd: int, t: seq<string>)
    requires Keyed(c) && fd in c.sessions && t != []
    ensures Evolves(c, Exchange.Subscription(c, fd, t))
  {
    hide Send, Evolves;
    var s := c.sessions[fd];
    if |t| != 2 {
      SendEvolves(c, fd, Error("usage: " + t[0] + " <instrument>"));
    } else if t[1] !in INSTRUMENTS {
      SendEvolves(c, fd, Error("unknown instrument " + t[1]));
    } else if t[0] == "SUBSCRIBE" {
      ReplaceAndSendEvolves(c, fd, s.(subs := s.subs + {t[1]}), [Subscribed(s.serial, t[1])], Ok);
    } else {
      ReplaceAndSendEvolves(c, fd, s.(subs := s.subs - {t[1]}), [Unsubscribed(s.serial, t[1])], Ok);
    }
  }

  lemma CloseEvolves(c: Core, fd: int)
    requires Keyed(c)
    ensures Evolves(c, Exchange.CloseSession(c, fd))
  {
    if fd !in c.sessions {
      EvolvesRefl(c);
    }
  }

  lemma DispatchEvolves(c: Core, fd: int, t: seq<string>)
    requires Safety.Inv(c) && fd in c.sessions && t != []
    ensures Evolves(c, Dispatch(c, fd, t))
  {
    hide Safety.Inv, Send, Exchange.Login, Exchange.BuyOrSell, Exchange.CancelCmd, Exchange.Subscription,
         Exchange.CloseSession, Evolves;
    InvIsKeyed(c);
    var cmd, role := t[0], c.sessions[fd].role;
    if TraderCmd(cmd) && role != Trader {
      SendEvolves(c, fd, Error("market-data clients cannot send " + cmd));
    } else if MarketDataCmd(cmd) && role != MarketData {
      SendEvolves(c, fd, Error("traders cannot send " + cmd));
    } else if cmd == "LOGIN" {
      LoginEvolves(c, fd, t);
    } else if cmd == "BUY" || cmd == "SELL" {
      BuyOrSellEvolves(c, fd, t);
    } else if cmd == "CANCEL" {
      CancelCmdEvolves(c, fd, t);
    } else if MarketDataCmd(cmd) {
      SubscriptionEvolves(c, fd, t);
    } else if cmd == "QUIT" {
      CloseEvolves(c, fd);
    } else {
      SendEvolves(c, fd, Error("unknown command"));
    }
  }

  lemma ObeyEvolves(c: Core, fd: int, t: seq<string>)
    requires Safety.Inv(c) && fd in c.sessions
    ensures Evolves(c, Obey(c, fd, t))
  {
    hide Safety.Inv, Send, Dispatch, Evolves;
    InvIsKeyed(c);
    if t == [] {
      SendEvolves(c, fd, Error("empty"));
    } else {
      var s := c.sessions[fd];
      assert c.hist + [] == c.hist;
      ReplaceEvolves(c, fd, s.(role := AssignRole(s.role, t[0])), []);
      SetRoleKeepsInv(c, fd, t[0]);
      InvIsKeyed(SetRole(c, fd, t[0]));
      DispatchEvolves(SetRole(c, fd, t[0]), fd, t);
      EvolvesTrans(c, SetRole(c, fd, t[0]), Dispatch(SetRole(c, fd, t[0]), fd, t));
    }
  }

  lemma NoteEvolves(c: Core, fd: int, line: string)
    requires Keyed(c) && fd in c.sessions
    ensures Evolves(c, Note(c, fd, line)) && Keyed(Note(c, fd, line))
  {
    EvolvesByEach(c, Note(c, fd, line));
  }

  lemma HandleLineEvolves(c: Core, fd: int, line: string)
    requires Safety.Inv(c)
    ensures Evolves(c, Exchange.HandleLine(c, fd, line))
  {
    hide Safety.Inv, Obey, Evolves;
    InvIsKeyed(c);
    EvolvesRefl(c);
    if fd in c.sessions {
      NoteKeepsInv(c, fd, line);
      NoteEvolves(c, fd, line);
      ObeyEvolves(Note(c, fd, line), fd, Tokens(line));
      EvolvesTrans(c, Note(c, fd, line), Exchange.HandleLine(c, fd, line));
    }
  }

  lemma {:induction false} HandleAllEvolves(c: Core, fd: int, lines: seq<string>)
    requires Safety.Inv(c)
    ensures Evolves(c, HandleAll(c, fd, lines))
    decreases |lines|
  {
    hide Safety.Inv, Exchange.HandleLine, Evolves, IsQuit;
    InvIsKeyed(c);
    if lines == [] {
      EvolvesRefl(c);
    } else {
      var next := Exchange.HandleLine(c, fd, lines[0]);
      HandleLineEvolves(c, fd, lines[0]);
      HandleLineKeepsInv(c, fd, lines[0]);
      if !IsQuit(lines[0]) {
        InvIsKeyed(next);
        HandleAllEvolves(next, fd, lines[1..]);
        EvolvesTrans(c, next, HandleAll(next, fd, lines[1..]));
      }
    }
  }

  lemma {:induction false} ReadableEvolves(m: Machine, fd: int, recvs: seq<Received>)
    requires Safe(m)
    ensures Evolves(m.core, Readable(m, fd, recvs).core)
    decreases |recvs|
  {
    hide Safety.Inv, HandleAll, Evolves, Exchange.CloseSession, Lines;
    InvIsKeyed(m.core);
    EvolvesRefl(m.core);
    CloseEvolves(m.core, fd);
    if fd !in m.core.sessions || recvs == [] {
    } else {
      match recvs[0] {
        case Got(bytes) =>
          if bytes != "" {
            var m' := Arrive(m, fd, bytes).0;
            HandleAllEvolves(m.core, fd, Lines(Inbuf(m, fd) + bytes));
            ArriveKeepsSafe(m, fd, bytes);
            InvIsKeyed(m'.core);
            ReadableEvolves(m', fd, recvs[1..]);
            EvolvesTrans(m.core, m'.core, Readable(m', fd, recvs[1..]).core);
          }
        case TryAgain => ReadableEvolves(m, fd, recvs[1..]);
        case Exhausted =>
        case Broken =>
      }
    }
  }

  lemma WritableEvolves(m: Machine, fd: int)
    requires Safe(m)
    ensures Evolves(m.core, Writable(m, fd).core)
  {
    hide Safety.Inv, Channels.Drain;
    var c := m.core;
    InvIsKeyed(c);
    if fd in c.sessions {
      var s := c.sessions[fd];
      LoadedSession(c, fd);
      DrainKeeps(s.chan);
      var s' := s.(chan := Channels.Drain(s.chan).1);
      assert Continues(s, s');
      assert c.hist + [] == c.hist;
      ReplaceEvolves(c, fd, s', []);
      var c' := c.(sessions := c.sessions[fd := s']);
      CloseEvolves(c', fd);
      EvolvesTrans(c, c', Exchange.CloseSession(c', fd));
    } else {
      EvolvesRefl(c);
    }
  }

  lemma LoadedSession(c: Core, fd: int)
    requires Safety.Inv(c) && fd in c.sessions
    ensures Loaded(c.sessions[fd].chan)
  {
    assert Good(c.sessions[fd], true, c.hist, OrdersOf(c));
  }

  lemma AcceptEvolves(m: Machine, fd: int, script: seq<Answer>)
    requires Keyed(m.core)
    ensures Evolves(m.core, Accept(m, fd, script).core)
  {
  }

  lemma StepEvolves(m: Machine, step: Step)
    requires Safe(m)
    ensures Evolves(m.core, Exchange.Apply(m, step).core)
  {
    hide Safety.Inv, Evolves, Accept, Readable, Writable, Exchange.CloseSession;
    InvIsKeyed(m.core);
    EvolvesRefl(m.core);
    match step {
      case AcceptStep(fd, script) => AcceptEvolves(m, fd, script);
      case ReadStep(fd, recvs) => ReadableEvolves(m, fd, recvs);
      case WriteStep(fd) => WritableEvolves(m, fd);
      case HangupStep(fd) => CloseEvolves(m.core, fd);
    }
  }

  /** From any point of a run to any later one. */
  lemma {:induction false} RunEvolves(steps: seq<Step>, more: seq<Step>)
    ensures Evolves(Exchange.Run(steps).core, Exchange.Run(steps + more).core)
    decreases |more|
  {
    hide Evolves, Exchange.Apply, Safety.Inv;
    RunIsSafe(steps);
    InvIsKeyed(Exchange.Run(steps).core);
    if more == [] {
      assert steps + more == steps;
      EvolvesRefl(Exchange.Run(steps).core);
    } else {
      var front, last := more[..|more| - 1], more[|more| - 1];
      RunEvolves(steps, front);
      RunIsSafe(steps + front);
      InvIsKeyed(Exchange.Run(steps + front).core);
      StepEvolves(Exchange.Run(steps + front), last);
      assert (steps + more)[..|steps + more| - 1] == steps + front;
      assert (steps + more)[|steps + more| - 1] == last;
      EvolvesTrans(Exchange.Run(steps).core, Exchange.Run(steps + front).core, Exchange.Run(steps + more).core);
    }
  }
}
