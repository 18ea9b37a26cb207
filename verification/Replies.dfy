/** Every line is answered: one reply for each line but QUIT, to its sender, over whole runs. */
module Replies {
  import opened Matching
  import opened Protocol
  import opened Framing
  import opened Markets
  import opened Channels
  import opened Exchange
  import opened Sessions
  import opened Safety
  import opened Consequences
  import opened Answers
  import opened Inputs
  import opened Evolution
  import Books

  /** The messages that answer a line; the others tell of executions. */
  predicate IsReply(m: Msg) {
    m.Ok? || m.Error? || m.Accepted? || m.Withdrawal?
  }

  function RepliesIn(log: seq<Msg>): nat {
    if log == [] then 0
    else RepliesIn(log[..|log| - 1]) + if IsReply(log[|log| - 1]) then 1 else 0
  }

  lemma RepliesSnoc(log: seq<Msg>, m: Msg)
    ensures RepliesIn(log + [m]) == RepliesIn(log) + if IsReply(m) then 1 else 0
  {
    assert (log + [m])[..|log + [m]| - 1] == log;
  }

  /** The number of replies that lines acted on call for: QUIT is the one without, and the last. */
  function RepliesDue(lines: seq<string>): nat {
    if lines != [] && IsQuit(lines[|lines| - 1]) then |lines| - 1 else |lines|
  }

  // ----------------------------------------------------------------- one command

  /** The sessions are those there were, and the one under `fd` has got `n` replies more, all others none. */
  predicate Gains(c: Core, c': Core, fd: int, n: nat) {
    && c'.sessions.Keys == c.sessions.Keys && c'.closed == c.closed
    && forall x :: x in c.sessions ==>
         RepliesIn(c'.sessions[x].log) == RepliesIn(c.sessions[x].log) + if x == fd then n else 0
  }

  lemma AnsweredOnce(c: Core, c': Core, fd: int, m: Msg)
    requires Answered(c, c', fd, m) && IsReply(m)
    ensures Gains(c, c', fd, 1)
  {
    RepliesSnoc(c.sessions[fd].log, m);
  }

  lemma RefusedOnce(c: Core, c': Core, fd: int, reason: string)
    requires Refused(c, c', fd, reason)
    ensures Gains(c, c', fd, 1)
  {
    AnsweredOnce(c, c', fd, Error(reason));
  }

  lemma AfterIsNoReply(s: Session, e: Exec)
    ensures RepliesIn(After(s, e).log) == RepliesIn(s.log)
  {
    hide Channels.Enqueue, RepliesIn;
    RepliesSnoc(s.log, Bought(e));
    var a := Told(s, e.fill.buyerFd, e.fill.buyerSeq, Bought(e));
    RepliesSnoc(a.log, Sold(e));
    var b := Told(a, e.fill.sellFd, e.fill.sellSeq, Sold(e));
    RepliesSnoc(b.log, Trade(e));
  }

  lemma DeliveryIsNoReply(c: Core, e: Exec, fd: int)
    requires forall x :: x in c.sessions ==> c.sessions[x].fd == x
    ensures Gains(c, Deliver(c, e), fd, 0)
    ensures forall x :: x in Deliver(c, e).sessions ==> Deliver(c, e).sessions[x].fd == x
  {
    hide After, Deliver, RepliesIn;
    DeliverEach(c, e);
    forall x | x in c.sessions
      ensures RepliesIn(After(c.sessions[x], e).log) == RepliesIn(c.sessions[x].log)
      ensures After(c.sessions[x], e).fd == x
    {
      AfterIsNoReply(c.sessions[x], e);
      AfterSameSession(c.sessions[x], e);
    }
  }

  lemma {:induction false} DeliveriesAreNoReply(c: Core, execs: seq<Exec>, fd: int)
    requires forall x :: x in c.sessions ==> c.sessions[x].fd == x
    ensures Gains(c, DeliverAll(c, execs), fd, 0)
    ensures forall x :: x in DeliverAll(c, execs).sessions ==> DeliverAll(c, execs).sessions[x].fd == x
  {
    hide Deliver, RepliesIn;
    if execs == [] {
    } else {
      DeliveriesAreNoReply(c, execs[..|execs| - 1], fd);
      DeliveryIsNoReply(DeliverAll(c, execs[..|execs| - 1]), execs[|execs| - 1], fd);
    }
  }

  lemma PlaceOrderReplies(c: Core, fd: int, side: Side, instrument: string, qty: int, price: int)
    requires Keyed(c) && fd in c.sessions
    ensures Gains(c, PlaceOrder(c, fd, side, instrument, qty, price), fd, 1)
  {
    hide Channels.Enqueue, DeliverAll, Place, Books.Submit, RepliesIn;
    var o := Order(c.market.nextId, side, instrument, qty, price, fd, c.sessions[fd].serial);
    var told := Send(c, fd, Accepted(o.id));
    var placed := told.(market := Place(c.market, o), hist := told.hist + [InMarket(Submitted(o))]);
    RepliesSnoc(c.sessions[fd].log, Accepted(o.id));
    DeliveriesAreNoReply(placed, Books.Submit(c.market.book, o).execs, fd);
  }

  lemma SendReplies(c: Core, fd: int, m: Msg)
    requires fd in c.sessions && IsReply(m)
    ensures Gains(c, Send(c, fd, m), fd, 1)
  {
    hide Send, Gains;
    SendAnswers(c, fd, m);
    AnsweredOnce(c, Send(c, fd, m), fd, m);
  }

  lemma BuyOrSellReplies(c: Core, fd: int, t: seq<string>)
    requires Keyed(c) && fd in c.sessions && t != []
    ensures Gains(c, Exchange.BuyOrSell(c, fd, t), fd, 1)
  {
    hide Keyed, Send, Exchange.PlaceOrder, Parse, Gains;
    if |t| != 4 {
      SendReplies(c, fd, Error("usage: " + t[0] + " <instrument> <quantity> <price>"));
    } else if t[1] !in INSTRUMENTS {
      SendReplies(c, fd, Error("unknown instrument " + t[1]));
    } else if Parse(t[2], 1).None? {
      SendReplies(c, fd, Error("quantity must be an integer in 1..2147483647"));
    } else if Parse(t[3], 1).None? {
      SendReplies(c, fd, Error("price must be an integer in 1..2147483647"));
    } else {
      PlaceOrderReplies(c, fd, if t[0] == "BUY" then Buy else Sell, t[1], Parse(t[2], 1).value, Parse(t[3], 1).value);
    }
  }

  lemma CancelReplies(c: Core, fd: int, t: seq<string>)
    requires fd in c.sessions && t != []
    ensures Gains(c, Exchange.CancelCmd(c, fd, t), fd, 1)
  {
    hide Send, CancelOrder, Parse, Gains, Refused, Answered, Books.Owned, Withdraw;
    if |t| != 2 {
      SendReplies(c, fd, Error("usage: CANCEL <order_id>"));
    } else if Parse(t[1], 0).None? {
      SendReplies(c, fd, Error("order id must be an integer in 0..2147483647"));
    } else {
      var id := Parse(t[1], 0).value;
      CancelOrderAnswer(c, fd, id, t[1]);
      if Books.Owned(c.market.book, id, fd, c.sessions[fd].serial) {
        AnsweredOnce(c, CancelOrder(c, fd, id, t[1]), fd, Withdrawal(id));
      } else {
        RefusedOnce(c, CancelOrder(c, fd, id, t[1]), fd, "cannot cancel order " + t[1]);
      }
    }
  }

  /** Changing fields of a session that are not its log, before it is answered. */
  lemma ReplaceThenSendReplies(c: Core, c': Core, fd: int, m: Msg)
    requires fd in c.sessions && IsReply(m) && fd in c'.sessions
    requires c'.sessions == c.sessions[fd := c'.sessions[fd]] && c'.sessions[fd].log == c.sessions[fd].log
    requires c'.closed == c.closed
    ensures Gains(c, Send(c', fd, m), fd, 1)
  {
    hide Send, RepliesIn;
    SendReplies(c', fd, m);
  }

  lemma LoginReplies(c: Core, fd: int, t: seq<string>)
    requires fd in c.sessions && t != []
    ensures Gains(c, Exchange.Login(c, fd, t), fd, 1)
  {
    hide Send, Gains;
    if |t| != 2 {
      SendReplies(c, fd, Error("usage: LOGIN <username>"));
    } else if c.sessions[fd].username != "" {
      SendReplies(c, fd, Error("already logged in"));
    } else if NameTaken(c, fd, t[1]) {
      SendReplies(c, fd, Error("username already in use"));
    } else {
      ReplaceThenSendReplies(c, c.(sessions := c.sessions[fd := c.sessions[fd].(username := t[1])]), fd, Ok);
    }
  }

  lemma SubscriptionReplies(c: Core, fd: int, t: seq<string>)
    requires fd in c.sessions && t != []
    ensures Gains(c, Exchange.Subscription(c, fd, t), fd, 1)
  {
    hide Send, Gains;
    var s := c.sessions[fd];
    if |t| != 2 {
      SendReplies(c, fd, Error("usage: " + t[0] + " <instrument>"));
    } else if t[1] !in INSTRUMENTS {
      SendReplies(c, fd, Error("unknown instrument " + t[1]));
    } else if t[0] == "SUBSCRIBE" {
      ReplaceThenSendReplies(c, c.(sessions := c.sessions[fd := s.(subs := s.subs + {t[1]})],
                                   hist := c.hist + [Subscribed(s.serial, t[1])]), fd, Ok);
    } else {
      ReplaceThenSendReplies(c, c.(sessions := c.sessions[fd := s.(subs := s.subs - {t[1]})],
                                   hist := c.hist + [Unsubscribed(s.serial, t[1])]), fd, Ok);
    }
  }

  lemma DispatchReplies(c: Core, fd: int, t: seq<string>)
    requires Keyed(c) && fd in c.sessions && t != [] && t[0] != "QUIT"
    ensures Gains(c, Dispatch(c, fd, t), fd, 1)
  {
    hide Keyed, Send, Gains, Exchange.Login, Exchange.BuyOrSell, Exchange.CancelCmd, Exchange.Subscription;
    var cmd, role := t[0], c.sessions[fd].role;
    if TraderCmd(cmd) && role != Trader {
      SendReplies(c, fd, Error("market-data clients cannot send " + cmd));
    } else if MarketDataCmd(cmd) && role != MarketData {
      SendReplies(c, fd, Error("traders cannot send " + cmd));
    } else if cmd == "LOGIN" {
      LoginReplies(c, fd, t);
    } else if cmd == "BUY" || cmd == "SELL" {
      BuyOrSellReplies(c, fd, t);
    } else if cmd == "CANCEL" {
      CancelReplies(c, fd, t);
    } else if MarketDataCmd(cmd) {
      SubscriptionReplies(c, fd, t);
    } else {
      SendReplies(c, fd, Error("unknown command"));
    }
  }

  /** A line other than QUIT gets one reply, and nobody else gets any. */
  lemma LineIsAnswered(c: Core, fd: int, line: string)
    requires Safety.Inv(c) && fd in c.sessions && !IsQuit(line)
    ensures Gains(c, Exchange.HandleLine(c, fd, line), fd, 1)
  {
    hide Safety.Inv, Tokens, Dispatch, Send, RepliesIn;
    var t := Tokens(line);
    if t == [] {
      SendReplies(Note(c, fd, line), fd, Error("empty"));
    } else {
      SettledKeepsInv(c, fd, line);
      InvIsKeyed(Settled(c, fd, line));
      DispatchReplies(Settled(c, fd, line), fd, t);
    }
  }

  // ------------------------------------------------------------------- all of them

  /** Connected sessions have been answered every line, ended ones every line but QUIT. */
  ghost predicate Replied(c: Core) {
    && (forall fd :: fd in c.sessions ==> AnsweredAll(c.sessions[fd], c.hist))
    && (forall q :: q in c.closed ==> RepliesIn(c.closed[q].log) == RepliesDue(HandledBy(c.hist, q)))
  }

  predicate AnsweredAll(s: Session, hist: seq<Happening>) {
    RepliesIn(s.log) == |HandledBy(hist, s.serial)| && !Quits(HandledBy(hist, s.serial))
  }

  lemma NoQuitAllDue(lines: seq<string>)
    requires !Quits(lines)
    ensures RepliesDue(lines) == |lines|
  {
  }

  lemma OneMore(lines: seq<string>, line: string)
    ensures Quits(lines + [line]) <==> Quits(lines) || IsQuit(line)
    ensures IsQuit(line) ==> RepliesDue(lines + [line]) == |lines|
  {
    hide IsQuit;
    var all := lines + [line];
    if i :| 0 <= i < |lines| && IsQuit(lines[i]) {
      assert all[i] == lines[i];
    }
    assert all[|lines|] == line;
  }

  /** What the noting of a line means for one session's lines. */
  lemma NotedFor(c: Core, fd: int, line: string, q: nat)
    requires fd in c.sessions
    ensures var before, after := HandledBy(c.hist, q), HandledBy(Exchange.HandleLine(c, fd, line).hist, q);
            after == if q == c.sessions[fd].serial then before + [line] else before
  {
    hide Exchange.HandleLine, HandledBy;
    LineIsNoted(c, fd, line);
    assert HandledBy(c.hist, q) + [] == HandledBy(c.hist, q);
  }

  lemma SameSerials(c: Core, fd: int, line: string)
    requires fd in c.sessions
    ensures SameSessions(c, Exchange.HandleLine(c, fd, line))
  {
    hide Exchange.HandleLine, HandledBy;
    LineIsNoted(c, fd, line);
  }

  lemma LineKeepsReplied(c: Core, fd: int, line: string)
    requires Safety.Inv(c) && Replied(c) && fd in c.sessions && !IsQuit(line)
    ensures Replied(Exchange.HandleLine(c, fd, line))
  {
    hide Safety.Inv, Keyed, Exchange.HandleLine, IsQuit, RepliesIn, HandledBy, Quits, RepliesDue;
    var c' := Exchange.HandleLine(c, fd, line);
    SameSerials(c, fd, line);
    LineIsAnswered(c, fd, line);
    InvIsKeyed(c);
    SerialsDiffer(c, fd);
    forall x | x in c'.sessions
      ensures AnsweredAll(c'.sessions[x], c'.hist)
    {
      assert AnsweredAll(c.sessions[x], c.hist);
      NotedFor(c, fd, line, c.sessions[x].serial);
      OneMore(HandledBy(c.hist, c.sessions[x].serial), line);
    }
    forall q | q in c'.closed
      ensures HandledBy(c'.hist, q) == HandledBy(c.hist, q)
    {
      NotedFor(c, fd, line, q);
    }
  }

  lemma CloseKeepsReplied(c: Core, fd: int)
    requires Replied(c)
    ensures Replied(Exchange.CloseSession(c, fd))
  {
    hide RepliesIn, HandledBy, Quits, RepliesDue;
    CloseKeepsLines(c, fd);
    if fd in c.sessions {
      assert AnsweredAll(c.sessions[fd], c.hist);
      NoQuitAllDue(HandledBy(c.hist, c.sessions[fd].serial));
    }
  }

  /** QUIT ends the session as it is, with no reply. */
  lemma QuitCloses(c: Core, fd: int, line: string)
    requires fd in c.sessions && IsQuit(line)
    ensures var s, c' := c.sessions[fd], Exchange.HandleLine(c, fd, line);
            && c'.sessions == c.sessions - {fd} && s.serial in c'.closed
            && c'.closed == c.closed[s.serial := c'.closed[s.serial]] && c'.closed[s.serial].log == s.log
  {
    hide Tokens;
    assert Tokens(line)[0] == "QUIT";
  }

  lemma QuitKeepsReplied(c: Core, fd: int, line: string)
    requires Safety.Inv(c) && Replied(c) && fd in c.sessions && IsQuit(line)
    ensures Replied(Exchange.HandleLine(c, fd, line))
  {
    hide Safety.Inv, Keyed, Exchange.HandleLine, IsQuit, RepliesIn, HandledBy, Quits, RepliesDue;
    var s, c' := c.sessions[fd], Exchange.HandleLine(c, fd, line);
    InvIsKeyed(c);
    SerialsDiffer(c, fd);
    QuitCloses(c, fd, line);
    forall x | x in c'.sessions
      ensures AnsweredAll(c'.sessions[x], c'.hist)
    {
      assert AnsweredAll(c.sessions[x], c.hist);
      NotedFor(c, fd, line, c.sessions[x].serial);
    }
    forall q | q in c'.closed
      ensures RepliesIn(c'.closed[q].log) == RepliesDue(HandledBy(c'.hist, q))
    {
      NotedFor(c, fd, line, q);
      if q == s.serial {
        assert AnsweredAll(s, c.hist);
        OneMore(HandledBy(c.hist, q), line);
      }
    }
  }

  lemma {:induction false} LinesKeepReplied(c: Core, fd: int, lines: seq<string>)
    requires Safety.Inv(c) && Replied(c) && fd in c.sessions
    ensures Replied(HandleAll(c, fd, lines))
    decreases |lines|
  {
    hide Safety.Inv, Exchange.HandleLine, IsQuit, Replied;
    if lines == [] {
    } else if IsQuit(lines[0]) {
      QuitKeepsReplied(c, fd, lines[0]);
    } else {
      LineKeepsReplied(c, fd, lines[0]);
      HandleLineKeepsInv(c, fd, lines[0]);
      HandleLineKeepsKeys(c, fd, lines[0]);
      LinesKeepReplied(Exchange.HandleLine(c, fd, lines[0]), fd, lines[1..]);
    }
  }

  lemma ArriveKeepsReplied(m: Machine, fd: int, bytes: string)
    requires Safe(m) && Replied(m.core) && fd in m.core.sessions
    ensures Replied(Arrive(m, fd, bytes).0.core)
  {
    hide Safety.Inv, HandleAll, Lines, Quits, Rest, Replied;
    LinesKeepReplied(m.core, fd, Lines(Inbuf(m, fd) + bytes));
  }

  lemma HangupKeepsReplied(m: Machine, fd: int)
    requires Replied(m.core)
    ensures Replied(Hangup(m, fd).core)
  {
    hide Replied, Exchange.CloseSession;
    CloseKeepsReplied(m.core, fd);
  }

  lemma {:induction false} ReadableKeepsReplied(m: Machine, fd: int, recvs: seq<Received>)
    requires Safe(m) && Replied(m.core)
    ensures Replied(Readable(m, fd, recvs).core)
    decreases |recvs|
  {
    hide Safe, Arrive, Hangup, Replied;
    if fd !in m.core.sessions || recvs == [] {
    } else {
      HangupKeepsReplied(m, fd);
      match recvs[0] {
        case Got(bytes) =>
          if bytes != "" {
            ArriveKeepsReplied(m, fd, bytes);
            ArriveKeepsSafe(m, fd, bytes);
            ReadableKeepsReplied(Arrive(m, fd, bytes).0, fd, recvs[1..]);
          }
        case TryAgain => ReadableKeepsReplied(m, fd, recvs[1..]);
        case Exhausted =>
        case Broken =>
      }
    }
  }

  lemma WritableKeepsReplied(m: Machine, fd: int)
    requires Replied(m.core)
    ensures Replied(Writable(m, fd).core)
  {
    hide Channels.Drain, Exchange.CloseSession, RepliesIn, HandledBy, Quits;
    if fd in m.core.sessions {
      var s := m.core.sessions[fd];
      var c := m.core.(sessions := m.core.sessions[fd := s.(chan := Channels.Drain(s.chan).1)]);
      assert AnsweredAll(s, m.core.hist);
      assert Replied(c);
      CloseKeepsReplied(c, fd);
    }
  }

  lemma AcceptKeepsReplied(m: Machine, fd: int, script: seq<Answer>)
    requires Replied(m.core) && HandledBy(m.core.hist, m.core.nextSerial) == []
    ensures Replied(Accept(m, fd, script).core)
  {
    hide HandledBy, RepliesDue;
    var c, h := m.core, Opened(m.core.nextSerial);
    forall q
      ensures HandledBy(c.hist + [h], q) == HandledBy(c.hist, q)
    {
      HandledSnoc(c.hist, h, q);
      assert HandledBy(c.hist, q) + [] == HandledBy(c.hist, q);
    }
  }

  lemma NobodyYet(steps: seq<Step>)
    ensures HandledBy(Exchange.Run(steps).core.hist, Exchange.Run(steps).core.nextSerial) == []
  {
    hide Exchange.Run, HandledBy;
    RunTracks(steps, Exchange.Run(steps).core.nextSerial);
  }

  /** Whatever clients, network and kernel do, every line is answered once. */
  lemma {:induction false} RunReplies(steps: seq<Step>)
    ensures Replied(Exchange.Run(steps).core)
    decreases |steps|
  {
    hide Safe, Accept, Readable, Writable, Hangup;
    if steps == [] {
    } else {
      hide Replied;
      var front := steps[..|steps| - 1];
      var m := Exchange.Run(front);
      RunReplies(front);
      RunIsSafe(front);
      NobodyYet(front);
      match steps[|steps| - 1] {
        case AcceptStep(fd, script) => AcceptKeepsReplied(m, fd, script);
        case ReadStep(fd, recvs) => ReadableKeepsReplied(m, fd, recvs);
        case WriteStep(fd) => WritableKeepsReplied(m, fd);
        case HangupStep(fd) => HangupKeepsReplied(m, fd);
      }
    }
  }
}
