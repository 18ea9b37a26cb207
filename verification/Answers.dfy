/** What a command does to the session that sends it: when it is accepted, and with what effect. */
module Answers {
  import opened Matching
  import opened Protocol
  import opened Markets
  import opened Exchange
  import opened Sessions
  import opened Safety
  import opened Consequences
  import opened Evolution
  import Books

  lemma SettledKeepsInv(c: Core, fd: int, line: string)
    requires Safety.Inv(c) && fd in c.sessions && Tokens(line) != []
    ensures Safety.Inv(Settled(c, fd, line))
  {
    hide Safety.Inv, Tokens;
    NoteKeepsInv(c, fd, line);
    SetRoleKeepsInv(Note(c, fd, line), fd, Tokens(line)[0]);
  }

  // ----------------------------------------------------------------------- LOGIN

  /**
    LOGIN succeeds exactly for a session that is no market-data client, has no name yet, and asks for one that no
    other connected session has; then that is its name.
  */
  lemma LoginAnswer(c: Core, fd: int, line: string)
    requires fd in c.sessions && |Tokens(line)| == 2 && Tokens(line)[0] == "LOGIN"
    ensures var s, c', name := c.sessions[fd], Exchange.HandleLine(c, fd, line), Tokens(line)[1];
            if s.role != MarketData && s.username == ""
              && (forall other :: other in c.sessions && other != fd ==> c.sessions[other].username != name) then
              && Answered(c, c', fd, Ok) && c'.market == c.market
              && c'.sessions[fd].username == name && c'.sessions[fd].role == Trader && c'.sessions[fd].subs == s.subs
            else
              Refused(c, c', fd,
                      if s.role == MarketData then "market-data clients cannot send LOGIN"
                      else if s.username != "" then "already logged in" else "username already in use")
  {
    hide Send, Refused, Tokens, NameTaken;
    var name := Tokens(line)[1];
    var r, c' := Settled(c, fd, line), Exchange.HandleLine(c, fd, line);
    var s := r.sessions[fd];
    WhoHasTheName(c, fd, line, name);
    if s.role != Trader {
      assert "market-data clients cannot send " + "LOGIN" == "market-data clients cannot send LOGIN";
      RefusalIsError(r, fd, "market-data clients cannot send LOGIN");
      RefusedAfterRole(c, c', fd, line, "market-data clients cannot send LOGIN");
    } else if s.username != "" {
      RefusalIsError(r, fd, "already logged in");
      RefusedAfterRole(c, c', fd, line, "already logged in");
    } else if NameTaken(r, fd, name) {
      RefusalIsError(r, fd, "username already in use");
      RefusedAfterRole(c, c', fd, line, "username already in use");
    } else {
      SendAnswers(r.(sessions := r.sessions[fd := s.(username := name)]), fd, Ok);
    }
  }

  lemma WhoHasTheName(c: Core, fd: int, line: string, name: string)
    requires fd in c.sessions && Tokens(line) != []
    ensures !NameTaken(Settled(c, fd, line), fd, name) <==>
              forall other :: other in c.sessions && other != fd ==> c.sessions[other].username != name
  {
    var r := Settled(c, fd, line);
    assert forall other :: other in c.sessions ==> r.sessions[other].username == c.sessions[other].username;
    if other :| other in c.sessions && other != fd && c.sessions[other].username == name {
      assert r.sessions[other].username == name;
    }
  }

  // ---------------------------------------------------------------- subscriptions

  /** SUBSCRIBE and UNSUBSCRIBE succeed for market-data clients and listed instruments, however often they are sent. */
  lemma SubscriptionAnswer(c: Core, fd: int, line: string)
    requires fd in c.sessions && |Tokens(line)| == 2
    requires Tokens(line)[0] == "SUBSCRIBE" || Tokens(line)[0] == "UNSUBSCRIBE"
    ensures var s, c', instrument := c.sessions[fd], Exchange.HandleLine(c, fd, line), Tokens(line)[1];
            if s.role != Trader && (instrument == "JNST" || instrument == "IMCT") then
              && Answered(c, c', fd, Ok) && c'.market == c.market
              && c'.sessions[fd].role == MarketData && c'.sessions[fd].username == s.username
              && c'.sessions[fd].subs ==
                   (if Tokens(line)[0] == "SUBSCRIBE" then s.subs + {instrument} else s.subs - {instrument})
            else
              Refused(c, c', fd,
                      if s.role == Trader then "traders cannot send " + Tokens(line)[0]
                      else "unknown instrument " + instrument)
  {
    hide Send, Refused, Answered, Tokens, Exchange.Subscription;
    var cmd, instrument := Tokens(line)[0], Tokens(line)[1];
    var r, c' := Settled(c, fd, line), Exchange.HandleLine(c, fd, line);
    var s := r.sessions[fd];
    if s.role != MarketData {
      RefusalIsError(r, fd, "traders cannot send " + cmd);
      RefusedAfterRole(c, c', fd, line, "traders cannot send " + cmd);
    } else if instrument !in INSTRUMENTS {
      SubscriptionFails(r, fd, Tokens(line));
      RefusedAfterRole(c, c', fd, line, "unknown instrument " + instrument);
    } else {
      SubscriptionSucceeds(r, fd, Tokens(line));
      AnsweredAfterRole(c, c', fd, line, Ok);
    }
  }

  lemma SubscriptionFails(c: Core, fd: int, t: seq<string>)
    requires fd in c.sessions && |t| == 2 && t[1] !in INSTRUMENTS
    ensures Refused(c, Exchange.Subscription(c, fd, t), fd, "unknown instrument " + t[1])
  {
    hide Send, Refused;
    RefusalIsError(c, fd, "unknown instrument " + t[1]);
  }

  lemma SubscriptionSucceeds(c: Core, fd: int, t: seq<string>)
    requires fd in c.sessions && |t| == 2 && t[1] in INSTRUMENTS
    ensures var s, c' := c.sessions[fd], Exchange.Subscription(c, fd, t);
            && Answered(c, c', fd, Ok) && c'.market == c.market
            && c'.sessions[fd].role == s.role && c'.sessions[fd].username == s.username
            && c'.sessions[fd].subs == if t[0] == "SUBSCRIBE" then s.subs + {t[1]} else s.subs - {t[1]}
  {
    hide Send;
    var s := c.sessions[fd];
    if t[0] == "SUBSCRIBE" {
      SendAnswers(c.(sessions := c.sessions[fd := s.(subs := s.subs + {t[1]})],
                     hist := c.hist + [Subscribed(s.serial, t[1])]), fd, Ok);
    } else {
      SendAnswers(c.(sessions := c.sessions[fd := s.(subs := s.subs - {t[1]})],
                     hist := c.hist + [Unsubscribed(s.serial, t[1])]), fd, Ok);
    }
  }

  lemma AnsweredAfterRole(c: Core, c': Core, fd: int, line: string, m: Msg)
    requires fd in c.sessions && Tokens(line) != [] && Answered(Settled(c, fd, line), c', fd, m)
    ensures Answered(c, c', fd, m)
  {
  }

  // ---------------------------------------------------------------------- orders

  /** The order is entered as asked, for this session, under the next id; the first answer acknowledges it. */
  ghost predicate Entered(c: Core, c': Core, fd: int, side: Side, instrument: string, qty: int, price: int) {
    && fd in c.sessions && fd in c'.sessions
    && var s, id := c.sessions[fd], c.market.nextId;
       && c.sessions[fd].log + [Accepted(id)] <= c'.sessions[fd].log
       && c'.market == Place(c.market, Order(id, side, instrument, qty, price, fd, s.serial))
       && OrdersOf(c') == OrdersOf(c)[id := Order(id, side, instrument, qty, price, fd, s.serial)]
  }

  lemma PlaceOrderEnters(c: Core, fd: int, side: Side, instrument: string, qty: int, price: int)
    requires Safety.Inv(c) && fd in c.sessions && c.sessions[fd].role == Trader
    requires instrument in INSTRUMENTS && 1 <= qty <= MAX_VALUE && 1 <= price <= MAX_VALUE
    ensures Entered(c, Exchange.PlaceOrder(c, fd, side, instrument, qty, price), fd, side, instrument, qty, price)
  {
    hide Unheard, Keyed, Named, Homed, AllGood, AllListed, Markets.Inv, Place, DeliverAll, Post, Books.Submit,
         Attributed, Evolves;
    var o := Order(c.market.nextId, side, instrument, qty, price, fd, c.sessions[fd].serial);
    EnterKeepsBase(c, fd, o);
    PlaceKeepsHistory(c.market, o);
    PlaceAttributesAll(c.market, o);
    var execs := Books.Submit(c.market.book, o).execs;
    var placed := Send(c, fd, Accepted(o.id)).(market := Place(c.market, o), hist := c.hist + [InMarket(Submitted(o))]);
    SendAnswers(c, fd, Accepted(o.id));
    DeliverAllEvolves(placed, execs);
    DeliverAllKeepsBase(placed, execs);
    DeliverAllKeepsKeys(placed, execs);
    StillHere(placed, DeliverAll(placed, execs), fd);
  }

  lemma StillHere(c: Core, c': Core, fd: int)
    requires Base(c) && Base(c') && Evolves(c, c') && fd in c.sessions && fd in c'.sessions && c'.closed == c.closed
    ensures c.sessions[fd].log <= c'.sessions[fd].log
  {
    assert LivesOn(c.sessions[fd], c');
  }

  /** An order is accepted exactly when instrument, quantity and price are; otherwise it leaves no trace. */
  predicate Acceptable(instrument: string, qty: string, price: string) {
    (instrument == "JNST" || instrument == "IMCT") && InRange(qty) && InRange(price)
  }

  /** A quantity or a price as the protocol has them: digits only, and a value in 1..2147483647. */
  predicate InRange(w: string) {
    Numeral(w) && 1 <= Value(w) <= 2147483647
  }

  /** What a client reads when its BUY or SELL fails. */
  function WhyNotEntered(role: Role, t: seq<string>): string
    requires |t| == 4
  {
    if role == MarketData then "market-data clients cannot send " + t[0]
    else if t[1] != "JNST" && t[1] != "IMCT" then "unknown instrument " + t[1]
    else if !InRange(t[2]) then "quantity must be an integer in 1..2147483647"
    else "price must be an integer in 1..2147483647"
  }

  lemma BuyOrSellEnters(c: Core, fd: int, t: seq<string>)
    requires Safety.Inv(c) && fd in c.sessions && c.sessions[fd].role == Trader
    requires |t| == 4 && (t[0] == "BUY" || t[0] == "SELL")
    ensures var c' := Exchange.BuyOrSell(c, fd, t);
            if Acceptable(t[1], t[2], t[3]) then
              Entered(c, c', fd, if t[0] == "BUY" then Buy else Sell, t[1], Value(t[2]), Value(t[3]))
            else Refused(c, c', fd, WhyNotEntered(Trader, t))
  {
    hide Safety.Inv, Parse, Value, Send, Exchange.PlaceOrder, Entered, Refused;
    ParseRange(t[2], 1);
    ParseRange(t[3], 1);
    if t[1] !in INSTRUMENTS {
      RefusalIsError(c, fd, "unknown instrument " + t[1]);
    } else if Parse(t[2], 1).None? {
      RefusalIsError(c, fd, "quantity must be an integer in 1..2147483647");
    } else if Parse(t[3], 1).None? {
      RefusalIsError(c, fd, "price must be an integer in 1..2147483647");
    } else {
      ParsedIsInRange(t[2]);
      ParsedIsInRange(t[3]);
      var side := if t[0] == "BUY" then Buy else Sell;
      PlaceOrderEnters(c, fd, side, t[1], Parse(t[2], 1).value, Parse(t[3], 1).value);
    }
  }

  lemma EnteredAfterRole(c: Core, c': Core, fd: int, line: string, side: Side, instrument: string, qty: int, price: int)
    requires fd in c.sessions && Tokens(line) != []
    requires Entered(Settled(c, fd, line), c', fd, side, instrument, qty, price)
    ensures Entered(c, c', fd, side, instrument, qty, price)
  {
    var r := Settled(c, fd, line);
    assert r.sessions[fd].log == c.sessions[fd].log && r.sessions[fd].serial == c.sessions[fd].serial;
  }

  /** BUY and SELL, from a session that is no market-data client: no name is needed. */
  lemma OrderAnswer(c: Core, fd: int, line: string)
    requires Safety.Inv(c) && fd in c.sessions
    requires |Tokens(line)| == 4 && (Tokens(line)[0] == "BUY" || Tokens(line)[0] == "SELL")
    ensures var c', t := Exchange.HandleLine(c, fd, line), Tokens(line);
            if c.sessions[fd].role != MarketData && Acceptable(t[1], t[2], t[3]) then
              Entered(c, c', fd, if t[0] == "BUY" then Buy else Sell, t[1], Value(t[2]), Value(t[3]))
            else Refused(c, c', fd, WhyNotEntered(c.sessions[fd].role, t))
  {
    hide Safety.Inv, Value, Send, Exchange.BuyOrSell, Entered, Refused, Tokens;
    var t := Tokens(line);
    var r := Settled(c, fd, line);
    var c' := Dispatch(r, fd, t);
    SettledKeepsInv(c, fd, line);
    if r.sessions[fd].role == Trader {
      BuyOrSellEnters(r, fd, t);
      if Acceptable(t[1], t[2], t[3]) {
        EnteredAfterRole(c, c', fd, line, if t[0] == "BUY" then Buy else Sell, t[1], Value(t[2]), Value(t[3]));
      } else {
        RefusedAfterRole(c, c', fd, line, WhyNotEntered(Trader, t));
      }
    } else {
      RefusalIsError(r, fd, "market-data clients cannot send " + t[0]);
      RefusedAfterRole(c, c', fd, line, "market-data clients cannot send " + t[0]);
    }
  }

  // ------------------------------------------------------------- any other line

  predicate TradersCommand(cmd: string) {
    cmd == "LOGIN" || cmd == "BUY" || cmd == "SELL" || cmd == "CANCEL"
  }

  predicate SubscribersCommand(cmd: string) {
    cmd == "SUBSCRIBE" || cmd == "UNSUBSCRIBE"
  }

  /** The commands of the protocol are those, and no word is of both kinds. */
  lemma TheCommands(cmd: string)
    ensures TraderCmd(cmd) <==> TradersCommand(cmd)
    ensures MarketDataCmd(cmd) <==> SubscribersCommand(cmd)
  {
  }

  /** How many words a command takes, itself included. */
  function Arity(cmd: string): nat {
    if cmd == "BUY" || cmd == "SELL" then 4 else 2
  }

  function Usage(cmd: string): string {
    if cmd == "LOGIN" then "usage: LOGIN <username>"
    else if cmd == "CANCEL" then "usage: CANCEL <order_id>"
    else if cmd == "BUY" || cmd == "SELL" then "usage: " + cmd + " <instrument> <quantity> <price>"
    else "usage: " + cmd + " <instrument>"
  }

  /** An empty line, an unknown command, or a command with the wrong number of words. */
  predicate Malformed(t: seq<string>) {
    || t == []
    || (t[0] != "QUIT" && !TradersCommand(t[0]) && !SubscribersCommand(t[0]))
    || (t[0] != "QUIT" && |t| != Arity(t[0]))
  }

  /** What the sender of a malformed line reads: whether it may send the command at all comes before how it does. */
  function WhyMalformed(role: Role, t: seq<string>): string
    requires Malformed(t)
  {
    if t == [] then "empty"
    else if TradersCommand(t[0]) then
      if role == MarketData then "market-data clients cannot send " + t[0] else Usage(t[0])
    else if SubscribersCommand(t[0]) then
      if role == Trader then "traders cannot send " + t[0] else Usage(t[0])
    else "unknown command"
  }

  lemma RefusedAfterNote(c: Core, c': Core, fd: int, line: string, reason: string)
    requires fd in c.sessions && Refused(Note(c, fd, line), c', fd, reason)
    ensures Refused(c, c', fd, reason)
  {
  }

  /** A malformed line gets one error and changes nothing else, except that it may settle the role. */
  lemma MalformedIsRefused(c: Core, fd: int, line: string)
    requires fd in c.sessions && Malformed(Tokens(line))
    ensures Refused(c, Exchange.HandleLine(c, fd, line), fd, WhyMalformed(c.sessions[fd].role, Tokens(line)))
  {
    hide Send, Refused, Tokens;
    var t, c' := Tokens(line), Exchange.HandleLine(c, fd, line);
    var why := WhyMalformed(c.sessions[fd].role, t);
    if t == [] {
      RefusalIsError(Note(c, fd, line), fd, "empty");
      RefusedAfterNote(c, c', fd, line, why);
    } else {
      RefusalIsError(Settled(c, fd, line), fd, why);
      MalformedIsSent(c, fd, line);
      RefusedAfterRole(c, c', fd, line, why);
    }
  }

  lemma MalformedIsSent(c: Core, fd: int, line: string)
    requires fd in c.sessions && Tokens(line) != [] && Malformed(Tokens(line))
    ensures Exchange.HandleLine(c, fd, line) ==
              Send(Settled(c, fd, line), fd, Error(WhyMalformed(c.sessions[fd].role, Tokens(line))))
  {
    hide Send, Tokens;
  }

  /** QUIT, whatever follows it on the line, ends the session that sends it, and touches nothing else. */
  lemma QuitEndsTheSession(c: Core, fd: int, line: string)
    requires fd in c.sessions && Tokens(line) != [] && Tokens(line)[0] == "QUIT"
    ensures var s, c' := c.sessions[fd], Exchange.HandleLine(c, fd, line);
            && c'.sessions == c.sessions - {fd} && c'.market == c.market
            && c'.closed.Keys == c.closed.Keys + {s.serial} && c'.closed[s.serial].log == s.log
            && (forall q :: q in c.closed && q != s.serial ==> c'.closed[q] == c.closed[q])
  {
    hide Tokens;
    assert c.sessions[fd := Settled(c, fd, line).sessions[fd]] - {fd} == c.sessions - {fd};
  }

  /** The first trader's or market-data command settles the role for good, whatever becomes of the command. */
  lemma RoleIsSettled(c: Core, fd: int, line: string)
    requires Safety.Inv(c) && fd in c.sessions && Tokens(line) != [] && Tokens(line)[0] != "QUIT"
    ensures var c', before, cmd := Exchange.HandleLine(c, fd, line), c.sessions[fd].role, Tokens(line)[0];
            && fd in c'.sessions
            && c'.sessions[fd].role ==
                 if before != Unknown then before
                 else if cmd == "LOGIN" || cmd == "BUY" || cmd == "SELL" || cmd == "CANCEL" then Trader
                 else if cmd == "SUBSCRIBE" || cmd == "UNSUBSCRIBE" then MarketData
                 else Unknown
  {
    hide Safety.Inv, Tokens, Dispatch, Evolves, Continues;
    var t := Tokens(line);
    var r := Settled(c, fd, line);
    var c' := Exchange.HandleLine(c, fd, line);
    HandleLineKeepsKeys(c, fd, line);
    HandleLineKeepsInv(c, fd, line);
    SettledKeepsInv(c, fd, line);
    assert c' == Dispatch(r, fd, t);
    if r.sessions[fd].role == Unknown {
      UnknownCommand(r, fd, t);
    } else {
      DispatchEvolves(r, fd, t);
      DispatchKeepsClosed(r, fd, t);
      SameRole(r, c', fd);
    }
  }

  lemma UnknownCommand(c: Core, fd: int, t: seq<string>)
    requires fd in c.sessions && t != [] && t[0] != "QUIT" && c.sessions[fd].role == Unknown
    requires !TraderCmd(t[0]) && !MarketDataCmd(t[0])
    ensures fd in Dispatch(c, fd, t).sessions && Dispatch(c, fd, t).sessions[fd].role == Unknown
  {
    SendAnswers(c, fd, Error("unknown command"));
  }

  lemma DispatchKeepsClosed(c: Core, fd: int, t: seq<string>)
    requires fd in c.sessions && t != [] && t[0] != "QUIT"
    ensures Dispatch(c, fd, t).closed == c.closed
  {
    hide Post, Parse, Withdraw, Exchange.BuyOrSell;
    BuyOrSellKeepsKeys(c, fd, t);
  }

  lemma SameRole(c: Core, c': Core, fd: int)
    requires Safety.Inv(c) && Safety.Inv(c') && Evolves(c, c') && fd in c.sessions && fd in c'.sessions
    requires c'.closed == c.closed && c.sessions[fd].role != Unknown
    ensures c'.sessions[fd].role == c.sessions[fd].role
  {
    InvIsKeyed(c);
    hide Safety.Inv;
    assert LivesOn(c.sessions[fd], c');
  }
}
