/** What clients and operators can rely on: for every run of the server, whatever clients, network and kernel do. */
module Guarantees {
  import opened Wrappers
  import opened Matching
  import opened Protocol
  import opened Framing
  import opened Markets
  import opened Channels
  import opened Exchange
  import opened Sessions
  import opened Safety
  import opened Consequences
  import opened Evolution
  import opened Answers
  import opened Inputs
  import opened Lifetimes
  import opened Priorities
  import opened Replies
  import Books

  ghost function StateAfter(steps: seq<Step>): Core {
    Exchange.Run(steps).core
  }

  lemma RunInv(steps: seq<Step>)
    ensures Safety.Inv(StateAfter(steps)) && Markets.Inv(StateAfter(steps).market)
  {
    hide Base;
    RunIsSafe(steps);
    MarketPart(StateAfter(steps));
  }

  // -------------------------------------------------------------------- sessions

  /**
    Descriptors are reused, serial numbers are not: every session ever has its own, and no two connected traders
    share a name. A username means trader, a subscription means market data.
  */
  lemma SessionsAreTellable(steps: seq<Step>)
    ensures Keyed(StateAfter(steps)) && Named(StateAfter(steps))
    ensures forall s :: Ever(StateAfter(steps), s) ==> WellTyped(s) && s.serial < StateAfter(steps).nextSerial
    ensures forall s, s' :: Ever(StateAfter(steps), s) && Ever(StateAfter(steps), s') && s.serial == s'.serial ==>
              s == s'
  {
    RunInv(steps);
    SerialsTell(StateAfter(steps));
    hide Safety.Inv, Exchange.Run, WellTyped, Ever;
    forall s | Ever(StateAfter(steps), s)
      ensures WellTyped(s)
    {
      EverIsTyped(StateAfter(steps), s);
    }
  }

  lemma SerialsTell(c: Core)
    requires Safety.Inv(c)
    ensures Keyed(c) && Named(c)
    ensures forall s :: Ever(c, s) ==> s.serial < c.nextSerial
    ensures forall s, s' :: Ever(c, s) && Ever(c, s') && s.serial == s'.serial ==> s == s'
  {
    hide Unheard, Homed, AllGood, AllListed, Markets.Inv, MarketLog;
  }

  lemma EverIsTyped(c: Core, s: Session)
    requires Safety.Inv(c) && Ever(c, s)
    ensures WellTyped(s)
  {
    hide Safety.Inv, WellTyped;
    EverIsGood(c, s);
  }

  /** A role and a name once fixed stay; what was sent stays sent, and what the kernel took is only added to. */
  lemma RolesAreForLife(steps: seq<Step>, more: seq<Step>, s: Session)
    requires Live(StateAfter(steps), s)
    ensures exists s' :: Ever(StateAfter(steps + more), s') && Continues(s, s')
    ensures forall s' :: Ever(StateAfter(steps + more), s') && s'.serial == s.serial ==> Continues(s, s')
  {
    hide Safety.Inv, Continues;
    RunEvolves(steps, more);
    RunInv(steps + more);
    assert LivesOn(s, StateAfter(steps + more));
    TheSameSession(StateAfter(steps + more), s);
  }

  lemma KeptUnderItsName(c: Core, s: Session, s': Session)
    requires Keyed(c) && s'.fd == s.fd && s'.serial == s.serial
    requires (s.fd in c.sessions && s' == c.sessions[s.fd]) || (s.serial in c.closed && s' == c.closed[s.serial])
    ensures Ever(c, s')
  {
  }

  lemma TheSameSession(c: Core, s: Session)
    requires Safety.Inv(c) && LivesOn(s, c)
    ensures exists s' :: Ever(c, s') && Continues(s, s')
    ensures forall s' :: Ever(c, s') && s'.serial == s.serial ==> Continues(s, s')
  {
    SerialsTell(c);
    hide Safety.Inv, Keyed, Named;
    var s' := if s.fd in c.sessions && Continues(s, c.sessions[s.fd]) then c.sessions[s.fd] else c.closed[s.serial];
    assert Continues(s, s') && s'.serial == s.serial;
    assert Ever(c, s') by {
      KeptUnderItsName(c, s, s');
    }
    hide Ever, Continues;
  }

  /** Every connection taken in begins as a session of its own, with a serial number never used before. */
  lemma SessionsStartAfresh(steps: seq<Step>, fd: int, script: seq<Answer>)
    requires fd !in StateAfter(steps).sessions
    ensures var c, c' := StateAfter(steps), StateAfter(steps + [AcceptStep(fd, script)]);
            && c'.sessions.Keys == c.sessions.Keys + {fd}
            && (forall other :: other in c.sessions ==> c'.sessions[other] == c.sessions[other])
            && Newborn(c'.sessions[fd], fd, script)
            && (forall s :: Ever(c, s) ==> s.serial < c'.sessions[fd].serial)
            && c'.market == c.market
  {
    RunInv(steps);
    SerialsTell(StateAfter(steps));
    hide Safety.Inv, Exchange.Run, Accept;
    RunSnoc(steps, AcceptStep(fd, script));
    AcceptJoins(Exchange.Run(steps), fd, script);
  }

  /**
    A session ends exactly when its peer closes or resets the connection, when it sends QUIT, when a drain meets a
    hard error, or when the kernel reports its end. No other event ends it; and its orders stay in the market.
  */
  lemma SessionsEndExactly(steps: seq<Step>, step: Step, fd: int)
    requires fd in StateAfter(steps).sessions
    ensures fd !in StateAfter(steps + [step]).sessions <==>
              match step
              case AcceptStep(x, script) => false
              case ReadStep(x, recvs) =>
                x == fd && (PeerGone(recvs) || Quits(Lines(Inbuf(Exchange.Run(steps), fd) + Offered(recvs))))
              case WriteStep(x) =>
                var chan := StateAfter(steps).sessions[fd].chan;
                x == fd && chan.pos <= Drain(chan).1.pos <= |chan.script|
                && Failed in chan.script[chan.pos..Drain(chan).1.pos]
              case HangupStep(x) => x == fd
    ensures !step.ReadStep? ==> StateAfter(steps + [step]).market == StateAfter(steps).market
  {
    hide Safe, Exchange.Run, Exchange.Apply, PeerGone, Quits, Lines, Drain;
    RunIsSafe(steps);
    RunSnoc(steps, step);
    StepEnds(Exchange.Run(steps), step, fd);
  }

  // ----------------------------------------------------------------------- lines

  /**
    Of all the bytes that a session's socket ever gave, however they were cut, interrupted, spread over events, and
    mixed with what other clients and the kernel did: the server has acted on exactly their lines, each once and in
    order, up to a QUIT. What waits in a connected session's buffer is what follows the last line.
  */
  lemma LinesAreActedOn(steps: seq<Step>, s: Session)
    requires Ever(StateAfter(steps), s)
    ensures var bytes := ReceivedBy(steps, s.serial);
            && HandledBy(StateAfter(steps).hist, s.serial) == UpToQuit(Lines(bytes))
            && (Live(StateAfter(steps), s) ==>
                  HandledBy(StateAfter(steps).hist, s.serial) == Lines(bytes) && !Quits(Lines(bytes))
                  && s.fd in Exchange.Run(steps).inbufs && Exchange.Run(steps).inbufs[s.fd] == Rest(bytes))
  {
    RunTracks(steps, s.serial);
    RunIsSafe(steps);
    hide Safety.Inv, Exchange.Run, HandledBy, Lines, Quits, Rest;
    var lines := Lines(ReceivedBy(steps, s.serial));
    if !Quits(lines) {
      NoQuitNoCut(lines);
    }
  }

  /**
    Every line is answered: the OK, ERROR, ORDER_ACCEPTED and ORDER_CANCELLED messages of a session are as many as
    the lines acted on for it, QUIT alone left without one. So nobody is answered for another's line either.
  */
  lemma LinesAreAnswered(steps: seq<Step>, s: Session)
    requires Ever(StateAfter(steps), s)
    ensures var lines := HandledBy(StateAfter(steps).hist, s.serial);
            && RepliesIn(s.log) == RepliesDue(lines)
            && (Live(StateAfter(steps), s) ==> RepliesIn(s.log) == |lines|)
  {
    hide Exchange.Run, HandledBy, RepliesIn, RepliesDue, Quits;
    RunReplies(steps);
    if Live(StateAfter(steps), s) {
      assert AnsweredAll(s, StateAfter(steps).hist);
      NoQuitAllDue(HandledBy(StateAfter(steps).hist, s.serial));
    }
  }

  // ---------------------------------------------------------------------- orders

  /** What an order asked for is what it traded, what still rests, and what was withdrawn. */
  lemma OrdersAreConserved(steps: seq<Step>, id: int)
    requires id in OrdersOf(StateAfter(steps))
    ensures var m, o := StateAfter(steps).market, OrdersOf(StateAfter(steps))[id];
            var resting := QtyOf(Books.Queue(m.book, KeyOf(o)), id);
            && o.qty == Filled(m.log, id) + resting + Withdrawn(m.log, id)
            && (Books.Rests(m.book, id) <==> resting > 0)
  {
    RunInv(steps);
    OrderAccounting(StateAfter(steps).market, id);
  }

  /**
    While an order rests, no later order of its side, instrument and price has traded at all, whether it still rests,
    was withdrawn, or never rested. Whoever is not at the front of a queue came later and still has all it asked for.
  */
  lemma TimeHasPriority(steps: seq<Step>, k: Key, i: nat)
    requires k in StateAfter(steps).market.book && i < |StateAfter(steps).market.book[k]|
    ensures var m, x := StateAfter(steps).market, StateAfter(steps).market.book[k][i];
            && (forall id :: id in Orders(m.log) && KeyOf(Orders(m.log)[id]) == k && id > x.id ==>
                  Filled(m.log, id) == 0)
            && (i > 0 ==>
                  && x.id in Orders(m.log) && x == Orders(m.log)[x.id]
                  && m.book[k][i - 1].id < x.id
                  && Filled(m.log, x.id) + Withdrawn(m.log, x.id) == 0)
  {
    var m := StateAfter(steps).market;
    RunInv(steps);
    MarketIsARun(steps);
    var ops :| m == Markets.Run(ops);
    forall id | id in Orders(m.log) && KeyOf(Orders(m.log)[id]) == k && id > m.book[k][i].id
      ensures Filled(m.log, id) == 0
    {
      NobodyOvertakes(ops, k, i, id);
    }
    if i > 0 {
      OnlyTheFrontTrades(m, k, i);
    }
  }

  /** Orders outlive sessions but not their owner: it is a session of the run, a trader's, that was told of them. */
  lemma OrdersHaveOwners(steps: seq<Step>, id: int)
    requires id in OrdersOf(StateAfter(steps))
    ensures exists s :: Ever(StateAfter(steps), s) && IsOwner(s, OrdersOf(StateAfter(steps))[id])
  {
    RunInv(steps);
    OwnerIsGood(StateAfter(steps), id);
  }

  /**
    BUY and SELL are accepted exactly when instrument, quantity and price are; no name is needed. The order is
    entered as asked under the next id, and ORDER_ACCEPTED is the first answer. Otherwise there is an error only.
  */
  lemma OrdersAreEnteredAsAsked(steps: seq<Step>, fd: int, line: string)
    requires fd in StateAfter(steps).sessions
    requires |Tokens(line)| == 4 && (Tokens(line)[0] == "BUY" || Tokens(line)[0] == "SELL")
    ensures var c, t := StateAfter(steps), Tokens(line);
            var c' := Exchange.HandleLine(c, fd, line);
            if c.sessions[fd].role != MarketData && Acceptable(t[1], t[2], t[3]) then
              Entered(c, c', fd, if t[0] == "BUY" then Buy else Sell, t[1], Value(t[2]), Value(t[3]))
            else Refused(c, c', fd, WhyNotEntered(c.sessions[fd].role, t))
  {
    hide Safety.Inv, Exchange.HandleLine, Tokens, Value, Acceptable, WhyNotEntered, Entered, Refused;
    RunInv(steps);
    OrderAnswer(StateAfter(steps), fd, line);
  }

  // --------------------------------------------------------------------- reports

  /**
    BOUGHT and SOLD go to the very session that placed the order and to no other, even when its descriptor has
    been reused: after the ORDER_ACCEPTED for that order, and only for an execution that took place.
  */
  lemma ReportsReachOnlyTheOwner(steps: seq<Step>, s: Session, i: nat)
    requires Ever(StateAfter(steps), s) && i < |s.log| && (s.log[i].Bought? || s.log[i].Sold?)
    ensures var c, m := StateAfter(steps), s.log[i];
            var id := if m.Bought? then m.exec.buyId else m.exec.sellId;
            && Traded(m.exec) in c.market.log
            && id in OrdersOf(c) && OrdersOf(c)[id].ownerSeq == s.serial && OrdersOf(c)[id].ownerFd == s.fd
            && Accepted(id) in s.log[..i]
            && (forall s' :: Ever(c, s') && m in s'.log ==> s' == s)
  {
    hide Safety.Inv;
    RunInv(steps);
    ReportsReachTheOwner(StateAfter(steps), s, i);
    var e := s.log[i].exec;
    forall s' | Ever(StateAfter(steps), s') && s.log[i] in s'.log
      ensures s' == s
    {
      assert s.log[i] in s.log;
      OneRecipient(StateAfter(steps), s, s', e);
    }
  }

  /**
    What a session is told as an owner (ORDER_ACCEPTED, BOUGHT, SOLD, ORDER_CANCELLED, in one sequence) is exactly
    what was due to it while it was connected. As long as it is connected, this is all that the whole history of
    the market holds for it, in the order of that history.
  */
  lemma ReportsAreComplete(steps: seq<Step>, s: Session)
    requires Ever(StateAfter(steps), s)
    ensures DuesIn(s.log) == Expected(StateAfter(steps).hist, s.serial).dues
    ensures Live(StateAfter(steps), s) ==> DuesIn(s.log) == AllDues(StateAfter(steps).market.log, s.serial)
  {
    RunInv(steps);
    ReportsAreExact(StateAfter(steps), s);
  }

  /**
    The TRADE messages of a session are the executions in the instruments it was subscribed to, when it was, in
    order. Only market-data sessions get any, and they get nothing that is for traders.
  */
  lemma BroadcastsAreExact(steps: seq<Step>, s: Session)
    requires Ever(StateAfter(steps), s)
    ensures TradesIn(s.log) == Expected(StateAfter(steps).hist, s.serial).trades
    ensures MarketLog(StateAfter(steps).hist) == StateAfter(steps).market.log
    ensures Live(StateAfter(steps), s) ==> s.subs == Expected(StateAfter(steps).hist, s.serial).subs
    ensures forall m :: m in s.log && m.Trade? ==>
              s.role == MarketData && Traded(m.exec) in StateAfter(steps).market.log
    ensures forall m :: m in s.log && ForTrader(m) ==> s.role == Trader
  {
    hide Safety.Inv, Expected, MarketLog;
    RunInv(steps);
    TradesAreExact(StateAfter(steps), s);
    forall m | m in s.log && m.Trade?
      ensures m.exec in TradesIn(s.log)
    {
      InDues(s.log, m);
    }
  }

  // ---------------------------------------------------------------------- cancel

  /**
    CANCEL with one argument, however spelled, succeeds exactly when the argument is a number up to 2147483647 that
    is the id of a resting order this very session placed; then that order is gone, and no other. Otherwise nothing
    changes in the market and the answer is an error. (`MalformedIsRefused` covers any other number of words.)
  */
  lemma CancelIsForTheOwner(steps: seq<Step>, fd: int, line: string)
    requires fd in StateAfter(steps).sessions && |Tokens(line)| == 2 && Tokens(line)[0] == "CANCEL"
    ensures var c, s := StateAfter(steps), StateAfter(steps).sessions[fd];
            var c', w := Exchange.HandleLine(c, fd, line), Tokens(line)[1];
            if Numeral(w) && Value(w) <= 2147483647
              && Books.Rests(c.market.book, Value(w)) && Placed(c, Value(w), s) then
              && Answered(c, c', fd, Withdrawal(Value(w))) && SameProfile(c, c', fd)
              && Lacks(c'.market.book, c.market.book, Value(w))
            else Refused(c, c', fd, WhyNotCancelled(s.role, w))
  {
    hide Safety.Inv, Exchange.HandleLine, Tokens, Numeral, Value;
    RunInv(steps);
    CancelSucceedsExactlyForTheOwner(StateAfter(steps), fd, line);
  }

  /**
    ORDER_CANCELLED is told for an order that was withdrawn, to the session that placed it and to no other; and
    every withdrawal in the history of the market was told to that session.
  */
  lemma CancellationsAreTold(steps: seq<Step>)
    ensures forall s, id :: Ever(StateAfter(steps), s) && Withdrawal(id) in s.log ==>
              && Placed(StateAfter(steps), id, s)
              && exists o :: Cancelled(o) in StateAfter(steps).market.log && o.id == id && o.ownerSeq == s.serial
    ensures forall o :: Cancelled(o) in StateAfter(steps).market.log ==>
              exists s :: Ever(StateAfter(steps), s) && s.serial == o.ownerSeq && Withdrawal(o.id) in s.log
  {
    hide Safety.Inv;
    RunInv(steps);
    var c := StateAfter(steps);
    forall s, id | Ever(c, s) && Withdrawal(id) in s.log
      ensures Placed(c, id, s)
      ensures exists o :: Cancelled(o) in c.market.log && o.id == id && o.ownerSeq == s.serial
    {
      var o := CancelIsReal(c, s, id);
    }
    forall o | Cancelled(o) in c.market.log
      ensures exists s :: Ever(c, s) && s.serial == o.ownerSeq && Withdrawal(o.id) in s.log
    {
      var s := CancelIsTold(c, o);
    }
  }

  // ------------------------------------------------------------------- the stream

  /**
    Whatever the kernel takes at a time and however the network cuts it, the client's line buffer yields the
    session's messages, in order, from the first on; all of them once nothing is queued and no send met a hard error.
    A kernel that has given a hard error is taken to have accepted nothing since.
  */
  lemma ClientsSeeTheirMessages(steps: seq<Step>, s: Session, chunks: seq<string>)
    requires Ever(StateAfter(steps), s) && Concat(chunks) == s.chan.accepted
    requires Sticky(Given(s.chan))
    ensures Receive("", chunks).0 <= Texts(s.log)
    ensures Failed !in Given(s.chan) && s.chan.outbuf == [] ==> Receive("", chunks).0 == Texts(s.log)
  {
    RunInv(steps);
    ClientSeesItsMessages(StateAfter(steps), s, chunks);
  }

  /**
    For any kernel: the bytes taken and queued for a connected session are its framed messages if and only if no
    `send` has met a hard error. An ended session's can be whole after one too: when the drain met it, and ended it.
  */
  lemma StreamsAreWhole(steps: seq<Step>, s: Session)
    requires Ever(StateAfter(steps), s)
    ensures Live(StateAfter(steps), s) ==> (Whole(s) <==> Failed !in Given(s.chan))
    ensures Failed !in Given(s.chan) ==> Whole(s)
    ensures Whole(s) && Failed in Given(s.chan) ==>
              s.chan.outbuf != [] && Failed !in Given(s.chan)[..|Given(s.chan)| - 1]
  {
    RunInv(steps);
    StreamIsWhole(StateAfter(steps), s);
  }

  /**
    A writable event goes on sending: it stops only with the queue empty and the event disarmed, at a full kernel, or
    after a send that took the beginning of a chunk only. A kernel with room gets it all in one event.
  */
  lemma WritableSocketsAreServed(steps: seq<Step>, fd: int)
    requires fd in StateAfter(steps).sessions
    ensures var c, c' := StateAfter(steps), StateAfter(steps + [WriteStep(fd)]);
            var chan := c.sessions[fd].chan;
            && (fd in c'.sessions ==> exists i :: StoppedAt(chan, c'.sessions[fd].chan, i))
            && (TakesEach(chan.script, chan.pos, chan.outbuf) ==>
                  && fd in c'.sessions
                  && c'.sessions[fd].chan.outbuf == [] && !c'.sessions[fd].chan.wantWrite
                  && c'.sessions[fd].chan.accepted == chan.accepted + Concat(chan.outbuf))
  {
    hide Safety.Inv, Drain, StoppedAt, TakesEach, Exchange.Run, Writable;
    RunIsSafe(steps);
    RunSnoc(steps, WriteStep(fd));
    WritingEnds(Exchange.Run(steps), fd);
    var chan := StateAfter(steps).sessions[fd].chan;
    LoadedSession(StateAfter(steps), fd);
    var i := DrainStops(chan);
    DrainSurvives(chan);
    if TakesEach(chan.script, chan.pos, chan.outbuf) {
      DrainEmpties(chan);
    }
  }

  lemma DrainSurvives(c: Channel)
    requires Loaded(c)
    ensures c.pos <= Drain(c).1.pos <= |c.script|
    ensures Drain(c).0 <==> Failed !in c.script[c.pos..Drain(c).1.pos]
  {
    hide Drain;
    DrainDiesOnFailure(c);
    var end := Drain(c).1.pos;
    if !Drain(c).0 {
      assert c.script[c.pos..end][end - 1 - c.pos] == Failed;
    }
  }

  /** A connected session with something to send is always armed for it, and never armed for nothing. */
  lemma NoWakeupIsLost(steps: seq<Step>, fd: int)
    requires fd in StateAfter(steps).sessions
    ensures var chan := StateAfter(steps).sessions[fd].chan;
            (chan.wantWrite <==> chan.outbuf != []) && "" !in chan.outbuf
  {
    RunInv(steps);
    NoLostWakeup(StateAfter(steps), fd);
  }

  /** From the text of an execution message a client recovers instrument, quantity and price. */
  lemma ExecutionsCanBeRead(steps: seq<Step>, s: Session, i: nat)
    requires Ever(StateAfter(steps), s) && i < |s.log| && (s.log[i].Bought? || s.log[i].Sold? || s.log[i].Trade?)
    ensures var m, f := s.log[i], s.log[i].exec.fill;
            var word := if m.Bought? then "BOUGHT" else if m.Sold? then "SOLD" else "TRADE";
            && Tokens(Text(m)) == [word, f.instrument, ToString(f.qty), ToString(f.price)]
            && Parse(ToString(f.qty), 1) == Some(f.qty) && Parse(ToString(f.price), 1) == Some(f.price)
  {
    RunInv(steps);
    ExecutionsAreReadable(StateAfter(steps), s, i);
  }

  /**
    What a client reads, message by message: OK; ERROR and the reason; ORDER_ACCEPTED or ORDER_CANCELLED and the id;
    BOUGHT, SOLD or TRADE with instrument, quantity and price. The numbers read back are those of the order and fill.
  */
  lemma MessagesCanBeRead(steps: seq<Step>, s: Session, i: nat)
    requires Ever(StateAfter(steps), s) && i < |s.log|
    ensures var words := Tokens(Text(s.log[i]));
            match s.log[i]
            case Ok => words == ["OK"]
            case Error(reason) => Text(s.log[i]) == "ERROR " + reason && words == ["ERROR"] + Tokens(reason)
            case Accepted(id) => words == ["ORDER_ACCEPTED", ToString(id)] && Reads(ToString(id), id)
            case Withdrawal(id) => words == ["ORDER_CANCELLED", ToString(id)] && Reads(ToString(id), id)
            case Bought(e) => ReadsAs(words, "BOUGHT", e.fill)
            case Sold(e) => ReadsAs(words, "SOLD", e.fill)
            case Trade(e) => ReadsAs(words, "TRADE", e.fill)
  {
    hide Safety.Inv, Tokens, Text, ToString, ReadsAs, Reads;
    RunInv(steps);
    MessageIsReadable(StateAfter(steps), s, i);
  }
}
