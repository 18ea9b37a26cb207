/** From the bytes a client sends to the lines the server acts on, over whole runs. */
module Inputs {
  import opened Matching
  import opened Protocol
  import opened Framing
  import opened Markets
  import opened Channels
  import opened Exchange
  import opened Safety
  import opened Evolution
  import Books

  /** The lines of one session that were acted on, in order. */
  function HandledBy(hist: seq<Happening>, serial: nat): seq<string> {
    if hist == [] then []
    else
      var last := hist[|hist| - 1];
      HandledBy(hist[..|hist| - 1], serial) + if last.Handled? && last.serial == serial then [last.line] else []
  }

  lemma HandledSnoc(hist: seq<Happening>, h: Happening, serial: nat)
    ensures HandledBy(hist + [h], serial) ==
              HandledBy(hist, serial) + if h.Handled? && h.serial == serial then [h.line] else []
  {
    assert (hist + [h])[..|hist + [h]| - 1] == hist;
  }

  /** The lines up to the first QUIT, which is the last one acted on. */
  function UpToQuit(lines: seq<string>): seq<string> {
    if lines == [] then []
    else if IsQuit(lines[0]) then [lines[0]]
    else [lines[0]] + UpToQuit(lines[1..])
  }

  lemma UpToQuitCons(lines: seq<string>)
    requires lines != []
    ensures UpToQuit(lines) == [lines[0]] + if IsQuit(lines[0]) then [] else UpToQuit(lines[1..])
  {
    hide IsQuit;
  }

  lemma {:induction false} UpToQuitSplit(a: seq<string>, b: seq<string>)
    ensures UpToQuit(a + b) == if Quits(a) then UpToQuit(a) else a + UpToQuit(b)
    decreases |a|
  {
    hide IsQuit, Quits, UpToQuit;
    if a == [] {
      NoLinesNoQuit();
      assert a + b == b;
      assert [] + UpToQuit(b) == UpToQuit(b);
    } else {
      assert (a + b)[0] == a[0] && (a + b)[1..] == a[1..] + b;
      QuitsCons(a);
      UpToQuitCons(a);
      UpToQuitCons(a + b);
      UpToQuitSplit(a[1..], b);
      if !Quits(a) {
        assert UpToQuit(a + b) == [a[0]] + (a[1..] + UpToQuit(b)) == a + UpToQuit(b);
      }
    }
  }

  lemma {:induction false} NoQuitNoCut(lines: seq<string>)
    requires !Quits(lines)
    ensures UpToQuit(lines) == lines
  {
    hide IsQuit, Quits;
    if lines == [] {
    } else {
      QuitsCons(lines);
      NoQuitNoCut(lines[1..]);
      assert lines == [lines[0]] + lines[1..];
    }
  }

  lemma NoLinesNoQuit()
    ensures !Quits([])
  {
  }

  /** The bytes that one readable event takes from a socket, given what each `recv` returns. */
  ghost function Taken(m: Machine, fd: int, recvs: seq<Received>): string
    decreases |recvs|
  {
    if fd !in m.core.sessions || recvs == [] then ""
    else
      match recvs[0]
      case Got(bytes) => bytes + if bytes == "" then "" else Taken(Arrive(m, fd, bytes).0, fd, recvs[1..])
      case TryAgain => Taken(m, fd, recvs[1..])
      case Exhausted => ""
      case Broken => ""
  }

  /** The bytes `recv` returns, up to the first answer that is neither bytes nor an interruption. */
  function Offered(recvs: seq<Received>): string {
    if recvs == [] then ""
    else
      match recvs[0]
      case Got(bytes) => if bytes == "" then "" else bytes + Offered(recvs[1..])
      case TryAgain => Offered(recvs[1..])
      case Exhausted => ""
      case Broken => ""
  }

  /** A session that is still there took all of them; one that sent QUIT, a first part. */
  lemma {:induction false} TakenIsOffered(m: Machine, fd: int, recvs: seq<Received>)
    requires fd in m.core.sessions
    ensures Taken(m, fd, recvs) <= Offered(recvs)
    ensures fd in Readable(m, fd, recvs).core.sessions ==> Taken(m, fd, recvs) == Offered(recvs)
    decreases |recvs|
  {
    hide Arrive;
    if recvs == [] {
    } else {
      match recvs[0] {
        case Got(bytes) =>
          if bytes != "" {
            var (m', alive) := Arrive(m, fd, bytes);
            ArriveStays(m, fd, bytes);
            if alive {
              TakenIsOffered(m', fd, recvs[1..]);
            }
          }
        case TryAgain => TakenIsOffered(m, fd, recvs[1..]);
        case Exhausted =>
        case Broken =>
      }
    }
  }

  lemma ArriveStays(m: Machine, fd: int, bytes: string)
    requires fd in m.core.sessions
    ensures Arrive(m, fd, bytes).1 <==> fd in Arrive(m, fd, bytes).0.core.sessions
  {
    hide HandleAll, Lines, Rest, Quits;
    HandleAllKeepsKeys(m.core, fd, Lines(Inbuf(m, fd) + bytes));
  }

  /** All bytes that a session's socket has given in a run, whatever happened in between. */
  ghost function ReceivedBy(steps: seq<Step>, serial: nat): string {
    if steps == [] then ""
    else
      var before, last := Exchange.Run(steps[..|steps| - 1]), steps[|steps| - 1];
      ReceivedBy(steps[..|steps| - 1], serial)
        + if last.ReadStep? && last.fd in before.core.sessions && before.core.sessions[last.fd].serial == serial
          then Taken(before, last.fd, last.recvs) else ""
  }

  // ------------------------------------------------------ what commands leave alone

  /** No line is noted, and every session that is still there is the one that was there. */
  ghost predicate SameLines(c: Core, c': Core) {
    && (forall q :: HandledBy(c'.hist, q) == HandledBy(c.hist, q))
    && SameSessions(c, c')
  }

  predicate SameSessions(c: Core, c': Core) {
    forall fd :: fd in c'.sessions ==> fd in c.sessions && c'.sessions[fd].serial == c.sessions[fd].serial
  }

  lemma OtherHappening(c: Core, c': Core, h: Happening)
    requires c'.hist == c.hist + [h] && !h.Handled? && SameSessions(c, c')
    ensures SameLines(c, c')
  {
    forall q
      ensures HandledBy(c'.hist, q) == HandledBy(c.hist, q)
    {
      HandledSnoc(c.hist, h, q);
      assert HandledBy(c.hist, q) + [] == HandledBy(c.hist, q);
    }
  }

  lemma DeliverKeepsLines(c: Core, e: Exec)
    ensures SameLines(c, Deliver(c, e))
  {
    hide Channels.Enqueue, HandledBy;
    OtherHappening(c, Deliver(c, e), InMarket(Traded(e)));
  }

  lemma {:induction false} DeliverAllKeepsLines(c: Core, execs: seq<Exec>)
    ensures SameLines(c, DeliverAll(c, execs))
  {
    hide Deliver;
    if execs == [] {
    } else {
      DeliverAllKeepsLines(c, execs[..|execs| - 1]);
      DeliverKeepsLines(DeliverAll(c, execs[..|execs| - 1]), execs[|execs| - 1]);
    }
  }

  lemma PlaceOrderKeepsLines(c: Core, fd: int, side: Side, instrument: string, qty: int, price: int)
    requires fd in c.sessions
    ensures SameLines(c, Exchange.PlaceOrder(c, fd, side, instrument, qty, price))
  {
    hide Channels.Enqueue, DeliverAll, HandledBy, Place, Books.Submit;
    var o := Order(c.market.nextId, side, instrument, qty, price, fd, c.sessions[fd].serial);
    var told := Send(c, fd, Accepted(o.id));
    var placed := told.(market := Place(c.market, o), hist := told.hist + [InMarket(Submitted(o))]);
    OtherHappening(c, placed, InMarket(Submitted(o)));
    DeliverAllKeepsLines(placed, Books.Submit(c.market.book, o).execs);
  }

  lemma BuyOrSellKeepsLines(c: Core, fd: int, t: seq<string>)
    requires fd in c.sessions && t != []
    ensures SameLines(c, Exchange.BuyOrSell(c, fd, t))
  {
    hide Channels.Enqueue, HandledBy, PlaceOrder, Parse;
    if |t| == 4 && Parse(t[2], 1).Some? && Parse(t[3], 1).Some? {
      var side := if t[0] == "BUY" then Buy else Sell;
      PlaceOrderKeepsLines(c, fd, side, t[1], Parse(t[2], 1).value, Parse(t[3], 1).value);
    }
  }

  lemma CancelOrderKeepsLines(c: Core, fd: int, id: int, text: string)
    requires fd in c.sessions
    ensures SameLines(c, CancelOrder(c, fd, id, text))
  {
    hide Channels.Enqueue, HandledBy, Withdraw, Books.Owned, Resting;
    var serial := c.sessions[fd].serial;
    if Books.Owned(c.market.book, id, fd, serial) {
      OwnedRests(c.market.book, id, fd, serial);
      OtherHappening(c, CancelOrder(c, fd, id, text), InMarket(Cancelled(Resting(c.market.book, id))));
    }
  }

  lemma CancelCmdKeepsLines(c: Core, fd: int, t: seq<string>)
    requires fd in c.sessions && t != []
    ensures SameLines(c, CancelCmd(c, fd, t))
  {
    hide Channels.Enqueue, HandledBy, CancelOrder, Parse;
    if |t| == 2 && Parse(t[1], 0).Some? {
      CancelOrderKeepsLines(c, fd, Parse(t[1], 0).value, t[1]);
    }
  }

  lemma SubscriptionKeepsLines(c: Core, fd: int, t: seq<string>)
    requires fd in c.sessions && t != []
    ensures SameLines(c, Exchange.Subscription(c, fd, t))
  {
    hide Channels.Enqueue, HandledBy;
    var serial := c.sessions[fd].serial;
    if |t| == 2 && t[1] in INSTRUMENTS {
      OtherHappening(c, Exchange.Subscription(c, fd, t),
                     if t[0] == "SUBSCRIBE" then Subscribed(serial, t[1]) else Unsubscribed(serial, t[1]));
    }
  }

  lemma CloseKeepsLines(c: Core, fd: int)
    ensures SameLines(c, Exchange.CloseSession(c, fd))
  {
    hide HandledBy;
    if fd in c.sessions {
      OtherHappening(c, Exchange.CloseSession(c, fd), Closed(c.sessions[fd].serial));
    }
  }

  lemma DispatchKeepsLines(c: Core, fd: int, t: seq<string>)
    requires fd in c.sessions && t != []
    ensures SameLines(c, Dispatch(c, fd, t))
  {
    hide Channels.Enqueue, HandledBy, BuyOrSell, CancelCmd, Subscription, CloseSession;
    if t[0] == "BUY" || t[0] == "SELL" {
      BuyOrSellKeepsLines(c, fd, t);
    } else if t[0] == "CANCEL" {
      CancelCmdKeepsLines(c, fd, t);
    } else if MarketDataCmd(t[0]) {
      SubscriptionKeepsLines(c, fd, t);
    } else if t[0] == "QUIT" {
      CloseKeepsLines(c, fd);
    }
  }

  // ---------------------------------------------------------------- lines and events

  /** One line is noted, once, for the session that sent it. */
  lemma LineIsNoted(c: Core, fd: int, line: string)
    requires fd in c.sessions
    ensures var c', serial := Exchange.HandleLine(c, fd, line), c.sessions[fd].serial;
            && SameSessions(c, c')
            && forall q :: HandledBy(c'.hist, q) == HandledBy(c.hist, q) + if q == serial then [line] else []
  {
    hide Dispatch, HandledBy;
    var noted, t := Note(c, fd, line), Tokens(line);
    if t != [] {
      DispatchKeepsLines(SetRole(noted, fd, t[0]), fd, t);
    }
    forall q
      ensures HandledBy(noted.hist, q) == HandledBy(c.hist, q) + if q == c.sessions[fd].serial then [line] else []
    {
      HandledSnoc(c.hist, Handled(c.sessions[fd].serial, line), q);
    }
  }

  lemma {:induction false} LinesAreNoted(c: Core, fd: int, lines: seq<string>, q: nat)
    requires fd in c.sessions
    ensures SameSessions(c, HandleAll(c, fd, lines))
    ensures HandledBy(HandleAll(c, fd, lines).hist, q) ==
              HandledBy(c.hist, q) + if q == c.sessions[fd].serial then UpToQuit(lines) else []
    decreases |lines|
  {
    hide HandleLine, HandledBy, IsQuit;
    if lines == [] {
      assert HandledBy(c.hist, q) + [] == HandledBy(c.hist, q);
    } else {
      var next := Exchange.HandleLine(c, fd, lines[0]);
      LineIsNoted(c, fd, lines[0]);
      HandleLineKeepsKeys(c, fd, lines[0]);
      if !IsQuit(lines[0]) {
        LinesAreNoted(next, fd, lines[1..], q);
        assert HandledBy(c.hist, q) + [lines[0]] + UpToQuit(lines[1..])
            == HandledBy(c.hist, q) + ([lines[0]] + UpToQuit(lines[1..]));
        assert HandledBy(c.hist, q) + [] + [] == HandledBy(c.hist, q) + [];
      }
    }
  }

  /** What a readable event leaves, by the bytes it took. */
  ghost predicate ReadAs(m: Machine, m': Machine, fd: int, bytes: string, q: nat)
    requires fd in m.core.sessions
  {
    var x, serial := Inbuf(m, fd) + bytes, m.core.sessions[fd].serial;
    && SameSessions(m.core, m'.core)
    && HandledBy(m'.core.hist, q) ==
         HandledBy(m.core.hist, q) + (if q == serial then UpToQuit(Lines(x)) else [])
    && (fd in m'.core.sessions ==> Inbuf(m', fd) == Rest(x) && !Quits(Lines(x)))
    && (forall other :: other != fd ==> Inbuf(m', other) == Inbuf(m, other))
  }

  lemma ArriveReads(m: Machine, fd: int, bytes: string, q: nat)
    requires fd in m.core.sessions
    ensures ReadAs(m, Arrive(m, fd, bytes).0, fd, bytes, q)
  {
    hide HandleAll, HandledBy, Lines, Rest, Quits, UpToQuit;
    var lines := Lines(Inbuf(m, fd) + bytes);
    LinesAreNoted(m.core, fd, lines, q);
    HandleAllKeepsKeys(m.core, fd, lines);
  }

  lemma NothingRead(m: Machine, fd: int, q: nat)
    requires Safe(m) && fd in m.core.sessions
    ensures ReadAs(m, m, fd, "", q) && ReadAs(m, Hangup(m, fd), fd, "", q)
  {
    hide Safety.Inv, HandledBy, CloseSession;
    var x := Inbuf(m, fd) + "";
    assert x == Inbuf(m, fd);
    NoNewline(x);
    CloseKeepsLines(m.core, fd);
    CloseRemoves(m.core, fd);
    assert HandledBy(m.core.hist, q) + [] == HandledBy(m.core.hist, q);
  }

  /** Reading on: two readings in a row are the reading of all the bytes. */
  lemma ReadOn(m: Machine, m': Machine, m'': Machine, fd: int, a: string, b: string, q: nat)
    requires fd in m.core.sessions && fd in m'.core.sessions
    requires ReadAs(m, m', fd, a, q) && ReadAs(m', m'', fd, b, q)
    ensures ReadAs(m, m'', fd, a + b, q)
  {
    hide HandledBy, Lines, Rest, Quits, UpToQuit;
    var x := Inbuf(m, fd) + a;
    assert Inbuf(m, fd) + (a + b) == x + b;
    LinesSplit(x, b);
    UpToQuitSplit(Lines(x), Lines(Rest(x) + b));
    NoQuitNoCut(Lines(x));
    QuitsEither(Lines(x), Lines(Rest(x) + b));
    assert HandledBy(m.core.hist, q) + Lines(x) + UpToQuit(Lines(Rest(x) + b))
        == HandledBy(m.core.hist, q) + (Lines(x) + UpToQuit(Lines(Rest(x) + b)));
    assert HandledBy(m.core.hist, q) + [] + [] == HandledBy(m.core.hist, q) + [];
  }

  lemma QuitsEither(a: seq<string>, b: seq<string>)
    requires !Quits(a)
    ensures Quits(a + b) <==> Quits(b)
  {
    if i :| 0 <= i < |a + b| && IsQuit((a + b)[i]) {
      assert i >= |a| && b[i - |a|] == (a + b)[i];
    }
    if i :| 0 <= i < |b| && IsQuit(b[i]) {
      assert (a + b)[|a| + i] == b[i];
    }
  }

  lemma {:induction false} ReadableReads(m: Machine, fd: int, recvs: seq<Received>, q: nat)
    requires Safe(m) && fd in m.core.sessions
    ensures ReadAs(m, Readable(m, fd, recvs), fd, Taken(m, fd, recvs), q)
    decreases |recvs|
  {
    hide Safe, Arrive, Hangup, ReadAs;
    NothingRead(m, fd, q);
    if recvs == [] {
    } else {
      match recvs[0] {
        case Got(bytes) =>
          if bytes != "" {
            var (m', alive) := Arrive(m, fd, bytes);
            ArriveReads(m, fd, bytes, q);
            ArriveStays(m, fd, bytes);
            ArriveKeepsSafe(m, fd, bytes);
            if alive {
              ReadableReads(m', fd, recvs[1..], q);
              ReadOn(m, m', Readable(m', fd, recvs[1..]), fd, bytes, Taken(m', fd, recvs[1..]), q);
            } else {
              assert bytes + "" == bytes;
            }
          } else {
            assert bytes + "" == "";
          }
        case TryAgain => ReadableReads(m, fd, recvs[1..], q);
        case Exhausted =>
        case Broken =>
      }
    }
  }

  // ------------------------------------------------------------------------- runs

  /** The lines acted on for a session are those of all its bytes; what waits in its buffer is what follows them. */
  ghost predicate Tracks(m: Machine, steps: seq<Step>, q: nat) {
    var bytes := ReceivedBy(steps, q);
    && HandledBy(m.core.hist, q) == UpToQuit(Lines(bytes))
    && (forall fd :: fd in m.core.sessions && m.core.sessions[fd].serial == q ==>
          Inbuf(m, fd) == Rest(bytes) && !Quits(Lines(bytes)))
    && (q >= m.core.nextSerial ==> bytes == "")
  }

  /** Nothing is read and nothing acted on. */
  lemma IdleKeepsTracks(m: Machine, m': Machine, steps: seq<Step>, step: Step, q: nat)
    requires Tracks(m, steps, q) && ReceivedBy(steps + [step], q) == ReceivedBy(steps, q)
    requires HandledBy(m'.core.hist, q) == HandledBy(m.core.hist, q) && SameSessions(m.core, m'.core)
    requires m'.core.nextSerial >= m.core.nextSerial
    requires forall fd :: fd in m'.core.sessions ==> Inbuf(m', fd) == Inbuf(m, fd)
    ensures Tracks(m', steps + [step], q)
  {
  }

  lemma ReceivedSnoc(steps: seq<Step>, step: Step, q: nat)
    ensures var m := Exchange.Run(steps);
            ReceivedBy(steps + [step], q) == ReceivedBy(steps, q)
              + if step.ReadStep? && step.fd in m.core.sessions && m.core.sessions[step.fd].serial == q
                then Taken(m, step.fd, step.recvs) else ""
  {
    assert (steps + [step])[..|steps + [step]| - 1] == steps;
  }

  lemma ReadKeepsTracks(steps: seq<Step>, fd: int, recvs: seq<Received>, q: nat)
    requires Safe(Exchange.Run(steps)) && Tracks(Exchange.Run(steps), steps, q)
    requires fd in Exchange.Run(steps).core.sessions
    requires Readable(Exchange.Run(steps), fd, recvs).core.nextSerial >= Exchange.Run(steps).core.nextSerial
    ensures Tracks(Readable(Exchange.Run(steps), fd, recvs), steps + [ReadStep(fd, recvs)], q)
  {
    hide Safety.Inv, Readable, Taken, HandledBy, Exchange.Run, Lines, Rest, Quits, UpToQuit;
    var m, m' := Exchange.Run(steps), Readable(Exchange.Run(steps), fd, recvs);
    ReadableReads(m, fd, recvs, q);
    ReceivedSnoc(steps, ReadStep(fd, recvs), q);
    var bytes, more := ReceivedBy(steps, q), Taken(m, fd, recvs);
    InvIsKeyed(m.core);
    SerialsDiffer(m.core, fd);
    if q == m.core.sessions[fd].serial {
      LinesSplit(bytes, more);
      UpToQuitSplit(Lines(bytes), Lines(Rest(bytes) + more));
      NoQuitNoCut(Lines(bytes));
      QuitsEither(Lines(bytes), Lines(Rest(bytes) + more));
    } else {
      assert HandledBy(m.core.hist, q) + [] == HandledBy(m.core.hist, q);
      assert bytes + "" == bytes;
    }
  }

  /** Of the events only reading makes the server act on lines, and then on those of the reading session. */
  lemma StepKeepsTracks(steps: seq<Step>, step: Step, q: nat)
    requires Safe(Exchange.Run(steps)) && Tracks(Exchange.Run(steps), steps, q)
    ensures Tracks(Exchange.Apply(Exchange.Run(steps), step), steps + [step], q)
  {
    hide Safety.Inv, Exchange.Run, Readable, Taken, HandledBy, Exchange.CloseSession, Channels.Drain, Tracks, Evolves;
    var m := Exchange.Run(steps);
    ReceivedSnoc(steps, step, q);
    assert ReceivedBy(steps, q) + "" == ReceivedBy(steps, q);
    SerialsOnlyGrow(m, step);
    match step {
      case AcceptStep(fd, script) => AcceptKeepsTracks(steps, fd, script, q);
      case ReadStep(fd, recvs) =>
        if fd in m.core.sessions {
          ReadKeepsTracks(steps, fd, recvs, q);
        } else {
          NobodyReads(m, fd, recvs);
          IdleKeepsTracks(m, m, steps, step, q);
        }
      case WriteStep(fd) =>
        WriteIsIdle(m, fd);
        IdleKeepsTracks(m, Writable(m, fd), steps, step, q);
      case HangupStep(fd) =>
        HangupIsIdle(m, fd);
        IdleKeepsTracks(m, Hangup(m, fd), steps, step, q);
    }
  }

  lemma NobodyReads(m: Machine, fd: int, recvs: seq<Received>)
    requires fd !in m.core.sessions
    ensures Readable(m, fd, recvs) == m
  {
  }

  lemma SerialsOnlyGrow(m: Machine, step: Step)
    requires Safe(m)
    ensures Exchange.Apply(m, step).core.nextSerial >= m.core.nextSerial
  {
    hide Safety.Inv, Exchange.Apply;
    StepEvolves(m, step);
  }

  lemma HangupIsIdle(m: Machine, fd: int)
    ensures SameLines(m.core, Hangup(m, fd).core)
    ensures forall other :: other in Hangup(m, fd).core.sessions ==> Inbuf(Hangup(m, fd), other) == Inbuf(m, other)
  {
    CloseKeepsLines(m.core, fd);
  }

  lemma WriteIsIdle(m: Machine, fd: int)
    ensures SameLines(m.core, Writable(m, fd).core)
    ensures forall other :: other in Writable(m, fd).core.sessions ==> Inbuf(Writable(m, fd), other) == Inbuf(m, other)
  {
    hide Channels.Drain, HandledBy, Hangup;
    if fd in m.core.sessions {
      var s := m.core.sessions[fd];
      HangupIsIdle(m.(core := m.core.(sessions := m.core.sessions[fd := s.(chan := Channels.Drain(s.chan).1)])), fd);
    }
  }

  lemma NoBytesNoLines()
    ensures Rest("") == "" && Lines("") == [] && !Quits(Lines(""))
  {
  }

  lemma AcceptKeepsTracks(steps: seq<Step>, fd: int, script: seq<Answer>, q: nat)
    requires Safe(Exchange.Run(steps)) && Tracks(Exchange.Run(steps), steps, q)
    ensures Tracks(Accept(Exchange.Run(steps), fd, script), steps + [AcceptStep(fd, script)], q)
  {
    hide Safety.Inv, Exchange.Run, HandledBy, ReceivedBy, Lines, Rest, Quits, UpToQuit;
    var m := Exchange.Run(steps);
    NoBytesNoLines();
    ReceivedSnoc(steps, AcceptStep(fd, script), q);
    assert ReceivedBy(steps, q) + "" == ReceivedBy(steps, q);
    HandledSnoc(m.core.hist, Opened(m.core.nextSerial), q);
    assert HandledBy(m.core.hist, q) + [] == HandledBy(m.core.hist, q);
  }

  /** Of all the bytes a session ever sent, whatever happened between them, exactly the lines were acted on. */
  lemma {:induction false} RunTracks(steps: seq<Step>, q: nat)
    ensures Tracks(Exchange.Run(steps), steps, q)
    decreases |steps|
  {
    hide Safe, Exchange.Apply, Tracks;
    if steps == [] {
      StartTracks(q);
    } else {
      var front := steps[..|steps| - 1];
      RunTracks(front, q);
      RunIsSafe(front);
      StepKeepsTracks(front, steps[|steps| - 1], q);
      assert front + [steps[|steps| - 1]] == steps;
    }
  }

  lemma StartTracks(q: nat)
    ensures Tracks(Start(), [], q)
  {
  }

  // ------------------------------------------------------- where lines are acted on

  /** An answer of `recv` after which the reading goes on. */
  predicate GoesOn(r: Received) {
    r.TryAgain? || (r.Got? && r.bytes != "")
  }

  /** One readable event, or two: it makes no difference where the reading is interrupted. */
  lemma {:induction false} ReadInParts(m: Machine, fd: int, a: seq<Received>, b: seq<Received>)
    requires forall i :: 0 <= i < |a| ==> GoesOn(a[i])
    ensures Readable(m, fd, a + b) == Readable(Readable(m, fd, a), fd, b)
    decreases |a|
  {
    hide Arrive;
    if a == [] {
      assert a + b == b;
    } else if fd in m.core.sessions {
      assert GoesOn(a[0]) && (a + b)[0] == a[0] && (a + b)[1..] == a[1..] + b;
      match a[0] {
        case Got(bytes) =>
          ArriveStays(m, fd, bytes);
          if Arrive(m, fd, bytes).1 {
            ReadInParts(Arrive(m, fd, bytes).0, fd, a[1..], b);
          }
        case TryAgain => ReadInParts(m, fd, a[1..], b);
      }
    }
  }

  /** The first line of a stream, as raw bytes, and what follows it. */
  lemma FirstLine(s: string) returns (raw: string, rest: string)
    requires Lines(s) != []
    ensures '\n' !in raw && s == (raw + "\n") + rest && Lines(s) == [Strip(raw)] + Lines(rest)
  {
    var p := Find(s);
    raw, rest := s[..p], s[p + 1..];
  }

  lemma PrependLine(raw: string, more: string)
    requires '\n' !in raw
    ensures Lines((raw + "\n") + more) == [Strip(raw)] + Lines(more)
    ensures Rest((raw + "\n") + more) == Rest(more)
  {
    hide Lines, Rest, Strip;
    var first := raw + "\n";
    OneRawLine(raw, "");
    assert first + "" == first;
    LinesSplit(first, more);
    assert "" + more == more;
  }

  /** The part of a stream that makes up its first `i` lines. */
  lemma {:induction false} CutAfterLines(s: string, i: nat) returns (part: string)
    requires i <= |Lines(s)|
    ensures part <= s && Lines(part) == Lines(s)[..i] && Rest(part) == ""
    decreases i
  {
    if i == 0 {
      part := "";
    } else {
      hide Lines, Rest, Strip;
      var raw, rest := FirstLine(s);
      var more := CutAfterLines(rest, i - 1);
      part := (raw + "\n") + more;
      PrependLine(raw, more);
      assert Lines(s)[..i] == [Strip(raw)] + Lines(rest)[..i - 1];
    }
  }

  /** A line of an arrival is acted on in a state that a run ends in: one in which only the lines before it arrived. */
  lemma LineMeetsARun(steps: seq<Step>, fd: int, bytes: string, i: nat) returns (steps': seq<Step>)
    requires fd in Exchange.Run(steps).core.sessions
    requires i <= |Lines(Inbuf(Exchange.Run(steps), fd) + bytes)|
    ensures var m := Exchange.Run(steps);
            Exchange.Run(steps').core == HandleAll(m.core, fd, Lines(Inbuf(m, fd) + bytes)[..i])
  {
    hide Safety.Inv, HandleAll, Lines, Rest, Quits, Exchange.Run;
    RunIsSafe(steps);
    var m := Exchange.Run(steps);
    var x := Inbuf(m, fd) + bytes;
    var part := CutAfterLines(x, i);
    if i == 0 {
      steps' := steps;
      NoLinesNoChange(m.core, fd);
    } else {
      LinesNeedNewlines(part, Inbuf(m, fd), x);
      var arrived := part[|Inbuf(m, fd)|..];
      assert Inbuf(m, fd) + arrived == part;
      steps' := steps + [ReadStep(fd, [Got(arrived)])];
      RunSnoc(steps, ReadStep(fd, [Got(arrived)]));
      OneArrival(m, fd, arrived);
    }
  }

  lemma NoLinesNoChange(c: Core, fd: int)
    ensures HandleAll(c, fd, []) == c
  {
  }

  lemma LinesNeedNewlines(part: string, buf: string, x: string)
    requires part <= x && buf <= x && '\n' !in buf && Lines(part) != []
    ensures buf <= part && |buf| < |part|
  {
    if '\n' !in part {
      NoNewline(part);
    } else {
      var i :| 0 <= i < |part| && part[i] == '\n';
      assert x[i] == '\n' && i >= |buf|;
    }
  }

  /**
    So whatever is said of lines in the states that runs end in is said of every line ever acted on: line `i` of the
    `j`-th answer of a readable event, with all that came before it in that event.
  */
  lemma EveryLineMeetsARun(steps: seq<Step>, fd: int, recvs: seq<Received>, j: nat, i: nat)
    requires j < |recvs| && recvs[j].Got? && (forall k :: 0 <= k < j ==> GoesOn(recvs[k]))
    requires fd in Readable(Exchange.Run(steps), fd, recvs[..j]).core.sessions
    requires i <= |Lines(Inbuf(Readable(Exchange.Run(steps), fd, recvs[..j]), fd) + recvs[j].bytes)|
    ensures var m := Readable(Exchange.Run(steps), fd, recvs[..j]);
            && Readable(Exchange.Run(steps), fd, recvs) == Readable(m, fd, recvs[j..])
            && exists steps' :: Exchange.Run(steps').core ==
                 HandleAll(m.core, fd, Lines(Inbuf(m, fd) + recvs[j].bytes)[..i])
  {
    hide Readable, HandleAll, Lines, Exchange.Run;
    assert recvs == recvs[..j] + recvs[j..];
    ReadInParts(Exchange.Run(steps), fd, recvs[..j], recvs[j..]);
    RunSnoc(steps, ReadStep(fd, recvs[..j]));
    var steps' := LineMeetsARun(steps + [ReadStep(fd, recvs[..j])], fd, recvs[j].bytes, i);
  }
}
