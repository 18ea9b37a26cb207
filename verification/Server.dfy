/**
  The server as the program has it: sessions and book mutated in place by the handlers. Each method keeps the
  ghost `model` in step with the fields, and states which function of `Exchange` its effect is.
*/
module Servers {
  import opened Wrappers
  import opened Matching
  import opened Protocol
  import opened Framing
  import opened Markets
  import opened Channels
  import opened Exchange
  import opened OrderBooks
  import opened Safety
  import Books

  /** One `send` of the send loop. */
  lemma PushOnce(script: seq<Answer>, pos: nat, data: string)
    ensures Push(script, pos, data) ==
              if data == "" then Pushed(0, pos, Done)
              else if pos >= |script| then Pushed(0, pos, Blocked)
              else
                match script[pos]
                case Took(n) =>
                  var k := Count(n, |data|);
                  Pushed(k + Push(script, pos + 1, data[k..]).taken, Push(script, pos + 1, data[k..]).pos,
                         Push(script, pos + 1, data[k..]).outcome)
                case Interrupted => Push(script, pos + 1, data)
                case WouldBlock => Pushed(0, pos + 1, Blocked)
                case Failed => Pushed(0, pos + 1, Dead)
  {
    hide Min;
  }

  class ClientSession {
    const fd: int
    const serial: nat
    var role: Role
    var username: string
    var subscriptions: set<string>
    const inbuf: LineBuffer
    var outbuf: seq<string>
    var wantWrite: bool

    // The kernel's side of the socket: the answers it gives, and the bytes it took.
    const script: seq<Answer>
    var pos: nat
    ghost var accepted: string
    ghost var lost: nat
    ghost var log: seq<Msg>

    constructor (fd: int, serial: nat, script: seq<Answer>)
      ensures View() == Session(fd, serial, Unknown, "", {}, Channels.Open(script), [])
      ensures this.fd == fd && fresh(inbuf) && inbuf.buf == ""
    {
      this.fd, this.serial, this.script := fd, serial, script;
      role, username, subscriptions := Unknown, "", {};
      outbuf, wantWrite, pos := [], false, 0;
      accepted, lost, log := "", 0, [];
      inbuf := new LineBuffer();
    }

    ghost function Chan(): Channel
      reads this
    {
      Channel(script, pos, accepted, outbuf, wantWrite, lost)
    }

    ghost function View(): Session
      reads this
    {
      Session(fd, serial, role, username, subscriptions, Chan(), log)
    }

    predicate LoggedIn()
      reads this
    {
      username != ""
    }

    /** `send`: the next answer of the script; with none left it would block. */
    method Send(data: string) returns (r: Answer)
      modifies this`pos, this`accepted
      ensures old(pos) >= |script| ==> r == WouldBlock && Chan() == old(Chan())
      ensures old(pos) < |script| ==>
                match script[old(pos)]
                case Took(n) =>
                  r == Took(Count(n, |data|))
                  && Chan() == old(Chan()).(pos := old(pos) + 1, accepted := old(accepted) + data[..Count(n, |data|)])
                case other => r == other && Chan() == old(Chan()).(pos := old(pos) + 1)
    {
      if pos >= |script| {
        return WouldBlock;
      }
      var answer := script[pos];
      pos := pos + 1;
      if answer.Took? {
        var k := Count(answer.n, |data|);
        accepted := accepted + data[..k];
        return Took(k);
      }
      return answer;
    }

    /** The fast path of `enqueue`: offer the line until it is gone, the kernel is full, or the peer is. */
    method SendLoop(framed: string) returns (sent: nat, outcome: Outcome)
      modifies this`pos, this`accepted
      ensures var p := Channels.Push(script, old(pos), framed);
              && (sent, outcome) == (p.taken, p.outcome)
              && Chan() == old(Chan()).(pos := p.pos, accepted := old(accepted) + framed[..p.taken])
    {
      hide Count, Push;
      sent := 0;
      assert framed[0..] == framed;
      ghost var whole := Channels.Push(script, pos, framed);
      while sent < |framed|
        invariant sent <= |framed| && accepted == old(accepted) + framed[..sent]
        invariant var p := Channels.Push(script, pos, framed[sent..]);
                  whole == Pushed(sent + p.taken, p.pos, p.outcome)
        decreases |script| - pos
      {
        ghost var before, sent0 := pos, sent;
        PushOnce(script, pos, framed[sent..]);
        var r := Send(framed[sent..]);
        match r {
          case Took(n) =>
            TookSome(script[before].n, |framed| - sent0);
            sent := sent + n;
            assert framed[sent0..][n..] == framed[sent..];
            assert framed[..sent0] + framed[sent0..][..n] == framed[..sent];
          case Interrupted =>
          case WouldBlock =>
            return sent, Blocked;
          case Failed =>
            return sent, Dead;
        }
      }
      PushOnce(script, pos, framed[sent..]);
      outcome := Done;
    }

    method Enqueue(line: string, ghost m: Msg)
      requires line == Text(m)
      modifies this
      ensures View() == Post(old(View()), m)
    {
      var framed := line + "\n";
      log := log + [m];
      if outbuf != [] {
        outbuf := outbuf + [framed];
        return;
      }
      var sent, outcome := SendLoop(framed);
      if outcome == Dead {
        lost := lost + 1;
        return;
      }
      if sent < |framed| {
        outbuf := outbuf + [framed[sent..]];
        if !wantWrite {
          wantWrite := true;
        }
      }
    }

    /** The drain loop of `on_writable`; false when a hard error ends the connection. */
    method Flush() returns (alive: bool)
      modifies this
      ensures (alive, View()) == (Drain(old(Chan())).0, old(View()).(chan := Drain(old(Chan())).1))
    {
      while outbuf != []
        invariant Drain(Chan()) == Drain(old(Chan()))
        invariant View() == old(View()).(chan := Chan())
        decreases |script| - pos
      {
        var front := outbuf[0];
        assert accepted + front[..0] == accepted;
        var r := Send(front);
        match r {
          case Took(n) =>
            if n == 0 {
              return false;
            }
            if n < |front| {
              outbuf := [front[n..]] + outbuf[1..];
              return true;
            }
            assert front[..n] == front;
            outbuf := outbuf[1..];
          case Interrupted =>
          case WouldBlock =>
            return true;
          case Failed =>
            return false;
        }
      }
      if wantWrite {
        wantWrite := false;
      }
      alive := true;
    }
  }

  /** What one `accept` gives; the descriptor comes with the answers its socket will give. */
  datatype Accepting =
    | Connected(fd: int, script: seq<Answer>)
    | Aborted       // EINTR, ECONNABORTED: try again
    | NoMore        // EAGAIN, EWOULDBLOCK, and any other error: stop

  /** The connections that one call of `accept_new` takes in. */
  function Connections(accepts: seq<Accepting>): seq<Step> {
    if accepts == [] || accepts[0] == NoMore then []
    else if accepts[0] == Aborted then Connections(accepts[1..])
    else [AcceptStep(accepts[0].fd, accepts[0].script)] + Connections(accepts[1..])
  }

  /** Every connection is taken in, in order, up to the first answer that ends the accepting. */
  lemma {:induction false} ConnectionsOf(before: seq<Accepting>, rest: seq<Accepting>)
    ensures NoMore !in before ==> Connections(before + rest) == Connections(before) + Connections(rest)
    ensures NoMore in before ==> Connections(before + rest) == Connections(before)
    decreases |before|
  {
    if before == [] {
      assert before + rest == rest;
    } else {
      assert (before + rest)[0] == before[0] && (before + rest)[1..] == before[1..] + rest;
      assert before == [before[0]] + before[1..];
      ConnectionsOf(before[1..], rest);
    }
  }

  lemma OneConnection(fd: int, script: seq<Answer>)
    ensures Connections([Connected(fd, script)]) == [AcceptStep(fd, script)]
    ensures Connections([Aborted]) == [] && Connections([NoMore]) == []
  {
    assert [Connected(fd, script)][1..] == [] && [Aborted][1..] == [];
    assert [AcceptStep(fd, script)] + [] == [AcceptStep(fd, script)];
  }

  /** A broadcast that has yet to reach the sessions in `todo`. */
  function PartBroadcast(c: Core, todo: set<int>, instrument: string, m: Msg): Core {
    c.(sessions := map fd | fd in c.sessions ::
         if fd !in todo && Listens(c.sessions[fd], instrument) then Post(c.sessions[fd], m) else c.sessions[fd])
  }

  lemma BroadcastStep(c: Core, todo: set<int>, instrument: string, m: Msg, fd: int)
    requires fd in c.sessions && fd in todo
    ensures PartBroadcast(c, todo, instrument, m).sessions[fd] == c.sessions[fd]
    ensures PartBroadcast(c, todo - {fd}, instrument, m) ==
              if Listens(c.sessions[fd], instrument) then Send(PartBroadcast(c, todo, instrument, m), fd, m)
              else PartBroadcast(c, todo, instrument, m)
  {
    var now, next := PartBroadcast(c, todo, instrument, m), PartBroadcast(c, todo - {fd}, instrument, m);
    if Listens(c.sessions[fd], instrument) {
      assert next.sessions == now.sessions[fd := Post(now.sessions[fd], m)];
    } else {
      assert next.sessions == now.sessions;
    }
  }

  lemma BroadcastEnds(c: Core, instrument: string, m: Msg)
    ensures PartBroadcast(c, c.sessions.Keys, instrument, m) == c
    ensures PartBroadcast(c, {}, instrument, m) == Broadcast(c, instrument, m)
  {
    assert PartBroadcast(c, c.sessions.Keys, instrument, m).sessions == c.sessions;
    assert PartBroadcast(c, {}, instrument, m).sessions == Broadcast(c, instrument, m).sessions;
  }

  lemma {:induction false} FillAt(execs: seq<Exec>, i: nat)
    requires i < |execs|
    ensures |FillsOf(execs)| == |execs| && FillsOf(execs)[i] == execs[i].fill
    decreases |execs|
  {
    var front := execs[..|execs| - 1];
    if front == [] {
    } else {
      FillAt(front, if i < |front| then i else 0);
    }
  }

  lemma FillsLength(execs: seq<Exec>)
    ensures |FillsOf(execs)| == |execs|
  {
    if execs != [] {
      FillAt(execs, 0);
    }
  }

  /** Handling `left` from `now` comes to the same as handling `lines` from `before`. */
  ghost predicate LinesLeft(before: Core, now: Core, fd: int, lines: seq<string>, left: seq<string>) {
    HandleAll(now, fd, left) == HandleAll(before, fd, lines) && (Quits(left) <==> Quits(lines))
  }

  lemma OneLineDone(before: Core, now: Core, fd: int, lines: seq<string>, line: string, rest: seq<string>)
    requires LinesLeft(before, now, fd, lines, [line] + rest)
    ensures IsQuit(line) ==> Quits(lines) && Exchange.HandleLine(now, fd, line) == HandleAll(before, fd, lines)
    ensures !IsQuit(line) ==> LinesLeft(before, Exchange.HandleLine(now, fd, line), fd, lines, rest)
  {
    hide Exchange.HandleLine, IsQuit;
    QuitsCons([line] + rest);
    assert ([line] + rest)[1..] == rest;
  }

  lemma LinesBegin(c: Core, fd: int, lines: seq<string>)
    ensures LinesLeft(c, c, fd, lines, lines)
  {
  }

  lemma NothingLeft(before: Core, now: Core, fd: int, lines: seq<string>)
    requires LinesLeft(before, now, fd, lines, [])
    ensures HandleAll(before, fd, lines) == now && !Quits(lines)
  {
  }

  /** One call of `next_line` on the buffer under `fd`: a line comes off, or there is none and nothing changes. */
  predicate LineTaken(before: Machine, after: Machine, fd: int, found: bool, line: string) {
    && fd in before.inbufs && fd in after.inbufs
    && after == before.(inbufs := before.inbufs[fd := after.inbufs[fd]])
    && var was, buf := before.inbufs[fd], after.inbufs[fd];
       if found then |buf| < |was| && Lines(was) == [line] + Lines(buf) && Rest(was) == Rest(buf)
       else was == buf && Lines(buf) == [] && Rest(buf) == buf
  }

  /** What is left to do after the buffer was fed: the line found, if any, and those still in the buffer. */
  ghost predicate Reading(fed: Machine, now: Machine, fd: int, found: bool, line: string) {
    && fd in fed.inbufs && fd in now.inbufs
    && now.inbufs == fed.inbufs[fd := now.inbufs[fd]]
    && Rest(fed.inbufs[fd]) == Rest(now.inbufs[fd])
    && (!found ==> Rest(now.inbufs[fd]) == now.inbufs[fd])
    && LinesLeft(fed.core, now.core, fd, Lines(fed.inbufs[fd]), if found then [line] + Lines(now.inbufs[fd]) else [])
  }

  lemma ReadingBegins(fed: Machine, now: Machine, fd: int, found: bool, line: string)
    requires LineTaken(fed, now, fd, found, line)
    ensures Reading(fed, now, fd, found, line)
  {
    hide Lines, Rest, LinesLeft;
    LinesBegin(fed.core, fd, Lines(fed.inbufs[fd]));
  }

  lemma ReadingGoesOn(fed: Machine, now: Machine, handled: Machine, next: Machine, fd: int, line: string,
                      found: bool, line': string)
    requires Reading(fed, now, fd, true, line) && !IsQuit(line)
    requires handled == now.(core := Exchange.HandleLine(now.core, fd, line))
    requires LineTaken(handled, next, fd, found, line')
    ensures Reading(fed, next, fd, found, line')
  {
    hide Lines, Rest, LinesLeft, Exchange.HandleLine, IsQuit;
    OneLineDone(fed.core, now.core, fd, Lines(fed.inbufs[fd]), line, Lines(now.inbufs[fd]));
  }

  /** The machine after its buffer under `fd` was fed. */
  function Fed(m: Machine, fd: int, bytes: string): Machine {
    m.(inbufs := m.inbufs[fd := Inbuf(m, fd) + bytes])
  }

  lemma ReadingQuits(m: Machine, now: Machine, fd: int, bytes: string, line: string)
    requires Reading(Fed(m, fd, bytes), now, fd, true, line) && IsQuit(line)
    ensures Arrive(m, fd, bytes) == (Machine(Exchange.HandleLine(now.core, fd, line), now.inbufs - {fd}), false)
  {
    hide Lines, Rest, LinesLeft, Exchange.HandleLine, IsQuit, Quits, HandleAll;
    OneLineDone(m.core, now.core, fd, Lines(Inbuf(m, fd) + bytes), line, Lines(now.inbufs[fd]));
    assert now.inbufs - {fd} == m.inbufs - {fd};
  }

  lemma ReadingEnds(m: Machine, now: Machine, fd: int, bytes: string, line: string)
    requires Reading(Fed(m, fd, bytes), now, fd, false, line)
    ensures Arrive(m, fd, bytes) == (now, true)
  {
    hide Lines, Rest, LinesLeft, Quits, HandleAll;
    NothingLeft(m.core, now.core, fd, Lines(Inbuf(m, fd) + bytes));
    assert now.inbufs == m.inbufs[fd := now.inbufs[fd]];
  }

  lemma InvOfMarket(c: Core)
    requires Safety.Inv(c)
    ensures Markets.Inv(c.market)
  {
  }

  class Server {
    const book: OrderBook
    var sessions: map<int, ClientSession>
    var nextSessionSeq: nat
    ghost var model: Machine
    ghost var steps: seq<Step>

    ghost function Inbufs(): set<LineBuffer>
      reads `sessions
    {
      set fd | fd in sessions :: sessions[fd].inbuf
    }

    ghost predicate BookLinked()
      reads `model, book
    {
      book.Valid() && book.book == model.core.market.book && book.nextId == model.core.market.nextId
    }

    /** No two sessions share an input buffer. */
    ghost predicate Apart()
      reads `sessions
    {
      forall fd, fd' :: fd in sessions && fd' in sessions && fd != fd' ==> sessions[fd].inbuf != sessions[fd'].inbuf
    }

    /** The session under `fd` is what the model has there. */
    ghost predicate Shown(fd: int)
      requires fd in sessions
      reads `sessions, `model, sessions[fd], sessions[fd].inbuf
    {
      && sessions[fd].fd == fd
      && fd in model.core.sessions && sessions[fd].View() == model.core.sessions[fd]
      && fd in model.inbufs && sessions[fd].inbuf.buf == model.inbufs[fd]
    }

    ghost predicate SessionsLinked()
      reads `sessions, `model, sessions.Values, Inbufs()
    {
      && sessions.Keys == model.core.sessions.Keys == model.inbufs.Keys
      && (forall fd :: fd in sessions ==> Shown(fd))
      && Apart()
    }

    /** The fields are the model's. */
    ghost predicate Linked()
      reads `sessions, `nextSessionSeq, `model, book, sessions.Values, Inbufs()
    {
      BookLinked() && SessionsLinked() && nextSessionSeq == model.core.nextSerial
    }

    /** Between events: the model is the state that the events so far lead to. */
    ghost predicate Valid()
      reads this, book, sessions.Values, Inbufs()
    {
      Linked() && model == Exchange.Run(steps)
    }

    ghost predicate Here(c: ClientSession)
      reads this
    {
      c.fd in sessions && sessions[c.fd] == c
    }

    lemma SeenAs(c: ClientSession)
      requires Linked() && Here(c)
      ensures c.fd in model.core.sessions && model.core.sessions[c.fd] == c.View()
      ensures c.fd in model.inbufs && model.inbufs[c.fd] == c.inbuf.buf
    {
    }

    /** When one session has changed, and the model with it, the rest stays linked as it was. */
    twostate lemma Relink(c: ClientSession)
      requires old(SessionsLinked()) && old(Here(c)) && sessions == old(sessions)
      requires forall other :: other in sessions.Values && other != c ==> unchanged(other)
      requires forall other :: other in sessions.Values ==> unchanged(other.inbuf)
      requires model.inbufs == old(model.inbufs)
      requires model.core.sessions == old(model.core.sessions)[c.fd := c.View()]
      ensures SessionsLinked()
    {
      assert old(Shown(c.fd));
      forall fd | fd in sessions && fd != c.fd
        ensures Shown(fd)
      {
        assert sessions[fd] in sessions.Values && sessions[fd] != c by {
          assert old(Shown(fd));
        }
        StillShown(fd);
      }
    }

    /** When one session's input buffer has changed, and the model with it, the rest stays linked as it was. */
    twostate lemma RelinkBuffer(c: ClientSession)
      requires old(SessionsLinked()) && old(Here(c)) && sessions == old(sessions)
      requires forall other :: other in sessions.Values ==>
                 unchanged(other) && (other.inbuf != c.inbuf ==> unchanged(other.inbuf))
      requires model.core.sessions == old(model.core.sessions)
      requires model.inbufs == old(model.inbufs)[c.fd := c.inbuf.buf]
      ensures SessionsLinked()
    {
      assert old(Shown(c.fd));
      forall fd | fd in sessions && fd != c.fd
        ensures Shown(fd)
      {
        assert sessions[fd] in sessions.Values;
        StillShown(fd);
      }
    }

    /** The model's market has changed with the book, or nothing in it that the fields show. */
    twostate lemma SameLinks()
      requires old(SessionsLinked()) && sessions == old(sessions)
      requires forall other :: other in sessions.Values ==> unchanged(other) && unchanged(other.inbuf)
      requires model.inbufs == old(model.inbufs) && model.core.sessions == old(model.core.sessions)
      ensures SessionsLinked()
    {
      forall fd | fd in sessions
        ensures Shown(fd)
      {
        assert sessions[fd] in sessions.Values;
        StillShown(fd);
      }
    }

    twostate lemma NewIsApart(fd: int, new c: ClientSession)
      requires old(Apart()) && fd !in old(sessions) && sessions == old(sessions)[fd := c] && fresh(c.inbuf)
      ensures Apart()
    {
      forall other | other in old(sessions)
        ensures sessions[other].inbuf != c.inbuf
      {
        assert old(allocated(sessions[other].inbuf));
      }
    }

    twostate lemma StillShown(other: int)
      requires other in old(sessions) && old(Shown(other))
      requires other in sessions && sessions[other] == old(sessions[other])
      requires unchanged(old(sessions[other])) && unchanged(old(sessions[other].inbuf))
      requires other in model.inbufs && model.inbufs[other] == old(model.inbufs[other])
      requires other in model.core.sessions && model.core.sessions[other] == old(model.core.sessions[other])
      ensures Shown(other)
    {
    }

    /** A session has joined, and the model with it. */
    twostate lemma LinkNew(fd: int, new c: ClientSession)
      requires old(SessionsLinked()) && fd !in old(sessions) && sessions == old(sessions)[fd := c]
      requires c.fd == fd && fresh(c.inbuf)
      requires forall other :: other in old(sessions.Values) ==> unchanged(other) && unchanged(other.inbuf)
      requires model.inbufs == old(model.inbufs)[fd := c.inbuf.buf]
      requires model.core.sessions == old(model.core.sessions)[fd := c.View()]
      ensures SessionsLinked()
    {
      NewIsApart(fd, c);
      forall other | other in old(sessions)
        ensures Shown(other)
      {
        assert old(sessions)[other] in old(sessions.Values);
        assert old(Shown(other));
        StillShown(other);
      }
      assert Shown(fd);
      hide Shown;
    }

    /** Nothing that links fields and model has changed. */
    twostate lemma StillLinked()
      requires old(Linked()) && unchanged(`sessions, `model, `nextSessionSeq, book)
      requires forall other :: other in sessions.Values ==> unchanged(other) && unchanged(other.inbuf)
      ensures Linked()
    {
    }

    lemma LinkedKeys()
      requires Linked()
      ensures sessions.Keys == model.core.sessions.Keys == model.inbufs.Keys
      ensures forall fd :: fd in sessions ==> sessions[fd].fd == fd
    {
    }

    constructor ()
      ensures Valid() && steps == [] && fresh(book)
      ensures sessions == map[] && nextSessionSeq == 1 && book.nextId == 0 && book.book == map[]
    {
      book := new OrderBook();
      sessions, nextSessionSeq := map[], 1;
      model, steps := Start(), [];
    }

    method Enqueue(c: ClientSession, line: string, ghost m: Msg)
      requires Linked() && Here(c) && line == Text(m)
      modifies this`model, c
      ensures Linked()
      ensures model == old(model).(core := Send(old(model.core), c.fd, m))
    {
      hide SessionsLinked, Text, Post, Books.Inv, Represents;
      SeenAs(c);
      c.Enqueue(line, m);
      model := model.(core := Send(model.core, c.fd, m));
      Relink(c);
    }

    method Refuse(c: ClientSession, reason: string)
      requires Linked() && Here(c)
      modifies this`model, c
      ensures Linked()
      ensures model == old(model).(core := Send(old(model.core), c.fd, Error(reason)))
    {
      Enqueue(c, MsgError(reason), Error(reason));
    }

    /** A broadcast as one session gets it. */
    method TellSubscriber(fd: int, instrument: string, line: string, ghost m: Msg)
      requires Linked() && fd in sessions && line == Text(m)
      modifies this`model, sessions[fd]
      ensures Linked() && fd in old(model.core.sessions)
      ensures model == if Listens(old(model.core.sessions[fd]), instrument)
                       then old(model).(core := Send(old(model.core), fd, m)) else old(model)
    {
      hide Linked, Send, Text;
      LinkedKeys();
      var sub := sessions[fd];
      SeenAs(sub);
      if sub.role == MarketData && instrument in sub.subscriptions {
        Enqueue(sub, line, m);
      }
    }

    method BroadcastTrade(instrument: string, qty: int, price: int, ghost e: Exec)
      requires Linked() && e.fill.instrument == instrument && e.fill.qty == qty && e.fill.price == price
      modifies this`model, sessions.Values
      ensures Linked()
      ensures model == old(model).(core := Broadcast(old(model.core), instrument, Trade(e)))
    {
      hide Linked, Listens, Send, PartBroadcast, Broadcast;
      LinkedKeys();
      var msg := MsgTrade(instrument, qty, price);
      ghost var before := model;
      BroadcastEnds(before.core, instrument, Trade(e));
      var todo := sessions.Keys;
      while todo != {}
        invariant Linked() && todo <= sessions.Keys == before.core.sessions.Keys
        invariant model == before.(core := PartBroadcast(before.core, todo, instrument, Trade(e)))
        decreases todo
      {
        label picking:
        var fd := Pick(todo);
        StillLinked@picking();
        BroadcastStep(before.core, todo, instrument, Trade(e), fd);
        todo := todo - {fd};
        TellSubscriber(fd, instrument, msg, Trade(e));
      }
    }

    /** The report to one party of a fill, if that very connection is still there. */
    method SendReport(fd: int, serial: nat, line: string, ghost m: Msg)
      requires Linked() && line == Text(m)
      modifies this`model, sessions.Values
      ensures Linked()
      ensures model == old(model).(core := Report(old(model.core), fd, serial, m))
    {
      hide Send, SessionsLinked, Post, Text, Books.Inv, Represents;
      LinkedKeys();
      if fd in sessions {
        var party := sessions[fd];
        SeenAs(party);
        if party.serial == serial {
          Enqueue(party, line, m);
        }
      }
    }

    method DeliverFill(f: Fill, ghost e: Exec)
      requires Linked() && e.fill == f
      modifies this`model, sessions.Values
      ensures Linked()
      ensures model == old(model).(core := Deliver(old(model.core), e))
    {
      hide SessionsLinked, Report, Broadcast, Books.Inv, Represents, Post;
      model := model.(core := model.core.(hist := model.core.hist + [InMarket(Traded(e))]));
      SameLinks();
      SendReport(f.buyerFd, f.buyerSeq, MsgBought(f.instrument, f.qty, f.price), Bought(e));
      SendReport(f.sellFd, f.sellSeq, MsgSold(f.instrument, f.qty, f.price), Sold(e));
      BroadcastTrade(f.instrument, f.qty, f.price, e);
    }

    method DeliverFills(fills: seq<Fill>, ghost execs: seq<Exec>)
      requires Linked() && fills == FillsOf(execs)
      modifies this`model, sessions.Values
      ensures Linked()
      ensures model == old(model).(core := DeliverAll(old(model.core), execs))
    {
      hide Linked, Deliver, Books.Inv, Represents, FillsOf;
      ghost var core := model.core;
      FillsLength(execs);
      var i := 0;
      while i < |fills|
        invariant 0 <= i <= |fills| == |execs| && Linked()
        invariant model == old(model).(core := DeliverAll(core, execs[..i]))
      {
        FillAt(execs, i);
        assert execs[..i + 1][..i] == execs[..i];
        DeliverFill(fills[i], execs[i]);
        i := i + 1;
      }
      assert execs[..i] == execs;
    }

    /** `next_id`; while the order is not in the market yet, the model shares the book's counter. */
    method NextOrderId() returns (id: nat)
      requires Linked()
      modifies this`model, book
      ensures Linked() && id == old(model.core.market.nextId) && book.book == old(book.book)
      ensures model == old(model).(core := old(model.core).(market := old(model.core.market).(nextId := id + 1)))
    {
      hide SessionsLinked, Represents, Books.Inv;
      id := book.NextId();
      model := model.(core := model.core.(market := model.core.market.(nextId := id + 1)));
      SameLinks();
    }

    /** `submit`, once the order has its id. */
    method SubmitOrder(o: Order, ghost market: Market) returns (fills: seq<Fill>, ghost execs: seq<Exec>)
      requires Linked() && o.id == market.nextId && model.core.market == market.(nextId := o.id + 1)
      requires o.qty > 0 ==> Books.Fresh(market.book, o.id)
      modifies this`model, book
      ensures Linked()
      ensures execs == Books.Submit(market.book, o).execs && fills == FillsOf(execs)
      ensures model == old(model).(core := old(model.core).(
                market := Place(market, o), hist := old(model.core.hist) + [InMarket(Submitted(o))]))
    {
      hide SessionsLinked, Represents, Books.Inv, Books.Submit, Books.Fresh, Trades;
      fills, execs := book.Submit(o);
      assert o.(id := market.nextId) == o;
      model := model.(core := model.core.(
        market := Place(market, o), hist := model.core.hist + [InMarket(Submitted(o))]));
      SameLinks();
    }

    method PlaceOrder(c: ClientSession, side: Side, instrument: string, qty: int, price: int)
      requires Linked() && Here(c) && Markets.Inv(model.core.market)
      modifies this`model, book, sessions.Values
      ensures Linked()
      ensures model == old(model).(core := Exchange.PlaceOrder(old(model.core), c.fd, side, instrument, qty, price))
    {
      ghost var core := model.core;
      SeenAs(c);
      assert Books.Fresh(core.market.book, core.market.nextId) by {
        NextIdIsFresh(core.market);
      }
      hide Linked, Post, Place, DeliverAll, Represents, Books.Submit, Books.Fresh, Markets.Inv, Books.Inv;
      var id := NextOrderId();
      var o := Order(id, side, instrument, qty, price, c.fd, c.serial);
      Enqueue(c, MsgOrderAccepted(o.id), Accepted(o.id));
      var fills, execs := SubmitOrder(o, core.market);
      DeliverFills(fills, execs);
    }

    // ------------------------------------------------------------------ commands

    method NameInUse(fd: int, name: string) returns (taken: bool)
      requires Linked()
      ensures taken == NameTaken(model.core, fd, name)
      ensures taken <==> exists other :: other in sessions && other != fd && sessions[other].username == name
    {
      hide Represents, Books.Inv;
      var todo := sessions.Keys;
      while todo != {}
        invariant todo <= sessions.Keys
        invariant forall other :: other in sessions && other !in todo && other != fd ==>
                    sessions[other].username != name
        decreases todo
      {
        var other := Pick(todo);
        if other != fd && sessions[other].username == name {
          assert model.core.sessions[other].username == name;
          return true;
        }
        todo := todo - {other};
      }
      return false;
    }

    method SetName(c: ClientSession, name: string)
      requires Linked() && Here(c)
      modifies this`model, c
      ensures Linked()
      ensures model == old(model).(core := old(model.core).(
                sessions := old(model.core.sessions)[c.fd := old(model.core.sessions[c.fd]).(username := name)]))
    {
      hide SessionsLinked, Represents, Books.Inv;
      SeenAs(c);
      c.username := name;
      model := model.(core := model.core.(
        sessions := model.core.sessions[c.fd := model.core.sessions[c.fd].(username := name)]));
      Relink(c);
    }

    method Login(c: ClientSession, t: seq<string>)
      requires Linked() && Here(c) && t != []
      modifies this`model, c
      ensures Linked()
      ensures model == old(model).(core := Exchange.Login(old(model.core), c.fd, t))
    {
      hide Linked, Send;
      SeenAs(c);
      if |t| != 2 {
        Refuse(c, "usage: LOGIN <username>");
        return;
      }
      if c.LoggedIn() {
        Refuse(c, "already logged in");
        return;
      }
      var taken := NameInUse(c.fd, t[1]);
      StillLinked();
      if taken {
        Refuse(c, "username already in use");
        return;
      }
      SetName(c, t[1]);
      Enqueue(c, MsgOk(), Ok);
    }

    /** The checks on a BUY or SELL, in order; why it is refused, if it is. */
    method CheckOrder(t: seq<string>) returns (refusal: Option<string>, qty: int, price: int)
      requires t != []
      ensures refusal == if |t| != 4 then Some("usage: " + t[0] + " <instrument> <quantity> <price>")
                         else if t[1] !in INSTRUMENTS then Some("unknown instrument " + t[1])
                         else if Parse(t[2], 1).None? then Some("quantity must be an integer in 1..2147483647")
                         else if Parse(t[3], 1).None? then Some("price must be an integer in 1..2147483647")
                         else None
      ensures refusal.None? ==> Parse(t[2], 1) == Some(qty) && Parse(t[3], 1) == Some(price)
    {
      hide Parse;
      qty, price := 0, 0;
      if |t| != 4 {
        return Some("usage: " + t[0] + " <instrument> <quantity> <price>"), qty, price;
      }
      var valid := IsValidInstrument(t[1]);
      if !valid {
        return Some("unknown instrument " + t[1]), qty, price;
      }
      var ok;
      ok, qty := ParsePositiveInt(t[2], qty);
      if !ok {
        return Some("quantity must be an integer in 1..2147483647"), qty, price;
      }
      ok, price := ParsePositiveInt(t[3], price);
      if !ok {
        return Some("price must be an integer in 1..2147483647"), qty, price;
      }
      return None, qty, price;
    }

    method BuyOrSell(c: ClientSession, t: seq<string>)
      requires Linked() && Here(c) && t != [] && Markets.Inv(model.core.market)
      modifies this`model, book, sessions.Values
      ensures Linked()
      ensures model == old(model).(core := Exchange.BuyOrSell(old(model.core), c.fd, t))
    {
      hide Linked, Send, Exchange.PlaceOrder, Parse, Markets.Inv;
      SeenAs(c);
      var refusal, qty, price := CheckOrder(t);
      StillLinked();
      if refusal.Some? {
        Refuse(c, refusal.value);
        return;
      }
      PlaceOrder(c, if t[0] == "BUY" then Buy else Sell, t[1], qty, price);
    }

    method CancelInBook(c: ClientSession, id: int) returns (done: bool)
      requires Linked() && Here(c)
      modifies this`model, book
      ensures Linked()
      ensures done <==> Books.Owned(old(model.core.market.book), id, c.fd, c.serial)
      ensures done ==> Books.Rests(old(model.core.market.book), id)
      ensures done ==> model == old(model).(core := old(model.core).(
                market := Withdraw(old(model.core.market), id, c.fd, c.serial),
                hist := old(model.core.hist) + [InMarket(Cancelled(Resting(old(model.core.market.book), id)))]))
      ensures !done ==> model == old(model)
    {
      hide SessionsLinked, Represents, Books.Inv, Books.Delete, Books.Owned;
      ghost var market := model.core.market;
      done := book.Cancel(id, c.fd, c.serial);
      if done {
        OwnedRests(market.book, id, c.fd, c.serial);
        model := model.(core := model.core.(
          market := Withdraw(market, id, c.fd, c.serial),
          hist := model.core.hist + [InMarket(Cancelled(Resting(market.book, id)))]));
      }
      SameLinks();
    }

    method CancelCmd(c: ClientSession, t: seq<string>)
      requires Linked() && Here(c) && t != []
      modifies this`model, book, c
      ensures Linked()
      ensures model == old(model).(core := Exchange.CancelCmd(old(model.core), c.fd, t))
    {
      hide Linked, Send, Parse, Books.Owned, Withdraw, Resting;
      SeenAs(c);
      if |t| != 2 {
        Refuse(c, "usage: CANCEL <order_id>");
        return;
      }
      var ok, id := ParseNonnegativeInt(t[1], 0);
      StillLinked();
      if !ok {
        Refuse(c, "order id must be an integer in 0..2147483647");
        return;
      }
      var done := CancelInBook(c, id);
      if done {
        Enqueue(c, MsgOrderCancelled(id), Withdrawal(id));
      } else {
        Refuse(c, "cannot cancel order " + t[1]);
      }
    }

    method SetSubscription(c: ClientSession, on: bool, instrument: string)
      requires Linked() && Here(c)
      modifies this`model, c
      ensures Linked()
      ensures var s := old(model.core.sessions[c.fd]);
              model == old(model).(core := old(model.core).(
                sessions := old(model.core.sessions)[c.fd :=
                  s.(subs := if on then s.subs + {instrument} else s.subs - {instrument})],
                hist := old(model.core.hist)
                  + [if on then Subscribed(s.serial, instrument) else Unsubscribed(s.serial, instrument)]))
    {
      hide SessionsLinked, Represents, Books.Inv;
      SeenAs(c);
      ghost var s := model.core.sessions[c.fd];
      if on {
        c.subscriptions := c.subscriptions + {instrument};
      } else {
        c.subscriptions := c.subscriptions - {instrument};
      }
      model := model.(core := model.core.(
        sessions := model.core.sessions[c.fd := s.(subs := c.subscriptions)],
        hist := model.core.hist
          + [if on then Subscribed(s.serial, instrument) else Unsubscribed(s.serial, instrument)]));
      Relink(c);
    }

    method Subscription(c: ClientSession, t: seq<string>)
      requires Linked() && Here(c) && t != []
      modifies this`model, c
      ensures Linked()
      ensures model == old(model).(core := Exchange.Subscription(old(model.core), c.fd, t))
    {
      hide Linked, Send;
      SeenAs(c);
      if |t| != 2 {
        Refuse(c, "usage: " + t[0] + " <instrument>");
        return;
      }
      var valid := IsValidInstrument(t[1]);
      StillLinked();
      if !valid {
        Refuse(c, "unknown instrument " + t[1]);
        return;
      }
      SetSubscription(c, t[0] == "SUBSCRIBE", t[1]);
      Enqueue(c, MsgOk(), Ok);
    }

    /** Closing an unknown descriptor does nothing: a session is never torn down twice. */
    method CloseSession(fd: int)
      requires Linked()
      modifies this`model, this`sessions
      ensures Linked()
      ensures model == Hangup(old(model), fd) && sessions == old(sessions) - {fd}
    {
      hide Represents, Books.Inv;
      if fd !in sessions {
        assert sessions - {fd} == sessions;
        return;
      }
      sessions := sessions - {fd};
      model := Hangup(model, fd);
    }

    method AssignSessionRole(c: ClientSession, cmd: string)
      requires Linked() && Here(c)
      modifies this`model, c
      ensures Linked()
      ensures model == old(model).(core := SetRole(old(model.core), c.fd, cmd))
    {
      hide SessionsLinked, Represents, Books.Inv;
      SeenAs(c);
      var traderCmd := TraderCmd(cmd);
      var marketDataCmd := MarketDataCmd(cmd);
      if c.role == Unknown {
        if traderCmd {
          c.role := Trader;
        } else if marketDataCmd {
          c.role := MarketData;
        }
      }
      model := model.(core := SetRole(model.core, c.fd, cmd));
      Relink(c);
    }

    /** Only the history takes note of the line as such. */
    ghost method NoteLine(c: ClientSession, line: string)
      requires Linked() && Here(c)
      modifies this`model
      ensures Linked()
      ensures model == old(model).(core := Note(old(model.core), c.fd, line))
    {
      hide SessionsLinked, Represents, Books.Inv;
      SeenAs(c);
      model := model.(core := Note(model.core, c.fd, line));
      SameLinks();
    }

    /** False when the line was QUIT: the session is gone, and with it its input buffer. */
    method HandleLine(c: ClientSession, line: string) returns (alive: bool)
      requires Linked() && Here(c) && Markets.Inv(model.core.market)
      modifies this`model, this`sessions, book, sessions.Values
      ensures Linked() && alive == !IsQuit(line)
      ensures sessions == if alive then old(sessions) else old(sessions) - {c.fd}
      ensures model == Machine(Exchange.HandleLine(old(model.core), c.fd, line),
                               if alive then old(model.inbufs) else old(model.inbufs) - {c.fd})
    {
      hide Linked, Send, Markets.Inv, Exchange.Login, Exchange.BuyOrSell, Exchange.CancelCmd,
           Exchange.Subscription, Exchange.CloseSession;
      alive := true;
      var t := Tokenize(line);
      StillLinked();
      SeenAs(c);
      NoteLine(c, line);
      if t == [] {
        Refuse(c, "empty");
        return;
      }
      var cmd := t[0];
      AssignSessionRole(c, cmd);
      SeenAs(c);
      if TraderCmd(cmd) && c.role != Trader {
        Refuse(c, "market-data clients cannot send " + cmd);
      } else if MarketDataCmd(cmd) && c.role != MarketData {
        Refuse(c, "traders cannot send " + cmd);
      } else if cmd == "LOGIN" {
        Login(c, t);
      } else if cmd == "BUY" || cmd == "SELL" {
        BuyOrSell(c, t);
      } else if cmd == "CANCEL" {
        CancelCmd(c, t);
      } else if MarketDataCmd(cmd) {
        Subscription(c, t);
      } else if cmd == "QUIT" {
        CloseSession(c.fd);
        alive := false;
      } else {
        Refuse(c, "unknown command");
      }
    }

    // -------------------------------------------------------------------- events

    method Feed(c: ClientSession, bytes: string)
      requires Linked() && Here(c)
      modifies this`model, c.inbuf
      ensures Linked()
      ensures model == old(model).(inbufs := old(model.inbufs)[c.fd := old(model.inbufs[c.fd]) + bytes])
    {
      hide SessionsLinked, Represents, Books.Inv;
      SeenAs(c);
      c.inbuf.Feed(bytes);
      model := model.(inbufs := model.inbufs[c.fd := c.inbuf.buf]);
      RelinkBuffer(c);
    }

    method TakeLine(c: ClientSession) returns (found: bool, line: string)
      requires Linked() && Here(c)
      modifies this`model, c.inbuf
      ensures Linked() && LineTaken(old(model), model, c.fd, found, line)
    {
      hide SessionsLinked, Represents, Books.Inv, Lines, Rest;
      SeenAs(c);
      assert model.inbufs[c.fd := model.inbufs[c.fd]] == model.inbufs;
      found, line := c.inbuf.NextLine();
      if found {
        model := model.(inbufs := model.inbufs[c.fd := c.inbuf.buf]);
      }
      RelinkBuffer(c);
    }

    /** A line in the course of reading, where the server invariant holds. */
    method HandleNext(c: ClientSession, line: string) returns (alive: bool)
      requires Linked() && Here(c) && Safety.Inv(model.core)
      modifies this`model, this`sessions, book, sessions.Values
      ensures Linked() && Safety.Inv(model.core) && alive == !IsQuit(line)
      ensures sessions == if alive then old(sessions) else old(sessions) - {c.fd}
      ensures model == Machine(Exchange.HandleLine(old(model.core), c.fd, line),
                               if alive then old(model.inbufs) else old(model.inbufs) - {c.fd})
    {
      hide Linked, Safety.Inv, Exchange.HandleLine, IsQuit;
      InvOfMarket(model.core);
      HandleLineKeepsInv(model.core, c.fd, line);
      alive := HandleLine(c, line);
    }

    /** One chunk: fed to the line buffer, then every complete line handled, until QUIT if there is one. */
    method TakeBytes(c: ClientSession, bytes: string) returns (alive: bool)
      requires Linked() && Here(c) && Safety.Inv(model.core)
      modifies this`model, this`sessions, book, sessions.Values, c.inbuf
      ensures Linked() && Safety.Inv(model.core)
      ensures (model, alive) == Arrive(old(model), c.fd, bytes)
      ensures sessions == if alive then old(sessions) else old(sessions) - {c.fd}
    {
      hide Linked, Safety.Inv, Exchange.HandleLine, IsQuit, Reading, Lines, Rest, Arrive;
      LinkedKeys();
      ghost var fd, m0 := c.fd, model;
      Feed(c, bytes);
      ghost var fed := model;
      assert fed == Fed(m0, fd, bytes);
      var found, line := TakeLine(c);
      ReadingBegins(fed, model, fd, found, line);
      while found
        invariant Linked() && Safety.Inv(model.core) && sessions == old(sessions) && fd in model.inbufs
        invariant Reading(fed, model, fd, found, line)
        decreases found, |model.inbufs[fd]|
      {
        ghost var now, taken := model, line;
        alive := HandleNext(c, line);
        if !alive {
          ReadingQuits(m0, now, fd, bytes, line);
          return;
        }
        ghost var handled := model;
        found, line := TakeLine(c);
        ReadingGoesOn(fed, now, handled, model, fd, taken, found, line);
      }
      ReadingEnds(m0, model, fd, bytes, line);
      alive := true;
    }

    /** Keep reading until nothing is left, the peer is gone, or QUIT was read. */
    method OnReadable(fd: int, recvs: seq<Received>)
      requires Valid()
      modifies this, book, sessions.Values, Inbufs()
      ensures Valid() && steps == old(steps) + [ReadStep(fd, recvs)]
    {
      hide Linked, Safety.Inv, Arrive, Exchange.Run;
      ghost var m0 := model;
      RunSnoc(steps, ReadStep(fd, recvs));
      RunIsSafe(steps);
      steps := steps + [ReadStep(fd, recvs)];
      LinkedKeys();
      if fd in sessions {
        var c := sessions[fd];
        var i := 0;
        assert recvs[0..] == recvs;
        while i < |recvs|
          invariant 0 <= i <= |recvs| && Linked() && Safety.Inv(model.core) && sessions == old(sessions)
          invariant fd in model.core.sessions
          invariant Readable(model, fd, recvs[i..]) == Readable(m0, fd, recvs)
          invariant steps == old(steps) + [ReadStep(fd, recvs)]
        {
          assert recvs[i..][1..] == recvs[i + 1..];
          match recvs[i] {
            case Got(bytes) =>
              if bytes == "" {
                CloseSession(fd);
                return;
              }
              var alive := TakeBytes(c, bytes);
              if !alive {
                return;
              }
              LinkedKeys();
            case TryAgain =>
            case Exhausted =>
              return;
            case Broken =>
              CloseSession(fd);
              return;
          }
          i := i + 1;
        }
        assert recvs[i..] == [];
      }
    }

    method OnWritable(fd: int)
      requires Valid()
      modifies this`model, this`sessions, this`steps, sessions.Values
      ensures Valid() && steps == old(steps) + [WriteStep(fd)]
    {
      hide Linked, Exchange.Run, Drain;
      LinkedKeys();
      RunSnoc(steps, WriteStep(fd));
      steps := steps + [WriteStep(fd)];
      StillLinked();
      if fd in sessions {
        var c := sessions[fd];
        var alive := FlushSession(c);
        if !alive {
          CloseSession(fd);
        }
      }
    }

    method FlushSession(c: ClientSession) returns (alive: bool)
      requires Linked() && Here(c)
      modifies this`model, c
      ensures Linked()
      ensures var s := old(model.core.sessions[c.fd]);
              alive == Drain(s.chan).0
              && model == old(model).(core := old(model.core).(
                   sessions := old(model.core.sessions)[c.fd := s.(chan := Drain(s.chan).1)]))
    {
      hide SessionsLinked, Represents, Books.Inv, Drain;
      SeenAs(c);
      ghost var s := model.core.sessions[c.fd];
      alive := c.Flush();
      model := model.(core := model.core.(sessions := model.core.sessions[c.fd := s.(chan := Drain(s.chan).1)]));
      Relink(c);
    }

    /** An error or end-of-file event from the kernel. */
    method OnHangup(fd: int)
      requires Valid()
      modifies this`model, this`sessions, this`steps
      ensures Valid() && steps == old(steps) + [HangupStep(fd)]
    {
      hide Linked, Exchange.Run;
      RunSnoc(steps, HangupStep(fd));
      steps := steps + [HangupStep(fd)];
      StillLinked();
      CloseSession(fd);
    }

    method AcceptOne(fd: int, script: seq<Answer>)
      requires Valid() && fd !in sessions
      modifies this`model, this`sessions, this`steps, this`nextSessionSeq
      ensures Valid() && steps == old(steps) + [AcceptStep(fd, script)]
      ensures sessions.Keys == old(sessions.Keys) + {fd}
    {
      hide Linked, Accept, Exchange.Run;
      RunSnoc(steps, AcceptStep(fd, script));
      steps := steps + [AcceptStep(fd, script)];
      StillLinked();
      AddSession(fd, script);
    }

    method AddSession(fd: int, script: seq<Answer>)
      requires Linked() && fd !in sessions
      modifies this`model, this`sessions, this`nextSessionSeq
      ensures Linked()
      ensures model == Accept(old(model), fd, script) && sessions.Keys == old(sessions.Keys) + {fd}
    {
      hide SessionsLinked, Represents, Books.Inv;
      LinkedKeys();
      var c := new ClientSession(fd, nextSessionSeq, script);
      nextSessionSeq := nextSessionSeq + 1;
      sessions := sessions[fd := c];
      model := Accept(model, fd, script);
      LinkNew(fd, c);
    }

    /** Every descriptor the kernel hands out is one that is not in use. */
    method AcceptNew(accepts: seq<Accepting>)
      requires Valid()
      requires forall i :: 0 <= i < |accepts| && accepts[i].Connected? ==> accepts[i].fd !in sessions
      requires forall i, j :: 0 <= i < j < |accepts| && accepts[i].Connected? && accepts[j].Connected? ==>
                 accepts[i].fd != accepts[j].fd
      modifies this`model, this`sessions, this`steps, this`nextSessionSeq
      ensures Valid() && steps == old(steps) + Connections(accepts)
      ensures forall i :: 0 <= i < |accepts| && accepts[i].Connected? && NoMore !in accepts[..i] ==>
                accepts[i].fd in sessions
    {
      hide Exchange.Run, Linked;
      var i := 0;
      assert accepts[0..] == accepts;
      while i < |accepts|
        invariant 0 <= i <= |accepts| && Valid()
        invariant steps + Connections(accepts[i..]) == old(steps) + Connections(accepts)
        invariant forall j :: i <= j < |accepts| && accepts[j].Connected? ==> accepts[j].fd !in sessions
        invariant forall j :: 0 <= j < i && accepts[j].Connected? ==> accepts[j].fd in sessions
      {
        assert accepts[i..][1..] == accepts[i + 1..] && accepts[i..][0] == accepts[i];
        match accepts[i] {
          case Connected(fd, script) =>
            ghost var before := steps;
            AcceptOne(fd, script);
            ghost var later := Connections(accepts[i + 1..]);
            assert before + ([AcceptStep(fd, script)] + later) == steps + later;
          case Aborted =>
          case NoMore =>
            assert steps + [] == steps;
            assert forall j :: i < j < |accepts| ==> accepts[..j][i] == NoMore;
            return;
        }
        i := i + 1;
      }
      assert accepts[i..] == [] && steps + [] == steps;
    }
  }
}
