/**
  The exchange server as a state machine on values: sessions, market and history. Every function here
  states what one handler of the program does to the whole state; `Servers` ties the handlers to them.
*/
module Exchange {
  import opened Matching
  import opened Protocol
  import opened Framing
  import opened Markets
  import opened Channels
  import Books

  datatype Role = Unknown | Trader | MarketData

  /** A message to a client. The executions carry their order ids, which the text does not show. */
  datatype Msg =
    | Ok
    | Error(reason: string)
    | Accepted(id: int)
    | Withdrawal(id: int)
    | Bought(exec: Exec)
    | Sold(exec: Exec)
    | Trade(exec: Exec)

  function Text(m: Msg): string {
    match m
    case Ok => MsgOk()
    case Error(reason) => MsgError(reason)
    case Accepted(id) => MsgOrderAccepted(id)
    case Withdrawal(id) => MsgOrderCancelled(id)
    case Bought(e) => MsgBought(e.fill.instrument, e.fill.qty, e.fill.price)
    case Sold(e) => MsgSold(e.fill.instrument, e.fill.qty, e.fill.price)
    case Trade(e) => MsgTrade(e.fill.instrument, e.fill.qty, e.fill.price)
  }

  /** A connection; `log` is every message ever enqueued for it. */
  datatype Session = Session(
    fd: int, serial: nat, role: Role, username: string, subs: set<string>, chan: Channel, log: seq<Msg>)

  /** What happened, in order, to the sessions and in the market. */
  datatype Happening =
    | Opened(serial: nat)
    | Closed(serial: nat)
    | Subscribed(serial: nat, instrument: string)
    | Unsubscribed(serial: nat, instrument: string)
    | Handled(serial: nat, line: string)
    | InMarket(event: Event)

  /** `closed` keeps what each former session was when it ended; the program forgets it. */
  datatype Core = Core(
    sessions: map<int, Session>, closed: map<nat, Session>, nextSerial: nat, market: Market, hist: seq<Happening>)

  // ------------------------------------------------------------------- sending

  function Post(s: Session, m: Msg): Session {
    s.(chan := Channels.Enqueue(s.chan, Text(m)), log := s.log + [m])
  }

  function Send(c: Core, fd: int, m: Msg): Core {
    if fd in c.sessions then c.(sessions := c.sessions[fd := Post(c.sessions[fd], m)]) else c
  }

  /** An execution report goes out only while the very connection that placed the order is still there. */
  function Report(c: Core, fd: int, serial: nat, m: Msg): Core {
    if fd in c.sessions && c.sessions[fd].serial == serial then Send(c, fd, m) else c
  }

  predicate Listens(s: Session, instrument: string) {
    s.role == MarketData && instrument in s.subs
  }

  function Broadcast(c: Core, instrument: string, m: Msg): Core {
    c.(sessions := map fd | fd in c.sessions ::
         if Listens(c.sessions[fd], instrument) then Post(c.sessions[fd], m) else c.sessions[fd])
  }

  function Deliver(c: Core, e: Exec): Core {
    var traded := c.(hist := c.hist + [InMarket(Traded(e))]);
    var told := Report(traded, e.fill.buyerFd, e.fill.buyerSeq, Bought(e));
    var toldBoth := Report(told, e.fill.sellFd, e.fill.sellSeq, Sold(e));
    Broadcast(toldBoth, e.fill.instrument, Trade(e))
  }

  function DeliverAll(c: Core, execs: seq<Exec>): Core {
    if execs == [] then c else Deliver(DeliverAll(c, execs[..|execs| - 1]), execs[|execs| - 1])
  }

  // ------------------------------------------------------------------ commands

  predicate TraderCmd(cmd: string) {
    cmd == "LOGIN" || cmd == "BUY" || cmd == "SELL" || cmd == "CANCEL"
  }

  predicate MarketDataCmd(cmd: string) {
    cmd == "SUBSCRIBE" || cmd == "UNSUBSCRIBE"
  }

  /** The first command of one kind fixes the role, whatever becomes of the command. */
  function AssignRole(role: Role, cmd: string): Role {
    if role != Unknown then role
    else if TraderCmd(cmd) then Trader
    else if MarketDataCmd(cmd) then MarketData
    else Unknown
  }

  function SetRole(c: Core, fd: int, cmd: string): Core
    requires fd in c.sessions
  {
    c.(sessions := c.sessions[fd := c.sessions[fd].(role := AssignRole(c.sessions[fd].role, cmd))])
  }

  predicate NameTaken(c: Core, fd: int, name: string) {
    exists other :: other in c.sessions && other != fd && c.sessions[other].username == name
  }

  function Login(c: Core, fd: int, t: seq<string>): Core
    requires fd in c.sessions && t != []
  {
    if |t| != 2 then Send(c, fd, Error("usage: LOGIN <username>"))
    else if c.sessions[fd].username != "" then Send(c, fd, Error("already logged in"))
    else if NameTaken(c, fd, t[1]) then Send(c, fd, Error("username already in use"))
    else Send(c.(sessions := c.sessions[fd := c.sessions[fd].(username := t[1])]), fd, Ok)
  }

  /** ORDER_ACCEPTED goes out first; then the order is matched and its executions are reported. */
  function PlaceOrder(c: Core, fd: int, side: Side, instrument: string, qty: int, price: int): Core
    requires fd in c.sessions
  {
    var o := Order(c.market.nextId, side, instrument, qty, price, fd, c.sessions[fd].serial);
    var told := Send(c, fd, Accepted(o.id));
    var placed := told.(market := Place(c.market, o), hist := told.hist + [InMarket(Submitted(o))]);
    DeliverAll(placed, Books.Submit(c.market.book, o).execs)
  }

  function BuyOrSell(c: Core, fd: int, t: seq<string>): Core
    requires fd in c.sessions && t != []
  {
    if |t| != 4 then Send(c, fd, Error("usage: " + t[0] + " <instrument> <quantity> <price>"))
    else if t[1] !in INSTRUMENTS then Send(c, fd, Error("unknown instrument " + t[1]))
    else if Parse(t[2], 1).None? then Send(c, fd, Error("quantity must be an integer in 1..2147483647"))
    else if Parse(t[3], 1).None? then Send(c, fd, Error("price must be an integer in 1..2147483647"))
    else PlaceOrder(c, fd, if t[0] == "BUY" then Buy else Sell, t[1], Parse(t[2], 1).value, Parse(t[3], 1).value)
  }

  ghost function CancelOrder(c: Core, fd: int, id: int, text: string): Core
    requires fd in c.sessions
  {
    var serial := c.sessions[fd].serial;
    if Books.Owned(c.market.book, id, fd, serial) then
      OwnedRests(c.market.book, id, fd, serial);
      var gone := Cancelled(Resting(c.market.book, id));
      Send(c.(market := Withdraw(c.market, id, fd, serial), hist := c.hist + [InMarket(gone)]), fd, Withdrawal(id))
    else Send(c, fd, Error("cannot cancel order " + text))
  }

  ghost function CancelCmd(c: Core, fd: int, t: seq<string>): Core
    requires fd in c.sessions && t != []
  {
    if |t| != 2 then Send(c, fd, Error("usage: CANCEL <order_id>"))
    else if Parse(t[1], 0).None? then Send(c, fd, Error("order id must be an integer in 0..2147483647"))
    else CancelOrder(c, fd, Parse(t[1], 0).value, t[1])
  }

  function Subscription(c: Core, fd: int, t: seq<string>): Core
    requires fd in c.sessions && t != []
  {
    var s := c.sessions[fd];
    if |t| != 2 then Send(c, fd, Error("usage: " + t[0] + " <instrument>"))
    else if t[1] !in INSTRUMENTS then Send(c, fd, Error("unknown instrument " + t[1]))
    else if t[0] == "SUBSCRIBE" then
      Send(c.(sessions := c.sessions[fd := s.(subs := s.subs + {t[1]})],
              hist := c.hist + [Subscribed(s.serial, t[1])]), fd, Ok)
    else
      Send(c.(sessions := c.sessions[fd := s.(subs := s.subs - {t[1]})],
              hist := c.hist + [Unsubscribed(s.serial, t[1])]), fd, Ok)
  }

  function CloseSession(c: Core, fd: int): Core {
    if fd !in c.sessions then c
    else
      var s := c.sessions[fd];
      c.(sessions := c.sessions - {fd}, closed := c.closed[s.serial := s], hist := c.hist + [Closed(s.serial)])
  }

  /** One command of a session whose role is settled. */
  ghost function Dispatch(c: Core, fd: int, t: seq<string>): Core
    requires fd in c.sessions && t != []
  {
    var cmd, role := t[0], c.sessions[fd].role;
    if TraderCmd(cmd) && role != Trader then Send(c, fd, Error("market-data clients cannot send " + cmd))
    else if MarketDataCmd(cmd) && role != MarketData then Send(c, fd, Error("traders cannot send " + cmd))
    else if cmd == "LOGIN" then Login(c, fd, t)
    else if cmd == "BUY" || cmd == "SELL" then BuyOrSell(c, fd, t)
    else if cmd == "CANCEL" then CancelCmd(c, fd, t)
    else if MarketDataCmd(cmd) then Subscription(c, fd, t)
    else if cmd == "QUIT" then CloseSession(c, fd)
    else Send(c, fd, Error("unknown command"))
  }

  /** The history notes which session sent which line. */
  function Note(c: Core, fd: int, line: string): Core
    requires fd in c.sessions
  {
    c.(hist := c.hist + [Handled(c.sessions[fd].serial, line)])
  }

  ghost function Obey(c: Core, fd: int, t: seq<string>): Core
    requires fd in c.sessions
  {
    if t == [] then Send(c, fd, Error("empty")) else Dispatch(SetRole(c, fd, t[0]), fd, t)
  }

  ghost function HandleLine(c: Core, fd: int, line: string): Core {
    if fd in c.sessions then Obey(Note(c, fd, line), fd, Tokens(line)) else c
  }

  /** A line after which the session is gone. */
  predicate IsQuit(line: string) {
    Tokens(line) != [] && Tokens(line)[0] == "QUIT"
  }

  predicate Quits(lines: seq<string>) {
    exists i :: 0 <= i < |lines| && IsQuit(lines[i])
  }

  /** Lines one after the other, up to and including the first QUIT. */
  ghost function HandleAll(c: Core, fd: int, lines: seq<string>): Core
    decreases |lines|
  {
    if lines == [] then c
    else if IsQuit(lines[0]) then HandleLine(c, fd, lines[0])
    else HandleAll(HandleLine(c, fd, lines[0]), fd, lines[1..])
  }

  // -------------------------------------------------------------------- events

  /** The server's state: the core, and each session's bytes not yet forming a line. */
  datatype Machine = Machine(core: Core, inbufs: map<int, string>)

  function Start(): Machine {
    Machine(Core(map[], map[], 1, Market(0, map[], []), []), map[])
  }

  /** A fresh descriptor: the kernel never hands out one that is still in use. */
  function Accept(m: Machine, fd: int, script: seq<Answer>): Machine {
    var c := m.core;
    if fd in c.sessions then m
    else
      Machine(c.(sessions := c.sessions[fd := Session(fd, c.nextSerial, Unknown, "", {}, Channels.Open(script), [])],
                 nextSerial := c.nextSerial + 1, hist := c.hist + [Opened(c.nextSerial)]),
              m.inbufs[fd := ""])
  }

  function Hangup(m: Machine, fd: int): Machine {
    if fd in m.core.sessions then Machine(CloseSession(m.core, fd), m.inbufs - {fd}) else m
  }

  /** What one `recv` gives: bytes (none at all when the peer closed), or an error. */
  datatype Received =
    | Got(bytes: string)
    | TryAgain      // EINTR
    | Exhausted     // EAGAIN, EWOULDBLOCK
    | Broken        // ECONNRESET and any other error

  function Inbuf(m: Machine, fd: int): string {
    if fd in m.inbufs then m.inbufs[fd] else ""
  }

  /** Bytes arrive: the complete lines are handled, the rest is kept. False when QUIT ended the session. */
  ghost function Arrive(m: Machine, fd: int, bytes: string): (Machine, bool) {
    var buf := Inbuf(m, fd) + bytes;
    var core := HandleAll(m.core, fd, Lines(buf));
    if Quits(Lines(buf)) then (Machine(core, m.inbufs - {fd}), false)
    else (Machine(core, m.inbufs[fd := Rest(buf)]), true)
  }

  /** `on_readable`, given what each `recv` returns; after the last of them nothing is left to read. */
  ghost function Readable(m: Machine, fd: int, recvs: seq<Received>): Machine
    decreases |recvs|
  {
    if fd !in m.core.sessions || recvs == [] then m
    else
      match recvs[0]
      case Got(bytes) =>
        if bytes == "" then Hangup(m, fd)
        else
          var (m', alive) := Arrive(m, fd, bytes);
          if alive then Readable(m', fd, recvs[1..]) else m'
      case TryAgain => Readable(m, fd, recvs[1..])
      case Exhausted => m
      case Broken => Hangup(m, fd)
  }

  /** `on_writable`: drain the queue; a hard error ends the session. */
  function Writable(m: Machine, fd: int): Machine {
    if fd !in m.core.sessions then m
    else
      var s := m.core.sessions[fd];
      var (alive, chan) := Channels.Drain(s.chan);
      var m' := m.(core := m.core.(sessions := m.core.sessions[fd := s.(chan := chan)]));
      if alive then m' else Hangup(m', fd)
  }

  datatype Step =
    | AcceptStep(fd: int, script: seq<Answer>)
    | ReadStep(fd: int, recvs: seq<Received>)
    | WriteStep(fd: int)
    | HangupStep(fd: int)

  ghost function Apply(m: Machine, step: Step): Machine {
    match step
    case AcceptStep(fd, script) => Accept(m, fd, script)
    case ReadStep(fd, recvs) => Readable(m, fd, recvs)
    case WriteStep(fd) => Writable(m, fd)
    case HangupStep(fd) => Hangup(m, fd)
  }

  /** Every state the server can reach. */
  ghost function Run(steps: seq<Step>): Machine {
    if steps == [] then Start() else Apply(Run(steps[..|steps| - 1]), steps[|steps| - 1])
  }

  lemma RunSnoc(steps: seq<Step>, step: Step)
    ensures Run(steps + [step]) == Apply(Run(steps), step)
  {
    assert (steps + [step])[..|steps + [step]| - 1] == steps;
  }

  // -------------------------------------------------------- chunk independence

  lemma DeliverKeepsKeys(c: Core, e: Exec)
    ensures Deliver(c, e).sessions.Keys == c.sessions.Keys && Deliver(c, e).closed == c.closed
  {
  }

  lemma {:induction false} DeliverAllKeepsKeys(c: Core, execs: seq<Exec>)
    ensures DeliverAll(c, execs).sessions.Keys == c.sessions.Keys && DeliverAll(c, execs).closed == c.closed
  {
    if execs == [] {
    } else {
      DeliverAllKeepsKeys(c, execs[..|execs| - 1]);
      DeliverKeepsKeys(DeliverAll(c, execs[..|execs| - 1]), execs[|execs| - 1]);
    }
  }

  lemma PlaceOrderKeepsKeys(c: Core, fd: int, side: Side, instrument: string, qty: int, price: int)
    requires fd in c.sessions
    ensures PlaceOrder(c, fd, side, instrument, qty, price).sessions.Keys == c.sessions.Keys
    ensures PlaceOrder(c, fd, side, instrument, qty, price).closed == c.closed
  {
    var o := Order(c.market.nextId, side, instrument, qty, price, fd, c.sessions[fd].serial);
    var told := Send(c, fd, Accepted(o.id));
    var placed := told.(market := Place(c.market, o), hist := told.hist + [InMarket(Submitted(o))]);
    DeliverAllKeepsKeys(placed, Books.Submit(c.market.book, o).execs);
  }

  /** A line ends at most its own session, and only when it is QUIT. */
  lemma HandleLineKeepsKeys(c: Core, fd: int, line: string)
    requires fd in c.sessions
    ensures HandleLine(c, fd, line).sessions.Keys == if IsQuit(line) then c.sessions.Keys - {fd} else c.sessions.Keys
    ensures IsQuit(line) <==> Tokens(line) != [] && Tokens(line)[0] == "QUIT"
  {
    hide Dispatch, Tokens, Post;
    var t := Tokens(line);
    if t != [] {
      DispatchKeepsKeys(SetRole(Note(c, fd, line), fd, t[0]), fd, t);
    }
  }

  lemma DispatchKeepsKeys(c: Core, fd: int, t: seq<string>)
    requires fd in c.sessions && t != []
    ensures Dispatch(c, fd, t).sessions.Keys == if t[0] == "QUIT" then c.sessions.Keys - {fd} else c.sessions.Keys
  {
    hide BuyOrSell, Parse, Post, Withdraw;
    BuyOrSellKeepsKeys(c, fd, t);
  }

  lemma BuyOrSellKeepsKeys(c: Core, fd: int, t: seq<string>)
    requires fd in c.sessions && t != []
    ensures BuyOrSell(c, fd, t).sessions.Keys == c.sessions.Keys && BuyOrSell(c, fd, t).closed == c.closed
  {
    hide PlaceOrder;
    if |t| == 4 && Parse(t[2], 1).Some? && Parse(t[3], 1).Some? {
      PlaceOrderKeepsKeys(c, fd, if t[0] == "BUY" then Buy else Sell, t[1], Parse(t[2], 1).value, Parse(t[3], 1).value);
    }
  }

  lemma {:induction false} HandleAllSplit(c: Core, fd: int, a: seq<string>, b: seq<string>)
    requires fd in c.sessions
    ensures HandleAll(c, fd, a + b) == if Quits(a) then HandleAll(c, fd, a) else HandleAll(HandleAll(c, fd, a), fd, b)
    ensures Quits(a + b) <==> Quits(a) || Quits(b)
    ensures !Quits(a) ==> fd in HandleAll(c, fd, a).sessions
    decreases |a|
  {
    if a == [] {
      assert a + b == b;
    } else {
      assert (a + b)[0] == a[0] && (a + b)[1..] == a[1..] + b;
      QuitsCons(a);
      QuitsCons(a + b);
      HandleLineKeepsKeys(c, fd, a[0]);
      if !IsQuit(a[0]) {
        HandleAllSplit(HandleLine(c, fd, a[0]), fd, a[1..], b);
      }
    }
  }

  lemma QuitsCons(lines: seq<string>)
    requires lines != []
    ensures Quits(lines) <==> IsQuit(lines[0]) || Quits(lines[1..])
  {
    if i :| 0 <= i < |lines| && IsQuit(lines[i]) {
      assert i > 0 ==> lines[1..][i - 1] == lines[i];
    }
    if i :| 0 <= i < |lines[1..]| && IsQuit(lines[1..][i]) {
      assert lines[i + 1] == lines[1..][i];
    }
  }

  /** Two arrivals in a row leave the server as the arrival of their concatenation would. */
  lemma ArriveTwice(m: Machine, fd: int, a: string, b: string)
    requires fd in m.core.sessions
    ensures var (m', alive) := Arrive(m, fd, a);
            && Arrive(m, fd, a + b) == (if alive then Arrive(m', fd, b) else (m', false))
            && (alive ==> fd in m'.core.sessions)
  {
    hide HandleAll, Lines, Rest, Quits;
    var x := Inbuf(m, fd) + a;
    assert Inbuf(m, fd) + (a + b) == x + b;
    LinesSplit(x, b);
    HandleAllSplit(m.core, fd, Lines(x), Lines(Rest(x) + b));
    var m' := Machine(HandleAll(m.core, fd, Lines(x)), m.inbufs[fd := Rest(x)]);
    assert Inbuf(m', fd) == Rest(x);
    assert m'.inbufs[fd := Rest(x + b)] == m.inbufs[fd := Rest(x + b)];
    assert m'.inbufs - {fd} == m.inbufs - {fd};
  }

  function Gots(chunks: seq<string>): seq<Received> {
    if chunks == [] then [] else [Got(chunks[0])] + Gots(chunks[1..])
  }

  /** However the bytes read in one go are cut, the server ends in the same state. */
  lemma {:induction false} ChunksDoNotMatter(m: Machine, fd: int, chunks: seq<string>)
    requires fd in m.core.sessions && chunks != []
    requires forall i :: 0 <= i < |chunks| ==> chunks[i] != ""
    ensures Readable(m, fd, Gots(chunks)) == Readable(m, fd, [Got(Concat(chunks))]) == Arrive(m, fd, Concat(chunks)).0
    decreases |chunks|
  {
    OneArrival(m, fd, Concat(chunks));
    var (m', alive) := Arrive(m, fd, chunks[0]);
    if |chunks| == 1 {
      assert chunks[0] + "" == chunks[0];
      assert Gots(chunks) == [Got(chunks[0])];
    } else {
      ArriveTwice(m, fd, chunks[0], Concat(chunks[1..]));
      if alive {
        ChunksDoNotMatter(m', fd, chunks[1..]);
      }
      hide Arrive;
      assert Gots(chunks)[0] == Got(chunks[0]) && Gots(chunks)[1..] == Gots(chunks[1..]);
      assert Readable(m, fd, Gots(chunks)) == if alive then Readable(m', fd, Gots(chunks[1..])) else m';
    }
  }

  lemma OneArrival(m: Machine, fd: int, bytes: string)
    requires fd in m.core.sessions && bytes != ""
    ensures Readable(m, fd, [Got(bytes)]) == Arrive(m, fd, bytes).0
  {
    assert [Got(bytes)][1..] == [];
  }
}
