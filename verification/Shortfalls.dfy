/** Runs in which the server does less than it says, and exactly when. */
module Shortfalls {
  import opened Wrappers
  import opened Matching
  import opened Protocol
  import opened Framing
  import opened Markets
  import opened Channels
  import opened Exchange
  import opened Sessions
  import opened Safety
  import opened Consequences
  import opened Answers
  import opened Inputs
  import opened Guarantees
  import Books

  // ------------------------------------------------- orders that CANCEL cannot name

  /** The session's own order rests, and no CANCEL it can send takes it out. */
  ghost predicate Stuck(c: Core, fd: int, id: int) {
    && fd in c.sessions && Books.Rests(c.market.book, id) && Placed(c, id, c.sessions[fd])
    && forall line :: Tokens(line) != [] && Tokens(line)[0] == "CANCEL" ==>
         Books.Rests(Exchange.HandleLine(c, fd, line).market.book, id)
  }

  /** In every state of every run, an owner's resting order is stuck exactly if its id is above 2147483647. */
  lemma StuckExactlyAbove(steps: seq<Step>, fd: int, id: int)
    requires fd in StateAfter(steps).sessions
    requires Books.Rests(StateAfter(steps).market.book, id)
    requires Placed(StateAfter(steps), id, StateAfter(steps).sessions[fd])
    ensures Stuck(StateAfter(steps), fd, id) <==> id > MAX_VALUE
  {
    hide Safety.Inv, Exchange.HandleLine, Tokens, Value, Exchange.Run, Books.Rests, Lacks;
    var c := StateAfter(steps);
    if id > MAX_VALUE {
      forall line | Tokens(line) != [] && Tokens(line)[0] == "CANCEL"
        ensures Books.Rests(Exchange.HandleLine(c, fd, line).market.book, id)
      {
        CancelSpares(steps, fd, id, line);
      }
    } else {
      RunInv(steps);
      IdIsNatural(c, id);
      var line := CancelLine(id);
      CancelIsForTheOwner(steps, fd, line);
      assert !Books.Rests(Exchange.HandleLine(c, fd, line).market.book, id) by {
        LacksIt(Exchange.HandleLine(c, fd, line).market.book, c.market.book, id);
      }
    }
  }

  lemma LacksIt(b': Books.Book, b: Books.Book, id: int)
    requires Lacks(b', b, id)
    ensures !Books.Rests(b', id)
  {
  }

  lemma IdIsNatural(c: Core, id: int)
    requires Safety.Inv(c) && id in OrdersOf(c)
    ensures id >= 0
  {
  }

  lemma CancelLine(id: nat) returns (line: string)
    requires id <= MAX_VALUE
    ensures |Tokens(line)| == 2 && Tokens(line)[0] == "CANCEL"
    ensures Numeral(Tokens(line)[1]) && Value(Tokens(line)[1]) == id
  {
    PrintThenParse(id);
    var words := ["CANCEL", ToString(id)];
    TokensOfJoin(words);
    line := Join(words);
  }

  /** A CANCEL line takes out no order with a larger id. */
  lemma CancelSpares(steps: seq<Step>, fd: int, id: int, line: string)
    requires fd in StateAfter(steps).sessions && Books.Rests(StateAfter(steps).market.book, id) && id > MAX_VALUE
    requires Tokens(line) != [] && Tokens(line)[0] == "CANCEL"
    ensures Books.Rests(Exchange.HandleLine(StateAfter(steps), fd, line).market.book, id)
  {
    hide Exchange.HandleLine, Tokens, Value, Exchange.Run, Lacks, Books.Rests, Placed;
    var c := StateAfter(steps);
    var c' := Exchange.HandleLine(c, fd, line);
    if |Tokens(line)| == 2 {
      CancelIsForTheOwner(steps, fd, line);
      var w := Tokens(line)[1];
      if c'.market != c.market {
        LacksOnlyThat(c'.market.book, c.market.book, Value(w), id);
      }
    } else {
      MalformedIsRefused(c, fd, line);
    }
  }

  lemma LacksOnlyThat(b': Books.Book, b: Books.Book, gone: int, id: int)
    requires Lacks(b', b, gone) && Books.Rests(b, id) && id != gone
    ensures Books.Rests(b', id)
  {
    var k, i :| k in b && 0 <= i < |b[k]| && b[k][i].id == id;
    var x := b[k][i];
    assert x in Books.Queue(b, k);
    assert x in Books.Queue(b', k);
    var j :| 0 <= j < |b'[k]| && b'[k][j] == x;
    assert b'[k][j].id == id;
  }

  /** One client connects and sends the same order `n` times; nobody ever sells. */
  function Buying(n: nat): seq<Step> {
    if n == 0 then [AcceptStep(3, [])] else Buying(n - 1) + [ReadStep(3, [Got("BUY JNST 1 1" + "\n")])]
  }

  /** What that leads to: the ids so far are given out, and the latest order rests for the client. */
  ghost predicate Holding(m: Machine, n: nat) {
    && 3 in m.core.sessions && m.core.sessions[3].role != MarketData && Inbuf(m, 3) == ""
    && m.core.market.nextId == n && Key(Sell, "JNST", 1) !in m.core.market.book
    && (n > 0 ==> Books.Rests(m.core.market.book, n - 1) && Placed(m.core, n - 1, m.core.sessions[3]))
  }

  lemma {:induction false} BuyingHolds(n: nat)
    ensures Holding(Exchange.Run(Buying(n)), n)
  {
    hide Holding, Readable, Exchange.Run, Safe;
    if n == 0 {
      AcceptedFirst();
    } else {
      var before := Buying(n - 1);
      BuyingHolds(n - 1);
      RunIsSafe(before);
      BuyOnce(Exchange.Run(before), n - 1);
      RunSnoc(before, ReadStep(3, [Got("BUY JNST 1 1" + "\n")]));
    }
  }

  lemma AcceptedFirst()
    ensures Holding(Exchange.Run([AcceptStep(3, [])]), 0)
  {
    assert [AcceptStep(3, [])][..0] == [];
    assert Exchange.Run([]) == Start();
    assert Exchange.Run([AcceptStep(3, [])]) == Accept(Start(), 3, []);
  }

  /** A line that arrives alone is handled alone. */
  lemma OneLineArrives(m: Machine, fd: int, line: string)
    requires fd in m.core.sessions && Inbuf(m, fd) == "" && !IsQuit(line)
    requires OneLine(line)
    ensures Readable(m, fd, [Got(line + "\n")]) == Machine(Exchange.HandleLine(m.core, fd, line), m.inbufs[fd := ""])
  {
    hide Exchange.HandleLine, IsQuit, Lines, Rest;
    var bytes := line + "\n";
    OneArrival(m, fd, bytes);
    assert "" + bytes == bytes == line + "\n" + "";
    OneRawLine(line, "");
    assert Lines(bytes) == [line];
    assert [line][1..] == [];
    assert HandleAll(m.core, fd, [line]) == Exchange.HandleLine(m.core, fd, line);
  }

  lemma TheWords()
    ensures Tokens("BUY JNST 1 1") == ["BUY", "JNST", "1", "1"] && Numeral("1") && Value("1") == 1
  {
    var words := ["BUY", "JNST", "1", "1"];
    assert forall i :: 0 <= i < |words| ==> IsWord(words[i]);
    TokensOfJoin(words);
    JoinFour("BUY", "JNST", "1", "1");
    assert "BUY" + " " + "JNST" + " " + "1" + " " + "1" == "BUY JNST 1 1";
    assert ToString(1) == "1";
    PrintThenParse(1);
  }

  lemma BuyOnce(m: Machine, n: nat)
    requires Safe(m) && Holding(m, n)
    ensures Holding(Readable(m, 3, [Got("BUY JNST 1 1" + "\n")]), n + 1)
  {
    hide Safety.Inv, Exchange.HandleLine, Readable, Place, Tokens;
    var line, c := "BUY JNST 1 1", m.core;
    var c' := Exchange.HandleLine(c, 3, line);
    TheWords();
    OneLineArrives(m, 3, line);
    OrderAnswer(c, 3, line);
    RoleIsSettled(c, 3, line);
    LineIsNoted(c, 3, line);
    var o := Order(n, Buy, "JNST", 1, 1, 3, c.sessions[3].serial);
    assert c'.market == Place(c.market, o);
    BookPart(c);
    PlacedInFront(c.market, o);
  }

  /** Without a counterparty an order rests. */
  lemma PlacedInFront(m: Market, o: Order)
    requires Books.Inv(m.book) && o.id == m.nextId && o.qty > 0 && KeyOf(o).Opposite() !in m.book
    ensures var m' := Place(m, o);
            m'.nextId == m.nextId + 1 && Books.Rests(m'.book, o.id) && KeyOf(o).Opposite() !in m'.book
  {
    Books.SubmitByLevel(m.book, o);
    var own := KeyOf(o);
    var queue := Books.Queue(m.book, own) + [o];
    assert Place(m, o).book == m.book[own := queue];
    assert Place(m, o).book[own][|queue| - 1].id == o.id;
  }

  /** Any number of orders can be given out, and the latest of them rest for a connected client. */
  lemma EveryIdIsGivenOut(id: nat)
    ensures exists steps, fd ::
              && fd in StateAfter(steps).sessions && Books.Rests(StateAfter(steps).market.book, id)
              && Placed(StateAfter(steps), id, StateAfter(steps).sessions[fd])
  {
    hide Books.Rests, Placed, Exchange.Run, Buying;
    BuyingHolds(id + 1);
    var steps := Buying(id + 1);
    assert 3 in StateAfter(steps).sessions && Books.Rests(StateAfter(steps).market.book, id)
        && Placed(StateAfter(steps), id, StateAfter(steps).sessions[3]);
  }

  /** So there is a run that ends with an order its connected owner cannot cancel: the one with id 2147483648. */
  lemma FirstIdBeyondCancel()
    ensures exists steps, fd :: Stuck(StateAfter(steps), fd, 2147483648)
  {
    hide Stuck, Books.Rests, Placed, Exchange.Run;
    EveryIdIsGivenOut(2147483648);
    var steps, fd :|
      && fd in StateAfter(steps).sessions && Books.Rests(StateAfter(steps).market.book, 2147483648)
      && Placed(StateAfter(steps), 2147483648, StateAfter(steps).sessions[fd]);
    StuckExactlyAbove(steps, fd, 2147483648);
  }

  // ------------------------------------------------------------- streams torn apart

  /** A client subscribes twice; the kernel takes one byte, fails once, and then works again. */
  function Tearing(): seq<Step> {
    [AcceptStep(3, [Took(1), Failed, Took(3)]), ReadStep(3, [Got(Frame(["SUBSCRIBE JNST", "SUBSCRIBE JNST"]))])]
  }

  lemma SubscribeWords()
    ensures Tokens("SUBSCRIBE JNST") == ["SUBSCRIBE", "JNST"] && OneLine("SUBSCRIBE JNST")
  {
    var words := ["SUBSCRIBE", "JNST"];
    assert forall i :: 0 <= i < |words| ==> IsWord(words[i]);
    TokensOfJoin(words);
    JoinIsOneLine(words);
    assert words[1..] == ["JNST"];
    assert "SUBSCRIBE" + " " + "JNST" == "SUBSCRIBE JNST";
  }

  /** SUBSCRIBE posts one OK. */
  lemma SubscribePosts(c: Core, fd: int, line: string)
    requires fd in c.sessions && c.sessions[fd].role != Trader && Tokens(line) == ["SUBSCRIBE", "JNST"]
    ensures var s, c' := c.sessions[fd], Exchange.HandleLine(c, fd, line);
            && fd in c'.sessions && c'.sessions[fd].role == MarketData && c'.sessions[fd].fd == s.fd
            && c'.sessions[fd].log == s.log + [Ok] && c'.sessions[fd].chan == Channels.Enqueue(s.chan, "OK")
  {
    hide Tokens, Channels.Enqueue;
  }

  lemma SubscribeTwice(c: Core, fd: int, line: string)
    requires fd in c.sessions && c.sessions[fd].role == Unknown && c.sessions[fd].log == []
    requires Tokens(line) == ["SUBSCRIBE", "JNST"]
    ensures var s, c' := c.sessions[fd], HandleAll(c, fd, [line, line]);
            && fd in c'.sessions && c'.sessions[fd].fd == s.fd && c'.sessions[fd].log == [Ok, Ok]
            && c'.sessions[fd].chan == Channels.Enqueue(Channels.Enqueue(s.chan, "OK"), "OK")
  {
    hide Exchange.HandleLine, Tokens, Channels.Enqueue;
    SubscribePosts(c, fd, line);
    var next := Exchange.HandleLine(c, fd, line);
    SubscribePosts(next, fd, line);
    assert [line, line][1..] == [line] && [line][1..] == [];
    assert HandleAll(next, fd, [line]) == Exchange.HandleLine(next, fd, line);
  }

  lemma AcceptFirst(script: seq<Answer>, step: Step)
    ensures Exchange.Run([AcceptStep(3, script), step]) == Exchange.Apply(Accept(Start(), 3, script), step)
  {
    hide Readable, Writable, Hangup;
    var first := AcceptStep(3, script);
    assert [first, step][..1] == [first] && [first][..0] == [];
    assert Exchange.Run([]) == Start();
    assert Exchange.Run([first]) == Accept(Start(), 3, script);
  }

  lemma AfterTearing()
    ensures var c := StateAfter(Tearing());
            && 3 in c.sessions && c.sessions[3].fd == 3 && c.sessions[3].log == [Ok, Ok]
            && c.sessions[3].chan.accepted == "OOK\n"
  {
    var line, script := "SUBSCRIBE JNST", [Took(1), Failed, Took(3)];
    var m := Accept(Start(), 3, script);
    SubscribeWords();
    AcceptFirst(script, ReadStep(3, [Got(Frame([line, line]))]));
    TransientErrorTearsTheStream();
    hide Tokens, HandleAll, Frame, Channels.Enqueue, Readable, Exchange.Run;
    TwoLinesArrive(m, 3, line);
    SubscribeTwice(m.core, 3, line);
  }

  lemma TwoLinesArrive(m: Machine, fd: int, line: string)
    requires fd in m.core.sessions && Inbuf(m, fd) == "" && OneLine(line)
    ensures Readable(m, fd, [Got(Frame([line, line]))]).core == HandleAll(m.core, fd, [line, line])
  {
    hide Readable, HandleAll, Lines, Rest;
    var bytes := Frame([line, line]);
    FrameSnoc([line], line);
    assert [line] + [line] == [line, line];
    assert bytes != "" && "" + bytes == bytes;
    LinesOfFrame([line, line]);
    OneArrival(m, fd, bytes);
  }

  lemma TwoReplies()
    ensures Texts([Ok, Ok]) == ["OK", "OK"]
  {
    LogSnoc([], Ok);
    LogSnoc([Ok], Ok);
    assert [Ok] + [Ok] == [Ok, Ok] && [] + [Ok] == [Ok];
  }

  /** A connected client that reads a line which was never meant for it: `send` failed once, in the middle of a line. */
  lemma StreamsCanBeTorn()
    ensures exists steps, s :: Live(StateAfter(steps), s) && !(Lines(s.chan.accepted) <= Texts(s.log))
    ensures 3 in StateAfter(Tearing()).sessions
    ensures var s := StateAfter(Tearing()).sessions[3];
            Texts(s.log) == ["OK", "OK"] && Lines(s.chan.accepted) == ["OOK"]
  {
    hide Exchange.Run, Lines, Texts, Tearing;
    AfterTearing();
    TornLine();
    TwoReplies();
    var s := StateAfter(Tearing()).sessions[3];
    assert Live(StateAfter(Tearing()), s) && ["OOK"][0] != ["OK", "OK"][0];
  }
}
