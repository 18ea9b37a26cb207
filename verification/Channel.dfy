/**
  One client's outgoing byte stream: what the kernel accepted, what is queued, and the two functions that
  move bytes along. The kernel is a script of answers, one for each `send`; when it is used up, every
  further `send` would block.
*/
module Channels {
  import opened Matching
  import opened Framing

  datatype Answer =
    | Took(n: nat)    // accepts n bytes, but at least one and at most what is offered
    | Interrupted     // EINTR
    | WouldBlock      // EAGAIN, EWOULDBLOCK
    | Failed          // any other error

  /** What `send` returns for an offer of `len` bytes that the kernel takes: 0 only for an empty offer. */
  function Count(n: nat, len: nat): nat {
    if len == 0 then 0 else if n == 0 then 1 else Min(n, len)
  }

  datatype Channel = Channel(
    script: seq<Answer>,     // every answer this socket will ever give
    pos: nat,                // how many of them were given
    accepted: string,        // the bytes the kernel took, in order
    outbuf: seq<string>,
    wantWrite: bool,
    lost: nat                // lines of which a hard error dropped the end
  )

  function Open(script: seq<Answer>): Channel {
    Channel(script, 0, "", [], false, 0)
  }

  // ------------------------------------------------------------------ enqueue

  datatype Outcome = Done | Blocked | Dead

  datatype Pushed = Pushed(taken: nat, pos: nat, outcome: Outcome)

  /** The send loop of `enqueue`. */
  function Push(script: seq<Answer>, pos: nat, data: string): (p: Pushed)
    ensures p.taken <= |data| && (p.outcome == Done <==> p.taken == |data|)
    ensures pos <= p.pos && (pos <= |script| ==> p.pos <= |script|)
    decreases |script| - pos
  {
    if data == "" then Pushed(0, pos, Done)
    else if pos >= |script| then Pushed(0, pos, Blocked)
    else
      match script[pos]
      case Took(n) =>
        var k := Count(n, |data|);
        var p := Push(script, pos + 1, data[k..]);
        p.(taken := k + p.taken)
      case Interrupted => Push(script, pos + 1, data)
      case WouldBlock => Pushed(0, pos + 1, Blocked)
      case Failed => Pushed(0, pos + 1, Dead)
  }

  function Enqueue(c: Channel, line: string): Channel {
    var framed := line + "\n";
    if c.outbuf != [] then c.(outbuf := c.outbuf + [framed])
    else
      var p := Push(c.script, c.pos, framed);
      var c' := c.(pos := p.pos, accepted := c.accepted + framed[..p.taken]);
      match p.outcome
      case Done => c'
      case Blocked => c'.(outbuf := [framed[p.taken..]], wantWrite := true)
      case Dead => c'.(lost := c.lost + 1)
  }

  // --------------------------------------------------------------- on_writable

  /** Whether the connection survives the drain, and its channel after it. */
  function Drain(c: Channel): (bool, Channel)
    decreases |c.script| - c.pos
  {
    if c.outbuf == [] then (true, c.(wantWrite := false))
    else if c.pos >= |c.script| then (true, c)
    else
      var c' := c.(pos := c.pos + 1);
      match c.script[c.pos]
      case Took(n) =>
        var front := c.outbuf[0];
        var k := Count(n, |front|);
        if k == 0 then (false, c')
        else if k < |front| then
          (true, c'.(accepted := c.accepted + front[..k], outbuf := [front[k..]] + c.outbuf[1..]))
        else Drain(c'.(accepted := c.accepted + front, outbuf := c.outbuf[1..]))
      case Interrupted => Drain(c')
      case WouldBlock => (true, c')
      case Failed => (false, c')
  }

  // ----------------------------------------------------------------- invariant

  /** The answers the kernel has given so far. */
  function Given(c: Channel): seq<Answer> {
    c.script[..Min(c.pos, |c.script|)]
  }

  /** The write event is armed exactly while something is queued, and nothing queued is empty. */
  predicate Armed(c: Channel) {
    && (c.wantWrite <==> c.outbuf != [])
    && (forall i :: 0 <= i < |c.outbuf| ==> c.outbuf[i] != "")
    && c.pos <= |c.script|
  }

  /** All bytes of the channel, those already taken first. */
  function Stream(c: Channel): string {
    c.accepted + Concat(c.outbuf)
  }

  /** After a hard error the kernel takes nothing any more. */
  predicate Sticky(answers: seq<Answer>) {
    forall i, j :: 0 <= i < j < |answers| && answers[i] == Failed ==> !answers[j].Took?
  }

  /** None of the answers from one point to another takes anything. */
  predicate Quiet(script: seq<Answer>, from: nat, to: nat) {
    forall j :: from <= j < to && j < |script| ==> !script[j].Took?
  }

  /** None of the answers from one point to another is a hard error. */
  predicate Unfailed(script: seq<Answer>, from: nat, to: nat) {
    forall j :: from <= j < to && j < |script| ==> script[j] != Failed
  }

  /** Lines were lost exactly if a send has met a hard error. */
  predicate LostByFailure(c: Channel) {
    c.lost > 0 <==> Failed in Given(c)
  }

  /** What holds of the channel of a connected session. */
  predicate Sound(c: Channel) {
    Armed(c) && LostByFailure(c)
  }

  /** A hard error without a loss is the last answer there was: the drain met it, with bytes still queued. */
  predicate LastFailure(c: Channel) {
    c.lost == 0 && Failed in Given(c) ==> c.outbuf != [] && 0 < c.pos <= |c.script| && Unfailed(c.script, 0, c.pos - 1)
  }

  /** The channel carries the framed lines, exactly so unless a hard error dropped part of one. */
  ghost predicate Carries(c: Channel, lines: seq<string>) {
    && (c.lost == 0 ==> Stream(c) == Frame(lines))
    && (c.lost > 0 ==> |Stream(c)| < |Frame(lines)| && Failed in Given(c))
    && (Sticky(Given(c)) ==> c.accepted <= Frame(lines))
  }

  lemma {:induction false} ConcatSnoc(chunks: seq<string>, last: string)
    ensures Concat(chunks + [last]) == Concat(chunks) + last
  {
    if chunks == [] {
      assert [last][1..] == [];
      assert chunks + [last] == [last];
    } else {
      assert (chunks + [last])[1..] == chunks[1..] + [last];
      ConcatSnoc(chunks[1..], last);
    }
  }

  lemma EnqueueKeepsArmed(c: Channel, line: string)
    requires Armed(c)
    ensures Armed(Enqueue(c, line))
    ensures Enqueue(c, line).script == c.script && c.accepted <= Enqueue(c, line).accepted
  {
  }

  /** Either the whole line joins the stream, or a hard error cut it short. */
  lemma EnqueueStream(c: Channel, line: string)
    ensures var c', framed := Enqueue(c, line), line + "\n";
            || (c'.lost == c.lost && Stream(c') == Stream(c) + framed)
            || (c'.lost == c.lost + 1 && c.outbuf == c'.outbuf == []
                && exists t :: 0 <= t < |framed| && Stream(c') == Stream(c) + framed[..t])
  {
    var c', framed := Enqueue(c, line), line + "\n";
    if c.outbuf != [] {
      ConcatSnoc(c.outbuf, framed);
    } else {
      var p := Push(c.script, c.pos, framed);
      assert Concat([]) == "";
      assert framed == framed[..p.taken] + framed[p.taken..];
      if p.outcome == Dead {
        assert Stream(c') == Stream(c) + framed[..p.taken];
      } else if p.outcome == Blocked {
        assert [framed[p.taken..]][1..] == [];
        assert Concat(c'.outbuf) == framed[p.taken..];
      } else {
        assert framed[..p.taken] == framed;
      }
    }
  }

  /** A push dies exactly when it meets a hard error, and takes bytes only through answers that do. */
  lemma {:induction false} PushAnswers(script: seq<Answer>, pos: nat, data: string)
    requires pos <= |script|
    ensures var p := Push(script, pos, data);
            && (p.outcome == Dead <==> Failed in script[pos..p.pos])
            && (Quiet(script, pos, p.pos) ==> p.taken == 0)
    decreases |script| - pos
  {
    var p := Push(script, pos, data);
    if data == "" || pos >= |script| {
    } else {
      var rest := script[pos + 1..p.pos];
      match script[pos] {
        case Took(n) =>
          PushAnswers(script, pos + 1, data[Count(n, |data|)..]);
          assert script[pos..p.pos] == [script[pos]] + rest;
        case Interrupted =>
          PushAnswers(script, pos + 1, data);
          assert script[pos..p.pos] == [script[pos]] + rest;
        case WouldBlock =>
        case Failed =>
          assert script[pos..p.pos][0] == Failed;
      }
    }
  }

  lemma FrameSnoc(lines: seq<string>, line: string)
    ensures Frame(lines + [line]) == Frame(lines) + (line + "\n")
  {
    assert (lines + [line])[..|lines + [line]| - 1] == lines;
  }

  /** What was given before, and what has been given since. */
  lemma GivenSplit(c: Channel, c': Channel)
    requires c'.script == c.script && c.pos <= c'.pos <= |c.script|
    ensures Given(c') == Given(c) + c.script[c.pos..c'.pos]
  {
  }

  lemma EnqueueCarries(c: Channel, line: string, lines: seq<string>)
    requires Armed(c) && Carries(c, lines)
    ensures Carries(Enqueue(c, line), lines + [line])
    ensures LostByFailure(c) ==> LostByFailure(Enqueue(c, line))
  {
    var c', framed := Enqueue(c, line), line + "\n";
    FrameSnoc(lines, line);
    EnqueueStream(c, line);
    GivenSplit(c, c');
    PushAnswers(c.script, c.pos, framed);
    if Sticky(Given(c')) {
      StickyPrefix(Given(c), c.script[c.pos..c'.pos]);
      EnqueueStaysPrefix(c, line, lines);
    }
  }

  lemma StickyPrefix(a: seq<Answer>, b: seq<Answer>)
    requires Sticky(a + b)
    ensures Sticky(a)
    ensures Failed in a ==> forall j :: 0 <= j < |b| ==> !b[j].Took?
  {
    forall i, j | 0 <= i < j < |a| && a[i] == Failed
      ensures !a[j].Took?
    {
      assert (a + b)[i] == Failed && (a + b)[j] == a[j];
    }
    if i :| 0 <= i < |a| && a[i] == Failed {
      forall j | 0 <= j < |b|
        ensures !b[j].Took?
      {
        assert (a + b)[i] == Failed && (a + b)[|a| + j] == b[j];
      }
    }
  }

  /** After a hard error, answers that stick take nothing. */
  lemma QuietAfterFailure(c: Channel, c': Channel)
    requires c'.script == c.script && c.pos <= c'.pos <= |c.script|
    requires Sticky(Given(c')) && Failed in Given(c)
    ensures Quiet(c.script, c.pos, c'.pos)
  {
    GivenSplit(c, c');
    var since := c.script[c.pos..c'.pos];
    StickyPrefix(Given(c), since);
    forall j | c.pos <= j < c'.pos
      ensures !c.script[j].Took?
    {
      assert c.script[j] == since[j - c.pos];
    }
  }

  lemma EnqueueStaysPrefix(c: Channel, line: string, lines: seq<string>)
    requires Armed(c) && Carries(c, lines) && Sticky(Given(c)) && Sticky(Given(Enqueue(c, line)))
    ensures Enqueue(c, line).accepted <= Frame(lines) + (line + "\n")
  {
    if c.outbuf == [] {
      var framed := line + "\n";
      var p := Push(c.script, c.pos, framed);
      assert Concat([]) == "" && c.accepted + "" == c.accepted;
      if c.lost > 0 {
        QuietAfterFailure(c, Enqueue(c, line));
        PushAnswers(c.script, c.pos, framed);
        assert framed[..0] == "";
      } else {
        assert c.accepted == Frame(lines);
        assert framed == framed[..p.taken] + framed[p.taken..];
        assert Frame(lines) + framed == c.accepted + framed[..p.taken] + framed[p.taken..];
      }
    }
  }

  /** What the drain loop keeps: while something is queued the event is armed; it is disarmed at the very end. */
  predicate Loaded(c: Channel) {
    && (c.outbuf != [] ==> c.wantWrite)
    && (forall i :: 0 <= i < |c.outbuf| ==> c.outbuf[i] != "")
    && c.pos <= |c.script|
  }

  /** A drain moves bytes from the queue to the kernel and changes nothing in the stream. */
  lemma {:induction false} DrainKeeps(c: Channel)
    requires Loaded(c)
    ensures var (alive, c') := Drain(c);
            && (alive ==> Armed(c'))
            && Stream(c') == Stream(c) && c'.lost == c.lost && c'.script == c.script && c.pos <= c'.pos <= |c.script|
            && c.accepted <= c'.accepted
            && (Quiet(c.script, c.pos, c'.pos) ==> c'.accepted == c.accepted)
    decreases |c.script| - c.pos
  {
    hide Count;
    if c.outbuf == [] || c.pos >= |c.script| {
    } else {
      var c' := c.(pos := c.pos + 1);
      match c.script[c.pos] {
        case Took(n) =>
          var front := c.outbuf[0];
          var k := Count(n, |front|);
          TookSome(n, |front|);
          assert front == front[..k] + front[k..];
          if k == |front| {
            DrainKeeps(c'.(accepted := c.accepted + front, outbuf := c.outbuf[1..]));
          } else {
            assert ([front[k..]] + c.outbuf[1..])[1..] == c.outbuf[1..];
          }
        case Interrupted => DrainKeeps(c');
        case WouldBlock =>
        case Failed =>
      }
    }
  }

  /** The drain never offers the kernel an empty chunk, so it ends the connection exactly if it meets a hard error. */
  lemma {:induction false} DrainDiesOnFailure(c: Channel)
    requires Loaded(c)
    ensures var (alive, c') := Drain(c);
            && c.pos <= c'.pos <= |c.script|
            && (alive ==> Unfailed(c.script, c.pos, c'.pos))
            && (!alive ==> c'.outbuf != [])
            && (!alive ==> c.pos < c'.pos && Unfailed(c.script, c.pos, c'.pos - 1) && c.script[c'.pos - 1] == Failed)
    decreases |c.script| - c.pos
  {
    hide Count;
    if c.outbuf == [] || c.pos >= |c.script| {
    } else {
      var next := c.(pos := c.pos + 1);
      match c.script[c.pos] {
        case Took(n) =>
          TookSome(n, |c.outbuf[0]|);
          if Count(n, |c.outbuf[0]|) == |c.outbuf[0]| {
            DrainDiesOnFailure(next.(accepted := c.accepted + c.outbuf[0], outbuf := c.outbuf[1..]));
          }
        case Interrupted => DrainDiesOnFailure(next);
        case WouldBlock =>
        case Failed =>
      }
    }
  }

  lemma TookSome(n: nat, len: nat)
    requires len > 0
    ensures 1 <= Count(n, len) <= len
  {
  }

  // --------------------------------------------------------- what gets sent, and when it stops

  /** How many bytes an answer takes when there are enough: none unless it takes any, and then at least one. */
  function Room(answer: Answer): nat {
    match answer
    case Took(n) => if n == 0 then 1 else n
    case other => 0
  }

  /** How many bytes the answers from one point to another take when there are enough. */
  function Granted(script: seq<Answer>, from: nat, to: nat): nat
    requires to <= |script|
    decreases if from < to then to - from else 0
  {
    if from >= to then 0 else Room(script[from]) + Granted(script, from + 1, to)
  }

  /** How many of these answers take anything. */
  function Tooks(script: seq<Answer>, from: nat, to: nat): nat
    requires to <= |script|
    decreases if from < to then to - from else 0
  {
    if from >= to then 0 else (if script[from].Took? then 1 else 0) + Tooks(script, from + 1, to)
  }

  predicate GoesOnSending(answer: Answer) {
    answer.Took? || answer == Interrupted
  }

  lemma OneGrantMore(script: seq<Answer>, pos: nat, end: nat)
    requires end <= |script|
    ensures pos < end ==> Granted(script, pos, end) == Room(script[pos]) + Granted(script, pos + 1, end)
    ensures pos >= end ==> Granted(script, pos, end) == 0
  {
  }

  /**
    A push takes all that the answers grant, goes on until the line is gone, and stops short of that only when the
    kernel is full or gone: at an answer that says so, or for want of any.
  */
  predicate TakesAllGranted(script: seq<Answer>, pos: nat, data: string, p: Pushed) {
    && pos <= p.pos && p.pos <= |script|
    && p.taken == Min(|data|, Granted(script, pos, p.pos))
    && (forall j :: pos <= j < p.pos - 1 ==> GoesOnSending(script[j]))
    && (p.outcome == Done ==> pos == p.pos || Granted(script, pos, p.pos - 1) < |data|)
    && (p.outcome == Blocked ==> p.pos == |script| || (pos < p.pos && script[p.pos - 1] == WouldBlock))
    && (p.outcome == Dead ==> pos < p.pos && script[p.pos - 1] == Failed)
  }

  lemma OneAnswerMore(script: seq<Answer>, pos: nat, data: string, k: nat, p: Pushed)
    requires pos < p.pos <= |script| && GoesOnSending(script[pos]) && data != ""
    requires k == if script[pos].Took? then Count(script[pos].n, |data|) else 0
    requires k <= |data| && TakesAllGranted(script, pos + 1, data[k..], p)
    requires p.outcome == Done && pos + 1 == p.pos ==> k == |data|
    ensures TakesAllGranted(script, pos, data, p.(taken := k + p.taken))
  {
    hide Granted, Min, Count;
    OneGrantMore(script, pos, p.pos);
    OneGrantMore(script, pos, p.pos - 1);
    OneGrantMore(script, pos + 1, p.pos - 1);
    MinStep(if script[pos].Took? then script[pos].n else 0, |data|, Granted(script, pos + 1, p.pos));
    MinSame(|data|, Granted(script, pos + 1, p.pos));
  }

  lemma MinSame(len: nat, more: nat)
    ensures 0 + Min(len - 0, more) == Min(len, 0 + more)
  {
  }

  lemma LastAnswer(script: seq<Answer>, pos: nat, data: string)
    requires pos <= |script|
    ensures data == "" ==> TakesAllGranted(script, pos, data, Pushed(0, pos, Done))
    ensures pos == |script| ==> TakesAllGranted(script, pos, data, Pushed(0, pos, Blocked))
    ensures pos < |script| && script[pos] == WouldBlock ==>
              TakesAllGranted(script, pos, data, Pushed(0, pos + 1, Blocked))
    ensures pos < |script| && script[pos] == Failed ==> TakesAllGranted(script, pos, data, Pushed(0, pos + 1, Dead))
  {
    hide Min, Granted;
    MinAtZero(|data|);
    OneGrantMore(script, pos, pos);
    if pos < |script| {
      OneGrantMore(script, pos, pos + 1);
      OneGrantMore(script, pos + 1, pos + 1);
    }
  }

  /** So does the send loop of `enqueue`. */
  lemma {:induction false} PushTakesWhatIsGranted(script: seq<Answer>, pos: nat, data: string)
    requires pos <= |script|
    ensures TakesAllGranted(script, pos, data, Push(script, pos, data))
    decreases |script| - pos
  {
    hide TakesAllGranted, Count;
    LastAnswer(script, pos, data);
    if data == "" || pos == |script| {
    } else {
      match script[pos] {
        case Took(n) =>
          var k := Count(n, |data|);
          TookSome(n, |data|);
          var p := Push(script, pos + 1, data[k..]);
          PushTakesWhatIsGranted(script, pos + 1, data[k..]);
          DoneAtOnce(script, pos + 1, data[k..]);
          OneAnswerMore(script, pos, data, k, p);
        case Interrupted =>
          var p := Push(script, pos + 1, data);
          assert data[0..] == data;
          PushTakesWhatIsGranted(script, pos + 1, data);
          DoneAtOnce(script, pos + 1, data);
          OneAnswerMore(script, pos, data, 0, p);
        case WouldBlock =>
        case Failed =>
      }
    }
  }

  lemma DoneAtOnce(script: seq<Answer>, pos: nat, data: string)
    ensures Push(script, pos, data).outcome == Done && Push(script, pos, data).pos == pos ==> data == ""
  {
  }

  lemma MinAtZero(n: nat)
    ensures Min(n, 0) == 0 == Min(0, n)
  {
  }

  lemma MinStep(n: nat, len: nat, more: nat)
    requires len > 0
    ensures Count(n, len) + Min(len - Count(n, len), more) == Min(len, Room(Took(n)) + more)
    ensures Count(n, len) <= len && (Count(n, len) < len ==> Count(n, len) == Room(Took(n)))
  {
  }

  /** A line that finds nothing queued is offered at once, and what is not granted is queued; one that does waits. */
  lemma EnqueueOffers(c: Channel, line: string)
    requires Armed(c)
    ensures var c', framed := Enqueue(c, line), line + "\n";
            && c.pos <= c'.pos && c'.pos <= |c.script|
            && (c.outbuf != [] ==> c'.pos == c.pos && c'.accepted == c.accepted && c'.outbuf == c.outbuf + [framed])
            && (c.outbuf == [] ==>
                  && c'.accepted == c.accepted + framed[..Min(|framed|, Granted(c.script, c.pos, c'.pos))]
                  && (c'.outbuf != [] ==>
                        c'.pos == |c.script| || (c.pos < c'.pos && c.script[c'.pos - 1] == WouldBlock)))
  {
    hide Granted, Min;
    if c.outbuf == [] {
      PushTakesWhatIsGranted(c.script, c.pos, line + "\n");
    }
  }

  /**
    A drain that survives has sent `i` chunks whole. Then the queue is empty and the event disarmed, or the kernel
    has no answer left or says it is full, or it took only a beginning of the next chunk, whose end stays queued.
  */
  predicate StoppedAt(c: Channel, c': Channel, i: nat) {
    && i <= |c.outbuf| && c.pos <= c'.pos && c'.pos <= |c.script|
    && (forall j :: c.pos <= j < c'.pos - 1 ==> GoesOnSending(c.script[j]))
    && var tooks := Tooks(c.script, c.pos, c'.pos);
       if i == |c.outbuf| then c'.outbuf == [] && !c'.wantWrite && tooks == i
       else
         || (c'.outbuf == c.outbuf[i..] && tooks == i
             && (c'.pos == |c.script| || (c.pos < c'.pos && c.script[c'.pos - 1] == WouldBlock)))
         || (c.pos < c'.pos && c.script[c'.pos - 1].Took? && tooks == i + 1
             && var k := Room(c.script[c'.pos - 1]);
                k < |c.outbuf[i]| && c'.outbuf == [c.outbuf[i][k..]] + c.outbuf[i + 1..])
  }

  lemma OneTookMore(script: seq<Answer>, pos: nat, end: nat)
    requires pos < end <= |script|
    ensures Tooks(script, pos, end) == (if script[pos].Took? then 1 else 0) + Tooks(script, pos + 1, end)
  {
  }

  lemma StoppedLater(c: Channel, next: Channel, c': Channel, i: nat)
    requires c.pos < |c.script| && next.script == c.script && next.pos == c.pos + 1
    requires StoppedAt(next, c', i) && c'.pos > c.pos
    requires GoesOnSending(c.script[c.pos])
    requires c.outbuf != [] && next.outbuf == if c.script[c.pos].Took? then c.outbuf[1..] else c.outbuf
    ensures StoppedAt(c, c', if c.script[c.pos].Took? then i + 1 else i)
  {
    hide Tooks, Room;
    OneTookMore(c.script, c.pos, c'.pos);
    if c.script[c.pos].Took? && i < |next.outbuf| {
      assert next.outbuf[i] == c.outbuf[i + 1] && next.outbuf[i..] == c.outbuf[i + 1..];
      assert next.outbuf[i + 1..] == c.outbuf[i + 2..];
    }
  }

  lemma StopsHere(c: Channel, c': Channel, i: nat)
    requires c'.pos == c.pos <= |c.script| && i == 0
    requires (c.outbuf == [] && c'.outbuf == [] && !c'.wantWrite) || (c.outbuf != [] && c' == c && c.pos == |c.script|)
    ensures StoppedAt(c, c', i)
  {
    assert c.outbuf[0..] == c.outbuf;
  }

  lemma StopsAtOnce(c: Channel, c': Channel)
    requires c.outbuf != [] && c.pos < |c.script| && c'.pos == c.pos + 1
    requires || (c.script[c.pos] == WouldBlock && c'.outbuf == c.outbuf)
             || (c.script[c.pos].Took? && Room(c.script[c.pos]) < |c.outbuf[0]|
                 && c'.outbuf == [c.outbuf[0][Room(c.script[c.pos])..]] + c.outbuf[1..])
    ensures StoppedAt(c, c', 0)
  {
    OneTookMore(c.script, c.pos, c'.pos);
    assert c.outbuf[0..] == c.outbuf;
  }

  lemma {:induction false} DrainStops(c: Channel) returns (i: nat)
    requires Loaded(c)
    ensures Drain(c).0 ==> StoppedAt(c, Drain(c).1, i)
    decreases |c.script| - c.pos
  {
    hide StoppedAt, Count;
    i := 0;
    if c.outbuf == [] || c.pos >= |c.script| {
      StopsHere(c, Drain(c).1, 0);
    } else {
      var next, front := c.(pos := c.pos + 1), c.outbuf[0];
      DrainDiesOnFailure(c);
      match c.script[c.pos] {
        case Took(n) =>
          MinStep(n, |front|, 0);
          TookSome(n, |front|);
          if Count(n, |front|) == |front| {
            var sent := next.(accepted := c.accepted + front, outbuf := c.outbuf[1..]);
            DrainDiesOnFailure(sent);
            i := DrainStops(sent);
            if Drain(c).0 {
              StoppedLater(c, sent, Drain(c).1, i);
              i := i + 1;
            }
          } else {
            StopsAtOnce(c, Drain(c).1);
          }
        case Interrupted =>
          DrainDiesOnFailure(next);
          i := DrainStops(next);
          if Drain(c).0 {
            StoppedLater(c, next, Drain(c).1, i);
          }
        case WouldBlock => StopsAtOnce(c, Drain(c).1);
        case Failed =>
      }
    }
  }

  /** The next answers each take the whole of the chunk they are asked about. */
  predicate TakesEach(script: seq<Answer>, pos: nat, chunks: seq<string>)
    decreases |chunks|
  {
    chunks == [] || (pos < |script| && script[pos].Took? && script[pos].n >= |chunks[0]|
                     && TakesEach(script, pos + 1, chunks[1..]))
  }

  /** A kernel with room empties the queue in one drain: every byte is sent, in order, and the event is disarmed. */
  lemma {:induction false} DrainEmpties(c: Channel)
    requires Loaded(c) && TakesEach(c.script, c.pos, c.outbuf)
    ensures Drain(c) == (true, c.(pos := c.pos + |c.outbuf|, accepted := c.accepted + Concat(c.outbuf), outbuf := [],
                                  wantWrite := false))
    decreases |c.outbuf|
  {
    if c.outbuf == [] {
      assert c.accepted + "" == c.accepted;
    } else {
      var front := c.outbuf[0];
      var sent := c.(pos := c.pos + 1, accepted := c.accepted + front, outbuf := c.outbuf[1..]);
      assert Count(c.script[c.pos].n, |front|) == |front|;
      DrainEmpties(sent);
      assert c.accepted + front + Concat(c.outbuf[1..]) == c.accepted + Concat(c.outbuf);
    }
  }

  lemma DrainCarries(c: Channel, lines: seq<string>)
    requires Armed(c) && Carries(c, lines)
    ensures Carries(Drain(c).1, lines)
  {
    hide Drain, Min;
    DrainKeeps(c);
    var c' := Drain(c).1;
    GivenSplit(c, c');
    if Sticky(Given(c')) {
      StickyPrefix(Given(c), c.script[c.pos..c'.pos]);
      if c.lost == 0 {
        assert c'.accepted <= Stream(c') == Frame(lines);
      } else {
        QuietAfterFailure(c, c');
      }
    }
  }

  /** A surviving drain met no hard error; one that met it ended there. */
  lemma DrainLosesNothing(c: Channel)
    requires Sound(c)
    ensures if Drain(c).0 then Sound(Drain(c).1) else LastFailure(Drain(c).1)
  {
    hide Drain;
    DrainKeeps(c);
    DrainDiesOnFailure(c);
    var (alive, c') := Drain(c);
    GivenSplit(c, c');
    if alive {
      assert Failed !in c.script[c.pos..c'.pos];
    } else if c.lost == 0 {
      assert Unfailed(c.script, 0, c.pos) by {
        assert forall j :: 0 <= j < c.pos ==> Given(c)[j] == c.script[j];
      }
    }
  }

  /** What the kernel took is the framed lines' beginning, unless it took more after a hard error. */
  lemma CarriesMessages(c: Channel, lines: seq<string>)
    requires Carries(c, lines) && AllOneLine(lines)
    ensures c.lost == 0 <==> Stream(c) == Frame(lines)
    ensures Sticky(Given(c)) ==> Lines(c.accepted) <= lines
  {
    if Sticky(Given(c)) {
      LinesOfPrefix(c.accepted, lines);
    }
  }

  /** The error comes after one byte of the first line, and the second line goes out whole. */
  lemma TornBytes()
    ensures Enqueue(Open([Took(1), Failed, Took(3)]), "OK") ==
              Channel([Took(1), Failed, Took(3)], 2, "O", [], false, 1)
    ensures Enqueue(Channel([Took(1), Failed, Took(3)], 2, "O", [], false, 1), "OK") ==
              Channel([Took(1), Failed, Took(3)], 3, "OOK\n", [], false, 1)
  {
    var script := [Took(1), Failed, Took(3)];
    var framed := "OK" + "\n";
    assert framed == "OK\n" && |framed| == 3;
    assert framed[..1] == "O" && framed[..3] == framed;
    assert Push(script, 1, framed[1..]) == Pushed(0, 2, Dead);
    assert Push(script, 0, framed) == Pushed(1, 2, Dead);
    assert Push(script, 3, framed[3..]) == Pushed(0, 3, Done);
    assert Push(script, 2, framed) == Pushed(3, 3, Done);
  }

  lemma TornLine()
    ensures Lines("OOK\n") == ["OOK"] && !("OOK\n" <= Frame(["OK", "OK"]))
  {
    hide Lines;
    FrameSnoc(["OK"], "OK");
    FrameSnoc([], "OK");
    assert ["OK"] == [] + ["OK"] && ["OK", "OK"] == ["OK"] + ["OK"];
    assert Frame(["OK", "OK"])[1] == 'K';
    assert "OOK\n" == "OOK" + "\n" + "";
    OneRawLine("OOK", "");
  }

  /** Without that the stream can be torn: a transient error in the middle of a line, then sends that work again. */
  lemma TransientErrorTearsTheStream()
    ensures var c := Enqueue(Enqueue(Open([Took(1), Failed, Took(3)]), "OK"), "OK");
            c.lost == 1 && c.accepted == "OOK\n" && !(c.accepted <= Frame(["OK", "OK"]))
            && Lines(c.accepted) == ["OOK"]
  {
    hide Enqueue, Lines, Frame;
    TornBytes();
    TornLine();
  }
}
