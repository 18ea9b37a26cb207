/** When a session begins, when it ends, and what its beginning and end leave alone. */
module Lifetimes {
  import opened Matching
  import opened Protocol
  import opened Framing
  import opened Markets
  import opened Channels
  import opened Exchange
  import opened Sessions
  import opened Safety
  import opened Evolution
  import opened Inputs
  import Books

  // ------------------------------------------------------------------ the beginning

  /** A connection under a free descriptor is a session of its own, of no role yet, and nobody else notices. */
  lemma AcceptJoins(m: Machine, fd: int, script: seq<Answer>)
    requires fd !in m.core.sessions
    ensures var m' := Accept(m, fd, script);
            && m'.core.sessions.Keys == m.core.sessions.Keys + {fd}
            && (forall other :: other in m.core.sessions ==> m'.core.sessions[other] == m.core.sessions[other])
            && fd in m'.inbufs && m'.inbufs[fd] == ""
            && m'.core.market == m.core.market && m'.core.closed == m.core.closed
            && Newborn(m'.core.sessions[fd], fd, script)
            && m'.core.sessions[fd].serial == m.core.nextSerial < m'.core.nextSerial
  {
  }

  /** A session of which nothing is known yet but its descriptor. */
  predicate Newborn(s: Session, fd: int, script: seq<Answer>) {
    && s.fd == fd && s.role == Unknown && s.username == "" && s.subs == {} && s.log == []
    && s.chan.script == script && s.chan.pos == 0
    && s.chan.accepted == "" && s.chan.outbuf == [] && !s.chan.wantWrite
  }

  // ------------------------------------------------------------------------ the end

  /** Closing takes the session away and remembers what it was; its orders, and everybody else, stay as they are. */
  lemma HangupCloses(m: Machine, fd: int)
    ensures var m' := Hangup(m, fd);
            && m'.core.sessions == m.core.sessions - {fd} && m'.core.market == m.core.market
            && (fd in m.core.sessions ==>
                  var s := m.core.sessions[fd]; s.serial in m'.core.closed && m'.core.closed[s.serial] == s)
  {
    if fd !in m.core.sessions {
      assert m.core.sessions - {fd} == m.core.sessions;
    }
  }

  /** The peer has closed or reset the connection, and nothing before that stopped the reading. */
  predicate PeerGone(recvs: seq<Received>) {
    exists j :: 0 <= j < |recvs| && GoneAt(recvs, j)
  }

  predicate GoneAt(recvs: seq<Received>, j: nat)
    requires j < |recvs|
  {
    (recvs[j] == Broken || recvs[j] == Got("")) && forall i :: 0 <= i < j ==> GoesOn(recvs[i])
  }

  /** The end of the peer is the end of the session, after all that was read before it. */
  lemma PeerGoneCloses(m: Machine, fd: int, before: seq<Received>, r: Received, rest: seq<Received>)
    requires (forall i :: 0 <= i < |before| ==> GoesOn(before[i])) && (r == Broken || r == Got(""))
    ensures Readable(m, fd, before + ([r] + rest)) == Hangup(Readable(m, fd, before), fd)
    ensures fd !in Readable(m, fd, before + ([r] + rest)).core.sessions
  {
    var m' := Readable(m, fd, before);
    ReadInParts(m, fd, before, [r] + rest);
    HangupCloses(m', fd);
    assert ([r] + rest)[0] == r;
  }

  lemma PeerGoneCons(recvs: seq<Received>)
    requires recvs != []
    ensures PeerGone(recvs) <==>
              recvs[0] == Broken || recvs[0] == Got("") || (GoesOn(recvs[0]) && PeerGone(recvs[1..]))
  {
    var rest := recvs[1..];
    if j :| 0 <= j < |recvs| && GoneAt(recvs, j) {
      if j > 0 {
        assert GoneAt(rest, j - 1) by {
          assert forall i :: 0 <= i < j - 1 ==> rest[i] == recvs[i + 1];
        }
      }
    }
    if recvs[0] == Broken || recvs[0] == Got("") {
      assert GoneAt(recvs, 0);
    } else if GoesOn(recvs[0]) && PeerGone(rest) {
      var j :| 0 <= j < |rest| && GoneAt(rest, j);
      assert GoneAt(recvs, j + 1) by {
        assert forall i :: 0 < i < j + 1 ==> recvs[i] == rest[i - 1];
      }
    }
  }

  /** A readable event ends the session exactly if the peer is gone or a line of what was read is QUIT. */
  lemma {:induction false} ReadingEnds(m: Machine, fd: int, recvs: seq<Received>)
    requires Safe(m) && fd in m.core.sessions
    ensures fd !in Readable(m, fd, recvs).core.sessions <==>
              PeerGone(recvs) || Quits(Lines(Inbuf(m, fd) + Offered(recvs)))
    decreases |recvs|
  {
    hide Safe, Arrive, Hangup, PeerGone, Quits, Lines;
    NothingOffered(m, fd);
    if recvs == [] {
      NobodyGone();
    } else {
      PeerGoneCons(recvs);
      HangupCloses(m, fd);
      match recvs[0] {
        case Got(bytes) =>
          if bytes != "" {
            var (m', alive) := Arrive(m, fd, bytes);
            ArriveKeepsSafe(m, fd, bytes);
            ArriveStays(m, fd, bytes);
            var more := Offered(recvs[1..]);
            ArriveThenMore(m, fd, bytes, more);
            assert Inbuf(m, fd) + (bytes + more) == Inbuf(m, fd) + bytes + more;
            if alive {
              ReadingEnds(m', fd, recvs[1..]);
            }
          }
        case TryAgain => ReadingEnds(m, fd, recvs[1..]);
        case Exhausted =>
        case Broken =>
      }
    }
  }

  lemma NobodyGone()
    ensures !PeerGone([])
  {
  }

  lemma NothingOffered(m: Machine, fd: int)
    requires Safe(m) && fd in m.core.sessions
    ensures !Quits(Lines(Inbuf(m, fd) + ""))
  {
    hide Safety.Inv;
    assert Inbuf(m, fd) + "" == Inbuf(m, fd);
    NoNewline(Inbuf(m, fd));
    assert Lines(Inbuf(m, fd)) == [];
  }

  lemma ArriveThenMore(m: Machine, fd: int, bytes: string, more: string)
    requires fd in m.core.sessions
    ensures var (m', alive) := Arrive(m, fd, bytes);
            Quits(Lines(Inbuf(m, fd) + bytes + more)) <==> !alive || Quits(Lines(Inbuf(m', fd) + more))
  {
    hide HandleAll, Lines, Rest, Quits;
    var x := Inbuf(m, fd) + bytes;
    LinesSplit(x, more);
    if Quits(Lines(x)) {
      QuitsStay(Lines(x), Lines(Rest(x) + more));
    } else {
      QuitsEither(Lines(x), Lines(Rest(x) + more));
    }
  }

  lemma QuitsStay(a: seq<string>, b: seq<string>)
    requires Quits(a)
    ensures Quits(a + b)
  {
    var i :| 0 <= i < |a| && IsQuit(a[i]);
    assert (a + b)[i] == a[i];
  }

  /** A writable event: the session's channel is drained, and it ends exactly if that met a hard error. */
  lemma WritingEnds(m: Machine, fd: int)
    requires Safe(m) && fd in m.core.sessions
    ensures var s, m' := m.core.sessions[fd], Writable(m, fd);
            && s.chan.pos <= Drain(s.chan).1.pos <= |s.chan.script|
            && (fd !in m'.core.sessions <==> Failed in s.chan.script[s.chan.pos..Drain(s.chan).1.pos])
            && (fd in m'.core.sessions ==> m'.core.sessions[fd] == s.(chan := Drain(s.chan).1))
            && m'.core.market == m.core.market
            && (forall other :: other in m.core.sessions && other != fd ==>
                  other in m'.core.sessions && m'.core.sessions[other] == m.core.sessions[other])
  {
    hide Safety.Inv, Drain, Hangup;
    var s := m.core.sessions[fd];
    LoadedSession(m.core, fd);
    DrainDiesOnFailure(s.chan);
    var (alive, chan) := Drain(s.chan);
    HangupCloses(m.(core := m.core.(sessions := m.core.sessions[fd := s.(chan := chan)])), fd);
    if alive {
      assert Failed !in s.chan.script[s.chan.pos..chan.pos];
    } else {
      assert s.chan.script[s.chan.pos..chan.pos][chan.pos - 1 - s.chan.pos] == Failed;
    }
  }

  /** What an event means for the session under `fd`: whether it ends there. */
  ghost predicate EndsAt(m: Machine, step: Step, fd: int)
    requires fd in m.core.sessions
  {
    match step
    case AcceptStep(x, script) => false
    case ReadStep(x, recvs) => x == fd && (PeerGone(recvs) || Quits(Lines(Inbuf(m, fd) + Offered(recvs))))
    case WriteStep(x) =>
      var chan := m.core.sessions[fd].chan;
      x == fd && chan.pos <= Drain(chan).1.pos <= |chan.script| && Failed in chan.script[chan.pos..Drain(chan).1.pos]
    case HangupStep(x) => x == fd
  }

  lemma StepEnds(m: Machine, step: Step, fd: int)
    requires Safe(m) && fd in m.core.sessions
    ensures fd !in Exchange.Apply(m, step).core.sessions <==> EndsAt(m, step, fd)
    ensures !step.ReadStep? ==> Exchange.Apply(m, step).core.market == m.core.market
  {
    hide Safe, Readable, Writable, Hangup, PeerGone, Quits, Lines, Drain;
    match step {
      case AcceptStep(x, script) =>
      case ReadStep(x, recvs) =>
        if x == fd {
          ReadingEnds(m, fd, recvs);
        } else {
          OthersStay(m, x, recvs, fd);
        }
      case WriteStep(x) =>
        if x in m.core.sessions {
          WritingEnds(m, x);
        } else {
          NobodyWrites(m, x);
        }
      case HangupStep(x) => HangupCloses(m, x);
    }
  }

  lemma NobodyWrites(m: Machine, fd: int)
    requires fd !in m.core.sessions
    ensures Writable(m, fd) == m
  {
  }

  /** What one client sends ends no other client's session. */
  lemma {:induction false} OthersStay(m: Machine, x: int, recvs: seq<Received>, fd: int)
    requires fd in m.core.sessions && fd != x
    ensures fd in Readable(m, x, recvs).core.sessions
    decreases |recvs|
  {
    hide Arrive, Hangup;
    if x !in m.core.sessions || recvs == [] {
    } else {
      HangupCloses(m, x);
      match recvs[0] {
        case Got(bytes) =>
          if bytes != "" {
            OthersStayOnArrival(m, x, bytes, fd);
            if Arrive(m, x, bytes).1 {
              OthersStay(Arrive(m, x, bytes).0, x, recvs[1..], fd);
            }
          }
        case TryAgain => OthersStay(m, x, recvs[1..], fd);
        case Exhausted =>
        case Broken =>
      }
    }
  }

  lemma OthersStayOnArrival(m: Machine, x: int, bytes: string, fd: int)
    requires x in m.core.sessions && fd in m.core.sessions && fd != x
    ensures fd in Arrive(m, x, bytes).0.core.sessions
  {
    hide HandleAll, Lines, Rest, Quits;
    HandleAllKeepsKeys(m.core, x, Lines(Inbuf(m, x) + bytes));
  }
}
