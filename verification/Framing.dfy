/** Newline framing: net::LineBuffer, and what cutting a byte stream into lines means. */
module Framing {
  import opened Protocol

  /** buf_.find('\n'), with the length standing for npos. */
  function Find(s: string): (p: nat)
    ensures p <= |s|
    ensures forall i :: 0 <= i < p ==> s[i] != '\n'
    ensures p < |s| ==> s[p] == '\n'
  {
    if s == "" || s[0] == '\n' then 0 else 1 + Find(s[1..])
  }

  /** At most one trailing '\r' is dropped. */
  function Strip(line: string): string {
    if line != "" && line[|line| - 1] == '\r' then line[..|line| - 1] else line
  }

  /** The complete lines of a stream, in order. */
  function Lines(s: string): seq<string>
    decreases |s|
  {
    var p := Find(s);
    if p == |s| then [] else [Strip(s[..p])] + Lines(s[p + 1..])
  }

  /** What follows the last '\n': the bytes still waiting for the rest of their line. */
  function Rest(s: string): (r: string)
    ensures forall i :: 0 <= i < |r| ==> r[i] != '\n'
    decreases |s|
  {
    var p := Find(s);
    if p == |s| then s else Rest(s[p + 1..])
  }

  /** Lines ended by '\n', one after the other: the bytes a sender produces. */
  function Frame(lines: seq<string>): string {
    if lines == [] then "" else Frame(lines[..|lines| - 1]) + lines[|lines| - 1] + "\n"
  }

  function StripAll(lines: seq<string>): seq<string> {
    if lines == [] then [] else StripAll(lines[..|lines| - 1]) + [Strip(lines[|lines| - 1])]
  }

  function Concat(chunks: seq<string>): string {
    if chunks == [] then "" else chunks[0] + Concat(chunks[1..])
  }

  class LineBuffer {
    var buf: string

    constructor ()
      ensures buf == ""
    {
      buf := "";
    }

    method Feed(data: string)
      modifies this
      ensures buf == old(buf) + data
    {
      buf := buf + data;
    }

    method NextLine() returns (found: bool, line: string)
      modifies this
      ensures found == ('\n' in old(buf))
      ensures !found ==> buf == old(buf) && Lines(buf) == [] && Rest(buf) == buf
      ensures found ==> |buf| < |old(buf)|
      ensures found ==> Lines(old(buf)) == [line] + Lines(buf) && Rest(old(buf)) == Rest(buf)
      ensures found ==> line == Strip(old(buf)[..Find(old(buf))]) && buf == old(buf)[Find(old(buf)) + 1..]
    {
      hide Find, Lines, Rest;
      LineStep(buf);
      var pos := Find(buf);
      if pos == |buf| {
        return false, "";
      }
      assert '\n' == buf[pos];
      line := buf[..pos];
      buf := buf[pos + 1..];
      if line != "" && line[|line| - 1] == '\r' {
        line := line[..|line| - 1];
      }
      found := true;
    }
  }

  // ------------------------------------------------------- chunk independence

  lemma {:induction false} FindSplit(a: string, b: string)
    ensures Find(a) < |a| ==> Find(a + b) == Find(a)
    ensures Find(a) == |a| ==> Find(a + b) == |a| + Find(b)
  {
    if a == "" {
      assert a + b == b;
    } else if a[0] != '\n' {
      assert (a + b)[1..] == a[1..] + b;
      FindSplit(a[1..], b);
    }
  }

  lemma NoLineYet(s: string)
    requires Find(s) == |s|
    ensures Lines(s) == [] && Rest(s) == s
  {
    hide Find;
  }

  lemma FirstLineOff(s: string, p: nat)
    requires p == Find(s) && p < |s|
    ensures Lines(s) == [Strip(s[..p])] + Lines(s[p + 1..])
  {
    hide Find, Strip;
  }

  lemma RestAfterFirst(s: string, p: nat)
    requires p == Find(s) && p < |s|
    ensures Rest(s) == Rest(s[p + 1..])
  {
    hide Find;
  }

  /** Either the stream has no complete line yet, or its first one comes off. */
  lemma LineStep(s: string)
    ensures var p := Find(s);
            if p == |s| then Lines(s) == [] && Rest(s) == s
            else Lines(s) == [Strip(s[..p])] + Lines(s[p + 1..]) && Rest(s) == Rest(s[p + 1..])
  {
    hide Find, Strip, Lines, Rest;
    if Find(s) == |s| {
      NoLineYet(s);
    } else {
      FirstLineOff(s, Find(s));
      RestAfterFirst(s, Find(s));
    }
  }

  /** Draining the lines of `a` before `b` arrives gives the lines, and the waiting bytes, of `a + b`. */
  lemma {:induction false} LinesSplit(a: string, b: string)
    ensures Lines(a + b) == Lines(a) + Lines(Rest(a) + b)
    ensures Rest(a + b) == Rest(Rest(a) + b)
    decreases |a|
  {
    hide Find, Strip, Lines, Rest;
    var p := Find(a);
    FindSplit(a, b);
    LineStep(a);
    LineStep(a + b);
    if p == |a| {
      assert [] + Lines(a + b) == Lines(a + b);
    } else {
      assert (a + b)[..p] == a[..p] && (a + b)[p + 1..] == a[p + 1..] + b;
      LinesSplit(a[p + 1..], b);
    }
  }

  /** A receiver that drains its buffer after each chunk: the lines it saw and what its buffer holds. */
  function Receive(buf: string, chunks: seq<string>): (seq<string>, string)
    decreases |chunks|
  {
    if chunks == [] then ([], buf)
    else
      var later := Receive(Rest(buf + chunks[0]), chunks[1..]);
      (Lines(buf + chunks[0]) + later.0, later.1)
  }

  /** However the stream is cut into chunks, the receiver sees the lines of the whole stream. */
  lemma {:induction false} ReceiveIgnoresChunks(buf: string, chunks: seq<string>)
    requires '\n' !in buf
    ensures Receive(buf, chunks) == (Lines(buf + Concat(chunks)), Rest(buf + Concat(chunks)))
    decreases |chunks|
  {
    if chunks == [] {
      assert buf + "" == buf;
      assert Find(buf) == |buf|;
    } else {
      var a, b := buf + chunks[0], Concat(chunks[1..]);
      assert buf + Concat(chunks) == a + b;
      LinesSplit(a, b);
      ReceiveIgnoresChunks(Rest(a), chunks[1..]);
    }
  }

  /** The lines are the only way to cut the stream at its newlines: raw lines without '\n', then the rest. */
  lemma {:induction false} LinesAreTheCut(raw: seq<string>, rest: string)
    requires forall i :: 0 <= i < |raw| ==> '\n' !in raw[i]
    requires '\n' !in rest
    ensures Lines(Frame(raw) + rest) == StripAll(raw)
    ensures Rest(Frame(raw) + rest) == rest
    decreases |raw|
  {
    if raw == [] {
      assert Frame(raw) + rest == rest;
      assert Find(rest) == |rest|;
    } else {
      var last := raw[|raw| - 1];
      var front := raw[..|raw| - 1];
      assert Frame(raw) + rest == Frame(front) + (last + "\n" + rest);
      LinesAreTheCut(front, "");
      assert Frame(front) + "" == Frame(front);
      LinesSplit(Frame(front), last + "\n" + rest);
      assert "" + (last + "\n" + rest) == last + "\n" + rest;
      OneRawLine(last, rest);
    }
  }

  lemma NoNewline(s: string)
    requires '\n' !in s
    ensures Find(s) == |s|
  {
  }

  lemma OneRawLine(line: string, rest: string)
    requires '\n' !in line && '\n' !in rest
    ensures Lines(line + "\n" + rest) == [Strip(line)]
    ensures Rest(line + "\n" + rest) == rest
  {
    hide Find, Strip;
    var s := line + "\n" + rest;
    NoNewline(line);
    NoNewline(rest);
    FindSplit(line, "\n" + rest);
    assert s == line + ("\n" + rest);
    assert s[|line|] == '\n';
    assert Find(s) == |line| by {
      NewlineFirst(rest);
    }
    assert s[..|line|] == line && s[|line| + 1..] == rest;
    assert Lines(rest) == [] && Rest(rest) == rest;
  }

  lemma NewlineFirst(rest: string)
    ensures Find("\n" + rest) == 0
  {
  }

  /** One carriage return before the newline belongs to the line's end; no second one does, nor another character. */
  lemma LineEnds(line: string)
    requires '\n' !in line
    ensures Lines(line + "\r\n") == [line] && Rest(line + "\r\n") == ""
    ensures line == "" || line[|line| - 1] != '\r' ==> Lines(line + "\n") == [line]
  {
    hide Lines, Rest;
    OneRawLine(line + "\r", "");
    OneRawLine(line, "");
    assert line + "\r" + "\n" + "" == line + "\r\n" && line + "\n" + "" == line + "\n";
    assert (line + "\r")[..|line|] == line;
  }

  // -------------------------------------------------------- the sender's side

  predicate AllOneLine(lines: seq<string>) {
    forall i :: 0 <= i < |lines| ==> OneLine(lines[i])
  }

  lemma {:induction false} NothingToStrip(lines: seq<string>)
    requires AllOneLine(lines)
    ensures StripAll(lines) == lines
  {
    if lines == [] {
    } else {
      NothingToStrip(lines[..|lines| - 1]);
    }
  }

  /** Unframing inverts framing. */
  lemma LinesOfFrame(lines: seq<string>)
    requires AllOneLine(lines)
    ensures Lines(Frame(lines)) == lines && Rest(Frame(lines)) == ""
  {
    NothingToStrip(lines);
    LinesAreTheCut(lines, "");
    assert Frame(lines) + "" == Frame(lines);
  }

  /** A receiver that got only part of the stream saw whole messages of it, from the first on. */
  lemma LinesOfPrefix(part: string, lines: seq<string>)
    requires AllOneLine(lines) && part <= Frame(lines)
    ensures Lines(part) <= lines
  {
    var missing := Frame(lines)[|part|..];
    assert part + missing == Frame(lines);
    LinesSplit(part, missing);
    LinesOfFrame(lines);
  }
}
