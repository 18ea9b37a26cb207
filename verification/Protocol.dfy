/** The text protocol: number parsing, tokenizing and the message builders. */
module Protocol {
  import opened Wrappers

  const MAX_VALUE: int := 2147483647
  const INT64_MAX: int := 9223372036854775807
  const INSTRUMENTS: seq<string> := ["JNST", "IMCT"]

  // ---------------------------------------------------------------- characters

  predicate IsDigit(c: char) {
    '0' <= c <= '9'
  }

  /** isspace of the "C" locale: space, \t, \n, \v, \f, \r. */
  predicate IsSpace(c: char) {
    c == ' ' || c == '\t' || c == '\n' || c == '\U{000B}' || c == '\U{000C}' || c == '\r'
  }

  predicate IsWord(w: string) {
    w != "" && forall i :: 0 <= i < |w| ==> !IsSpace(w[i])
  }

  /** A string a framed line may carry: neither '\n' nor '\r' occurs in it. */
  predicate OneLine(s: string) {
    forall i :: 0 <= i < |s| ==> s[i] != '\n' && s[i] != '\r'
  }

  // ------------------------------------------------------------------- numbers

  /** A non-empty run of digits. */
  predicate Numeral(s: string) {
    s != "" && forall i :: 0 <= i < |s| ==> IsDigit(s[i])
  }

  /** The number a run of digits denotes; leading zeros are allowed. */
  function Value(s: string): nat
    requires forall i :: 0 <= i < |s| ==> IsDigit(s[i])
  {
    if s == "" then 0
    else
      var last := s[|s| - 1];
      assert IsDigit(last);
      10 * Value(s[..|s| - 1]) + (last as int - '0' as int)
  }

  /** std::to_string. */
  function ToString(n: int): string
    decreases n < 0, if n < 0 then -n else n
  {
    if n < 0 then "-" + ToString(-n)
    else if n < 10 then [('0' as int + n) as char] else ToString(n / 10) + [('0' as int + n % 10) as char]
  }

  /** std::from_chars into a 64-bit integer: no value when the number does not fit. */
  function FromChars(s: string): Option<nat>
    requires Numeral(s)
  {
    if Value(s) <= INT64_MAX then Some(Value(s)) else None
  }

  /** The meaning of parse_nonnegative_int and parse_positive_int: a numeral from `low` to MAX_VALUE. */
  function Parse(s: string, low: nat): Option<nat> {
    if Numeral(s) && low <= Value(s) <= MAX_VALUE then Some(Value(s)) else None
  }

  /** `initial` is what the caller's out-parameter holds before the call. */
  method ParseNonnegativeInt(s: string, initial: int) returns (ok: bool, out: int)
    ensures ok == Parse(s, 0).Some?
    ensures ok <==> s != "" && (forall i :: 0 <= i < |s| ==> '0' <= s[i] <= '9') && Value(s) <= 2147483647
    ensures ok ==> out == Parse(s, 0).value == Value(s)
    ensures !ok ==> out == if Numeral(s) && Value(s) <= 9223372036854775807 then Value(s) else initial
  {
    out := initial;
    if s == "" {
      return false, out;
    }
    var i := 0;
    while i < |s|
      invariant 0 <= i <= |s|
      invariant forall j :: 0 <= j < i ==> IsDigit(s[j])
    {
      if !IsDigit(s[i]) {
        return false, out;
      }
      i := i + 1;
    }
    var parsed := FromChars(s);
    if parsed.None? {
      return false, out;
    }
    out := parsed.value;
    if out > MAX_VALUE {
      return false, out;
    }
    return true, out;
  }

  method ParsePositiveInt(s: string, initial: int) returns (ok: bool, out: int)
    ensures ok == Parse(s, 1).Some?
    ensures ok <==> s != "" && (forall i :: 0 <= i < |s| ==> '0' <= s[i] <= '9') && 1 <= Value(s) <= 2147483647
    ensures ok ==> out == Parse(s, 1).value == Value(s)
    ensures !ok ==> out == if Numeral(s) && Value(s) <= 9223372036854775807 then Value(s) else initial
  {
    ok, out := ParseNonnegativeInt(s, initial);
    if !ok {
      return false, out;
    }
    return out > 0, out;
  }

  function Power10(n: nat): nat {
    if n == 0 then 1 else 10 * Power10(n - 1)
  }

  lemma TenTimes(x: nat, y: nat)
    ensures x * (10 * y) == 10 * (x * y)
  {
  }

  lemma OneDigitMore(b: string)
    requires forall i :: 0 <= i < |b| ==> IsDigit(b[i])
    ensures b != "" ==> var front, last := b[..|b| - 1], b[|b| - 1]; Value(b) == 10 * Value(front) + (last as int - 48)
    ensures b == "" ==> Value(b) == 0 && Power10(|b|) == 1
    ensures b != "" ==> Power10(|b|) == 10 * Power10(|b| - 1)
  {
  }

  /** Decimal notation: the ten digits, and the weight of what stands before others. */
  lemma {:induction false} DecimalNotation(a: string, b: string)
    requires forall i :: 0 <= i < |a| ==> IsDigit(a[i])
    requires forall i :: 0 <= i < |b| ==> IsDigit(b[i])
    ensures (forall i :: 0 <= i < |a + b| ==> IsDigit((a + b)[i])) && Value(a + b) == Value(a) * Power10(|b|) + Value(b)
    decreases |b|
  {
    hide Value, Power10;
    OneDigitMore(b);
    if b == "" {
      assert a + b == a;
    } else {
      var front := b[..|b| - 1];
      assert (a + b)[..|a + b| - 1] == a + front;
      assert (a + b)[|a + b| - 1] == b[|b| - 1];
      DecimalNotation(a, front);
      OneDigitMore(a + b);
      TenTimes(Value(a), Power10(|front|));
    }
  }

  lemma TheDigits()
    ensures Numeral("0123456789")
    ensures Value("0") == 0 && Value("1") == 1 && Value("2") == 2 && Value("3") == 3 && Value("4") == 4
    ensures Value("5") == 5 && Value("6") == 6 && Value("7") == 7 && Value("8") == 8 && Value("9") == 9
  {
    assert Value("") == 0;
    assert "0"[..0] == "" && "1"[..0] == "" && "2"[..0] == "" && "3"[..0] == "" && "4"[..0] == "";
    assert "5"[..0] == "" && "6"[..0] == "" && "7"[..0] == "" && "8"[..0] == "" && "9"[..0] == "";
  }

  /** Printing a number and reading it back gives the number, so both parsers accept every value in range. */
  lemma {:induction false} PrintThenParse(n: nat)
    ensures IsWord(ToString(n)) && Numeral(ToString(n)) && Value(ToString(n)) == n
    ensures n > 0 ==> ToString(n)[0] != '0'
    ensures forall low: nat :: low <= n <= MAX_VALUE ==> Parse(ToString(n), low) == Some(n)
  {
    if n >= 10 {
      PrintThenParse(n / 10);
      assert ToString(n)[..|ToString(n)| - 1] == ToString(n / 10);
    } else {
      assert Value(ToString(n)[..0]) == 0;
    }
  }

  /** Leading zeros, however many, do not change the number a text denotes. */
  lemma {:induction false} LeadingZeros(s: string)
    requires Numeral(s)
    ensures Numeral("0" + s) && Value("0" + s) == Value(s)
    decreases |s|
  {
    var t := "0" + s;
    assert t[..|t| - 1] == "0" + s[..|s| - 1];
    if |s| > 1 {
      LeadingZeros(s[..|s| - 1]);
    } else {
      assert t[..1] == "0" && Value(t[..1][..0]) == 0;
    }
  }

  // -------------------------------------------------------------------- tokens

  /** The length of the word at the front of `s`. */
  function WordEnd(s: string): (k: nat)
    ensures k <= |s|
    ensures forall i :: 0 <= i < k ==> !IsSpace(s[i])
    ensures k < |s| ==> IsSpace(s[k])
  {
    if s == "" || IsSpace(s[0]) then 0 else 1 + WordEnd(s[1..])
  }

  /** The maximal runs of non-space characters, left to right. */
  function Tokens(s: string): (tok: seq<string>)
    ensures forall i :: 0 <= i < |tok| ==> IsWord(tok[i])
    decreases |s|
  {
    if s == "" then []
    else if IsSpace(s[0]) then Tokens(s[1..])
    else
      var k := WordEnd(s);
      [s[..k]] + Tokens(s[k..])
  }

  lemma TokensAfterSpace(line: string, i: nat)
    requires i < |line| && IsSpace(line[i])
    ensures Tokens(line[i..]) == Tokens(line[i + 1..])
  {
    assert line[i..][1..] == line[i + 1..];
  }

  lemma TokensAtWord(line: string, start: nat, end: nat)
    requires start < end <= |line| && end - start == WordEnd(line[start..])
    ensures Tokens(line[start..]) == [line[start..end]] + Tokens(line[end..])
  {
    assert line[start..][..end - start] == line[start..end];
    assert line[start..][end - start..] == line[end..];
  }

  lemma WordGoesOn(line: string, i: nat)
    requires i < |line| && !IsSpace(line[i])
    ensures WordEnd(line[i..]) == 1 + WordEnd(line[i + 1..])
  {
    assert line[i..][1..] == line[i + 1..];
  }

  lemma WordStops(line: string, i: nat)
    requires i == |line| || (i < |line| && IsSpace(line[i]))
    ensures WordEnd(line[i..]) == 0
  {
  }

  lemma NoTokensLeft(line: string)
    ensures Tokens(line[|line|..]) == []
  {
  }

  /** `iss >> w` skips spaces and then reads one word; the loop below is that extraction written out. */
  method Tokenize(line: string) returns (tok: seq<string>)
    ensures tok == Tokens(line)
  {
    hide IsSpace, Tokens, WordEnd;
    tok := [];
    var i := 0;
    assert line[0..] == line;
    while true
      invariant 0 <= i <= |line|
      invariant tok + Tokens(line[i..]) == Tokens(line)
      decreases |line| - i
    {
      while i < |line| && IsSpace(line[i])
        invariant 0 <= i <= |line|
        invariant tok + Tokens(line[i..]) == Tokens(line)
      {
        TokensAfterSpace(line, i);
        i := i + 1;
      }
      if i == |line| {
        NoTokensLeft(line);
        return;
      }
      var start := i;
      while i < |line| && !IsSpace(line[i])
        invariant start <= i <= |line|
        invariant i > start || !IsSpace(line[i])
        invariant i - start + WordEnd(line[i..]) == WordEnd(line[start..])
      {
        WordGoesOn(line, i);
        i := i + 1;
      }
      WordStops(line, i);
      TokensAtWord(line, start, i);
      assert tok + ([line[start..i]] + Tokens(line[i..])) == (tok + [line[start..i]]) + Tokens(line[i..]);
      tok := tok + [line[start..i]];
    }
  }

  method IsValidInstrument(s: string) returns (valid: bool)
    ensures valid == (s in INSTRUMENTS)
    ensures valid <==> s == "JNST" || s == "IMCT"
  {
    var i := 0;
    while i < |INSTRUMENTS|
      invariant 0 <= i <= |INSTRUMENTS|
      invariant s !in INSTRUMENTS[..i]
    {
      if s == INSTRUMENTS[i] {
        return true;
      }
      i := i + 1;
    }
    return false;
  }

  /** A gap between words: any number of spaces, tabs, and the other characters that count as space. */
  predicate Blank(gap: string) {
    forall i :: 0 <= i < |gap| ==> gap[i] in " \t\n\r\U{000B}\U{000C}"
  }

  predicate NoBlank(w: string) {
    w != "" && forall i :: 0 <= i < |w| ==> w[i] !in " \t\n\r\U{000B}\U{000C}"
  }

  /** Words, each after its gap, and one gap more at the end. */
  function Spaced(gaps: seq<string>, words: seq<string>, last: string): string
    requires |gaps| == |words|
  {
    if words == [] then last else gaps[0] + words[0] + Spaced(gaps[1..], words[1..], last)
  }

  lemma SpacesAre(c: char)
    ensures IsSpace(c) <==> c in " \t\n\r\U{000B}\U{000C}"
  {
  }

  lemma {:induction false} TokensAfterGap(gap: string, rest: string)
    requires Blank(gap)
    ensures Tokens(gap + rest) == Tokens(rest)
    decreases |gap|
  {
    if gap == "" {
      assert gap + rest == rest;
    } else {
      SpacesAre(gap[0]);
      assert (gap + rest)[0] == gap[0] && (gap + rest)[1..] == gap[1..] + rest;
      TokensAfterGap(gap[1..], rest);
    }
  }

  lemma TokensOfFirst(w: string, rest: string)
    requires NoBlank(w) && (rest == "" || rest[0] in " \t\n\r\U{000B}\U{000C}")
    ensures Tokens(w + rest) == [w] + Tokens(rest)
  {
    forall i | 0 <= i < |w|
      ensures !IsSpace(w[i])
    {
      SpacesAre(w[i]);
    }
    if rest != "" {
      SpacesAre(rest[0]);
    }
    WordEndOfWord(w, rest);
    assert (w + rest)[0] == w[0] && (w + rest)[..|w|] == w && (w + rest)[|w|..] == rest;
  }

  /** However words are spaced, before, between and after, tokenizing gives the words. */
  lemma {:induction false} TokensOfSpaced(gaps: seq<string>, words: seq<string>, last: string)
    requires |gaps| == |words| && Blank(last)
    requires forall i :: 0 <= i < |words| ==> Blank(gaps[i]) && NoBlank(words[i]) && (i > 0 ==> gaps[i] != "")
    ensures Tokens(Spaced(gaps, words, last)) == words
    decreases |words|
  {
    hide Blank, NoBlank, Tokens;
    if words == [] {
      assert last + "" == last;
      TokensAfterGap(last, "");
      NoWords();
    } else {
      var rest := Spaced(gaps[1..], words[1..], last);
      assert gaps[0] + words[0] + rest == gaps[0] + (words[0] + rest);
      TokensAfterGap(gaps[0], words[0] + rest);
      RestStartsBlank(gaps, words, last);
      TokensOfFirst(words[0], rest);
      TokensOfSpaced(gaps[1..], words[1..], last);
      assert words == [words[0]] + words[1..];
    }
  }

  lemma NoWords()
    ensures Tokens("") == []
  {
  }

  lemma RestStartsBlank(gaps: seq<string>, words: seq<string>, last: string)
    requires |gaps| == |words| > 0 && Blank(last)
    requires forall i :: 0 <= i < |words| ==> Blank(gaps[i]) && (i > 0 ==> gaps[i] != "")
    ensures var rest := Spaced(gaps[1..], words[1..], last);
            rest == "" || rest[0] in " \t\n\r\U{000B}\U{000C}"
  {
    if |words| > 1 {
      var rest := Spaced(gaps[1..], words[1..], last);
      assert gaps[1..][0] == gaps[1] && rest[0] == gaps[1][0];
    }
  }

  /** Words put together with single spaces, as the message builders do. */
  function Join(words: seq<string>): string {
    if words == [] then ""
    else if |words| == 1 then words[0]
    else words[0] + " " + Join(words[1..])
  }

  lemma {:induction false} WordEndOfWord(w: string, rest: string)
    requires forall i :: 0 <= i < |w| ==> !IsSpace(w[i])
    requires rest == "" || IsSpace(rest[0])
    ensures WordEnd(w + rest) == |w|
  {
    if w == "" {
      assert w + rest == rest;
    } else {
      assert (w + rest)[1..] == w[1..] + rest;
      WordEndOfWord(w[1..], rest);
    }
  }

  lemma WordsHaveNoBlank(w: string)
    requires IsWord(w)
    ensures NoBlank(w)
  {
    forall i | 0 <= i < |w|
      ensures w[i] !in " \t\n\r\U{000B}\U{000C}"
    {
      SpacesAre(w[i]);
    }
  }

  /** Tokenizing inverts joining. */
  lemma {:induction false} TokensOfJoin(words: seq<string>)
    requires forall i :: 0 <= i < |words| ==> IsWord(words[i])
    ensures Tokens(Join(words)) == words
  {
    hide Tokens, IsWord, NoBlank;
    NoWords();
    if words == [] {
    } else {
      var w, more := words[0], Join(words[1..]);
      assert words == [w] + words[1..];
      WordsHaveNoBlank(w);
      if |words| == 1 {
        assert w + "" == w;
        TokensOfFirst(w, "");
      } else {
        assert w + " " + more == w + (" " + more);
        TokensOfFirst(w, " " + more);
        TokensAfterGap(" ", more);
        TokensOfJoin(words[1..]);
      }
    }
  }

  lemma {:induction false} JoinIsOneLine(words: seq<string>)
    requires forall i :: 0 <= i < |words| ==> IsWord(words[i])
    ensures OneLine(Join(words))
  {
    if |words| <= 1 {
    } else {
      JoinIsOneLine(words[1..]);
    }
  }

  // ------------------------------------------------------------------ messages

  function MsgOk(): string { "OK" }

  function MsgError(reason: string): string { "ERROR " + reason }

  function MsgOrderAccepted(id: int): string { "ORDER_ACCEPTED " + ToString(id) }

  function MsgOrderCancelled(id: int): string { "ORDER_CANCELLED " + ToString(id) }

  function MsgBought(instrument: string, qty: int, price: int): string {
    "BOUGHT " + instrument + " " + ToString(qty) + " " + ToString(price)
  }

  function MsgSold(instrument: string, qty: int, price: int): string {
    "SOLD " + instrument + " " + ToString(qty) + " " + ToString(price)
  }

  function MsgTrade(instrument: string, qty: int, price: int): string {
    "TRADE " + instrument + " " + ToString(qty) + " " + ToString(price)
  }

  lemma JoinFour(a: string, b: string, c: string, d: string)
    ensures Join([a, b, c, d]) == a + " " + b + " " + c + " " + d
  {
    assert [a, b, c, d][1..] == [b, c, d] && [b, c, d][1..] == [c, d] && [c, d][1..] == [d];
    assert Join([d]) == d;
    assert Join([c, d]) == c + " " + d;
    assert Join([b, c, d]) == b + " " + (c + " " + d);
  }

  /** What the three execution messages have in common: four words. */
  lemma ReportIsJoin(instrument: string, qty: int, price: int)
    ensures MsgBought(instrument, qty, price) == Join(["BOUGHT", instrument, ToString(qty), ToString(price)])
    ensures MsgSold(instrument, qty, price) == Join(["SOLD", instrument, ToString(qty), ToString(price)])
    ensures MsgTrade(instrument, qty, price) == Join(["TRADE", instrument, ToString(qty), ToString(price)])
  {
    JoinFour("BOUGHT", instrument, ToString(qty), ToString(price));
    JoinFour("SOLD", instrument, ToString(qty), ToString(price));
    JoinFour("TRADE", instrument, ToString(qty), ToString(price));
    assert "BOUGHT " == "BOUGHT" + " " && "SOLD " == "SOLD" + " " && "TRADE " == "TRADE" + " ";
  }

  /** A client recovers what was traded, and on which side, from the text of an execution message. */
  lemma ReportRoundTrip(instrument: string, qty: int, price: int)
    requires instrument in INSTRUMENTS && 1 <= qty <= MAX_VALUE && 1 <= price <= MAX_VALUE
    ensures Tokens(MsgBought(instrument, qty, price)) == ["BOUGHT", instrument, ToString(qty), ToString(price)]
    ensures Tokens(MsgSold(instrument, qty, price)) == ["SOLD", instrument, ToString(qty), ToString(price)]
    ensures Tokens(MsgTrade(instrument, qty, price)) == ["TRADE", instrument, ToString(qty), ToString(price)]
    ensures Parse(ToString(qty), 1) == Some(qty) && Parse(ToString(price), 1) == Some(price)
  {
    ReportIsJoin(instrument, qty, price);
    PrintThenParse(qty);
    PrintThenParse(price);
    TokensOfJoin(["BOUGHT", instrument, ToString(qty), ToString(price)]);
    TokensOfJoin(["SOLD", instrument, ToString(qty), ToString(price)]);
    TokensOfJoin(["TRADE", instrument, ToString(qty), ToString(price)]);
  }

  lemma TwoWords(a: string, b: string)
    requires IsWord(a) && IsWord(b)
    ensures Tokens(a + " " + b) == [a, b]
  {
    hide Tokens, IsWord;
    TokensOfJoin([a, b]);
    assert [a, b][1..] == [b];
  }

  /** What a client reads first in an error is the word ERROR; the words of the reason follow. */
  lemma ErrorRoundTrip(reason: string)
    ensures Tokens(MsgError(reason)) == ["ERROR"] + Tokens(reason) && Tokens(MsgOk()) == ["OK"]
  {
    hide Tokens;
    assert "ERROR " + reason == "ERROR" + (" " + reason);
    assert NoBlank("ERROR") && NoBlank("OK") && Blank(" ");
    TokensOfFirst("ERROR", " " + reason);
    TokensAfterGap(" ", reason);
    assert "OK" + "" == "OK";
    TokensOfFirst("OK", "");
    NoWords();
    assert ["OK"] + [] == ["OK"];
  }

  /** A client reads from ORDER_ACCEPTED and ORDER_CANCELLED which order they are about. */
  lemma AnswerRoundTrip(id: nat)
    ensures Tokens(MsgOrderAccepted(id)) == ["ORDER_ACCEPTED", ToString(id)]
    ensures Tokens(MsgOrderCancelled(id)) == ["ORDER_CANCELLED", ToString(id)]
    ensures Numeral(ToString(id)) && Value(ToString(id)) == id
  {
    hide Tokens, ToString, Numeral, Value;
    PrintThenParse(id);
    assert "ORDER_ACCEPTED " == "ORDER_ACCEPTED" + " " && "ORDER_CANCELLED " == "ORDER_CANCELLED" + " ";
    TwoWords("ORDER_ACCEPTED", ToString(id));
    TwoWords("ORDER_CANCELLED", ToString(id));
  }
}
