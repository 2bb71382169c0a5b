/** The text of the Paxos log (log.cc): records as they are printed, and the stream extractions with
    which they are read back. */
module LogText {
  import opened Acceptor
  import opened Sequences

  const UINT: nat := 0x1_0000_0000

  // ---------------------------------------------------------------- stream extractions

  /** isspace in the C locale. */
  predicate IsSpace(c: char) {
    c == ' ' || '\t' <= c <= '\r'
  }

  predicate IsDigit(c: char) {
    '0' <= c <= '9'
  }

  predicate NotSpace(c: char) {
    !IsSpace(c)
  }

  predicate NotNewline(c: char) {
    c != '\n'
  }

  /** The length of the longest prefix whose characters all satisfy p. */
  function Span(s: string, p: char -> bool): (k: nat)
    ensures k <= |s| && (forall i :: 0 <= i < k ==> p(s[i])) && (k < |s| ==> !p(s[k]))
  {
    if s == "" || !p(s[0]) then 0 else 1 + Span(s[1..], p)
  }

  lemma {:induction false} SpanAppend(a: string, b: string, p: char -> bool)
    requires (forall i :: 0 <= i < |a| ==> p(a[i])) && (b == "" || !p(b[0]))
    ensures Span(a + b, p) == |a|
  {
    if a == "" {
      assert a + b == b;
    } else {
      SpanAppend(a[1..], b, p);
      assert (a + b)[1..] == a[1..] + b;
    }
  }

  function SkipSpace(s: string): string {
    s[Span(s, IsSpace)..]
  }

  datatype Read<T> = Read(value: T, rest: string) | Fail

  predicate IsToken(m: string) {
    m != "" && forall i :: 0 <= i < |m| ==> NotSpace(m[i])
  }

  predicate IsLine(v: string) {
    forall i :: 0 <= i < |v| ==> NotNewline(v[i])
  }

  /** `>>` into a string. */
  function ReadToken(s: string): (r: Read<string>)
    ensures r.Read? ==> IsToken(r.value) && |r.rest| < |s|
  {
    var t := SkipSpace(s);
    if t == "" then Fail else var k := Span(t, NotSpace); Read(t[..k], t[k..])
  }

  function DigitValue(c: char): nat
    requires IsDigit(c)
  {
    c as int - '0' as int
  }

  function Value(digits: string): nat
    requires forall i :: 0 <= i < |digits| ==> IsDigit(digits[i])
  {
    if digits == "" then 0 else Value(digits[..|digits| - 1]) * 10 + DigitValue(digits[|digits| - 1])
  }

  /** `>>` into an unsigned: no digits, or a value that does not fit, fails the stream. */
  function ReadUnsigned(s: string): (r: Read<nat>)
    ensures r.Read? ==> r.value < UINT && |r.rest| < |s|
  {
    var t := SkipSpace(s);
    var k := Span(t, IsDigit);
    if k == 0 || Value(t[..k]) >= UINT then Fail else Read(Value(t[..k]), t[k..])
  }

  /** get() and then getline(): one character is dropped, and the line's newline is consumed. */
  function RestOfLine(s: string): (r: (string, string))
    ensures IsLine(r.0) && |r.1| <= |s|
  {
    var t := if s == "" then s else s[1..];
    var k := Span(t, NotNewline);
    (t[..k], if k < |t| then t[k + 1..] else "")
  }

  // ---------------------------------------------------------------- records

  function Digits(n: nat): (r: string)
    ensures r != "" && forall i :: 0 <= i < |r| ==> IsDigit(r[i])
  {
    if n < 10 then ['0' + n as char] else Digits(n / 10) + ['0' + (n % 10) as char]
  }

  function Print(r: Record): string {
    match r
    case Done(inst, v) => "done" + (" " + (Digits(inst) + (" " + (v + "\n"))))
    case High(p) => "high" + (" " + (Digits(p.n) + (" " + (p.m + "\n"))))
    case Proposed(p, v) => "prop" + (" " + (Digits(p.n) + (" " + (p.m + (" " + (v + "\n"))))))
  }

  /** Names are non-empty without whitespace, values have no newline, numbers fit in an unsigned. */
  predicate Printable(r: Record) {
    match r
    case Done(inst, v) => inst < UINT && IsLine(v)
    case High(p) => p.n < UINT && IsToken(p.m)
    case Proposed(p, v) => p.n < UINT && IsToken(p.m) && IsLine(v)
  }

  predicate AllPrintable(rs: seq<Record>) {
    forall i :: 0 <= i < |rs| ==> Printable(rs[i])
  }

  function PrintAll(rs: seq<Record>): string {
    if rs == [] then "" else Print(rs[0]) + PrintAll(rs[1..])
  }

  /** How an attempt to read a record ends: with one, at the end of the file, at a word that starts no
      record (an assertion failure), or with a failed stream in the middle of one. */
  datatype Step = Got(r: Record, rest: string) | AtEnd | Unknown | Broken

  ghost predicate Sound(r: Step, s: string) {
    r.Got? ==> Printable(r.r) && |r.rest| <= |s|
  }

  function ReadDone(s: string): (r: Step)
    ensures Sound(r, s)
  {
    match ReadUnsigned(s)
    case Fail => Broken
    case Read(n, t) =>
      var (v, rest) := RestOfLine(t);
      Got(Done(n, v), rest)
  }

  function ReadHigh(s: string): (r: Step)
    ensures Sound(r, s)
  {
    match ReadUnsigned(s)
    case Fail => Broken
    case Read(n, t) =>
      match ReadToken(t)
      case Fail => Broken
      case Read(m, rest) => Got(High(Prop(n, m)), rest)
  }

  function ReadProp(s: string): (r: Step)
    ensures Sound(r, s)
  {
    match ReadUnsigned(s)
    case Fail => Broken
    case Read(n, t) =>
      match ReadToken(t)
      case Fail => Broken
      case Read(m, u) =>
        var (v, rest) := RestOfLine(u);
        Got(Proposed(Prop(n, m), v), rest)
  }

  /** Only printable records are ever read. */
  function ReadRecord(s: string): (r: Step)
    ensures Sound(r, s) && (r.Got? ==> |r.rest| < |s|)
  {
    match ReadToken(s)
    case Fail => AtEnd
    case Read(word, rest) =>
      if word == "done" then ReadDone(rest)
      else if word == "high" then ReadHigh(rest)
      else if word == "prop" then ReadProp(rest)
      else Unknown
  }

  /** The records that are read before the end, and how the reading ended. */
  function Parse(s: string): (seq<Record>, Step)
    decreases |s|
  {
    match ReadRecord(s)
    case Got(r, rest) =>
      var (rs, e) := Parse(rest);
      ([r] + rs, e)
    case e => ([], e)
  }

  // ---------------------------------------------------------------- round trip

  lemma {:induction false} DigitsValue(n: nat)
    ensures Value(Digits(n)) == n
  {
    if n < 10 {
      assert Digits(n)[..0] == "";
    } else {
      DigitsValue(n / 10);
      assert Digits(n)[..|Digits(n)| - 1] == Digits(n / 10);
    }
  }

  lemma SkipNone(s: string)
    requires s != "" && NotSpace(s[0])
    ensures SkipSpace(s) == s
  {
    SpanAppend("", s, IsSpace);
    assert "" + s == s;
  }

  lemma SkipOne(c: char, s: string)
    requires IsSpace(c)
    ensures SkipSpace([c] + s) == SkipSpace(s)
  {
    assert ([c] + s)[1..] == s;
    assert Span([c] + s, IsSpace) == 1 + Span(s, IsSpace);
  }

  lemma TokenRead(m: string, rest: string)
    requires IsToken(m) && (rest == "" || IsSpace(rest[0]))
    ensures ReadToken(m + rest) == Read(m, rest) && ReadToken(" " + (m + rest)) == Read(m, rest)
  {
    SkipNone(m + rest);
    SkipOne(' ', m + rest);
    SpanAppend(m, rest, NotSpace);
  }

  lemma UnsignedRead(n: nat, rest: string)
    requires n < UINT && (rest == "" || !IsDigit(rest[0]))
    ensures ReadUnsigned(" " + (Digits(n) + rest)) == Read(n, rest)
  {
    var d := Digits(n);
    SkipNone(d + rest);
    SkipOne(' ', d + rest);
    SpanAppend(d, rest, IsDigit);
    assert (d + rest)[..|d|] == d;
    DigitsValue(n);
  }

  lemma LineRead(v: string, rest: string)
    requires IsLine(v)
    ensures RestOfLine(" " + (v + ("\n" + rest))) == (v, rest)
  {
    var t := v + ("\n" + rest);
    assert (" " + t)[1..] == t;
    SpanAppend(v, "\n" + rest, NotNewline);
    assert t[|v| + 1..] == rest;
  }

  /** After a high record the stream stops before the newline, which the next extraction skips. */
  function Left(r: Record, rest: string): string {
    if r.High? then "\n" + rest else rest
  }

  lemma DoneRead(inst: nat, v: string, rest: string)
    requires Printable(Done(inst, v))
    ensures ReadRecord(Print(Done(inst, v)) + rest) == Got(Done(inst, v), rest)
  {
    var line := " " + (v + ("\n" + rest));
    var s := " " + (Digits(inst) + line);
    assert Print(Done(inst, v)) + rest == "done" + s by {
      Cat("done", " " + (Digits(inst) + (" " + (v + "\n"))), rest);
      Cat(" ", Digits(inst) + (" " + (v + "\n")), rest);
      Cat(Digits(inst), " " + (v + "\n"), rest);
      Cat(" ", v + "\n", rest);
      Cat(v, "\n", rest);
    }
    TokenRead("done", s);
    UnsignedRead(inst, line);
    LineRead(v, rest);
  }

  lemma WordsDiffer()
    ensures "high" != "done" && "prop" != "done" && "prop" != "high"
  {
    assert "high"[0] != "done"[0] && "prop"[0] != "done"[0] && "prop"[0] != "high"[0];
  }

  lemma HighRead(p: Prop, rest: string)
    requires Printable(High(p))
    ensures ReadRecord(Print(High(p)) + rest) == Got(High(p), "\n" + rest)
  {
    var s := " " + (Digits(p.n) + (" " + (p.m + ("\n" + rest))));
    HighText(Digits(p.n), p.m, rest);
    TokenRead("high", s);
    WordsDiffer();
    HighRest(p, rest);
  }

  lemma HighText(d: string, m: string, rest: string)
    ensures "high" + (" " + (d + (" " + (m + "\n")))) + rest == "high" + (" " + (d + (" " + (m + ("\n" + rest)))))
  {
    Cat("high", " " + (d + (" " + (m + "\n"))), rest);
    Cat(" ", d + (" " + (m + "\n")), rest);
    Cat(d, " " + (m + "\n"), rest);
    Cat(" ", m + "\n", rest);
    Cat(m, "\n", rest);
  }

  lemma HighRest(p: Prop, rest: string)
    requires Printable(High(p))
    ensures ReadHigh(" " + (Digits(p.n) + (" " + (p.m + ("\n" + rest))))) == Got(High(p), "\n" + rest)
  {
    UnsignedRead(p.n, " " + (p.m + ("\n" + rest)));
    TokenRead(p.m, "\n" + rest);
  }

  lemma PropRead(p: Prop, v: string, rest: string)
    requires Printable(Proposed(p, v))
    ensures ReadRecord(Print(Proposed(p, v)) + rest) == Got(Proposed(p, v), rest)
  {
    var s := " " + (Digits(p.n) + (" " + (p.m + (" " + (v + ("\n" + rest))))));
    PropText(Digits(p.n), p.m, v, rest);
    TokenRead("prop", s);
    WordsDiffer();
    PropRest(p, v, rest);
  }

  lemma PropText(d: string, m: string, v: string, rest: string)
    ensures "prop" + (" " + (d + (" " + (m + (" " + (v + "\n")))))) + rest
         == "prop" + (" " + (d + (" " + (m + (" " + (v + ("\n" + rest)))))))
  {
    Cat("prop", " " + (d + (" " + (m + (" " + (v + "\n"))))), rest);
    Cat(" ", d + (" " + (m + (" " + (v + "\n")))), rest);
    Cat(d, " " + (m + (" " + (v + "\n"))), rest);
    Cat(" ", m + (" " + (v + "\n")), rest);
    Cat(m, " " + (v + "\n"), rest);
    Cat(" ", v + "\n", rest);
    Cat(v, "\n", rest);
  }

  lemma PropRest(p: Prop, v: string, rest: string)
    requires Printable(Proposed(p, v))
    ensures ReadProp(" " + (Digits(p.n) + (" " + (p.m + (" " + (v + ("\n" + rest))))))) == Got(Proposed(p, v), rest)
  {
    var line := " " + (v + ("\n" + rest));
    UnsignedRead(p.n, " " + (p.m + line));
    TokenRead(p.m, line);
    LineRead(v, rest);
  }

  lemma RecordRead(r: Record, rest: string)
    requires Printable(r)
    ensures ReadRecord(Print(r) + rest) == Got(r, Left(r, rest))
  {
    match r
    case Done(inst, v) => DoneRead(inst, v, rest);
    case High(p) => HighRead(p, rest);
    case Proposed(p, v) => PropRead(p, v, rest);
  }

  lemma LeftIsSkipped(r: Record, rest: string)
    ensures Parse(Left(r, rest)) == Parse(rest)
  {
    SkipOne('\n', rest);
    assert ReadToken("\n" + rest) == ReadToken(rest);
    assert ReadRecord("\n" + rest) == ReadRecord(rest);
  }

  lemma OneParsed(r: Record, rest: string)
    requires Printable(r)
    ensures Parse(Print(r) + rest) == ([r] + Parse(rest).0, Parse(rest).1)
  {
    RecordRead(r, rest);
    LeftIsSkipped(r, rest);
  }

  lemma {:induction false} ParsePrinted(rs: seq<Record>)
    requires AllPrintable(rs)
    ensures Parse(PrintAll(rs)) == (rs, AtEnd)
  {
    if rs != [] {
      ParsePrinted(rs[1..]);
      OneParsed(rs[0], PrintAll(rs[1..]));
      assert rs == [rs[0]] + rs[1..];
    }
  }

  /** Each write appends one record to the file. */
  lemma {:induction false} PrintAppend(rs: seq<Record>, r: Record)
    ensures PrintAll(rs + [r]) == PrintAll(rs) + Print(r)
  {
    if rs == [] {
      assert [r][1..] == [] && Print(r) + "" == "" + Print(r);
    } else {
      PrintAppend(rs[1..], r);
      assert (rs + [r])[1..] == rs[1..] + [r];
      Cat(Print(rs[0]), PrintAll(rs[1..]), Print(r));
    }
  }

  lemma {:induction false} ParsesPrintable(s: string)
    ensures AllPrintable(Parse(s).0)
    decreases |s|
  {
    if ReadRecord(s).Got? {
      ParsesPrintable(ReadRecord(s).rest);
    }
  }

  /** Reading the printed log gives back exactly the records written, and no failure, if and only if they
      are all printable. */
  lemma RoundTrip(rs: seq<Record>)
    ensures Parse(PrintAll(rs)) == (rs, AtEnd) <==> AllPrintable(rs)
  {
    ParsesPrintable(PrintAll(rs));
    if AllPrintable(rs) {
      ParsePrinted(rs);
    }
  }

  /** Why the condition: a name with a space loses what follows the space and breaks off the reading, and
      a value with a newline does too. */
  lemma UnprintableIsLost()
    ensures Parse(PrintAll([High(Prop(1, "a b"))])) != ([High(Prop(1, "a b"))], AtEnd)
    ensures Parse(PrintAll([Done(1, "a\nb")])) != ([Done(1, "a\nb")], AtEnd)
  {
    RoundTrip([High(Prop(1, "a b"))]);
    RoundTrip([Done(1, "a\nb")]);
    assert IsSpace("a b"[1]);
    assert !NotNewline("a\nb"[1]);
    assert !AllPrintable([High(Prop(1, "a b"))]) by {
      assert !Printable([High(Prop(1, "a b"))][0]);
    }
    assert !AllPrintable([Done(1, "a\nb")]) by {
      assert !Printable([Done(1, "a\nb")][0]);
    }
  }

  // ---------------------------------------------------------------- restart from the text

  predicate PrintableRequest(q: Request) {
    match q
    case PrepareReq(_, n) => n.n < UINT && IsToken(n.m)
    case AcceptReq(n, v) => n.n < UINT && IsToken(n.m) && IsLine(v)
    case DecideReq(inst, v) => inst < UINT && IsLine(v)
  }

  lemma {:induction false} LogStaysPrintable(a: Acceptor, qs: seq<Request>)
    requires AllPrintable(a.log) && forall i :: 0 <= i < |qs| ==> PrintableRequest(qs[i])
    ensures AllPrintable(HandleAll(a, qs).0.log)
    decreases |qs|
  {
    if qs != [] {
      assert PrintableRequest(qs[0]);
      LogStaysPrintable(Handle(a, qs[0]).0, qs[1..]);
    }
  }

  /** The acceptor that reads its log file and replays what it finds there. */
  function RestartFile(me: string, text: string): Acceptor {
    Restart(me, Parse(text).0)
  }

  /** A crash cannot be noticed down to the bytes of the log file. */
  lemma FileCrashTransparent(first: Acceptor, past: seq<Request>, later: seq<Request>)
    requires Durable(first) && AllPrintable(first.log)
    requires forall i :: 0 <= i < |past| ==> PrintableRequest(past[i])
    requires forall i :: 0 <= i < |later| ==> Numbered(later[i])
    ensures var a := HandleAll(first, past).0;
      && Parse(PrintAll(a.log)).1 == AtEnd
      && HandleAll(a, later).1 == HandleAll(RestartFile(a.me, PrintAll(a.log)), later).1
  {
    LogStaysPrintable(first, past);
    RoundTrip(HandleAll(first, past).0.log);
    CrashTransparent(first, past, later);
  }

  // ---------------------------------------------------------------- dump and restore

  /** Every line, each with a newline. */
  function Lines(s: string): string
    decreases |s|
  {
    if s == "" then ""
    else
      var k := Span(s, NotNewline);
      s[..k] + "\n" + (if k < |s| then Lines(s[k + 1..]) else "")
  }

  predicate Terminated(s: string) {
    s == "" || s[|s| - 1] == '\n'
  }

  lemma {:induction false} LinesTerminate(s: string)
    ensures Lines(s) == if Terminated(s) then s else s + "\n"
    decreases |s|
  {
    if s != "" {
      var k := Span(s, NotNewline);
      if k < |s| {
        var line, rest := s[..k] + "\n", s[k + 1..];
        assert s == line + rest;
        LinesTerminate(rest);
        OneLine(line, rest, s);
      } else {
        assert s[..k] == s;
        Cat(s, "\n", "");
      }
    }
  }

  lemma OneLine(line: string, rest: string, s: string)
    requires line != "" && line[|line| - 1] == '\n' && s == line + rest
    ensures line + (if Terminated(rest) then rest else rest + "\n") == if Terminated(s) then s else s + "\n"
  {
    Cat(line, rest, "\n");
  }

  class LogFile {
    var text: string

    constructor (s: string)
      ensures text == s
    {
      text := s;
    }

    method LogInstance(inst: nat, v: string)
      modifies this
      ensures text == old(text) + Print(Done(inst, v))
    {
      text := text + ("done" + (" " + (Digits(inst) + (" " + (v + "\n")))));
    }

    method LogHigh(p: Prop)
      modifies this
      ensures text == old(text) + Print(High(p))
    {
      text := text + ("high" + (" " + (Digits(p.n) + (" " + (p.m + "\n")))));
    }

    method LogProp(p: Prop, v: string)
      modifies this
      ensures text == old(text) + Print(Proposed(p, v))
    {
      text := text + ("prop" + (" " + (Digits(p.n) + (" " + (p.m + (" " + (v + "\n")))))));
    }

    /** Replay the file into a new acceptor; ending tells whether the loop reached the end of the file. */
    method LogRead(me: string) returns (a: Acceptor, ending: Step)
      ensures a == Replay(Fresh(me), Parse(text).0) && ending == Parse(text).1
    {
      a := Fresh(me);
      var rest := text;
      ghost var past: seq<Record> := [];
      assert past + Parse(text).0 == Parse(text).0;
      ending := ReadRecord(rest);
      while ending.Got?
        invariant ending == ReadRecord(rest)
        invariant a == Replay(Fresh(me), past) && Parse(text) == (past + Parse(rest).0, Parse(rest).1)
        decreases |rest|
      {
        ReplayAppend(Fresh(me), past, ending.r);
        Cat(past, [ending.r], Parse(ending.rest).0);
        a := ReplayOne(a, ending.r);
        past := past + [ending.r];
        rest := ending.rest;
        ending := ReadRecord(rest);
      }
      assert past + [] == past;
    }

    method Dump() returns (res: string)
      ensures res == if Terminated(text) then text else text + "\n"
    {
      LinesTerminate(text);
      res := "";
      var rest := text;
      while rest != ""
        invariant res + Lines(rest) == Lines(text)
        decreases |rest|
      {
        var k := Span(rest, NotNewline);
        Cat(res, rest[..k] + "\n", if k < |rest| then Lines(rest[k + 1..]) else "");
        res := res + (rest[..k] + "\n");
        rest := if k < |rest| then rest[k + 1..] else "";
      }
    }

    method Restore(s: string)
      modifies this
      ensures text == s
    {
      text := s;
    }

    /** dump after restore: the text itself exactly when it is newline-terminated, as a printed log is. */
    method RestoreAndDump(s: string) returns (res: string)
      modifies this
      ensures res == s <==> Terminated(s)
    {
      Restore(s);
      res := Dump();
    }
  }

  lemma {:induction false} PrintedIsTerminated(rs: seq<Record>)
    ensures Terminated(PrintAll(rs))
  {
    if rs != [] {
      PrintedIsTerminated(rs[1..]);
      assert Terminated(Print(rs[0]));
    }
  }
}
