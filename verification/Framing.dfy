/** The text of the event stream: what each frame reads, and that splitting the
    text into lines and filtering the data lines gives back the printed payloads. */
module Framing {
  import opened Json
  import opened Prelude
  import opened JsonDecoding
  import opened JsonReading
  import opened HttpAdapters
  import opened StreamingServices

  /* ---------- printing ---------- */

  /** The JSON object of a frame; [DONE] has none. */
  function Body(f: Frame): Value
    requires !f.DoneFrame?
  {
    match f
    case TokenFrame(token, index) => Object([(Ascii("token"), Str(token)), (Ascii("index"), Int(index))])
    case CircuitOpenFrame(retry) =>
      Object([(Ascii("error"), Str(Ascii("service unavailable"))), (Ascii("retry_after_s"), Int(retry))])
    case TimeoutFrame => Object([(Ascii("error"), Str(Ascii("LLM provider timeout")))])
    case UpstreamErrorFrame => Object([(Ascii("error"), Str(Ascii("upstream provider error")))])
  }

  function PayloadText(f: Frame): string {
    if f.DoneFrame? then DONE else Print(Body(f))
  }

  function FrameText(f: Frame): string {
    PREFIX + PayloadText(f) + "\n\n"
  }

  function StreamText(fs: seq<Frame>): string {
    if fs == [] then "" else FrameText(fs[0]) + StreamText(fs[1..])
  }

  /* ---------- splitting into lines ---------- */

  /** The line boundaries of `str.splitlines`. */
  predicate Breaks(c: char) {
    || c == '\n' || c == '\r' || c == '\U{000B}' || c == '\U{000C}'
    || c == '\U{001C}' || c == '\U{001D}' || c == '\U{001E}' || c == '\U{0085}'
    || c == '\U{2028}' || c == '\U{2029}'
  }

  /** The length of the first line, without its boundary. */
  function LineLength(text: string): (n: nat)
    ensures n <= |text|
    ensures forall i | 0 <= i < n :: !Breaks(text[i])
    ensures n < |text| ==> Breaks(text[n])
  {
    if text == "" || Breaks(text[0]) then 0 else 1 + LineLength(text[1..])
  }

  /** `splitlines`: a carriage return and a line feed together are one boundary. */
  function SplitLines(text: string): seq<string>
    decreases |text|
  {
    if text == "" then []
    else
      var n := LineLength(text);
      if n == |text| then [text]
      else
        var width := if text[n] == '\r' && n + 1 < |text| && text[n + 1] == '\n' then 2 else 1;
        [text[..n]] + SplitLines(text[n + width..])
  }

  /* ---------- payloads contain no boundary ---------- */

  predicate Printable(s: string) {
    forall i | 0 <= i < |s| :: ' ' <= s[i] <= '~'
  }

  lemma HexPrintable(d: int)
    requires 0 <= d < 16
    ensures ' ' <= Hex(d) <= '~'
  {
  }

  lemma {:induction false} EscapePrintable(us: seq<Unit>)
    ensures Printable(Escape(us))
  {
    if us != [] {
      var n := us[0] as int;
      HexPrintable(n / 16 / 16 / 16);
      HexPrintable(n / 16 / 16 % 16);
      HexPrintable(n / 16 % 16);
      HexPrintable(n % 16);
      EscapePrintable(us[1..]);
    }
  }

  lemma {:induction false} PrintPrintable(v: Value)
    requires Parsed(v)
    ensures Printable(Print(v))
    decreases v, 1
  {
    match v
    case Int(n) => DecimalShape(n);
    case Str(s) => EscapePrintable(Units(s));
    case Array(items) =>
      if items != [] {
        PrintPrintable(items[0]);
        ItemsPrintable(items[1..]);
      }
    case Object(fields) =>
      if fields != [] {
        FieldPrintable(fields[0]);
        FieldsPrintable(fields[1..]);
      }
    case _ =>
  }

  lemma {:induction false} ItemsPrintable(items: seq<Value>)
    requires forall v | v in items :: Parsed(v)
    ensures Printable(PrintItems(items))
    decreases items, 0
  {
    if items != [] {
      PrintPrintable(items[0]);
      ItemsPrintable(items[1..]);
    }
  }

  lemma {:induction false} FieldPrintable(field: (Text, Value))
    requires Parsed(field.1)
    ensures Printable(PrintField(field))
    decreases field, 0
  {
    EscapePrintable(Units(field.0));
    PrintPrintable(field.1);
  }

  lemma {:induction false} FieldsPrintable(fields: seq<(Text, Value)>)
    requires forall field | field in fields :: Parsed(field.1)
    ensures Printable(PrintFields(fields))
    decreases fields, 1
  {
    if fields != [] {
      FieldPrintable(fields[0]);
      FieldsPrintable(fields[1..]);
    }
  }

  lemma BodyParsed(f: Frame)
    requires !f.DoneFrame?
    ensures Parsed(Body(f))
  {
    assert Ascii("token")[0] == 't' as CodePoint && Ascii("index")[0] == 'i' as CodePoint;
    assert Ascii("error")[0] == 'e' as CodePoint && Ascii("retry_after_s")[0] == 'r' as CodePoint;
  }

  lemma PayloadIsOneLine(f: Frame)
    ensures Printable(PayloadText(f)) && PayloadText(f) != ""
    ensures PayloadText(f) == DONE <==> f.DoneFrame?
  {
    if !f.DoneFrame? {
      BodyParsed(f);
      PrintPrintable(Body(f));
      PrintLead(Body(f));
      assert DONE[0] == '[';
    }
  }

  /* ---------- the round trip ---------- */

  lemma {:induction false} LineLengthOf(line: string, rest: string)
    requires Printable(line)
    ensures LineLength(line + "\n" + rest) == |line|
  {
    var text := line + "\n" + rest;
    if line != "" {
      assert text[1..] == line[1..] + "\n" + rest;
      LineLengthOf(line[1..], rest);
    }
  }

  lemma SplitOneLine(line: string, rest: string)
    requires Printable(line)
    ensures SplitLines(line + "\n" + rest) == [line] + SplitLines(rest)
  {
    var text := line + "\n" + rest;
    LineLengthOf(line, rest);
    assert text[|line|] == '\n' && text[..|line|] == line && text[|line| + 1..] == rest;
  }

  lemma TwoBreaks(line: string, rest: string)
    ensures line + "\n\n" + rest == line + "\n" + ("" + "\n" + rest)
  {
  }

  lemma SplitOneFrame(line: string, rest: string)
    requires Printable(line)
    ensures SplitLines(line + "\n\n" + rest) == [line] + ([""] + SplitLines(rest))
  {
    TwoBreaks(line, rest);
    SplitOneLine("", rest);
    SplitOneLine(line, "" + "\n" + rest);
  }

  function PayloadsBeforeDone(fs: seq<Frame>): seq<string> {
    if fs == [] || fs[0].DoneFrame? then [] else [PayloadText(fs[0])] + PayloadsBeforeDone(fs[1..])
  }

  /** The lines of the stream: each frame's data line and a blank one. */
  function Lines(fs: seq<Frame>): seq<string> {
    if fs == [] then [] else [PREFIX + PayloadText(fs[0]), ""] + Lines(fs[1..])
  }

  lemma LineIsPrintable(f: Frame)
    ensures Printable(PREFIX + PayloadText(f))
  {
    PayloadIsOneLine(f);
    AfterPrefix(PayloadText(f));
  }

  lemma AfterPrefix(s: string)
    requires Printable(s)
    ensures Printable(PREFIX + s)
  {
    assert Printable(PREFIX);
    PrintableBoth(PREFIX, s);
  }

  lemma PrintableBoth(s: string, t: string)
    requires Printable(s) && Printable(t)
    ensures Printable(s + t)
  {
  }

  lemma FrameSplits(f: Frame, rest: string)
    ensures SplitLines(FrameText(f) + rest) == [PREFIX + PayloadText(f)] + ([""] + SplitLines(rest))
  {
    var line := PREFIX + PayloadText(f);
    LineIsPrintable(f);
    assert FrameText(f) + rest == line + "\n\n" + rest;
    SplitOneFrame(line, rest);
  }

  lemma LineThenBlank(line: string, rest: seq<string>)
    ensures [line] + ([""] + rest) == [line, ""] + rest
  {
  }

  lemma {:induction false} StreamSplits(fs: seq<Frame>)
    ensures SplitLines(StreamText(fs)) == Lines(fs)
  {
    if fs != [] {
      StreamSplits(fs[1..]);
      FrameSplits(fs[0], StreamText(fs[1..]));
      LineThenBlank(PREFIX + PayloadText(fs[0]), Lines(fs[1..]));
    }
  }

  lemma DataLineThenBlank(line: string, rest: seq<string>)
    requires StartsWith(line, PREFIX)
    ensures DataBeforeDone([line, ""] + rest) ==
            if line[|PREFIX|..] == DONE then [] else [line[|PREFIX|..]] + DataBeforeDone(rest)
  {
    var lines := [line, ""] + rest;
    assert lines[1..] == [""] + rest;
    assert ([""] + rest)[1..] == rest;
  }

  lemma {:induction false} LinesFilter(fs: seq<Frame>)
    ensures DataBeforeDone(Lines(fs)) == PayloadsBeforeDone(fs)
  {
    if fs != [] {
      var line := PREFIX + PayloadText(fs[0]);
      PayloadIsOneLine(fs[0]);
      assert line[..|PREFIX|] == PREFIX && line[|PREFIX|..] == PayloadText(fs[0]);
      LinesFilter(fs[1..]);
      DataLineThenBlank(line, Lines(fs[1..]));
    }
  }

  /** Framing round trip: the adapter's line filter, applied to the text the
      service printed, returns exactly the payloads before [DONE], in order. */
  lemma FramingRoundTrip(fs: seq<Frame>)
    ensures DataBeforeDone(SplitLines(StreamText(fs))) == PayloadsBeforeDone(fs)
    ensures Terminated(SplitLines(StreamText(fs))) <==> DoneFrame in fs
  {
    StreamSplits(fs);
    LinesFilter(fs);
    DoneLine(fs);
  }

  lemma LineIsDone(payload: string)
    ensures PREFIX + payload == "data: [DONE]" <==> payload == DONE
  {
    assert PREFIX + DONE == "data: [DONE]";
    assert (PREFIX + payload)[|PREFIX|..] == payload && (PREFIX + DONE)[|PREFIX|..] == DONE;
  }

  lemma {:induction false} DoneLine(fs: seq<Frame>)
    ensures Terminated(Lines(fs)) <==> DoneFrame in fs
  {
    if fs != [] {
      PayloadIsOneLine(fs[0]);
      DoneLine(fs[1..]);
      LineIsDone(PayloadText(fs[0]));
      assert fs == [fs[0]] + fs[1..];
    }
  }

  /* ---------- the text determines the frames ---------- */

  lemma BodiesDiffer(f: Frame, g: Frame)
    requires !f.DoneFrame? && !g.DoneFrame? && Body(f) == Body(g)
    ensures f == g
  {
    var x, y := Body(f).fields, Body(g).fields;
    assert |x| == |y| && x[0] == y[0];
    assert x[0].0[0] == y[0].0[0];
    if f.TokenFrame? || f.CircuitOpenFrame? {
      assert x[1] == y[1];
    }
    if f.TimeoutFrame? || f.UpstreamErrorFrame? {
      assert x[0].1.s[0] == y[0].1.s[0];
    }
  }

  /** The frame with the surrogate pairs of its token fused. */
  function Decoded(f: Frame): Frame {
    if f.TokenFrame? then f.(token := Fuse(f.token)) else f
  }

  function DecodedAll(fs: seq<Frame>): (r: seq<Frame>)
    ensures |r| == |fs| && forall i | 0 <= i < |fs| :: r[i] == Decoded(fs[i])
  {
    if fs == [] then [] else [Decoded(fs[0])] + DecodedAll(fs[1..])
  }

  lemma FuseOfAscii(s: string)
    requires forall i | 0 <= i < |s| :: s[i] <= '~'
    ensures Fuse(Ascii(s)) == Ascii(s)
  {
    FuseOfClean(Ascii(s));
  }

  lemma FuseOne(name: Text, v: Value)
    ensures FuseAll(Object([(name, v)])) == Object([(Fuse(name), FuseAll(v))])
  {
    assert FuseFields([(name, v)]) == [FuseField((name, v))];
  }

  lemma FuseTwo(name: Text, v: Value, other: Text, w: Value)
    ensures FuseAll(Object([(name, v), (other, w)])) == Object([(Fuse(name), FuseAll(v)), (Fuse(other), FuseAll(w))])
  {
    assert FuseFields([(name, v), (other, w)]) == [FuseField((name, v)), FuseField((other, w))];
  }

  lemma ErrorDecoded(message: string)
    requires forall i | 0 <= i < |message| :: message[i] <= '~'
    ensures var body := Object([(Ascii("error"), Str(Ascii(message)))]); FuseAll(body) == body
  {
    FuseOfAscii("error");
    FuseOfAscii(message);
    FuseOne(Ascii("error"), Str(Ascii(message)));
  }

  lemma TokenDecoded(token: Text, index: nat)
    ensures FuseAll(Body(TokenFrame(token, index))) == Body(TokenFrame(Fuse(token), index))
  {
    FuseOfAscii("token");
    FuseOfAscii("index");
    FuseTwo(Ascii("token"), Str(token), Ascii("index"), Int(index));
  }

  lemma CircuitOpenDecoded(retry: int)
    ensures FuseAll(Body(CircuitOpenFrame(retry))) == Body(CircuitOpenFrame(retry))
  {
    FuseOfAscii("error");
    FuseOfAscii("service unavailable");
    FuseOfAscii("retry_after_s");
    FuseTwo(Ascii("error"), Str(Ascii("service unavailable")), Ascii("retry_after_s"), Int(retry));
  }

  lemma BodyDecoded(f: Frame)
    requires !f.DoneFrame?
    ensures FuseAll(Body(f)) == Body(Decoded(f))
  {
    match f
    case TokenFrame(token, index) => TokenDecoded(token, index);
    case CircuitOpenFrame(retry) => CircuitOpenDecoded(retry);
    case TimeoutFrame => ErrorDecoded("LLM provider timeout");
    case UpstreamErrorFrame => ErrorDecoded("upstream provider error");
  }

  lemma PayloadDecidesFrame(f: Frame, g: Frame)
    ensures PayloadText(f) == PayloadText(g) <==> Decoded(f) == Decoded(g)
  {
    PayloadIsOneLine(f);
    PayloadIsOneLine(g);
    if !f.DoneFrame? && !g.DoneFrame? {
      BodyParsed(f);
      BodyParsed(g);
      PrintDecides(Body(f), Body(g));
      BodyDecoded(f);
      BodyDecoded(g);
      if PayloadText(f) == PayloadText(g) {
        BodiesDiffer(Decoded(f), Decoded(g));
      }
    }
  }

  lemma {:induction false} LinesDecideFrames(fs: seq<Frame>, gs: seq<Frame>)
    ensures Lines(fs) == Lines(gs) <==> DecodedAll(fs) == DecodedAll(gs)
  {
    if fs != [] && gs != [] {
      var x, y := Lines(fs), Lines(gs);
      PayloadDecidesFrame(fs[0], gs[0]);
      LinesDecideFrames(fs[1..], gs[1..]);
      assert x[0][|PREFIX|..] == PayloadText(fs[0]) && y[0][|PREFIX|..] == PayloadText(gs[0]);
      assert x[2..] == Lines(fs[1..]) && y[2..] == Lines(gs[1..]);
      assert DecodedAll(fs)[1..] == DecodedAll(fs[1..]) && DecodedAll(gs)[1..] == DecodedAll(gs[1..]);
    }
  }

  lemma {:induction false} LinesDecideText(fs: seq<Frame>, gs: seq<Frame>)
    requires Lines(fs) == Lines(gs)
    ensures StreamText(fs) == StreamText(gs)
  {
    if fs != [] {
      var x, y := Lines(fs), Lines(gs);
      assert x[0][|PREFIX|..] == PayloadText(fs[0]) && y[0][|PREFIX|..] == PayloadText(gs[0]);
      assert x[2..] == Lines(fs[1..]) && y[2..] == Lines(gs[1..]);
      LinesDecideText(fs[1..], gs[1..]);
    }
  }

  /** The text carries everything: equal texts come exactly from frames that are
      equal once surrogate pairs are fused, so a consumer can recover every
      token and its number. */
  lemma TextDecidesFrames(fs: seq<Frame>, gs: seq<Frame>)
    ensures StreamText(fs) == StreamText(gs) <==> DecodedAll(fs) == DecodedAll(gs)
  {
    StreamSplits(fs);
    StreamSplits(gs);
    LinesDecideFrames(fs, gs);
    if Lines(fs) == Lines(gs) {
      LinesDecideText(fs, gs);
    }
  }

  /* ---------- what the text of a frame says ---------- */

  /** Characters that JSON prints as they are. */
  predicate Plain(s: string) {
    forall i | 0 <= i < |s| :: ' ' <= s[i] <= '~' && s[i] != '\"' && s[i] != '\\'
  }

  lemma PlainUnit(c: char)
    requires Plain([c])
    ensures Escape(UnitsOf(c as CodePoint)) == [c]
  {
    assert [c][0] == c;
    assert UnitsOf(c as CodePoint) == [c as Unit] && Escape([c as Unit]) == EscapeUnit(c as Unit) + Escape([]);
  }

  lemma {:induction false} EscapePlain(s: string)
    requires Plain(s)
    ensures Escape(Units(Ascii(s))) == s
  {
    if s != "" {
      var t := Ascii(s);
      assert t[1..] == Ascii(s[1..]);
      assert Plain([s[0]]);
      PlainUnit(s[0]);
      EscapePlain(s[1..]);
      assert Units(t) == [s[0] as Unit] + Units(t[1..]);
      assert ([s[0] as Unit] + Units(t[1..]))[1..] == Units(t[1..]);
      assert s == [s[0]] + s[1..];
    }
  }

  lemma QuotePlain(s: string)
    requires Plain(s)
    ensures Quote(Ascii(s)) == "\"" + s + "\""
  {
    EscapePlain(s);
  }

  lemma OneFieldText(field: (Text, Value))
    ensures Print(Object([field])) == "{" + (Quote(field.0) + ": " + Print(field.1)) + "}"
  {
    assert [field][1..] == [];
    assert Print(Object([field])) == "{" + PrintField(field) + PrintFields([]);
  }

  lemma ErrorBody(message: string)
    requires Plain(message) && Plain("error")
    ensures Print(Object([(Ascii("error"), Str(Ascii(message)))])) ==
            "{" + ("\"" + "error" + "\"" + ": " + ("\"" + message + "\"")) + "}"
  {
    OneFieldText((Ascii("error"), Str(Ascii(message))));
    QuotePlain("error");
    QuotePlain(message);
  }

  lemma Joined(message: string)
    ensures "data: " + ("{" + ("\"" + "error" + "\"" + ": " + ("\"" + message + "\"")) + "}") + "\n\n" ==
            "data: {\"error\": \"" + message + "\"}\n\n"
  {
    assert "data: " + "{" + "\"" + "error" + "\"" + ": " + "\"" == "data: {\"error\": \"";
  }

  lemma ErrorFrameText(f: Frame, message: string)
    requires Plain(message) && Plain("error")
    requires !f.DoneFrame? && Body(f) == Object([(Ascii("error"), Str(Ascii(message)))])
    ensures FrameText(f) == "data: {\"error\": \"" + message + "\"}\n\n"
  {
    ErrorBody(message);
    Joined(message);
    assert PREFIX == "data: ";
    assert FrameText(f) == PREFIX + PayloadText(f) + "\n\n";
  }

  lemma PlainMessages()
    ensures Plain("error") && Plain("LLM provider timeout") && Plain("upstream provider error")
  {
  }

  lemma TimeoutLiteral()
    ensures "data: {\"error\": \"" + "LLM provider timeout" + "\"}\n\n" ==
            "data: {\"error\": \"LLM provider timeout\"}\n\n"
  {
  }

  lemma UpstreamErrorLiteral()
    ensures "data: {\"error\": \"" + "upstream provider error" + "\"}\n\n" ==
            "data: {\"error\": \"upstream provider error\"}\n\n"
  {
  }

  lemma TimeoutText()
    ensures FrameText(TimeoutFrame) == "data: {\"error\": \"LLM provider timeout\"}\n\n"
  {
    PlainMessages();
    ErrorFrameText(TimeoutFrame, "LLM provider timeout");
    TimeoutLiteral();
  }

  lemma UpstreamErrorText()
    ensures FrameText(UpstreamErrorFrame) == "data: {\"error\": \"upstream provider error\"}\n\n"
  {
    PlainMessages();
    ErrorFrameText(UpstreamErrorFrame, "upstream provider error");
    UpstreamErrorLiteral();
  }

  lemma DoneText()
    ensures FrameText(DoneFrame) == "data: [DONE]\n\n"
  {
  }

  /** The texts of the three frames that carry nothing. */
  lemma TerminalTexts()
    ensures FrameText(TimeoutFrame) == "data: {\"error\": \"LLM provider timeout\"}\n\n"
    ensures FrameText(UpstreamErrorFrame) == "data: {\"error\": \"upstream provider error\"}\n\n"
    ensures FrameText(DoneFrame) == "data: [DONE]\n\n"
  {
    TimeoutText();
    UpstreamErrorText();
    DoneText();
  }

  lemma PayloadReads(f: Frame)
    requires !f.DoneFrame?
    ensures FrameText(f) == "data: " + PayloadText(f) + "\n\n" && Read(PayloadText(f)) == Some(FuseAll(Body(f)))
  {
    BodyParsed(f);
    ReadsBack(Body(f));
  }

  lemma TwoFieldsText(f: (Text, Value), g: (Text, Value))
    ensures Print(Object([f, g])) ==
            "{" + (Quote(f.0) + ": " + Print(f.1)) + (", " + (Quote(g.0) + ": " + Print(g.1)) + "}")
  {
    assert [f, g][1..] == [g] && [g][1..] == [];
    assert PrintFields([g]) == ", " + PrintField(g) + PrintFields([]);
    assert Print(Object([f, g])) == "{" + PrintField(f) + PrintFields([g]);
  }

  lemma TokenJoined(token: string, index: string)
    ensures "data: " + ("{" + ("\"" + "token" + "\"" + ": " + token)
                        + (", " + ("\"" + "index" + "\"" + ": " + index) + "}")) + "\n\n" ==
            "data: {\"token\": " + token + ", \"index\": " + index + "}\n\n"
  {
    assert "data: " + "{" + "\"" + "token" + "\"" + ": " == "data: {\"token\": ";
    assert ", " + "\"" + "index" + "\"" + ": " == ", \"index\": ";
  }

  lemma PlainNames()
    ensures Plain("token") && Plain("index") && Plain("retry_after_s") && Plain("service unavailable")
  {
  }

  /** The text of a token frame: the token quoted, the index in decimal. Its
      payload reads as an object with a "token" and an "index". */
  lemma TokenReads(token: Text, index: nat)
    ensures FrameText(TokenFrame(token, index)) ==
            "data: {\"token\": " + Quote(token) + ", \"index\": " + Decimal(index) + "}\n\n"
    ensures FrameText(TokenFrame(token, index)) == "data: " + PayloadText(TokenFrame(token, index)) + "\n\n"
    ensures Read(PayloadText(TokenFrame(token, index))) ==
            Some(Object([(Ascii("token"), Str(Fuse(token))), (Ascii("index"), Int(index))]))
  {
    PayloadReads(TokenFrame(token, index));
    TokenDecoded(token, index);
    TokenText(token, index);
  }

  lemma TokenText(token: Text, index: nat)
    ensures FrameText(TokenFrame(token, index)) ==
            "data: {\"token\": " + Quote(token) + ", \"index\": " + Decimal(index) + "}\n\n"
  {
    PlainNames();
    QuotePlain("token");
    QuotePlain("index");
    TwoFieldsText((Ascii("token"), Str(token)), (Ascii("index"), Int(index)));
    TokenJoined(Quote(token), Decimal(index));
    assert PREFIX == "data: ";
    assert FrameText(TokenFrame(token, index)) == PREFIX + PayloadText(TokenFrame(token, index)) + "\n\n";
  }

  lemma CircuitOpenPieces()
    ensures "data: " + "{" + "\"" + "error" + "\"" + ": " + "\"" == "data: {\"error\": \""
    ensures "\"" + ", " + "\"" + "retry_after_s" + "\"" + ": " == "\", \"retry_after_s\": "
  {
  }

  lemma CircuitOpenJoined(message: string, retry: string)
    ensures "data: " + ("{" + ("\"" + "error" + "\"" + ": " + ("\"" + message + "\""))
                        + (", " + ("\"" + "retry_after_s" + "\"" + ": " + retry) + "}")) + "\n\n" ==
            "data: {\"error\": \"" + message + "\", \"retry_after_s\": " + retry + "}\n\n"
  {
    CircuitOpenPieces();
  }

  lemma CircuitOpenText(retry: int)
    ensures FrameText(CircuitOpenFrame(retry)) ==
            "data: {\"error\": \"" + "service unavailable" + "\", \"retry_after_s\": " + Decimal(retry) + "}\n\n"
  {
    PlainNames();
    PlainMessages();
    QuotePlain("error");
    QuotePlain("retry_after_s");
    QuotePlain("service unavailable");
    TwoFieldsText((Ascii("error"), Str(Ascii("service unavailable"))), (Ascii("retry_after_s"), Int(retry)));
    CircuitOpenJoined("service unavailable", Decimal(retry));
    assert PREFIX == "data: ";
    assert FrameText(CircuitOpenFrame(retry)) == PREFIX + PayloadText(CircuitOpenFrame(retry)) + "\n\n";
  }

  /** The text of a circuit-open frame. Its payload reads as an object with an
      "error" and a "retry_after_s". */
  lemma CircuitOpenReads(retry: int)
    ensures FrameText(CircuitOpenFrame(retry)) ==
            "data: {\"error\": \"" + "service unavailable" + "\", \"retry_after_s\": " + Decimal(retry) + "}\n\n"
    ensures FrameText(CircuitOpenFrame(retry)) == "data: " + PayloadText(CircuitOpenFrame(retry)) + "\n\n"
    ensures Read(PayloadText(CircuitOpenFrame(retry))) ==
            Some(Object([(Ascii("error"), Str(Ascii("service unavailable"))), (Ascii("retry_after_s"), Int(retry))]))
  {
    PayloadReads(CircuitOpenFrame(retry));
    CircuitOpenDecoded(retry);
    CircuitOpenText(retry);
  }
}
