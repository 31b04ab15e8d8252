/** The HTTP adapter: the line parser behind `stream`, and the usage mapping. */
module HttpAdapters {
  import opened Prelude
  import opened Json
  import Gateway

  /* ---------- one upstream line ---------- */

  const PREFIX := "data: "
  const DONE := "[DONE]"

  predicate StartsWith(line: string, prefix: string) {
    |prefix| <= |line| && line[..|prefix|] == prefix
  }

  /** What `json.loads(data)["choices"][0]["delta"].get("content")` gives:
      an exception, a false value, or a non-empty text. */
  datatype Delta = Malformed | NoContent | Content(text: Text)

  type Decoder = string -> Delta

  /** How the response ends once its lines are used up. */
  datatype Ending = Eof | ReadTimeout | BadStatus(code: int) | TransportError

  /** The exceptions that leave the adapter's generator. */
  datatype StreamError = ProviderTimeout | UpstreamError(status: Option<int>) | OtherError

  datatype Chunk = Token(text: Text) | End | Raise(error: StreamError)

  /** All that a generator will still produce: tokens, then its last word. */
  datatype Outlook = Outlook(tokens: seq<Text>, last: Chunk)

  function EndOf(ending: Ending): Chunk {
    match ending
    case Eof => End
    case ReadTimeout => Raise(ProviderTimeout)
    case BadStatus(code) => Raise(UpstreamError(Some(code)))
    case TransportError => Raise(UpstreamError(None))
  }

  function Foresee(decode: Decoder, lines: seq<string>, ending: Ending): Outlook {
    if lines == [] then Outlook([], EndOf(ending))
    else
      var rest := Foresee(decode, lines[1..], ending);
      if !StartsWith(lines[0], PREFIX) then rest
      else
        var data := lines[0][|PREFIX|..];
        if data == DONE then Outlook([], End)
        else
          match decode(data)
          case Malformed => Outlook([], Raise(OtherError))
          case NoContent => rest
          case Content(text) => rest.(tokens := [text] + rest.tokens)
  }

  /** The adapter's async generator over one upstream response. */
  class HttpStream {
    const decode: Decoder
    const lines: seq<string>
    const ending: Ending
    var pos: nat
    var finished: bool

    constructor (decode: Decoder, lines: seq<string>, ending: Ending)
      ensures Valid() && this.decode == decode && this.lines == lines && this.ending == ending
      ensures Ahead() == Foresee(decode, lines, ending)
    {
      this.decode, this.lines, this.ending := decode, lines, ending;
      pos, finished := 0, false;
    }

    predicate Valid()
      reads this
    {
      pos <= |lines|
    }

    function Ahead(): Outlook
      requires Valid()
      reads this
    {
      if finished then Outlook([], End) else Foresee(decode, lines[pos..], ending)
    }

    /** Resumes the generator up to its next `yield`, its end or an exception. */
    method Next() returns (c: Chunk)
      requires Valid() && !finished
      modifies this`pos, this`finished
      ensures Valid() && old(pos) <= pos
      ensures match c
              case Token(text) =>
                !finished && old(pos) < pos && old(Ahead()) == Outlook([text] + Ahead().tokens, Ahead().last)
              case last => finished && old(Ahead()) == Outlook([], last)
    {
      while pos < |lines|
        invariant Valid() && !finished && old(pos) <= pos && old(Ahead()) == Ahead()
      {
        var line := lines[pos];
        assert lines[pos..][0] == line && lines[pos..][1..] == lines[pos + 1..];
        pos := pos + 1;
        if line == "" || !StartsWith(line, PREFIX) {
          continue;
        }
        var data := line[|PREFIX|..];
        if data == DONE {
          finished := true;
          return End;
        }
        match decode(data) {
          case Malformed =>
            finished := true;
            return Raise(OtherError);
          case NoContent =>
          case Content(text) =>
            return Token(text);
        }
      }
      finished := true;
      return EndOf(ending);
    }
  }

  /* ---------- what the parser means ---------- */

  /** The payloads of the data lines before the first [DONE]. */
  function DataBeforeDone(lines: seq<string>): seq<string> {
    if lines == [] then []
    else if !StartsWith(lines[0], PREFIX) then DataBeforeDone(lines[1..])
    else if lines[0][|PREFIX|..] == DONE then []
    else [lines[0][|PREFIX|..]] + DataBeforeDone(lines[1..])
  }

  predicate Terminated(lines: seq<string>) {
    "data: [DONE]" in lines
  }

  function Contents(decode: Decoder, data: seq<string>): seq<Text> {
    if data == [] then []
    else
      match decode(data[0])
      case Content(text) => [text] + Contents(decode, data[1..])
      case _ => Contents(decode, data[1..])
  }

  ghost predicate Parses(decode: Decoder, data: seq<string>) {
    forall d | d in data :: decode(d) != Malformed
  }

  /** Lines as the adapter meets them: a [DONE] line ends the stream, another
      line with the prefix is decoded, and any other line is skipped. */
  lemma LinesAreRead(decode: Decoder, data: string, line: string, rest: seq<string>, ending: Ending)
    ensures Foresee(decode, ["data: [DONE]"] + rest, ending) == Outlook([], End)
    ensures data != "[DONE]" && decode(data).Content? ==>
              Foresee(decode, ["data: " + data] + rest, ending) ==
              Outlook([decode(data).text] + Foresee(decode, rest, ending).tokens, Foresee(decode, rest, ending).last)
    ensures data != "[DONE]" && decode(data) == NoContent ==>
              Foresee(decode, ["data: " + data] + rest, ending) == Foresee(decode, rest, ending)
    ensures data != "[DONE]" && decode(data) == Malformed ==>
              Foresee(decode, ["data: " + data] + rest, ending) == Outlook([], Raise(OtherError))
    ensures (forall d :: line != "data: " + d) ==>
              Foresee(decode, [line] + rest, ending) == Foresee(decode, rest, ending)
  {
    DataLine(data);
    DataLine("[DONE]");
    assert ([line] + rest)[1..] == rest && (["data: " + data] + rest)[1..] == rest;
    if StartsWith(line, PREFIX) {
      assert line == "data: " + line[|PREFIX|..];
    }
  }

  lemma DataLine(data: string)
    ensures StartsWith("data: " + data, PREFIX) && ("data: " + data)[|PREFIX|..] == data
    ensures "data: " + "[DONE]" == "data: [DONE]"
  {
  }

  lemma {:induction false} LastWord(decode: Decoder, lines: seq<string>, ending: Ending)
    requires Parses(decode, DataBeforeDone(lines))
    ensures Foresee(decode, lines, ending).tokens == Contents(decode, DataBeforeDone(lines))
    ensures Foresee(decode, lines, ending).last == if Terminated(lines) then End else EndOf(ending)
  {
    if lines != [] {
      assert lines == [lines[0]] + lines[1..];
      assert PREFIX + DONE == "data: [DONE]";
      assert Terminated(lines) <==> lines[0] == PREFIX + DONE || Terminated(lines[1..]);
      if StartsWith(lines[0], PREFIX) {
        var data := lines[0][|PREFIX|..];
        assert lines[0] == PREFIX + data;
        assert lines[0] == PREFIX + DONE <==> data == DONE;
        if data != DONE {
          assert DataBeforeDone(lines) == [data] + DataBeforeDone(lines[1..]);
          assert data in DataBeforeDone(lines);
          assert forall d | d in DataBeforeDone(lines[1..]) :: d in DataBeforeDone(lines);
          LastWord(decode, lines[1..], ending);
          assert ([data] + DataBeforeDone(lines[1..]))[1..] == DataBeforeDone(lines[1..]);
        }
      } else {
        assert (PREFIX + DONE)[..|PREFIX|] == PREFIX;
        LastWord(decode, lines[1..], ending);
      }
    }
  }

  /** A response whose data lines before [DONE] all parse yields exactly their
      non-empty contents, in order. It ends without an exception exactly when
      [DONE] was seen or the body ended normally, and otherwise with the one
      exception of its ending. */
  lemma ParserIsLossless(decode: Decoder, lines: seq<string>, ending: Ending)
    requires Parses(decode, DataBeforeDone(lines))
    ensures Foresee(decode, lines, ending).tokens == Contents(decode, DataBeforeDone(lines))
    ensures var last := Foresee(decode, lines, ending).last;
            && (last == End <==> Terminated(lines) || ending == Eof)
            && (last == Raise(ProviderTimeout) <==> !Terminated(lines) && ending == ReadTimeout)
            && (last == Raise(UpstreamError(None)) <==> !Terminated(lines) && ending == TransportError)
            && (forall code :: last == Raise(UpstreamError(Some(code))) <==>
                  !Terminated(lines) && ending == BadStatus(code))
            && last != Raise(OtherError)
  {
    LastWord(decode, lines, ending);
  }

  /** A data line that does not parse ends the stream with its exception. */
  lemma {:induction false} ParserFailsOnMalformed(decode: Decoder, lines: seq<string>, ending: Ending)
    ensures !Parses(decode, DataBeforeDone(lines)) ==> Foresee(decode, lines, ending).last == Raise(OtherError)
  {
    if lines != [] {
      ParserFailsOnMalformed(decode, lines[1..], ending);
    }
  }

  /* ---------- usage ---------- */

  function ExtractUsage(usage: Option<map<string, nat>>): map<string, nat> {
    var u := if usage.Some? then usage.value else map[];
    var prompt := Gateway.Member(u, "prompt_tokens");
    var completion := Gateway.Member(u, "completion_tokens");
    map["prompt_tokens" := prompt,
        "completion_tokens" := completion,
        "total_tokens" := if "total_tokens" in u then u["total_tokens"] else prompt + completion]
  }

  /** The extracted usage holds the provider's own numbers, and the service
      reads it as it would read the provider's. */
  lemma UsageSurvivesExtraction(usage: Option<map<string, nat>>)
    ensures var prompt, completion := Reported(usage, "prompt_tokens"), Reported(usage, "completion_tokens");
            && Reported(Some(ExtractUsage(usage)), "prompt_tokens") == prompt
            && Reported(Some(ExtractUsage(usage)), "completion_tokens") == completion
            && Reported(Some(ExtractUsage(usage)), "total_tokens") ==
               (if usage.Some? && "total_tokens" in usage.value then usage.value["total_tokens"]
                else prompt + completion)
            && Gateway.MapUsage(Some(ExtractUsage(usage))) == Gateway.Usage(prompt, completion)
  {
    assert "prompt_tokens" != "completion_tokens" && "completion_tokens" != "total_tokens";
    assert "prompt_tokens" != "total_tokens";
  }
}
