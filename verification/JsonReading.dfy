/** A reader of JSON texts, written from RFC 8259 and independent of the
    printer, and what it makes of a printed value. */
module JsonReading {
  import opened Prelude
  import opened Json
  import opened JsonDecoding

  /* ---------- strings: section 7 ---------- */

  function DigitValue(c: char): int {
    c as int - '0' as int
  }

  function HexValue(c: char): (r: Option<int>)
    ensures r.Some? ==> 0 <= r.value < 16
  {
    if '0' <= c <= '9' then Some(c as int - '0' as int)
    else if 'a' <= c <= 'f' then Some(c as int - 'a' as int + 10)
    else if 'A' <= c <= 'F' then Some(c as int - 'A' as int + 10)
    else None
  }

  /** What a reading function found, and the text after it. */
  type Found<+T> = Option<(T, string)>

  /** The code unit that follows `\u`. */
  function ReadHex(text: string): (r: Found<Unit>)
    ensures r.Some? ==> |r.value.1| < |text|
  {
    if |text| < 4 then None
    else
      match (HexValue(text[0]), HexValue(text[1]), HexValue(text[2]), HexValue(text[3]))
      case (Some(a), Some(b), Some(c), Some(d)) => Some(((a * 4096 + b * 256 + c * 16 + d) as Unit, text[4..]))
      case _ => None
  }

  /** The code unit that follows a backslash. */
  function ReadEscape(text: string): (r: Found<Unit>)
    ensures r.Some? ==> |r.value.1| < |text|
  {
    if text == "" then None
    else
      match text[0]
      case '\"' => Some((0x22, text[1..]))
      case '\\' => Some((0x5C, text[1..]))
      case '/' => Some((0x2F, text[1..]))
      case 'b' => Some((0x08, text[1..]))
      case 'f' => Some((0x0C, text[1..]))
      case 'n' => Some((0x0A, text[1..]))
      case 'r' => Some((0x0D, text[1..]))
      case 't' => Some((0x09, text[1..]))
      case 'u' => ReadHex(text[1..])
      case _ => None
  }

  /** The code units of an unescaped character. */
  function PlainUnits(c: char): seq<Unit> {
    var n := c as int;
    if n < 0x1_0000 then [n as Unit]
    else [(0xD800 + (n - 0x1_0000) / 0x400) as Unit, (0xDC00 + (n - 0x1_0000) % 0x400) as Unit]
  }

  /** The code units up to the closing quote. */
  function ReadUnits(text: string): (r: Found<seq<Unit>>)
    ensures r.Some? ==> |r.value.1| < |text|
    decreases |text|
  {
    if text == "" || text[0] < ' ' then None
    else if text[0] == '\"' then Some(([], text[1..]))
    else if text[0] != '\\' then
      match ReadUnits(text[1..])
      case Some((us, rest)) => Some((PlainUnits(text[0]) + us, rest))
      case None => None
    else
      match ReadEscape(text[1..])
      case None => None
      case Some((u, after)) =>
        match ReadUnits(after)
        case Some((us, rest)) => Some(([u] + us, rest))
        case None => None
  }

  /** UTF-16: a high and a low surrogate together are one character. */
  function FromUnits(us: seq<Unit>): Text
    decreases |us|
  {
    if us == [] then []
    else if |us| >= 2 && 0xD800 <= us[0] <= 0xDBFF && 0xDC00 <= us[1] <= 0xDFFF
    then [(0x1_0000 + (us[0] as int - 0xD800) * 0x400 + (us[1] as int - 0xDC00)) as CodePoint] + FromUnits(us[2..])
    else [us[0] as CodePoint] + FromUnits(us[1..])
  }

  /** A string, its opening quote already read. */
  function ReadString(text: string): (r: Found<Text>)
    ensures r.Some? ==> |r.value.1| < |text|
  {
    match ReadUnits(text)
    case Some((us, rest)) => Some((FromUnits(us), rest))
    case None => None
  }

  /* ---------- numbers: section 6 ---------- */

  predicate Digital(t: string) {
    t != "" && forall i | 0 <= i < |t| :: '0' <= t[i] <= '9'
  }

  function NatValue(t: string): int {
    if t == "" then 0 else NatValue(t[..|t| - 1]) * 10 + DigitValue(t[|t| - 1])
  }

  predicate Natural(t: string) {
    Digital(t) && (t[0] == '0' ==> |t| == 1)
  }

  function ReadInteger(t: string): Option<int> {
    if Natural(t) then Some(NatValue(t))
    else if t != "" && t[0] == '-' && Natural(t[1..]) then Some(-NatValue(t[1..]))
    else None
  }

  predicate Space(c: char) {
    c == ' ' || c == '\t' || c == '\n' || c == '\r'
  }

  function TokenLength(text: string): (n: nat)
    ensures n <= |text|
    ensures forall i | 0 <= i < n :: !Delimiter(text[i]) && !Space(text[i])
    ensures n < |text| ==> Delimiter(text[n]) || Space(text[n])
  {
    if text == "" || Delimiter(text[0]) || Space(text[0]) then 0 else 1 + TokenLength(text[1..])
  }

  /** An integer by its value; any other number by its token. */
  function ReadNumber(text: string): (r: Found<Value>)
    ensures r.Some? ==> |r.value.1| < |text|
  {
    var n := TokenLength(text);
    var token := text[..n];
    match ReadInteger(token)
    case Some(value) => Some((Int(value), text[n..]))
    case None => if FloatToken(token) then Some((Float(token), text[n..])) else None
  }

  /* ---------- values: sections 2 to 5 ---------- */

  function Skip(text: string): (r: string)
    ensures |r| <= |text|
  {
    if text != "" && Space(text[0]) then Skip(text[1..]) else text
  }

  function ReadWord(text: string, word: string, v: Value): (r: Found<Value>)
    ensures word != "" && r.Some? ==> |r.value.1| < |text|
  {
    if |word| <= |text| && text[..|word|] == word then Some((v, text[|word|..])) else None
  }

  function ReadValue(text: string): (r: Found<Value>)
    ensures r.Some? ==> |r.value.1| < |text|
    decreases |text|, 0
  {
    var t := Skip(text);
    if t == "" then None
    else if t[0] == '\"' then
      match ReadString(t[1..])
      case Some((s, rest)) => Some((Str(s), rest))
      case None => None
    else if t[0] == '[' then ReadArray(t[1..])
    else if t[0] == '{' then ReadObject(t[1..])
    else if t[0] == 'n' then ReadWord(t, "null", Null)
    else if t[0] == 't' then ReadWord(t, "true", Bool(true))
    else if t[0] == 'f' then ReadWord(t, "false", Bool(false))
    else ReadNumber(t)
  }

  function ReadArray(text: string): (r: Found<Value>)
    ensures r.Some? ==> |r.value.1| < |text|
    decreases |text|, 2
  {
    var t := Skip(text);
    if t != "" && t[0] == ']' then Some((Array([]), t[1..]))
    else
      match ReadItems(t)
      case Some((items, rest)) => Some((Array(items), rest))
      case None => None
  }

  function ReadItems(text: string): (r: Found<seq<Value>>)
    ensures r.Some? ==> |r.value.1| < |text|
    decreases |text|, 1
  {
    match ReadValue(text)
    case None => None
    case Some((v, after)) =>
      var t := Skip(after);
      if t == "" then None
      else if t[0] == ']' then Some(([v], t[1..]))
      else if t[0] != ',' then None
      else
        match ReadItems(t[1..])
        case Some((items, rest)) => Some(([v] + items, rest))
        case None => None
  }

  function ReadObject(text: string): (r: Found<Value>)
    ensures r.Some? ==> |r.value.1| < |text|
    decreases |text|, 2
  {
    var t := Skip(text);
    if t != "" && t[0] == '}' then Some((Object([]), t[1..]))
    else
      match ReadFields(t)
      case Some((fields, rest)) => Some((Object(fields), rest))
      case None => None
  }

  function ReadField(text: string): (r: Found<(Text, Value)>)
    ensures r.Some? ==> |r.value.1| < |text|
    decreases |text|, 0
  {
    var t := Skip(text);
    if t == "" || t[0] != '\"' then None
    else
      match ReadString(t[1..])
      case None => None
      case Some((name, after)) =>
        var u := Skip(after);
        if u == "" || u[0] != ':' then None
        else
          match ReadValue(u[1..])
          case Some((v, rest)) => Some(((name, v), rest))
          case None => None
  }

  function ReadFields(text: string): (r: Found<seq<(Text, Value)>>)
    ensures r.Some? ==> |r.value.1| < |text|
    decreases |text|, 1
  {
    match ReadField(text)
    case None => None
    case Some((field, after)) =>
      var t := Skip(after);
      if t == "" then None
      else if t[0] == '}' then Some(([field], t[1..]))
      else if t[0] != ',' then None
      else
        match ReadFields(t[1..])
        case Some((fields, rest)) => Some(([field] + fields, rest))
        case None => None
  }

  /** A whole text. */
  function Read(text: string): Option<Value> {
    match ReadValue(text)
    case Some((v, rest)) => if Skip(rest) == "" then Some(v) else None
    case None => None
  }

  /* ---------- reading printed strings ---------- */

  lemma HexReads(d: int)
    requires 0 <= d < 16
    ensures HexValue(Hex(d)) == Some(d)
  {
  }

  lemma FourDigits(n: nat)
    ensures n == n / 16 / 16 / 16 * 4096 + n / 16 / 16 % 16 * 256 + n / 16 % 16 * 16 + n % 16
  {
  }

  lemma Hex4Reads(u: Unit, rest: string)
    ensures ReadHex(Hex4(u) + rest) == Some((u, rest))
  {
    var n := u as int;
    HexReads(n / 16 / 16 / 16);
    HexReads(n / 16 / 16 % 16);
    HexReads(n / 16 % 16);
    HexReads(n % 16);
    FourDigits(n);
    assert (Hex4(u) + rest)[4..] == rest;
  }

  lemma EscapedReads(u: Unit, rest: string)
    requires EscapeUnit(u)[0] == '\\'
    ensures ReadEscape((EscapeUnit(u) + rest)[1..]) == Some((u, rest))
  {
    var e := EscapeUnit(u);
    EscapeShape(u);
    var t := (e + rest)[1..];
    assert t[0] == e[1];
    if e[1] == 'u' {
      assert t[1..] == e[2..] + rest;
      Hex4Reads(u, rest);
    } else {
      assert t[1..] == rest;
    }
  }

  lemma UnitReads(u: Unit, rest: string)
    ensures ReadUnits(EscapeUnit(u) + rest) ==
            match ReadUnits(rest)
            case Some((us, after)) => Some(([u] + us, after))
            case None => None
  {
    var e := EscapeUnit(u);
    EscapeShape(u);
    assert (e + rest)[0] == e[0];
    if e[0] == '\\' {
      EscapedReads(u, rest);
    } else {
      assert (e + rest)[1..] == rest;
      assert PlainUnits(e[0]) == [u];
    }
  }

  lemma {:induction false} UnitsRead(us: seq<Unit>, x: string)
    ensures ReadUnits(Escape(us) + "\"" + x) == Some((us, x))
  {
    EscapeLead(us, x);
    if us != [] {
      UnitsRead(us[1..], x);
      UnitReads(us[0], Escape(us[1..]) + "\"" + x);
      assert [us[0]] + us[1..] == us;
    }
  }

  lemma {:induction false} CleanFromUnits(s: Text)
    requires Clean(s)
    ensures FromUnits(Units(s)) == s
  {
    if s != [] {
      FirstUnit(s);
      if s[0] < 0x1_0000 && High(s[0]) {
        LoneHigh(s);
      }
      CleanFromUnits(s[1..]);
      assert s == [s[0]] + s[1..];
    }
  }

  /** UTF-16 decoding of the code units pairs the surrogates of any string. */
  lemma UnitsFuse(s: Text)
    ensures FromUnits(Units(s)) == Fuse(s)
  {
    FuseKeepsUnits(s);
    FuseIsClean(s);
    CleanFromUnits(Fuse(s));
  }

  /** A quoted string in front of any text reads as its code units, that is as
      the string with its surrogate pairs fused, and that text. */
  lemma QuoteReads(s: Text, x: string)
    ensures Quote(s)[0] == '\"' && ReadUnits((Quote(s) + x)[1..]) == Some((Units(s), x))
    ensures ReadString((Quote(s) + x)[1..]) == Some((Fuse(s), x))
  {
    AfterOpeningQuote(s, x);
    UnitsRead(Units(s), x);
    UnitsFuse(s);
  }

  /** The escapes that `json.dumps` prefers where JSON leaves a choice: two
      characters for seven of them, and lower-case hexadecimal for the rest. */
  lemma PreferredEscapes()
    ensures Escape([0x22, 0x5C, 0x0A]) == "\\\"\\\\\\n" && Escape([0x0D, 0x09, 0x0C, 0x08]) == "\\r\\t\\f\\b"
    ensures Escape([0x2F, 0x7E]) == "/~" && Escape([0x7F]) == "\\u007f" && Escape([0xABCD]) == "\\uabcd"
  {
    assert [0x22 as Unit, 0x5C, 0x0A][1..] == [0x5C, 0x0A] && [0x5C as Unit, 0x0A][1..] == [0x0A];
    assert Escape([0x0A]) == "\\n" && Escape([0x5C, 0x0A]) == "\\\\\\n";
    assert [0x0D as Unit, 0x09, 0x0C, 0x08][1..] == [0x09, 0x0C, 0x08];
    assert [0x09 as Unit, 0x0C, 0x08][1..] == [0x0C, 0x08] && [0x0C as Unit, 0x08][1..] == [0x08];
    assert Escape([0x08]) == "\\b" && Escape([0x0C, 0x08]) == "\\f\\b" && Escape([0x09, 0x0C, 0x08]) == "\\t\\f\\b";
    assert [0x2F as Unit, 0x7E][1..] == [0x7E] && Escape([0x7E]) == "~";
  }

  /* ---------- reading printed numbers ---------- */

  lemma {:induction false} DigitsRead(n: nat)
    ensures Natural(Digits(n)) && NatValue(Digits(n)) == n && (Digits(n)[0] == '0' <==> n == 0)
  {
    DigitsShape(n);
    var t := Digits(n);
    if n < 10 {
      assert t[..0] == "";
      assert NatValue(t[..0]) == 0;
    } else {
      DigitsRead(n / 10);
      assert t[..|t| - 1] == Digits(n / 10);
      assert t[0] == Digits(n / 10)[0];
    }
  }

  lemma DecimalReads(n: int)
    ensures ReadInteger(Decimal(n)) == Some(n)
  {
    DigitsRead(if n < 0 then -n else n);
    if n < 0 {
      assert Decimal(n)[1..] == Digits(-n);
    }
  }

  /** A token without delimiters and spaces. */
  predicate Compact(t: string) {
    forall i | 0 <= i < |t| :: !Delimiter(t[i]) && !Space(t[i])
  }

  lemma {:induction false} TokenEnds(t: string, x: string)
    requires Compact(t) && Ends(x)
    ensures TokenLength(t + x) == |t| && (t + x)[..|t|] == t && (t + x)[|t|..] == x
  {
    if t != "" {
      assert (t + x)[1..] == t[1..] + x;
      TokenEnds(t[1..], x);
    }
  }

  lemma NumberReads(v: Value, x: string)
    requires v.Int? || (v.Float? && FloatToken(v.repr))
    requires Ends(x)
    ensures ReadNumber(Print(v) + x) == Some((v, x))
  {
    if v.Int? {
      DecimalShape(v.n);
      DecimalReads(v.n);
    } else {
      assert ReadInteger(v.repr).None?;
    }
    TokenEnds(Print(v), x);
  }

  /* ---------- reading printed values ---------- */

  /** The text of a value starts where the value does. */
  lemma NothingToSkip(v: Value, x: string)
    requires v.Float? ==> FloatToken(v.repr)
    ensures var t := Print(v) + x; t != "" && Skip(t) == t && Leads(t[0], KindOf(v)) && t[0] != ']' && t[0] != '}'
  {
    PrintLead(v);
    assert (Print(v) + x)[0] == Print(v)[0];
  }

  lemma SpaceIsSkipped(text: string)
    ensures Skip(" " + text) == Skip(text)
    ensures ReadValue(" " + text) == ReadValue(text)
    ensures ReadItems(" " + text) == ReadItems(text)
    ensures ReadField(" " + text) == ReadField(text)
    ensures ReadFields(" " + text) == ReadFields(text)
  {
    assert (" " + text)[1..] == text;
  }

  lemma WordReads(word: string, v: Value, x: string)
    ensures ReadWord(word + x, word, v) == Some((v, x))
  {
    assert (word + x)[..|word|] == word && (word + x)[|word|..] == x;
  }

  lemma NumberLeads(text: string)
    requires text != "" && Leads(text[0], KNumber)
    ensures ReadValue(text) == ReadNumber(text)
  {
    assert Skip(text) == text;
  }

  lemma AtomReads(v: Value, x: string)
    requires v.Null? || v.Bool? || v.Int? || (v.Float? && FloatToken(v.repr))
    requires Ends(x)
    ensures ReadValue(Print(v) + x) == Some((v, x))
  {
    NothingToSkip(v, x);
    if v.Int? || v.Float? {
      NumberLeads(Print(v) + x);
      NumberReads(v, x);
    } else {
      WordReads(Print(v), v, x);
    }
  }

  lemma StringReads(s: Text, x: string)
    ensures ReadValue(Print(Str(s)) + x) == Some((Str(Fuse(s)), x))
  {
    NothingToSkip(Str(s), x);
    QuoteReads(s, x);
  }

  /** A printed value in front of an end of the text, a separator or a closing
      bracket reads as the value with its surrogate pairs fused. */
  lemma {:induction false} ValueReads(v: Value, x: string)
    requires Parsed(v) && Ends(x)
    ensures ReadValue(Print(v) + x) == Some((FuseAll(v), x))
    decreases v, 1
  {
    match v {
      case Str(s) =>
        StringReads(s, x);
      case Array(items) =>
        NothingToSkip(v, x);
        ArrayReads(items, x);
      case Object(fields) =>
        NothingToSkip(v, x);
        ObjectReads(fields, x);
      case _ =>
        AtomReads(v, x);
    }
  }

  lemma {:induction false} ArrayReads(items: seq<Value>, x: string)
    requires forall item | item in items :: Parsed(item)
    ensures ReadArray((Print(Array(items)) + x)[1..]) == Some((Array(FuseItems(items)), x))
    decreases items, 1
  {
    var t := (Print(Array(items)) + x)[1..];
    if items == [] {
      assert t[0] == ']' && t[1..] == x;
    } else {
      Regroup("[", Print(items[0]), PrintItems(items[1..]), x);
      ItemsRead(items, x);
      assert Parsed(items[0]);
      NothingToSkip(items[0], PrintItems(items[1..]) + x);
    }
  }

  lemma Apart(first: string, rest: string, x: string)
    ensures ", " + first + rest + x == "," + (" " + (first + (rest + x)))
    ensures ", " + first + rest + x != ""
  {
  }

  /** What follows an item. */
  lemma ItemsTail(items: seq<Value>, x: string)
    ensures var t := PrintItems(items) + x; Skip(t) == t && t != "" && Ends(t) && (t[0] == ']' <==> items == [])
    ensures items == [] ==> PrintItems(items) + x == "]" + x
    ensures items != [] ==>
              PrintItems(items) + x == "," + (" " + (Print(items[0]) + (PrintItems(items[1..]) + x)))
  {
    if items != [] {
      Apart(Print(items[0]), PrintItems(items[1..]), x);
    }
  }

  lemma LastItem(text: string, v: Value, x: string)
    requires ReadValue(text) == Some((v, "]" + x))
    ensures ReadItems(text) == Some(([v], x))
  {
    assert ("]" + x)[1..] == x;
  }

  lemma MoreItems(text: string, v: Value, after: string, items: seq<Value>, x: string)
    requires ReadValue(text) == Some((v, "," + after)) && ReadItems(after) == Some((items, x))
    ensures ReadItems(text) == Some(([v] + items, x))
  {
    assert ("," + after)[1..] == after;
  }

  lemma {:induction false} ItemsRead(items: seq<Value>, x: string)
    requires items != [] && forall item | item in items :: Parsed(item)
    ensures ReadItems(Print(items[0]) + (PrintItems(items[1..]) + x)) == Some((FuseItems(items), x))
    decreases items, 0
  {
    var rest := items[1..];
    var text := Print(items[0]) + (PrintItems(rest) + x);
    ItemsTail(rest, x);
    ValueReads(items[0], PrintItems(rest) + x);
    assert FuseItems(items) == [FuseAll(items[0])] + FuseItems(rest);
    if rest == [] {
      assert FuseItems(items) == [FuseAll(items[0])];
      LastItem(text, FuseAll(items[0]), x);
    } else {
      ItemsRead(rest, x);
      SpaceIsSkipped(Print(rest[0]) + (PrintItems(rest[1..]) + x));
      MoreItems(text, FuseAll(items[0]), " " + (Print(rest[0]) + (PrintItems(rest[1..]) + x)), FuseItems(rest), x);
    }
  }

  lemma {:induction false} ObjectReads(fields: seq<(Text, Value)>, x: string)
    requires forall field | field in fields :: Parsed(field.1)
    ensures ReadObject((Print(Object(fields)) + x)[1..]) == Some((Object(FuseFields(fields)), x))
    decreases fields, 2
  {
    var t := (Print(Object(fields)) + x)[1..];
    if fields == [] {
      assert t[0] == '}' && t[1..] == x;
    } else {
      Regroup("{", PrintField(fields[0]), PrintFields(fields[1..]), x);
      FieldRegroup(fields[0], PrintFields(fields[1..]) + x);
      FieldsRead(fields, x);
    }
  }

  lemma FieldsTail(fields: seq<(Text, Value)>, x: string)
    ensures var t := PrintFields(fields) + x; Skip(t) == t && t != "" && Ends(t) && (t[0] == '}' <==> fields == [])
    ensures fields == [] ==> PrintFields(fields) + x == "}" + x
    ensures fields != [] ==>
              PrintFields(fields) + x == "," + (" " + (PrintField(fields[0]) + (PrintFields(fields[1..]) + x)))
  {
    if fields != [] {
      Apart(PrintField(fields[0]), PrintFields(fields[1..]), x);
    }
  }

  lemma {:induction false} FieldReads(field: (Text, Value), x: string)
    requires Parsed(field.1) && Ends(x)
    ensures ReadField(PrintField(field) + x) == Some((FuseField(field), x))
    decreases field, 0
  {
    var after := ": " + (Print(field.1) + x);
    FieldRegroup(field, x);
    QuoteReads(field.0, after);
    ValueReads(field.1, x);
    SpaceIsSkipped(Print(field.1) + x);
    assert Skip(after) == after && after[1..] == " " + (Print(field.1) + x);
  }

  lemma LastField(text: string, field: (Text, Value), x: string)
    requires ReadField(text) == Some((field, "}" + x))
    ensures ReadFields(text) == Some(([field], x))
  {
    assert ("}" + x)[1..] == x;
  }

  lemma MoreFields(text: string, field: (Text, Value), after: string, fields: seq<(Text, Value)>, x: string)
    requires ReadField(text) == Some((field, "," + after)) && ReadFields(after) == Some((fields, x))
    ensures ReadFields(text) == Some(([field] + fields, x))
  {
    assert ("," + after)[1..] == after;
  }

  lemma {:induction false} FieldsRead(fields: seq<(Text, Value)>, x: string)
    requires fields != [] && forall field | field in fields :: Parsed(field.1)
    ensures ReadFields(PrintField(fields[0]) + (PrintFields(fields[1..]) + x)) == Some((FuseFields(fields), x))
    decreases fields, 1
  {
    var rest := fields[1..];
    var text := PrintField(fields[0]) + (PrintFields(rest) + x);
    FieldsTail(rest, x);
    FieldReads(fields[0], PrintFields(rest) + x);
    assert FuseFields(fields) == [FuseField(fields[0])] + FuseFields(rest);
    if rest == [] {
      assert FuseFields(fields) == [FuseField(fields[0])];
      LastField(text, FuseField(fields[0]), x);
    } else {
      FieldsRead(rest, x);
      var more := PrintField(rest[0]) + (PrintFields(rest[1..]) + x);
      SpaceIsSkipped(more);
      MoreFields(text, FuseField(fields[0]), " " + more, FuseFields(rest), x);
    }
  }

  /** Round trip: the text printed for a value reads as that value, its
      surrogate pairs fused. */
  lemma ReadsBack(v: Value)
    requires Parsed(v)
    ensures Read(Print(v)) == Some(FuseAll(v))
  {
    assert Print(v) + "" == Print(v);
    ValueReads(v, "");
  }
}
