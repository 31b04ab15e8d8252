/** JSON values as `json.loads` builds them and the printer `json.dumps` with
    its default separators and ASCII escapes. */
module Json {

  /** A Python string is a sequence of code points, surrogates included. */
  newtype CodePoint = c: int | 0 <= c < 0x11_0000

  type Text = seq<CodePoint>

  /** ASCII literals as code points. */
  function Ascii(s: string): (t: Text)
    requires forall i | 0 <= i < |s| :: s[i] <= '~'
    ensures |t| == |s| && forall i | 0 <= i < |s| :: t[i] == s[i] as CodePoint
  {
    seq(|s|, i requires 0 <= i < |s| => s[i] as CodePoint)
  }

  /** Objects keep their insertion order. A float is identified by its `repr`,
      which round-trips. */
  datatype Value =
    | Null
    | Bool(b: bool)
    | Int(n: int)
    | Float(repr: string)
    | Str(s: Text)
    | Array(items: seq<Value>)
    | Object(fields: seq<(Text, Value)>)

  /* ---------- strings ---------- */

  predicate High(c: CodePoint) {
    0xD800 <= c <= 0xDBFF
  }

  predicate Low(c: CodePoint) {
    0xDC00 <= c <= 0xDFFF
  }

  /** No high surrogate stands right before a low one; as in every valid
      Unicode string, which has no surrogates at all. */
  predicate Clean(s: Text) {
    forall i | 0 <= i < |s| - 1 :: !(High(s[i]) && Low(s[i + 1]))
  }

  newtype Unit = u: int | 0 <= u < 0x1_0000

  function UnitsOf(c: CodePoint): (us: seq<Unit>)
    ensures us != []
  {
    if c < 0x1_0000 then [c as Unit]
    else
      var v := c - 0x1_0000;
      [(0xD800 + v / 0x400) as Unit, (0xDC00 + v % 0x400) as Unit]
  }

  /** The UTF-16 code units that are escaped one by one. */
  function Units(s: Text): seq<Unit> {
    if s == [] then [] else UnitsOf(s[0]) + Units(s[1..])
  }

  function Hex(d: int): char
    requires 0 <= d < 16
  {
    if d < 10 then ('0' as int + d) as char else ('a' as int + d - 10) as char
  }

  function Hex4(u: Unit): string {
    var n := u as int;
    [Hex(n / 16 / 16 / 16), Hex(n / 16 / 16 % 16), Hex(n / 16 % 16), Hex(n % 16)]
  }

  function EscapeUnit(u: Unit): string {
    if u == 0x22 then "\\\""
    else if u == 0x5C then "\\\\"
    else if u == 0x0A then "\\n"
    else if u == 0x0D then "\\r"
    else if u == 0x09 then "\\t"
    else if u == 0x0C then "\\f"
    else if u == 0x08 then "\\b"
    else if 0x20 <= u <= 0x7E then [u as char]
    else "\\u" + Hex4(u)
  }

  function Escape(us: seq<Unit>): string {
    if us == [] then "" else EscapeUnit(us[0]) + Escape(us[1..])
  }

  function Quote(s: Text): string {
    "\"" + Escape(Units(s)) + "\""
  }

  /* ---------- numbers ---------- */

  function Digits(n: nat): string {
    if n < 10 then [Hex(n)] else Digits(n / 10) + [Hex(n % 10)]
  }

  function Decimal(n: int): string {
    if n < 0 then "-" + Digits(-n) else Digits(n)
  }

  predicate Digit(c: char) {
    '0' <= c <= '9'
  }

  predicate Delimiter(c: char) {
    c == ',' || c == ']' || c == '}'
  }

  /** The shapes `float.__repr__` and the three special tokens have in common:
      like no other JSON token at the start, no delimiter or space inside, and at least
      one character an integer does not have. */
  predicate FloatToken(repr: string) {
    && repr != ""
    && (Digit(repr[0]) || repr[0] == '-' || repr[0] == 'N' || repr[0] == 'I')
    && (forall i | 0 <= i < |repr| :: !Delimiter(repr[i]) && '!' <= repr[i] <= '~')
    && (exists i | 0 <= i < |repr| :: !Digit(repr[i]) && repr[i] != '-')
  }

  /* ---------- the printer ---------- */

  function Print(v: Value): string
    decreases v, 1
  {
    match v
    case Null => "null"
    case Bool(b) => if b then "true" else "false"
    case Int(n) => Decimal(n)
    case Float(repr) => repr
    case Str(s) => Quote(s)
    case Array(items) =>
      if items == [] then "[]" else "[" + Print(items[0]) + PrintItems(items[1..])
    case Object(fields) =>
      if fields == [] then "{}" else "{" + PrintField(fields[0]) + PrintFields(fields[1..])
  }

  /** The items after the first, each behind its separator, and the closing bracket. */
  function PrintItems(items: seq<Value>): string
    decreases items, 0
  {
    if items == [] then "]" else ", " + Print(items[0]) + PrintItems(items[1..])
  }

  function PrintField(field: (Text, Value)): string
    decreases field, 0
  {
    Quote(field.0) + ": " + Print(field.1)
  }

  function PrintFields(fields: seq<(Text, Value)>): string
    decreases fields, 1
  {
    if fields == [] then "}" else ", " + PrintField(fields[0]) + PrintFields(fields[1..])
  }

  /** What `json.loads` can return: floats are tokens, no object repeats a key.
      Strings are arbitrary, since surrogates written as raw bytes get through. */
  predicate Parsed(v: Value) {
    match v
    case Float(repr) => FloatToken(repr)
    case Array(items) => forall item | item in items :: Parsed(item)
    case Object(fields) => DistinctKeys(fields) && forall field | field in fields :: Parsed(field.1)
    case _ => true
  }

  /** Strings are clean and floats are tokens; keys may repeat. */
  predicate Textual(v: Value) {
    match v
    case Float(repr) => FloatToken(repr)
    case Str(s) => Clean(s)
    case Array(items) => forall item | item in items :: Textual(item)
    case Object(fields) => forall field | field in fields :: Clean(field.0) && Textual(field.1)
    case _ => true
  }

  predicate DistinctKeys(fields: seq<(Text, Value)>) {
    forall i, j | 0 <= i < j < |fields| :: fields[i].0 != fields[j].0
  }

  /** No object at any depth has a key with a split surrogate pair. */
  predicate CleanKeys(v: Value) {
    match v
    case Array(items) => forall item | item in items :: CleanKeys(item)
    case Object(fields) => forall field | field in fields :: Clean(field.0) && CleanKeys(field.1)
    case _ => true
  }

  /* ---------- what the text decodes to ---------- */

  /** The character encoded by a surrogate pair. */
  function Join(high: CodePoint, low: CodePoint): CodePoint
    requires High(high) && Low(low)
  {
    0x1_0000 + (high - 0xD800) * 0x400 + (low - 0xDC00)
  }

  /** Every surrogate pair replaced by its character: what `json.loads` makes of
      the printed string. */
  function Fuse(s: Text): Text {
    if s == [] then []
    else if |s| >= 2 && High(s[0]) && Low(s[1]) then [Join(s[0], s[1])] + Fuse(s[2..])
    else [s[0]] + Fuse(s[1..])
  }

  function FuseAll(v: Value): Value
    decreases v, 1
  {
    match v
    case Str(s) => Str(Fuse(s))
    case Array(items) => Array(FuseItems(items))
    case Object(fields) => Object(FuseFields(fields))
    case _ => v
  }

  function FuseItems(items: seq<Value>): (r: seq<Value>)
    ensures |r| == |items| && forall i | 0 <= i < |items| :: r[i] == FuseAll(items[i])
    decreases items, 0
  {
    if items == [] then [] else [FuseAll(items[0])] + FuseItems(items[1..])
  }

  function FuseField(field: (Text, Value)): (Text, Value)
    decreases field, 0
  {
    (Fuse(field.0), FuseAll(field.1))
  }

  function FuseFields(fields: seq<(Text, Value)>): (r: seq<(Text, Value)>)
    ensures |r| == |fields| && forall i | 0 <= i < |fields| :: r[i] == FuseField(fields[i])
    decreases fields, 0
  {
    if fields == [] then [] else [FuseField(fields[0])] + FuseFields(fields[1..])
  }
}
