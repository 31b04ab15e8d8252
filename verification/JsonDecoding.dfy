/** Printed JSON can be read back in one way only: a printed value is
    recognised, with its end, in front of any continuation. */
module JsonDecoding {
  import opened Json

  /* ---------- string escapes form a prefix code ---------- */

  lemma HexInjective(a: int, b: int)
    requires 0 <= a < 16 && 0 <= b < 16 && Hex(a) == Hex(b)
    ensures a == b
  {
  }

  lemma DigitAndRest(m: nat, n: nat)
    requires m / 16 == n / 16 && m % 16 == n % 16
    ensures m == n
  {
    assert m == m / 16 * 16 + m % 16 && n == n / 16 * 16 + n % 16;
  }

  lemma Hex4Injective(u: Unit, v: Unit)
    requires Hex4(u) == Hex4(v)
    ensures u == v
  {
    var m, n := u as int, v as int;
    var d, e := Hex4(u), Hex4(v);
    assert d[0] == e[0] && d[1] == e[1] && d[2] == e[2] && d[3] == e[3];
    HexInjective(m / 16 / 16 / 16, n / 16 / 16 / 16);
    HexInjective(m / 16 / 16 % 16, n / 16 / 16 % 16);
    HexInjective(m / 16 % 16, n / 16 % 16);
    HexInjective(m % 16, n % 16);
    DigitAndRest(m / 16 / 16, n / 16 / 16);
    DigitAndRest(m / 16, n / 16);
    DigitAndRest(m, n);
  }

  /** The first two characters of an escape tell which of three kinds it is. */
  lemma EscapeShape(u: Unit)
    ensures var e := EscapeUnit(u);
            && e != "" && e[0] != '\"'
            && (e[0] != '\\' ==> |e| == 1 && u as int == e[0] as int)
            && (e[0] == '\\' ==> |e| >= 2 && (if e[1] == 'u' then |e| == 6 && e[2..] == Hex4(u) else |e| == 2))
  {
  }

  lemma EscapeUnitDecodes(u: Unit, v: Unit, x: string, y: string)
    requires EscapeUnit(u) + x == EscapeUnit(v) + y
    ensures u == v && x == y
  {
    var d, e := EscapeUnit(u), EscapeUnit(v);
    EscapeShape(u);
    EscapeShape(v);
    assert d[0] == (d + x)[0] == (e + y)[0] == e[0];
    if d[0] == '\\' {
      assert d[1] == (d + x)[1] == (e + y)[1] == e[1];
      assert |d| == |e|;
      assert d == (d + x)[..|d|] == (e + y)[..|e|] == e;
      if d[1] == 'u' {
        Hex4Injective(u, v);
      }
    }
    assert x == (d + x)[|d|..] && y == (e + y)[|e|..];
  }

  lemma EscapeLead(us: seq<Unit>, x: string)
    ensures var l := Escape(us) + "\"" + x; l != "" && (l[0] == '\"' <==> us == [])
    ensures us == [] ==> (Escape(us) + "\"" + x)[1..] == x
    ensures us != [] ==> Escape(us) + "\"" + x == EscapeUnit(us[0]) + (Escape(us[1..]) + "\"" + x)
  {
    if us != [] {
      EscapeShape(us[0]);
      assert EscapeUnit(us[0]) + Escape(us[1..]) + "\"" + x == EscapeUnit(us[0]) + (Escape(us[1..]) + "\"" + x);
    }
  }

  lemma {:induction false} EscapeDecodes(us: seq<Unit>, vs: seq<Unit>, x: string, y: string)
    requires Escape(us) + "\"" + x == Escape(vs) + "\"" + y
    ensures us == vs && x == y
  {
    EscapeLead(us, x);
    EscapeLead(vs, y);
    if us != [] {
      EscapeUnitDecodes(us[0], vs[0], Escape(us[1..]) + "\"" + x, Escape(vs[1..]) + "\"" + y);
      EscapeDecodes(us[1..], vs[1..], x, y);
      assert us == [us[0]] + us[1..] && vs == [vs[0]] + vs[1..];
    }
  }

  /* ---------- code units determine a clean string ---------- */

  lemma FirstUnit(s: Text)
    requires s != []
    ensures Units(s) != []
    ensures var u, c := Units(s)[0] as int, s[0] as int;
            if c < 0x1_0000
            then u == c && Units(s)[1..] == Units(s[1..])
            else 0xD800 <= u <= 0xDBFF && |Units(s)| >= 2 && 0xDC00 <= Units(s)[1] as int <= 0xDFFF
                 && c == 0x1_0000 + (u - 0xD800) * 0x400 + (Units(s)[1] as int - 0xDC00)
                 && Units(s)[2..] == Units(s[1..])
  {
  }

  /** A lone high surrogate of a clean string is not followed by a low unit. */
  lemma LoneHigh(s: Text)
    requires Clean(s) && s != [] && s[0] < 0x1_0000 && High(s[0])
    ensures |Units(s)| >= 2 ==> !(0xDC00 <= Units(s)[1] as int <= 0xDFFF)
  {
    FirstUnit(s);
    if |s| > 1 {
      FirstUnit(s[1..]);
      assert !(High(s[0]) && Low(s[0 + 1]));
      assert Units(s)[1] == Units(s[1..])[0];
    }
  }

  lemma {:induction false} UnitsInjective(s: Text, t: Text)
    requires Clean(s) && Clean(t) && Units(s) == Units(t)
    ensures s == t
  {
    if s != [] && t != [] {
      FirstUnit(s);
      FirstUnit(t);
      if s[0] < 0x1_0000 && t[0] >= 0x1_0000 {
        LoneHigh(s);
      } else if t[0] < 0x1_0000 && s[0] >= 0x1_0000 {
        LoneHigh(t);
      }
      assert s[0] == t[0];
      UnitsInjective(s[1..], t[1..]);
      assert s == [s[0]] + s[1..] && t == [t[0]] + t[1..];
    } else if s != [] {
      FirstUnit(s);
    } else if t != [] {
      FirstUnit(t);
    }
  }

  lemma AfterOpeningQuote(s: Text, x: string)
    ensures (Quote(s) + x)[1..] == Escape(Units(s)) + "\"" + x
  {
  }

  lemma QuoteDecodes(s: Text, t: Text, x: string, y: string)
    requires Clean(s) && Clean(t) && Quote(s) + x == Quote(t) + y
    ensures s == t && x == y
  {
    AfterOpeningQuote(s, x);
    AfterOpeningQuote(t, y);
    EscapeDecodes(Units(s), Units(t), x, y);
    UnitsInjective(s, t);
  }

  /* ---------- numbers end where a delimiter begins ---------- */

  lemma {:induction false} DigitsShape(n: nat)
    ensures Digits(n) != "" && forall i | 0 <= i < |Digits(n)| :: Digit(Digits(n)[i])
    ensures |Digits(n)| == 1 <==> n < 10
  {
    if n >= 10 {
      DigitsShape(n / 10);
    }
  }

  lemma {:induction false} DigitsInjective(m: nat, n: nat)
    requires Digits(m) == Digits(n)
    ensures m == n
  {
    DigitsShape(m);
    DigitsShape(n);
    var d, e := Digits(m), Digits(n);
    assert d[|d| - 1] == Hex(m % 10) && e[|e| - 1] == Hex(n % 10);
    HexInjective(m % 10, n % 10);
    if m >= 10 {
      assert Digits(m / 10) == d[..|d| - 1] && Digits(n / 10) == e[..|e| - 1];
      DigitsInjective(m / 10, n / 10);
    }
  }

  predicate IntegerToken(t: string) {
    t != "" && forall i | 0 <= i < |t| :: Digit(t[i]) || t[i] == '-'
  }

  lemma DecimalShape(n: int)
    ensures IntegerToken(Decimal(n))
    ensures Decimal(n)[0] == '-' <==> n < 0
  {
    DigitsShape(if n < 0 then -n else n);
  }

  lemma DecimalInjective(m: int, n: int)
    requires Decimal(m) == Decimal(n)
    ensures m == n
  {
    DecimalShape(m);
    DecimalShape(n);
    if m < 0 {
      assert Digits(-m) == Decimal(m)[1..] && Digits(-n) == Decimal(n)[1..];
      DigitsInjective(-m, -n);
    } else {
      DigitsInjective(m, n);
    }
  }

  /** What may follow a value: nothing, a separator or a closing bracket. */
  predicate Ends(x: string) {
    x == "" || Delimiter(x[0])
  }

  predicate Undelimited(t: string) {
    forall i | 0 <= i < |t| :: !Delimiter(t[i])
  }

  /** A token stops exactly where the text does or a delimiter begins. */
  lemma TokenStops(a: string, x: string)
    requires Undelimited(a) && Ends(x)
    ensures forall i | 0 <= i < |a| :: !Delimiter((a + x)[i])
    ensures |a| < |a + x| ==> Delimiter((a + x)[|a|])
  {
  }

  lemma TokenDecodes(a: string, b: string, x: string, y: string)
    requires Undelimited(a) && Undelimited(b) && Ends(x) && Ends(y) && a + x == b + y
    ensures a == b && x == y
  {
    TokenStops(a, x);
    TokenStops(b, y);
    assert |a| == |b|;
    assert a == (a + x)[..|a|] && b == (b + y)[..|b|];
    assert x == (a + x)[|a|..] && y == (b + y)[|b|..];
  }

  /* ---------- values ---------- */

  datatype Kind = KNull | KTrue | KFalse | KNumber | KString | KArray | KObject

  function KindOf(v: Value): Kind {
    match v
    case Null => KNull
    case Bool(b) => if b then KTrue else KFalse
    case Int(_) => KNumber
    case Float(_) => KNumber
    case Str(_) => KString
    case Array(_) => KArray
    case Object(_) => KObject
  }

  predicate Leads(c: char, k: Kind) {
    match k
    case KNull => c == 'n'
    case KTrue => c == 't'
    case KFalse => c == 'f'
    case KNumber => Digit(c) || c == '-' || c == 'N' || c == 'I'
    case KString => c == '\"'
    case KArray => c == '['
    case KObject => c == '{'
  }

  /** The first character tells the kind of the value. */
  lemma PrintLead(v: Value)
    requires v.Float? ==> FloatToken(v.repr)
    ensures Print(v) != "" && Leads(Print(v)[0], KindOf(v))
  {
    if v.Int? {
      DecimalShape(v.n);
    }
  }

  lemma NumbersDecode(a: Value, b: Value, x: string, y: string)
    requires Textual(a) && Textual(b) && KindOf(a) == KNumber && KindOf(b) == KNumber
    requires Ends(x) && Ends(y) && Print(a) + x == Print(b) + y
    ensures a == b && x == y
  {
    if a.Int? {
      DecimalShape(a.n);
    }
    if b.Int? {
      DecimalShape(b.n);
    }
    TokenDecodes(Print(a), Print(b), x, y);
    if a.Int? && b.Int? {
      DecimalInjective(a.n, b.n);
    }
  }

  lemma Regroup(opening: string, a: string, b: string, x: string)
    ensures (opening + a + b + x)[..|opening|] == opening
    ensures (opening + a + b + x)[|opening|..] == a + (b + x)
  {
  }

  lemma {:induction false} ValueDecodes(a: Value, b: Value, x: string, y: string)
    requires Textual(a) && Textual(b) && Ends(x) && Ends(y) && Print(a) + x == Print(b) + y
    ensures a == b && x == y
    decreases a, 1
  {
    PrintLead(a);
    PrintLead(b);
    var l, r := Print(a) + x, Print(b) + y;
    assert l[0] == Print(a)[0] && r[0] == Print(b)[0];
    match a {
      case Null =>
        assert x == l[4..] && y == r[4..];
      case Bool(t) =>
        assert x == l[|Print(a)|..] && y == r[|Print(a)|..];
      case Int(_) =>
        NumbersDecode(a, b, x, y);
      case Float(_) =>
        NumbersDecode(a, b, x, y);
      case Str(s) =>
        QuoteDecodes(s, b.s, x, y);
      case Array(items) =>
        ArraysDecode(items, b.items, x, y);
      case Object(fields) =>
        ObjectsDecode(fields, b.fields, x, y);
    }
  }

  lemma ArrayLead(items: seq<Value>, x: string)
    requires Textual(Array(items))
    ensures var l := Print(Array(items)) + x; |l| >= 2 && (l[1] == ']' <==> items == [])
    ensures items == [] ==> (Print(Array(items)) + x)[2..] == x
    ensures items != [] ==> (Print(Array(items)) + x)[1..] == Print(items[0]) + (PrintItems(items[1..]) + x)
  {
    if items != [] {
      assert items[0] in items && Textual(items[0]);
      PrintLead(items[0]);
      Regroup("[", Print(items[0]), PrintItems(items[1..]), x);
    }
  }

  lemma {:induction false} ArraysDecode(items: seq<Value>, others: seq<Value>, x: string, y: string)
    requires Textual(Array(items)) && Textual(Array(others))
    requires Print(Array(items)) + x == Print(Array(others)) + y
    ensures items == others && x == y
    decreases items, 1
  {
    ArrayLead(items, x);
    ArrayLead(others, y);
    if items != [] {
      ItemsLead(items[1..], x);
      ItemsLead(others[1..], y);
      ValueDecodes(items[0], others[0], PrintItems(items[1..]) + x, PrintItems(others[1..]) + y);
      ItemsDecode(items[1..], others[1..], x, y);
      assert items == [items[0]] + items[1..] && others == [others[0]] + others[1..];
    }
  }

  lemma ItemsLead(items: seq<Value>, x: string)
    ensures var l := PrintItems(items) + x; l != "" && Delimiter(l[0]) && (l[0] == ']' <==> items == [])
    ensures items == [] ==> (PrintItems(items) + x)[1..] == x
    ensures |PrintItems(items) + x| >= 2 || items == []
    ensures items != [] ==> (PrintItems(items) + x)[2..] == Print(items[0]) + (PrintItems(items[1..]) + x)
  {
    if items != [] {
      Regroup(", ", Print(items[0]), PrintItems(items[1..]), x);
    }
  }

  lemma {:induction false} ItemsDecode(items: seq<Value>, others: seq<Value>, x: string, y: string)
    requires (forall v | v in items :: Textual(v)) && (forall v | v in others :: Textual(v))
    requires PrintItems(items) + x == PrintItems(others) + y
    ensures items == others && x == y
    decreases items, 0
  {
    ItemsLead(items, x);
    ItemsLead(others, y);
    if items != [] {
      ItemsLead(items[1..], x);
      ItemsLead(others[1..], y);
      ValueDecodes(items[0], others[0], PrintItems(items[1..]) + x, PrintItems(others[1..]) + y);
      ItemsDecode(items[1..], others[1..], x, y);
      assert items == [items[0]] + items[1..] && others == [others[0]] + others[1..];
    }
  }

  ghost predicate TextualFields(fields: seq<(Text, Value)>) {
    forall field | field in fields :: Clean(field.0) && Textual(field.1)
  }

  lemma {:induction false} FieldDecodes(f: (Text, Value), g: (Text, Value), x: string, y: string)
    requires Clean(f.0) && Textual(f.1) && Clean(g.0) && Textual(g.1)
    requires Ends(x) && Ends(y) && PrintField(f) + x == PrintField(g) + y
    ensures f == g && x == y
    decreases f, 0
  {
    FieldRegroup(f, x);
    FieldRegroup(g, y);
    QuoteDecodes(f.0, g.0, ": " + (Print(f.1) + x), ": " + (Print(g.1) + y));
    assert Print(f.1) + x == (": " + (Print(f.1) + x))[2..] && Print(g.1) + y == (": " + (Print(g.1) + y))[2..];
    ValueDecodes(f.1, g.1, x, y);
  }

  lemma FieldRegroup(f: (Text, Value), x: string)
    ensures PrintField(f) + x == Quote(f.0) + (": " + (Print(f.1) + x))
    ensures PrintField(f) != "" && PrintField(f)[0] == '\"'
  {
  }

  lemma ObjectLead(fields: seq<(Text, Value)>, x: string)
    ensures var l := Print(Object(fields)) + x; |l| >= 2 && (l[1] == '}' <==> fields == [])
    ensures fields == [] ==> (Print(Object(fields)) + x)[2..] == x
    ensures fields != [] ==> (Print(Object(fields)) + x)[1..] == PrintField(fields[0]) + (PrintFields(fields[1..]) + x)
  {
    if fields != [] {
      FieldRegroup(fields[0], PrintFields(fields[1..]) + x);
      Regroup("{", PrintField(fields[0]), PrintFields(fields[1..]), x);
    }
  }

  lemma FieldsLead(fields: seq<(Text, Value)>, x: string)
    ensures var l := PrintFields(fields) + x; l != "" && Delimiter(l[0]) && (l[0] == '}' <==> fields == [])
    ensures fields == [] ==> (PrintFields(fields) + x)[1..] == x
    ensures |PrintFields(fields) + x| >= 2 || fields == []
    ensures fields != [] ==> (PrintFields(fields) + x)[2..] == PrintField(fields[0]) + (PrintFields(fields[1..]) + x)
  {
    if fields != [] {
      Regroup(", ", PrintField(fields[0]), PrintFields(fields[1..]), x);
    }
  }

  lemma {:induction false} ObjectsDecode(fields: seq<(Text, Value)>, others: seq<(Text, Value)>, x: string, y: string)
    requires TextualFields(fields) && TextualFields(others)
    requires Print(Object(fields)) + x == Print(Object(others)) + y
    ensures fields == others && x == y
    decreases fields, 2
  {
    ObjectLead(fields, x);
    ObjectLead(others, y);
    if fields != [] {
      FieldsLead(fields[1..], x);
      FieldsLead(others[1..], y);
      FieldDecodes(fields[0], others[0], PrintFields(fields[1..]) + x, PrintFields(others[1..]) + y);
      FieldsDecode(fields[1..], others[1..], x, y);
      assert fields == [fields[0]] + fields[1..] && others == [others[0]] + others[1..];
    }
  }

  lemma {:induction false} FieldsDecode(fields: seq<(Text, Value)>, others: seq<(Text, Value)>, x: string, y: string)
    requires TextualFields(fields) && TextualFields(others)
    requires PrintFields(fields) + x == PrintFields(others) + y
    ensures fields == others && x == y
    decreases fields, 1
  {
    FieldsLead(fields, x);
    FieldsLead(others, y);
    if fields != [] {
      FieldsLead(fields[1..], x);
      FieldsLead(others[1..], y);
      FieldDecodes(fields[0], others[0], PrintFields(fields[1..]) + x, PrintFields(others[1..]) + y);
      FieldsDecode(fields[1..], others[1..], x, y);
      assert fields == [fields[0]] + fields[1..] && others == [others[0]] + others[1..];
    }
  }

  /* ---------- fusing surrogate pairs ---------- */

  lemma {:induction false} FuseIsClean(s: Text)
    ensures Clean(Fuse(s))
    ensures s == [] <==> Fuse(s) == []
    ensures s != [] ==> (Low(Fuse(s)[0]) ==> Low(s[0]))
  {
    if s != [] {
      var rest := if |s| >= 2 && High(s[0]) && Low(s[1]) then s[2..] else s[1..];
      FuseIsClean(rest);
      var f := Fuse(s);
      assert f[1..] == Fuse(rest);
      forall i | 0 <= i < |f| - 1 ensures !(High(f[i]) && Low(f[i + 1])) {
        if i > 0 {
          assert f[i] == Fuse(rest)[i - 1] && f[i + 1] == Fuse(rest)[i];
        }
      }
    }
  }

  lemma {:induction false} FuseKeepsUnits(s: Text)
    ensures Units(Fuse(s)) == Units(s)
  {
    if |s| >= 2 && High(s[0]) && Low(s[1]) {
      FuseKeepsUnits(s[2..]);
      assert s[1..][0] == s[1] && s[1..][1..] == s[2..];
      JoinUnits(s[0], s[1]);
      assert Units(s) == [s[0] as Unit] + ([s[1] as Unit] + Units(s[2..]));
    } else if s != [] {
      FuseKeepsUnits(s[1..]);
    }
  }

  lemma JoinUnits(high: CodePoint, low: CodePoint)
    requires High(high) && Low(low)
    ensures UnitsOf(Join(high, low)) == [high as Unit, low as Unit]
  {
    var h, l := high as int - 0xD800, low as int - 0xDC00;
    assert (h * 0x400 + l) / 0x400 == h && (h * 0x400 + l) % 0x400 == l;
  }

  lemma {:induction false} FuseOfClean(s: Text)
    requires Clean(s)
    ensures Fuse(s) == s
  {
    if s != [] {
      assert |s| >= 2 ==> !(High(s[0]) && Low(s[0 + 1]));
      FuseOfClean(s[1..]);
    }
  }

  /** Printing a value and printing its fused form give the same text. */
  lemma {:induction false} FuseKeepsPrint(v: Value)
    ensures Print(FuseAll(v)) == Print(v)
    decreases v, 1
  {
    match v
    case Str(s) => FuseKeepsUnits(s);
    case Array(items) =>
      if items != [] {
        FuseKeepsPrint(items[0]);
        FuseKeepsItems(items[1..]);
        assert FuseItems(items)[1..] == FuseItems(items[1..]);
      }
    case Object(fields) =>
      if fields != [] {
        FuseKeepsField(fields[0]);
        FuseKeepsFields(fields[1..]);
        assert FuseFields(fields)[1..] == FuseFields(fields[1..]);
      }
    case _ =>
  }

  lemma {:induction false} FuseKeepsItems(items: seq<Value>)
    ensures PrintItems(FuseItems(items)) == PrintItems(items)
    decreases items, 0
  {
    if items != [] {
      FuseKeepsPrint(items[0]);
      FuseKeepsItems(items[1..]);
      assert FuseItems(items)[1..] == FuseItems(items[1..]);
    }
  }

  lemma {:induction false} FuseKeepsField(field: (Text, Value))
    ensures PrintField(FuseField(field)) == PrintField(field)
    decreases field, 0
  {
    FuseKeepsUnits(field.0);
    FuseKeepsPrint(field.1);
  }

  lemma {:induction false} FuseKeepsFields(fields: seq<(Text, Value)>)
    ensures PrintFields(FuseFields(fields)) == PrintFields(fields)
    decreases fields, 1
  {
    if fields != [] {
      FuseKeepsField(fields[0]);
      FuseKeepsFields(fields[1..]);
      assert FuseFields(fields)[1..] == FuseFields(fields[1..]);
    }
  }

  lemma {:induction false} FuseIsTextual(v: Value)
    requires Parsed(v)
    ensures Textual(FuseAll(v))
  {
    match v
    case Str(s) => FuseIsClean(s);
    case Array(items) =>
      forall i | 0 <= i < |items| ensures Textual(FuseItems(items)[i]) {
        assert items[i] in items;
        FuseIsTextual(items[i]);
      }
    case Object(fields) =>
      forall i | 0 <= i < |fields| ensures Clean(FuseFields(fields)[i].0) && Textual(FuseFields(fields)[i].1) {
        assert fields[i] in fields;
        FuseIsClean(fields[i].0);
        FuseIsTextual(fields[i].1);
      }
    case _ =>
  }

  lemma {:induction false} FuseOfTextual(v: Value)
    requires Textual(v)
    ensures FuseAll(v) == v
  {
    match v
    case Str(s) => FuseOfClean(s);
    case Array(items) =>
      forall i | 0 <= i < |items| ensures FuseItems(items)[i] == items[i] {
        assert items[i] in items;
        FuseOfTextual(items[i]);
      }
      assert FuseItems(items) == items;
    case Object(fields) =>
      forall i | 0 <= i < |fields| ensures FuseFields(fields)[i] == fields[i] {
        assert fields[i] in fields;
        FuseOfClean(fields[i].0);
        FuseOfTextual(fields[i].1);
      }
      assert FuseFields(fields) == fields;
    case _ =>
  }

  /** Two values print the same text exactly when they fuse to the same value:
      a JSON text says everything about its value but how a pair of surrogates
      was split. */
  lemma PrintDecides(a: Value, b: Value)
    requires Parsed(a) && Parsed(b)
    ensures Print(a) == Print(b) <==> FuseAll(a) == FuseAll(b)
  {
    FuseKeepsPrint(a);
    FuseKeepsPrint(b);
    if Print(a) == Print(b) {
      var f, g := FuseAll(a), FuseAll(b);
      FuseIsTextual(a);
      FuseIsTextual(b);
      assert Print(f) + "" == Print(f) && Print(g) + "" == Print(g);
      ValueDecodes(f, g, "", "");
    }
  }
}
