/** The cache key of a request: SHA-256 of its JSON text with sorted keys. The
    digest is taken to be free of collisions, so the text stands for it. */
module CacheKeys {
  import opened Prelude
  import opened Json
  import opened JsonDecoding
  import opened JsonReading

  type Field = (Text, Value)

  /* ---------- json.dumps(..., sort_keys=True) ---------- */

  /** Python's `<` on strings: lexicographic by code point. */
  predicate Before(a: Text, b: Text) {
    b != [] && (a == [] || a[0] < b[0] || (a[0] == b[0] && Before(a[1..], b[1..])))
  }

  function Insert(field: Field, sorted: seq<Field>): seq<Field> {
    if sorted == [] || Before(field.0, sorted[0].0) then [field] + sorted
    else [sorted[0]] + Insert(field, sorted[1..])
  }

  function SortFields(fields: seq<Field>): seq<Field> {
    if fields == [] then [] else Insert(fields[0], SortFields(fields[1..]))
  }

  /** The value with the keys of every object, at every depth, in sorted order. */
  function Canon(v: Value): Value
    decreases v, 1
  {
    match v
    case Array(items) => Array(CanonItems(items))
    case Object(fields) => Object(SortFields(CanonFields(fields)))
    case _ => v
  }

  function CanonItems(items: seq<Value>): (r: seq<Value>)
    ensures |r| == |items| && forall i | 0 <= i < |items| :: r[i] == Canon(items[i])
    decreases items, 0
  {
    if items == [] then [] else [Canon(items[0])] + CanonItems(items[1..])
  }

  function CanonField(field: Field): Field
    decreases field, 0
  {
    (field.0, Canon(field.1))
  }

  function CanonFields(fields: seq<Field>): (r: seq<Field>)
    ensures |r| == |fields| && forall i | 0 <= i < |fields| :: r[i] == CanonField(fields[i])
    decreases fields, 0
  {
    if fields == [] then [] else [CanonField(fields[0])] + CanonFields(fields[1..])
  }

  /* ---------- equality of JSON values ---------- */

  ghost function KeySet(fields: seq<Field>): set<Text> {
    set field | field in fields :: field.0
  }

  /** Equal as JSON values: objects are unordered collections of members. */
  ghost predicate Equal(a: Value, b: Value)
    decreases a
  {
    match a
    case Array(items) =>
      b.Array? && |items| == |b.items| && forall i | 0 <= i < |items| :: Equal(items[i], b.items[i])
    case Object(fields) =>
      && b.Object?
      && KeySet(fields) == KeySet(b.fields)
      && forall i, j | 0 <= i < |fields| && 0 <= j < |b.fields| && fields[i].0 == b.fields[j].0 ::
        Equal(fields[i].1, b.fields[j].1)
    case _ => a == b
  }

  /* ---------- sorting ---------- */

  ghost predicate Sorted(fields: seq<Field>) {
    forall i, j | 0 <= i < j < |fields| :: Before(fields[i].0, fields[j].0)
  }

  /** The texts agree up to position `n`, where `a` ends or has the smaller code point. */
  predicate FirstDifference(a: Text, b: Text, n: nat) {
    n <= |a| && n < |b| && a[..n] == b[..n] && (n == |a| || a[n] < b[n])
  }

  lemma {:induction false} BeforeIsLexicographic(a: Text, b: Text)
    ensures Before(a, b) <==> exists n: nat :: FirstDifference(a, b, n)
  {
    if a != [] && b != [] {
      BeforeIsLexicographic(a[1..], b[1..]);
    }
    if Before(a, b) {
      if a == [] || a[0] < b[0] {
        assert FirstDifference(a, b, 0);
      } else {
        var n: nat :| FirstDifference(a[1..], b[1..], n);
        OneLater(a, b, n);
      }
    }
    if n: nat :| FirstDifference(a, b, n) {
      if n > 0 {
        FirstAgrees(a, b, n);
        OneEarlier(a, b, n);
      }
    }
  }

  lemma FirstAgrees(a: Text, b: Text, n: nat)
    requires 0 < n <= |a| && n <= |b| && a[..n] == b[..n]
    ensures a[0] == b[0]
  {
    assert a[..n][0] == a[0] && b[..n][0] == b[0];
  }

  lemma OneLater(a: Text, b: Text, n: nat)
    requires a != [] && b != [] && a[0] == b[0] && FirstDifference(a[1..], b[1..], n)
    ensures FirstDifference(a, b, n + 1)
  {
    assert a[..n + 1] == [a[0]] + a[1..][..n] && b[..n + 1] == [b[0]] + b[1..][..n];
  }

  lemma OneEarlier(a: Text, b: Text, n: nat)
    requires a != [] && b != [] && a[0] == b[0] && FirstDifference(a, b, n)
    ensures n > 0 && FirstDifference(a[1..], b[1..], n - 1)
  {
    assert a[1..][..n - 1] == a[..n][1..] && b[1..][..n - 1] == b[..n][1..];
  }

  lemma {:induction false} BeforeIsTotal(a: Text, b: Text)
    ensures !Before(a, a)
    ensures a != b ==> Before(a, b) || Before(b, a)
    ensures !(Before(a, b) && Before(b, a))
  {
    if a != [] {
      BeforeIsTotal(a[1..], if b == [] then [] else b[1..]);
      if b != [] && a[0] == b[0] && a[1..] == b[1..] {
        assert a == [a[0]] + a[1..] && b == [b[0]] + b[1..];
      }
    }
  }

  lemma {:induction false} BeforeIsTransitive(a: Text, b: Text, c: Text)
    requires Before(a, b) && Before(b, c)
    ensures Before(a, c)
  {
    if a != [] && a[0] == b[0] && b[0] == c[0] {
      BeforeIsTransitive(a[1..], b[1..], c[1..]);
    }
  }

  lemma {:induction false} InsertKeeps(field: Field, sorted: seq<Field>)
    ensures |Insert(field, sorted)| == |sorted| + 1
    ensures forall f :: f in Insert(field, sorted) <==> f == field || f in sorted
  {
    if sorted != [] && !Before(field.0, sorted[0].0) {
      InsertKeeps(field, sorted[1..]);
      assert sorted == [sorted[0]] + sorted[1..];
    }
  }

  lemma {:induction false} InsertSorts(field: Field, sorted: seq<Field>)
    requires Sorted(sorted) && forall f | f in sorted :: f.0 != field.0
    ensures Sorted(Insert(field, sorted))
  {
    if sorted != [] {
      BeforeIsTotal(field.0, sorted[0].0);
      if Before(field.0, sorted[0].0) {
        forall j | 0 <= j < |sorted| ensures Before(field.0, sorted[j].0) {
          if j > 0 {
            BeforeIsTransitive(field.0, sorted[0].0, sorted[j].0);
          }
        }
      } else {
        var rest := Insert(field, sorted[1..]);
        InsertSorts(field, sorted[1..]);
        InsertKeeps(field, sorted[1..]);
        forall j | 0 <= j < |rest| ensures Before(sorted[0].0, rest[j].0) {
          assert rest[j] in rest;
        }
      }
    }
  }

  lemma {:induction false} SortFieldsSorts(fields: seq<Field>)
    ensures |SortFields(fields)| == |fields|
    ensures forall f :: f in SortFields(fields) <==> f in fields
    ensures DistinctKeys(fields) ==> Sorted(SortFields(fields))
  {
    if fields != [] {
      SortFieldsSorts(fields[1..]);
      InsertKeeps(fields[0], SortFields(fields[1..]));
      assert fields == [fields[0]] + fields[1..];
      if DistinctKeys(fields) {
        forall f | f in SortFields(fields[1..]) ensures f.0 != fields[0].0 {
          assert f in fields[1..];
        }
        InsertSorts(fields[0], SortFields(fields[1..]));
      }
    }
  }

  /** In a sorted list a key occurs once. */
  lemma SortedKeysDiffer(fields: seq<Field>, f: Field, g: Field)
    requires Sorted(fields) && f in fields && g in fields && f.0 == g.0
    ensures f == g
  {
    var i :| 0 <= i < |fields| && fields[i] == f;
    var j :| 0 <= j < |fields| && fields[j] == g;
    BeforeIsTotal(f.0, g.0);
    assert i == j;
  }

  lemma {:induction false} SortedIsUnique(a: seq<Field>, b: seq<Field>)
    requires Sorted(a) && Sorted(b) && |a| == |b|
    requires forall f :: f in a <==> f in b
    ensures a == b
  {
    if a != [] {
      FirstIsLeast(a, b);
      FirstIsLeast(b, a);
      BeforeIsTotal(a[0].0, b[0].0);
      assert a[0] == b[0];
      forall f ensures f in a[1..] <==> f in b[1..] {
        RestExcludesFirst(a, f);
        RestExcludesFirst(b, f);
      }
      SortedIsUnique(a[1..], b[1..]);
      assert a == [a[0]] + a[1..] && b == [b[0]] + b[1..];
    }
  }

  lemma FirstIsLeast(a: seq<Field>, b: seq<Field>)
    requires Sorted(a) && a != [] && b != [] && forall f :: f in b ==> f in a
    ensures a[0] == b[0] || Before(a[0].0, b[0].0)
  {
    assert b[0] in a;
  }

  lemma RestExcludesFirst(a: seq<Field>, f: Field)
    requires Sorted(a) && a != []
    ensures f in a[1..] <==> f in a && f != a[0]
  {
    assert a == [a[0]] + a[1..];
    BeforeIsTotal(f.0, f.0);
    if f in a[1..] {
      var i :| 0 <= i < |a[1..]| && a[1..][i] == f;
      assert Before(a[0].0, a[i + 1].0);
    }
  }

  /* ---------- sorted objects decide equality ---------- */

  lemma CanonFieldsKeys(fields: seq<Field>)
    ensures DistinctKeys(fields) ==> DistinctKeys(CanonFields(fields))
    ensures KeySet(CanonFields(fields)) == KeySet(fields)
  {
    var canon := CanonFields(fields);
    forall key ensures key in KeySet(canon) <==> key in KeySet(fields) {
      if key in KeySet(canon) {
        var i :| 0 <= i < |canon| && canon[i].0 == key;
        assert fields[i] in fields;
      }
      if key in KeySet(fields) {
        var i :| 0 <= i < |fields| && fields[i].0 == key;
        assert canon[i] in canon;
      }
    }
  }

  lemma {:induction false} CanonParsed(v: Value)
    requires Parsed(v)
    ensures Parsed(Canon(v))
  {
    match v
    case Array(items) =>
      forall item | item in items ensures Parsed(Canon(item)) {
        CanonParsed(item);
      }
    case Object(fields) =>
      var canon := CanonFields(fields);
      forall i | 0 <= i < |fields| ensures Parsed(canon[i].1) {
        assert fields[i] in fields;
        CanonParsed(fields[i].1);
      }
      CanonFieldsKeys(fields);
      SortFieldsSorts(canon);
      SortedIsDistinct(SortFields(canon));
    case _ =>
  }

  lemma SortedIsDistinct(fields: seq<Field>)
    requires Sorted(fields)
    ensures DistinctKeys(fields)
  {
    forall i, j | 0 <= i < j < |fields| ensures fields[i].0 != fields[j].0 {
      BeforeIsTotal(fields[i].0, fields[j].0);
    }
  }

  lemma SameSortedFields(f: seq<Field>, g: seq<Field>)
    requires DistinctKeys(f) && DistinctKeys(g)
    ensures SortFields(f) == SortFields(g) <==>
            KeySet(f) == KeySet(g) && forall i, j | 0 <= i < |f| && 0 <= j < |g| && f[i].0 == g[j].0 :: f[i] == g[j]
  {
    SortFieldsSorts(f);
    SortFieldsSorts(g);
    if SortFields(f) == SortFields(g) {
      forall i, j | 0 <= i < |f| && 0 <= j < |g| && f[i].0 == g[j].0 ensures f[i] == g[j] {
        assert f[i] in f && g[j] in g;
        SortedKeysDiffer(SortFields(f), f[i], g[j]);
      }
      assert forall field :: field in f <==> field in g;
    } else if KeySet(f) == KeySet(g) && forall i, j | 0 <= i < |f| && 0 <= j < |g| && f[i].0 == g[j].0 :: f[i] == g[j] {
      SameElements(f, g);
      SameElements(g, f);
      DistinctLength(f);
      DistinctLength(g);
      SortedIsUnique(SortFields(f), SortFields(g));
    }
  }

  lemma SameElements(f: seq<Field>, g: seq<Field>)
    requires KeySet(f) <= KeySet(g)
    requires forall i, j | 0 <= i < |f| && 0 <= j < |g| && f[i].0 == g[j].0 :: f[i] == g[j]
    ensures forall field | field in f :: field in g
  {
    forall field | field in f ensures field in g {
      assert field.0 in KeySet(g);
      var other :| other in g && other.0 == field.0;
    }
  }

  lemma {:induction false} DistinctLength(f: seq<Field>)
    requires DistinctKeys(f)
    ensures |KeySet(f)| == |f|
  {
    if f == [] {
      assert KeySet(f) == {};
    } else {
      var rest := f[1..];
      DistinctLength(rest);
      assert f == [f[0]] + rest;
      assert KeySet(f) == KeySet(rest) + {f[0].0};
      assert f[0].0 !in KeySet(rest);
    }
  }

  /** Sorting keys at every depth makes two values identical exactly when they
      are equal as JSON values. */
  lemma {:induction false} CanonDecides(a: Value, b: Value)
    requires Parsed(a) && Parsed(b)
    ensures Canon(a) == Canon(b) <==> Equal(a, b)
    decreases a
  {
    match a
    case Array(items) =>
      if b.Array? && |b.items| == |items| {
        forall i | 0 <= i < |items| ensures Canon(items[i]) == Canon(b.items[i]) <==> Equal(items[i], b.items[i]) {
          CanonDecides(items[i], b.items[i]);
        }
        assert CanonItems(items) == CanonItems(b.items) <==>
               forall i | 0 <= i < |items| :: Canon(items[i]) == Canon(b.items[i]);
      } else if b.Array? {
        assert |CanonItems(items)| != |CanonItems(b.items)|;
      }
    case Object(fields) =>
      if b.Object? {
        var f, g := CanonFields(fields), CanonFields(b.fields);
        forall i, j | 0 <= i < |fields| && 0 <= j < |b.fields|
          ensures Canon(fields[i].1) == Canon(b.fields[j].1) <==> Equal(fields[i].1, b.fields[j].1)
        {
          assert fields[i] in fields && b.fields[j] in b.fields;
          CanonDecides(fields[i].1, b.fields[j].1);
        }
        CanonFieldsKeys(fields);
        CanonFieldsKeys(b.fields);
        SameSortedFields(f, g);
      }
    case _ =>
  }

  /* ---------- sorting and fusing ---------- */

  lemma {:induction false} InsertFused(field: Field, sorted: seq<Field>)
    requires Clean(field.0) && forall f | f in sorted :: Clean(f.0)
    ensures FuseFields(Insert(field, sorted)) == Insert(FuseField(field), FuseFields(sorted))
  {
    FuseOfClean(field.0);
    if sorted != [] {
      FuseOfClean(sorted[0].0);
      assert FuseFields(sorted)[1..] == FuseFields(sorted[1..]);
      if !Before(field.0, sorted[0].0) {
        InsertFused(field, sorted[1..]);
      }
    }
  }

  lemma {:induction false} SortFused(fields: seq<Field>)
    requires forall f | f in fields :: Clean(f.0)
    ensures FuseFields(SortFields(fields)) == SortFields(FuseFields(fields))
  {
    if fields != [] {
      SortFused(fields[1..]);
      SortFieldsSorts(fields[1..]);
      InsertFused(fields[0], SortFields(fields[1..]));
      assert FuseFields(fields)[1..] == FuseFields(fields[1..]);
    }
  }

  lemma {:induction false} CanonFused(v: Value)
    requires CleanKeys(v)
    ensures FuseAll(Canon(v)) == Canon(FuseAll(v))
  {
    match v
    case Array(items) =>
      forall i | 0 <= i < |items| ensures FuseItems(CanonItems(items))[i] == CanonItems(FuseItems(items))[i] {
        assert items[i] in items;
        CanonFused(items[i]);
      }
      assert FuseItems(CanonItems(items)) == CanonItems(FuseItems(items));
    case Object(fields) =>
      var canon := CanonFields(fields);
      forall i | 0 <= i < |fields|
        ensures Clean(canon[i].0) && FuseFields(canon)[i] == CanonFields(FuseFields(fields))[i]
      {
        assert fields[i] in fields;
        CanonFused(fields[i].1);
      }
      assert FuseFields(canon) == CanonFields(FuseFields(fields));
      SortFused(canon);
    case _ =>
  }

  lemma {:induction false} FusedParsed(v: Value)
    requires Parsed(v) && CleanKeys(v)
    ensures Parsed(FuseAll(v)) && CleanKeys(FuseAll(v))
  {
    match v
    case Array(items) =>
      forall i | 0 <= i < |items| ensures Parsed(FuseItems(items)[i]) && CleanKeys(FuseItems(items)[i]) {
        assert items[i] in items;
        FusedParsed(items[i]);
      }
    case Object(fields) =>
      var fused := FuseFields(fields);
      forall i | 0 <= i < |fields| ensures fused[i].0 == fields[i].0 && Clean(fused[i].0) {
        assert fields[i] in fields;
        FuseOfClean(fields[i].0);
      }
      forall i | 0 <= i < |fields| ensures Parsed(fused[i].1) && CleanKeys(fused[i].1) {
        assert fields[i] in fields;
        FusedParsed(fields[i].1);
      }
    case _ =>
  }

  /** Strings that fuse to the same string are those with the same UTF-16 units. */
  lemma FuseDecidesUnits(s: Text, t: Text)
    ensures Fuse(s) == Fuse(t) <==> Units(s) == Units(t)
  {
    FuseKeepsUnits(s);
    FuseKeepsUnits(t);
    if Units(s) == Units(t) {
      FuseIsClean(s);
      FuseIsClean(t);
      UnitsInjective(Fuse(s), Fuse(t));
    }
  }

  /* ---------- the key of a request ---------- */

  datatype Request = Request(model: Text, input: Text, config: Option<seq<Field>>)

  /** ASCII literals as code points. */
  const MODEL: Text := [0x6D, 0x6F, 0x64, 0x65, 0x6C]
  const INPUT: Text := [0x69, 0x6E, 0x70, 0x75, 0x74]
  const CONFIG: Text := [0x63, 0x6F, 0x6E, 0x66, 0x69, 0x67]

  function ConfigValue(config: Option<seq<Field>>): Value {
    match config
    case None => Null
    case Some(fields) => Object(fields)
  }

  function Payload(req: Request): Value {
    Object([(MODEL, Str(req.model)), (INPUT, Str(req.input)), (CONFIG, ConfigValue(req.config))])
  }

  function MakeKey(req: Request): string {
    "cache:" + Print(Canon(Payload(req)))
  }

  /** What every request read from a JSON body satisfies. */
  predicate Received(req: Request) {
    Parsed(ConfigValue(req.config))
  }

  /** Valid Unicode throughout; or at least no split surrogate pair. */
  predicate Unicode(req: Request) {
    Clean(req.model) && Clean(req.input) && Textual(ConfigValue(req.config))
  }

  ghost predicate SameRequest(r: Request, s: Request) {
    r.model == s.model && r.input == s.input && Equal(ConfigValue(r.config), ConfigValue(s.config))
  }

  /** The request with every surrogate pair replaced by its character. */
  function Fused(req: Request): Request {
    Request(Fuse(req.model), Fuse(req.input), match req.config case None => None case Some(fs) => Some(FuseFields(fs)))
  }

  /** Equal once keys are sorted and surrogate pairs are fused. */
  predicate SameText(r: Request, s: Request) {
    FuseAll(Canon(Payload(r))) == FuseAll(Canon(Payload(s)))
  }

  lemma NamesDiffer()
    ensures MODEL != INPUT && MODEL != CONFIG && INPUT != CONFIG
    ensures Clean(MODEL) && Clean(INPUT) && Clean(CONFIG)
  {
    assert MODEL[0] == 0x6D && INPUT[0] == 0x69 && CONFIG[0] == 0x63;
  }

  lemma PayloadParsed(req: Request)
    requires Received(req)
    ensures Parsed(Payload(req))
  {
    NamesDiffer();
  }

  lemma ConfigFused(req: Request)
    ensures FuseAll(ConfigValue(req.config)) == ConfigValue(Fused(req).config)
  {
  }

  lemma NamedFused(name: Text, v: Value)
    requires Clean(name)
    ensures FuseField((name, v)) == (name, FuseAll(v))
  {
    FuseOfClean(name);
  }

  lemma FuseThree(f: seq<Field>, g: seq<Field>)
    requires |f| == |g| == 3 && FuseField(f[0]) == g[0] && FuseField(f[1]) == g[1] && FuseField(f[2]) == g[2]
    ensures FuseFields(f) == g
  {
  }

  lemma PayloadFused(req: Request)
    ensures FuseAll(Payload(req)) == Payload(Fused(req))
  {
    var f, g := Payload(req).fields, Payload(Fused(req)).fields;
    NamesDiffer();
    ConfigFused(req);
    NamedFused(MODEL, Str(req.model));
    NamedFused(INPUT, Str(req.input));
    NamedFused(CONFIG, ConfigValue(req.config));
    FuseThree(f, g);
  }

  lemma PayloadsEqual(r: Request, s: Request)
    ensures Equal(Payload(r), Payload(s)) <==> SameRequest(r, s)
  {
    NamesDiffer();
    var f, g := Payload(r).fields, Payload(s).fields;
    forall key ensures key in KeySet(f) <==> key in KeySet(g) {
      assert f[0] in f && f[1] in f && f[2] in f && g[0] in g && g[1] in g && g[2] in g;
    }
    assert KeySet(f) == KeySet(g);
    if Equal(Payload(r), Payload(s)) {
      assert f[0].0 == g[0].0 && f[1].0 == g[1].0 && f[2].0 == g[2].0;
      assert Equal(f[0].1, g[0].1) && Equal(f[1].1, g[1].1) && Equal(f[2].1, g[2].1);
    }
  }

  /** Any two requests share a cache key exactly when their sorted payloads
      fuse to the same value. */
  lemma KeyDecides(r: Request, s: Request)
    requires Received(r) && Received(s)
    ensures MakeKey(r) == MakeKey(s) <==> SameText(r, s)
  {
    var a, b := Canon(Payload(r)), Canon(Payload(s));
    PayloadParsed(r);
    PayloadParsed(s);
    CanonParsed(Payload(r));
    CanonParsed(Payload(s));
    PrintDecides(a, b);
    if MakeKey(r) == MakeKey(s) {
      assert Print(a) == MakeKey(r)[6..] && Print(b) == MakeKey(s)[6..];
    }
  }

  lemma FusedSortedElements(fields: seq<Field>)
    ensures forall g | g in fields :: FuseField(g) in FuseFields(SortFields(fields))
    ensures forall f | f in FuseFields(SortFields(fields)) :: exists g | g in fields :: f == FuseField(g)
  {
    var sorted := SortFields(fields);
    SortFieldsSorts(fields);
    forall g | g in fields ensures FuseField(g) in FuseFields(sorted) {
      var i :| 0 <= i < |sorted| && sorted[i] == g;
      assert FuseFields(sorted)[i] == FuseField(g);
    }
    forall f | f in FuseFields(sorted) ensures exists g | g in fields :: f == FuseField(g) {
      var i :| 0 <= i < |sorted| && FuseFields(sorted)[i] == f;
      assert sorted[i] in fields;
    }
  }

  lemma CanonPayload(req: Request)
    ensures CanonFields(Payload(req).fields) ==
            [(MODEL, Str(req.model)), (INPUT, Str(req.input)), (CONFIG, Canon(ConfigValue(req.config)))]
  {
    var fields := Payload(req).fields;
    assert CanonField(fields[0]) == fields[0] && CanonField(fields[1]) == fields[1];
  }

  /** The fused, sorted payload has the fused model, and only it, as its model. */
  lemma ModelOfText(req: Request)
    ensures var fields := FuseFields(SortFields(CanonFields(Payload(req).fields)));
            && (MODEL, Str(Fuse(req.model))) in fields
            && forall f | f in fields && f.0 == MODEL :: f == (MODEL, Str(Fuse(req.model)))
  {
    NamesDiffer();
    CanonPayload(req);
    FusedSortedElements([(MODEL, Str(req.model)), (INPUT, Str(req.input)), (CONFIG, Canon(ConfigValue(req.config)))]);
    NamedFused(MODEL, Str(req.model));
    NamedFused(INPUT, Str(req.input));
    NamedFused(CONFIG, Canon(ConfigValue(req.config)));
  }

  /** Requests with the same text have the same model, surrogate pairs fused. */
  lemma SameTextSameModel(r: Request, s: Request)
    requires SameText(r, s)
    ensures Fuse(r.model) == Fuse(s.model)
  {
    ModelOfText(r);
    ModelOfText(s);
  }

  lemma FusedPayload(req: Request)
    requires Received(req) && CleanKeys(ConfigValue(req.config))
    ensures FuseAll(Canon(Payload(req))) == Canon(Payload(Fused(req))) && Parsed(Payload(Fused(req)))
  {
    NamesDiffer();
    PayloadParsed(req);
    CanonFused(Payload(req));
    FusedParsed(Payload(req));
    PayloadFused(req);
  }

  /** Canonicity: two requests whose object keys are clean share a cache key
      exactly when, surrogate pairs fused, they agree in model and input and
      their configs are equal as JSON values up to key order at every depth. */
  lemma KeyIsCanonical(r: Request, s: Request)
    requires Received(r) && CleanKeys(ConfigValue(r.config))
    requires Received(s) && CleanKeys(ConfigValue(s.config))
    ensures MakeKey(r) == MakeKey(s) <==> SameRequest(Fused(r), Fused(s))
  {
    KeyDecides(r, s);
    FusedPayload(r);
    FusedPayload(s);
    CanonDecides(Payload(Fused(r)), Payload(Fused(s)));
    PayloadsEqual(Fused(r), Fused(s));
  }

  lemma {:induction false} TextualKeys(v: Value)
    requires Textual(v)
    ensures CleanKeys(v)
  {
    match v
    case Array(items) =>
      forall item | item in items ensures CleanKeys(item) {
        TextualKeys(item);
      }
    case Object(fields) =>
      forall field | field in fields ensures CleanKeys(field.1) {
        TextualKeys(field.1);
      }
    case _ =>
  }

  lemma UnicodeIsFused(req: Request)
    requires Unicode(req)
    ensures Fused(req) == req && CleanKeys(ConfigValue(req.config))
  {
    FuseOfClean(req.model);
    FuseOfClean(req.input);
    FuseOfTextual(ConfigValue(req.config));
    TextualKeys(ConfigValue(req.config));
  }

  /** On valid Unicode the key is exact: model, input and config as JSON value. */
  lemma KeyIsExactInUnicode(r: Request, s: Request)
    requires Received(r) && Unicode(r) && Received(s) && Unicode(s)
    ensures MakeKey(r) == MakeKey(s) <==> SameRequest(r, s)
  {
    UnicodeIsFused(r);
    UnicodeIsFused(s);
    KeyIsCanonical(r, s);
  }

  /** With clean configs the key separates model and input up to their units. */
  lemma KeySeparatesUnits(r: Request, s: Request)
    requires Received(r) && Textual(ConfigValue(r.config)) && Received(s) && Textual(ConfigValue(s.config))
    ensures MakeKey(r) == MakeKey(s) <==>
            && Units(r.model) == Units(s.model) && Units(r.input) == Units(s.input)
            && Equal(ConfigValue(r.config), ConfigValue(s.config))
  {
    FuseOfTextual(ConfigValue(r.config));
    FuseOfTextual(ConfigValue(s.config));
    TextualKeys(ConfigValue(r.config));
    TextualKeys(ConfigValue(s.config));
    KeyIsCanonical(r, s);
    FuseDecidesUnits(r.model, s.model);
    FuseDecidesUnits(r.input, s.input);
  }

  /** The collision in reach of a client: a config value that holds a character
      as two raw surrogates shares its key with the same config in Unicode. */
  lemma SplitPairCollides(model: Text, input: Text, name: Text) returns (r: Request, s: Request)
    requires Clean(model) && Clean(input) && Clean(name)
    ensures r.model == s.model == model && r.input == s.input == input
    ensures Received(r) && Received(s) && Unicode(s) && !SameRequest(r, s) && MakeKey(r) == MakeKey(s)
  {
    var split, whole := [(name, Str([0xD83D, 0xDE00]))], [(name, Str([0x1F600]))];
    r, s := Request(model, input, Some(split)), Request(model, input, Some(whole));
    UnicodeIsFused(s);
    FuseOfClean(model);
    FuseOfClean(input);
    FuseOfClean(name);
    assert Fuse([0xD83D, 0xDE00]) == [0x1F600];
    assert FuseField(split[0]) == whole[0];
    assert FuseFields(split) == whole;
    assert Fused(r) == s;
    assert split[0].0 == whole[0].0 && !Equal(split[0].1, whole[0].1);
    PayloadsEqual(s, s);
    EqualToItself(s);
    KeyIsCanonical(r, s);
  }

  lemma EqualToItself(req: Request)
    requires Received(req)
    ensures SameRequest(req, req)
  {
    PayloadParsed(req);
    CanonDecides(Payload(req), Payload(req));
    PayloadsEqual(req, req);
  }

  /* ---------- the text of a key ---------- */

  lemma NamesAreSorted()
    ensures Before(CONFIG, INPUT) && Before(CONFIG, MODEL) && Before(INPUT, MODEL)
    ensures !Before(INPUT, CONFIG) && !Before(MODEL, CONFIG) && !Before(MODEL, INPUT)
  {
    assert MODEL[0] == 0x6D && INPUT[0] == 0x69 && CONFIG[0] == 0x63;
  }

  lemma SortPayload(m: Field, i: Field, c: Field)
    requires m.0 == MODEL && i.0 == INPUT && c.0 == CONFIG
    ensures SortFields([m, i, c]) == [c, i, m]
  {
    NamesAreSorted();
    assert [m, i, c][1..] == [i, c] && [i, c][1..] == [c] && [c][1..] == [];
    assert SortFields([c]) == Insert(c, []) == [c];
    assert SortFields([i, c]) == Insert(i, [c]);
    assert Insert(i, [c]) == [c] + Insert(i, []) == [c, i];
    assert Insert(m, [c, i]) == [c] + Insert(m, [i]);
    assert Insert(m, [i]) == [i] + Insert(m, []) == [i, m];
  }

  lemma NamesAsText()
    ensures MODEL == Ascii("model") && INPUT == Ascii("input") && CONFIG == Ascii("config")
  {
  }

  lemma KeyPayload(req: Request)
    requires Received(req)
    ensures var config := Canon(ConfigValue(req.config));
            var v := Object([(CONFIG, config), (INPUT, Str(req.input)), (MODEL, Str(req.model))]);
            Canon(Payload(req)) == v && Parsed(v)
  {
    PayloadParsed(req);
    CanonParsed(Payload(req));
    CanonPayload(req);
    SortPayload((MODEL, Str(req.model)), (INPUT, Str(req.input)), (CONFIG, Canon(ConfigValue(req.config))));
  }

  lemma ThreeFused(config: Value, input: Text, model: Text)
    ensures FuseAll(Object([(CONFIG, config), (INPUT, Str(input)), (MODEL, Str(model))])) ==
            Object([(CONFIG, FuseAll(config)), (INPUT, Str(Fuse(input))), (MODEL, Str(Fuse(model)))])
  {
    var fields := [(CONFIG, config), (INPUT, Str(input)), (MODEL, Str(model))];
    NamesDiffer();
    NamedFused(CONFIG, config);
    NamedFused(INPUT, Str(input));
    NamedFused(MODEL, Str(model));
    assert FuseFields(fields) == [FuseField(fields[0]), FuseField(fields[1]), FuseField(fields[2])];
  }

  lemma AfterKeyPrefix(req: Request)
    ensures MakeKey(req)[..6] == "cache:" && MakeKey(req)[6..] == Print(Canon(Payload(req)))
  {
  }

  /** Behind its prefix a key is a JSON object whose members are, in this order,
      literally "config", "input" and "model", with the values of the request. */
  lemma KeyReads(req: Request)
    requires Received(req)
    ensures MakeKey(req)[..6] == "cache:"
    ensures Read(MakeKey(req)[6..]) ==
            Some(Object([(Ascii("config"), FuseAll(Canon(ConfigValue(req.config)))),
                         (Ascii("input"), Str(Fuse(req.input))),
                         (Ascii("model"), Str(Fuse(req.model)))]))
  {
    AfterKeyPrefix(req);
    KeyPayload(req);
    ReadsBack(Canon(Payload(req)));
    ThreeFused(Canon(ConfigValue(req.config)), req.input, req.model);
    NamesAsText();
  }
}
