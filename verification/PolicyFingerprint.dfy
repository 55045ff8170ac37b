/** The text behind a merge fingerprint (`semantic_policy_merge_fingerprint` in
    backend/src/validation/policy_identity.py): values joined by commas, fields joined by bars. */
module PolicyFingerprint {
  import opened Keys
  import opened Sorting
  import opened PolicyIdentity
  import opened PolicyReconciler

  // ---------- sorted texts ----------

  predicate LexLess(a: string, b: string) {
    b != "" && (a == "" || a[0] < b[0] || (a[0] == b[0] && LexLess(a[1..], b[1..])))
  }

  lemma {:induction false} LexIsTotal(a: string, b: string)
    ensures LexLess(a, b) || LexLess(b, a) || a == b
    ensures !(LexLess(a, b) && LexLess(b, a)) && !LexLess(a, a)
  {
    if a != "" {
      LexIsTotal(a[1..], a[1..]);
      assert a == [a[0]] + a[1..];
      if b != "" {
        LexIsTotal(a[1..], b[1..]);
        assert b == [b[0]] + b[1..];
      }
    }
  }

  lemma {:induction false} LexIsTransitive(a: string, b: string, c: string)
    requires LexLess(a, b) && LexLess(b, c)
    ensures LexLess(a, c)
  {
    if a != "" && a[0] == b[0] == c[0] { LexIsTransitive(a[1..], b[1..], c[1..]); }
  }

  ghost predicate Ascending(s: seq<string>) {
    forall i, j :: 0 <= i < j < |s| ==> LexLess(s[i], s[j])
  }

  function InsertText(x: string, s: seq<string>): seq<string> {
    if s == [] || LexLess(x, s[0]) then [x] + s else [s[0]] + InsertText(x, s[1..])
  }

  /** `sorted` of a set of texts. */
  ghost function SortedTexts(texts: set<string>): seq<string> {
    if texts == {} then []
    else
      var x :| x in texts;
      InsertText(x, SortedTexts(texts - {x}))
  }

  lemma {:induction false} InsertTextSorts(x: string, s: seq<string>)
    requires Ascending(s) && x !in s
    ensures Ascending(InsertText(x, s))
    ensures forall y :: y in InsertText(x, s) <==> y == x || y in s
  {
    if s != [] {
      LexIsTotal(x, s[0]);
      if LexLess(x, s[0]) {
        forall j | 0 <= j < |s| ensures LexLess(x, s[j]) {
          if j > 0 { LexIsTransitive(x, s[0], s[j]); }
        }
      } else {
        var rest := InsertText(x, s[1..]);
        InsertTextSorts(x, s[1..]);
        assert s == [s[0]] + s[1..];
        forall j | 0 <= j < |rest| ensures LexLess(s[0], rest[j]) {
          assert rest[j] in rest;
          if rest[j] != x { assert rest[j] in s[1..]; }
        }
      }
    }
  }

  lemma {:induction false} SortedTextsSorts(texts: set<string>)
    ensures Ascending(SortedTexts(texts))
    ensures forall y :: y in SortedTexts(texts) <==> y in texts
  {
    if texts != {} {
      var x :| x in texts && SortedTexts(texts) == InsertText(x, SortedTexts(texts - {x}));
      SortedTextsSorts(texts - {x});
      InsertTextSorts(x, SortedTexts(texts - {x}));
    }
  }

  /** An ascending list is determined by its members. */
  lemma {:induction false} AscendingUnique(a: seq<string>, b: seq<string>)
    requires Ascending(a) && Ascending(b) && forall x :: x in a <==> x in b
    ensures a == b
  {
    BothEmpty(a, b);
    if a != [] {
      SmallestFirst(a, b);
      forall x ensures x in a[1..] <==> x in b[1..] {
        NotFirst(a, x);
        NotFirst(b, x);
      }
      AscendingUnique(a[1..], b[1..]);
      assert a == [a[0]] + a[1..] && b == [b[0]] + b[1..];
    }
  }

  lemma BothEmpty<T>(a: seq<T>, b: seq<T>)
    requires forall x :: x in a <==> x in b
    ensures a == [] <==> b == []
  {
    if a != [] { assert a[0] in a; }
    if b != [] { assert b[0] in b; }
  }

  lemma SmallestFirst(a: seq<string>, b: seq<string>)
    requires Ascending(a) && Ascending(b) && a != [] && b != [] && forall x :: x in a <==> x in b
    ensures a[0] == b[0]
  {
    assert a[0] in b && b[0] in a;
    var i :| 0 <= i < |b| && b[i] == a[0];
    var j :| 0 <= j < |a| && a[j] == b[0];
    LexIsTotal(a[0], b[0]);
  }

  lemma NotFirst(a: seq<string>, x: string)
    requires Ascending(a) && a != []
    ensures x in a[1..] <==> x in a && x != a[0]
  {
    assert a == [a[0]] + a[1..];
    LexIsTotal(a[0], a[0]);
    if x in a[1..] {
      var i :| 0 <= i < |a[1..]| && a[1..][i] == x;
      assert LexLess(a[0], a[i + 1]);
    }
  }

  // ---------- joining ----------

  function Join(separator: char, pieces: seq<string>): string {
    if pieces == [] then ""
    else if |pieces| == 1 then pieces[0]
    else pieces[0] + [separator] + Join(separator, pieces[1..])
  }

  lemma NotShorter(separator: char, p: string, q: string, s: string, t: string)
    requires separator !in q && p + [separator] + s == q + [separator] + t
    ensures |p| >= |q|
  {
    var whole := p + [separator] + s;
    assert whole[|p|] == separator;
    assert forall i :: 0 <= i < |q| ==> whole[i] == q[i];
  }

  lemma SplitAtSeparator(separator: char, p: string, q: string, s: string, t: string)
    requires separator !in p && separator !in q && p + [separator] + s == q + [separator] + t
    ensures p == q && s == t
  {
    NotShorter(separator, p, q, s, t);
    NotShorter(separator, q, p, t, s);
    var whole := p + [separator] + s;
    assert whole[..|p|] == p && whole[..|q|] == q;
    assert whole[|p| + 1..] == s && whole[|q| + 1..] == t;
  }

  ghost predicate Free(separator: char, pieces: seq<string>) {
    forall i :: 0 <= i < |pieces| ==> separator !in pieces[i]
  }

  /** Joining lists of one length loses nothing while no piece contains the separator. */
  lemma {:induction false} JoinSameLength(separator: char, a: seq<string>, b: seq<string>)
    requires |a| == |b| && Free(separator, a) && Free(separator, b) && Join(separator, a) == Join(separator, b)
    ensures a == b
  {
    if |a| > 1 {
      SplitAtSeparator(separator, a[0], b[0], Join(separator, a[1..]), Join(separator, b[1..]));
      JoinSameLength(separator, a[1..], b[1..]);
      assert a == [a[0]] + a[1..] && b == [b[0]] + b[1..];
    } else if |a| == 1 {
      assert a == [a[0]] && b == [b[0]];
    }
  }

  /** Nor does it for lists of any length, if the pieces are not blank. */
  lemma {:induction false} JoinInjective(separator: char, a: seq<string>, b: seq<string>)
    requires Free(separator, a) && Free(separator, b) && Join(separator, a) == Join(separator, b)
    requires (forall i :: 0 <= i < |a| ==> a[i] != "") && (forall i :: 0 <= i < |b| ==> b[i] != "")
    ensures a == b
  {
    JoinHasSeparator(separator, a);
    JoinHasSeparator(separator, b);
    if |a| > 1 && |b| > 1 {
      SplitAtSeparator(separator, a[0], b[0], Join(separator, a[1..]), Join(separator, b[1..]));
      JoinInjective(separator, a[1..], b[1..]);
      assert a == [a[0]] + a[1..] && b == [b[0]] + b[1..];
    } else if |a| == 1 && |b| == 1 {
      assert a == [a[0]] && b == [b[0]];
    }
  }

  lemma JoinHasSeparator(separator: char, a: seq<string>)
    requires Free(separator, a)
    ensures separator in Join(separator, a) <==> |a| > 1
  {
    if |a| > 1 { assert Join(separator, a)[|a[0]|] == separator; }
  }

  lemma {:induction false} JoinKeepsFree(other: char, separator: char, a: seq<string>)
    requires other != separator && Free(other, a)
    ensures other !in Join(separator, a)
  {
    if |a| > 1 { JoinKeepsFree(other, separator, a[1..]); }
  }

  // ---------- the fingerprint text ----------

  /** How values are printed; normalised texts are printed as they are, and the blank key prints nothing. */
  datatype Printer = Printer(
    key: Key -> string,
    status: StatusClass -> string,
    date: int -> string,
    amount: real -> string,
    count: nat -> string,
    flag: bool -> string)

  ghost predicate Injective<T(!new)>(text: T -> string) {
    forall a, b :: text(a) == text(b) ==> a == b
  }

  ghost predicate InjectiveOn<T(!new)>(values: set<T>, text: T -> string) {
    forall a, b :: a in values && b in values && text(a) == text(b) ==> a == b
  }

  /** The amounts that are stated. */
  function Amounts(m: Material): set<real> { m.limits + m.annualRates + m.discounts + m.coverages + m.fees }

  /** Different values print differently; of the amounts, those that are stated. */
  ghost predicate Faithful(m: Material, n: Material, t: Printer) {
    && Injective(t.key) && Injective(t.status) && Injective(t.date) && Injective(t.count) && Injective(t.flag)
    && InjectiveOn(Amounts(m) + Amounts(n), t.amount)
  }

  function ConditionText(t: Printer): ((Key, Condition)) -> string {
    (c: (Key, Condition)) => t.key(c.0) + ":" + t.key(c.1.operator) + ":" + t.key(c.1.expected)
  }

  function Printed<T>(values: set<T>, text: T -> string): set<string> { set v | v in values :: text(v) }

  ghost function JoinedColumn<T>(values: set<T>, text: T -> string): string {
    Join(',', SortedTexts(Printed(values, text)))
  }

  ghost function JoinedColumns(m: Material, t: Printer): (r: seq<string>)
    ensures |r| == 21
  {
    [ JoinedColumn(m.authorities, t.key), JoinedColumn(m.names, t.key), JoinedColumn(m.types, t.key), JoinedColumn(m.years, t.key),
      JoinedColumn(m.regions, t.key), JoinedColumn(m.purposes, t.key), JoinedColumn(m.inclusions, t.key), JoinedColumn(m.exclusions, t.key),
      JoinedColumn(m.classes, t.status), JoinedColumn(m.starts, t.date), JoinedColumn(m.ends, t.date), JoinedColumn(m.limits, t.amount),
      JoinedColumn(m.annualRates, t.amount), JoinedColumn(m.discounts, t.amount), JoinedColumn(m.coverages, t.amount),
      JoinedColumn(m.fees, t.amount), JoinedColumn(m.collaterals, t.flag), JoinedColumn(m.graces, t.count),
      JoinedColumn(m.maturities, t.count), JoinedColumn(m.methods, t.key), JoinedColumn(m.conditions, ConditionText(t)) ]
  }

  /** The text that is hashed. */
  ghost function FingerprintText(m: Material, t: Printer): string { Join('|', JoinedColumns(m, t)) }

  /** A printed value that a column can hold without ambiguity. */
  predicate Plain(text: string) { text != "" && ',' !in text && '|' !in text }

  ghost predicate PlainColumn<T(!new)>(values: set<T>, text: T -> string) {
    forall v :: v in values ==> Plain(text(v))
  }

  ghost predicate PlainConditions(conditions: set<(Key, Condition)>, t: Printer) {
    forall c :: c in conditions ==> Plain(ConditionText(t)(c)) && ':' !in t.key(c.0) && ':' !in t.key(c.1.operator)
  }

  /** No printed value contains a comma or a bar, and no condition's field or operator a colon. */
  ghost predicate SeparatorFree(m: Material, t: Printer) {
    && PlainColumn(m.authorities, t.key) && PlainColumn(m.names, t.key) && PlainColumn(m.types, t.key)
    && PlainColumn(m.years, t.key) && PlainColumn(m.regions, t.key) && PlainColumn(m.purposes, t.key)
    && PlainColumn(m.inclusions, t.key) && PlainColumn(m.exclusions, t.key) && PlainColumn(m.classes, t.status)
    && PlainColumn(m.starts, t.date) && PlainColumn(m.ends, t.date) && PlainColumn(m.limits, t.amount)
    && PlainColumn(m.annualRates, t.amount) && PlainColumn(m.discounts, t.amount) && PlainColumn(m.coverages, t.amount)
    && PlainColumn(m.fees, t.amount) && PlainColumn(m.collaterals, t.flag) && PlainColumn(m.graces, t.count)
    && PlainColumn(m.maturities, t.count) && PlainColumn(m.methods, t.key) && PlainConditions(m.conditions, t)
  }

  lemma PlainPieces<T(!new)>(values: set<T>, text: T -> string) returns (pieces: seq<string>)
    requires PlainColumn(values, text)
    ensures pieces == SortedTexts(Printed(values, text)) && JoinedColumn(values, text) == Join(',', pieces)
    ensures Free(',', pieces) && Free('|', pieces) && forall i :: 0 <= i < |pieces| ==> pieces[i] != ""
  {
    var texts := Printed(values, text);
    pieces := SortedTexts(texts);
    SortedTextsSorts(texts);
    forall i | 0 <= i < |pieces| ensures Plain(pieces[i]) {
      assert pieces[i] in texts;
    }
  }

  lemma PlainColumnFree<T(!new)>(values: set<T>, text: T -> string)
    requires PlainColumn(values, text)
    ensures '|' !in JoinedColumn(values, text)
  {
    var pieces := PlainPieces(values, text);
    JoinKeepsFree('|', ',', pieces);
  }

  /** A plain column determines its values. */
  lemma ColumnDetermines<T(!new)>(a: set<T>, b: set<T>, text: T -> string)
    requires PlainColumn(a, text) && PlainColumn(b, text) && JoinedColumn(a, text) == JoinedColumn(b, text)
    requires InjectiveOn(a + b, text)
    ensures a == b
  {
    var p := PlainPieces(a, text);
    var q := PlainPieces(b, text);
    JoinInjective(',', p, q);
    SortedTextsSorts(Printed(a, text));
    SortedTextsSorts(Printed(b, text));
    forall v ensures v in a <==> v in b {
      if v in a { assert text(v) in p; var w :| w in b && text(w) == text(v); }
      if v in b { assert text(v) in q; var w :| w in a && text(w) == text(v); }
    }
  }

  lemma SamePrint<T(!new)>(text: T -> string, a: T, b: T)
    requires Injective(text) && text(a) == text(b)
    ensures a == b
  {
  }

  lemma ConditionTextInjective(c: (Key, Condition), d: (Key, Condition), t: Printer)
    requires Injective(t.key) && ConditionText(t)(c) == ConditionText(t)(d)
    requires ':' !in t.key(c.0) && ':' !in t.key(c.1.operator) && ':' !in t.key(d.0) && ':' !in t.key(d.1.operator)
    ensures c == d
  {
    var x := t.key(c.1.operator) + ":" + t.key(c.1.expected);
    var y := t.key(d.1.operator) + ":" + t.key(d.1.expected);
    assert t.key(c.0) + [':'] + x == ConditionText(t)(c) && t.key(d.0) + [':'] + y == ConditionText(t)(d);
    SplitAtSeparator(':', t.key(c.0), t.key(d.0), x, y);
    SplitAtSeparator(':', t.key(c.1.operator), t.key(d.1.operator), t.key(c.1.expected), t.key(d.1.expected));
    SamePrint(t.key, c.0, d.0);
    SamePrint(t.key, c.1.operator, d.1.operator);
    SamePrint(t.key, c.1.expected, d.1.expected);
  }

  lemma ColumnsFree(m: Material, t: Printer)
    requires SeparatorFree(m, t)
    ensures Free('|', JoinedColumns(m, t))
  {
    KeyColumnsFree(m, t);
    OtherColumnsFree(m, t);
    var columns := JoinedColumns(m, t);
    assert forall i :: 0 <= i < 8 ==> '|' !in columns[i];
    assert forall i :: 8 <= i < 21 ==> '|' !in columns[i];
  }

  lemma KeyColumnsFree(m: Material, t: Printer)
    requires SeparatorFree(m, t)
    ensures forall i :: 0 <= i < 8 ==> '|' !in JoinedColumns(m, t)[i]
  {
    PlainColumnFree(m.authorities, t.key);
    PlainColumnFree(m.names, t.key);
    PlainColumnFree(m.types, t.key);
    PlainColumnFree(m.years, t.key);
    PlainColumnFree(m.regions, t.key);
    PlainColumnFree(m.purposes, t.key);
    PlainColumnFree(m.inclusions, t.key);
    PlainColumnFree(m.exclusions, t.key);
  }

  lemma OtherColumnsFree(m: Material, t: Printer)
    requires SeparatorFree(m, t)
    ensures forall i :: 8 <= i < 21 ==> '|' !in JoinedColumns(m, t)[i]
  {
    PlainColumnFree(m.classes, t.status);
    PlainColumnFree(m.starts, t.date);
    PlainColumnFree(m.ends, t.date);
    PlainColumnFree(m.limits, t.amount);
    PlainColumnFree(m.annualRates, t.amount);
    PlainColumnFree(m.discounts, t.amount);
    PlainColumnFree(m.coverages, t.amount);
    PlainColumnFree(m.fees, t.amount);
    PlainColumnFree(m.collaterals, t.flag);
    PlainColumnFree(m.graces, t.count);
    PlainColumnFree(m.maturities, t.count);
    PlainColumnFree(m.methods, t.key);
    PlainColumnFree(m.conditions, ConditionText(t));
  }

  lemma KeyColumnsDetermine(m: Material, n: Material, t: Printer)
    requires Faithful(m, n, t) && SeparatorFree(m, t) && SeparatorFree(n, t) && JoinedColumns(m, t) == JoinedColumns(n, t)
    ensures m.authorities == n.authorities && m.names == n.names && m.types == n.types && m.years == n.years
    ensures m.regions == n.regions && m.purposes == n.purposes && m.inclusions == n.inclusions && m.exclusions == n.exclusions
    ensures m.methods == n.methods
  {
    var a, b := JoinedColumns(m, t), JoinedColumns(n, t);
    assert a[0] == b[0] && a[1] == b[1] && a[2] == b[2] && a[3] == b[3] && a[4] == b[4];
    assert a[5] == b[5] && a[6] == b[6] && a[7] == b[7] && a[19] == b[19];
    ColumnDetermines(m.authorities, n.authorities, t.key);
    ColumnDetermines(m.names, n.names, t.key);
    ColumnDetermines(m.types, n.types, t.key);
    ColumnDetermines(m.years, n.years, t.key);
    ColumnDetermines(m.regions, n.regions, t.key);
    ColumnDetermines(m.purposes, n.purposes, t.key);
    ColumnDetermines(m.inclusions, n.inclusions, t.key);
    ColumnDetermines(m.exclusions, n.exclusions, t.key);
    ColumnDetermines(m.methods, n.methods, t.key);
  }

  lemma OtherColumnsDetermine(m: Material, n: Material, t: Printer)
    requires Faithful(m, n, t) && SeparatorFree(m, t) && SeparatorFree(n, t) && JoinedColumns(m, t) == JoinedColumns(n, t)
    ensures m.classes == n.classes && m.starts == n.starts && m.ends == n.ends && m.limits == n.limits
    ensures m.annualRates == n.annualRates && m.discounts == n.discounts && m.coverages == n.coverages && m.fees == n.fees
    ensures m.collaterals == n.collaterals && m.graces == n.graces && m.maturities == n.maturities
  {
    var a, b := JoinedColumns(m, t), JoinedColumns(n, t);
    assert a[8] == b[8] && a[9] == b[9] && a[10] == b[10] && a[11] == b[11] && a[12] == b[12];
    assert a[13] == b[13] && a[14] == b[14] && a[15] == b[15] && a[16] == b[16] && a[17] == b[17] && a[18] == b[18];
    ColumnDetermines(m.classes, n.classes, t.status);
    ColumnDetermines(m.starts, n.starts, t.date);
    ColumnDetermines(m.ends, n.ends, t.date);
    ColumnDetermines(m.limits, n.limits, t.amount);
    ColumnDetermines(m.annualRates, n.annualRates, t.amount);
    ColumnDetermines(m.discounts, n.discounts, t.amount);
    ColumnDetermines(m.coverages, n.coverages, t.amount);
    ColumnDetermines(m.fees, n.fees, t.amount);
    ColumnDetermines(m.collaterals, n.collaterals, t.flag);
    ColumnDetermines(m.graces, n.graces, t.count);
    ColumnDetermines(m.maturities, n.maturities, t.count);
  }

  lemma ConditionsDetermine(m: Material, n: Material, t: Printer)
    requires Faithful(m, n, t) && SeparatorFree(m, t) && SeparatorFree(n, t) && JoinedColumns(m, t) == JoinedColumns(n, t)
    ensures m.conditions == n.conditions
  {
    assert JoinedColumns(m, t)[20] == JoinedColumns(n, t)[20];
    var text := ConditionText(t);
    forall c, d | c in m.conditions + n.conditions && d in m.conditions + n.conditions && text(c) == text(d) ensures c == d {
      ConditionTextInjective(c, d, t);
    }
    ColumnDetermines(m.conditions, n.conditions, text);
  }

  /** While no value contains a separator, the text determines the material. */
  lemma TextDeterminesMaterial(m: Material, n: Material, t: Printer)
    requires Faithful(m, n, t) && SeparatorFree(m, t) && SeparatorFree(n, t)
    ensures FingerprintText(m, t) == FingerprintText(n, t) <==> m == n
  {
    if FingerprintText(m, t) == FingerprintText(n, t) {
      ColumnsFree(m, t);
      ColumnsFree(n, t);
      JoinSameLength('|', JoinedColumns(m, t), JoinedColumns(n, t));
      KeyColumnsDetermine(m, n, t);
      OtherColumnsDetermine(m, n, t);
      ConditionsDetermine(m, n, t);
    }
  }

  // ---------- printers exist ----------

  function Unary(n: nat, digit: char): string { seq(n, _ => digit) }

  lemma UnaryInjective(m: nat, n: nat, c: char, d: char)
    ensures Unary(m, c) == Unary(n, d) <==> m == n && (m == 0 || c == d)
    ensures forall x :: x in Unary(n, d) ==> x == d
  {
    if Unary(m, c) == Unary(n, d) {
      assert |Unary(m, c)| == m && |Unary(n, d)| == n;
      if m > 0 { assert Unary(m, c)[0] == c && Unary(n, d)[0] == d; }
    }
  }

  function IntText(k: int): string { if k >= 0 then Unary(k, '+') else Unary(-k, '-') }

  /** Any finite set of amounts can be printed by different texts. */
  lemma {:induction false} AmountsPrintable(amounts: set<real>) returns (text: real -> nat)
    ensures forall a :: a in amounts ==> text(a) < |amounts|
    ensures forall a, b :: a in amounts && b in amounts && text(a) == text(b) ==> a == b
  {
    if amounts == {} {
      text := _ => 0;
    } else {
      var v := AnyOf(amounts);
      var rest := AmountsPrintable(amounts - {v});
      text := a => if a == v then |amounts| - 1 else rest(a);
    }
  }

  function PrinterWith(text: real -> nat): Printer {
    Printer(
      IntText,
      (s: StatusClass) => match s case ClosedClass => "CLOSED" case OpenClass => "OPEN" case ScheduledClass => "SCHEDULED" case UnknownClass => "UNKNOWN",
      (d: int) => "D" + IntText(d),
      (a: real) => "A" + Unary(text(a), '+'),
      (n: nat) => "N" + Unary(n, '+'),
      (b: bool) => if b then "True" else "False")
  }

  lemma IntTextInjective(a: int, b: int)
    ensures IntText(a) == IntText(b) ==> a == b
  {
    UnaryInjective(if a >= 0 then a else -a, if b >= 0 then b else -b, if a >= 0 then '+' else '-', if b >= 0 then '+' else '-');
  }

  lemma IntTextPlain(k: int)
    ensures k != 0 ==> Plain(IntText(k))
    ensures ',' !in IntText(k) && '|' !in IntText(k) && ':' !in IntText(k)
  {
    UnaryInjective(0, if k >= 0 then k else -k, '+', if k >= 0 then '+' else '-');
    assert |IntText(k)| == if k >= 0 then k else -k;
  }

  /** No field states a blank text, which the code filters out. */
  ghost predicate StatesNoBlank(m: Material) {
    && BLANK !in m.authorities + m.names + m.types + m.years + m.regions + m.purposes + m.inclusions + m.exclusions + m.methods
    && forall c :: c in m.conditions ==> c.0 != BLANK
  }

  lemma KeysPrintPlain(values: set<Key>)
    requires BLANK !in values
    ensures PlainColumn(values, IntText)
  {
    forall v | v in values ensures Plain(IntText(v)) { IntTextPlain(v); }
  }

  lemma AmountsPrintPlain(values: set<real>, text: real -> nat)
    ensures PlainColumn(values, PrinterWith(text).amount)
  {
    forall v | v in values ensures Plain(PrinterWith(text).amount(v)) { UnaryInjective(0, text(v), '+', '+'); }
  }

  lemma OthersPrintPlain(m: Material, text: real -> nat)
    ensures var t := PrinterWith(text);
      && PlainColumn(m.classes, t.status) && PlainColumn(m.starts, t.date) && PlainColumn(m.ends, t.date)
      && PlainColumn(m.collaterals, t.flag) && PlainColumn(m.graces, t.count) && PlainColumn(m.maturities, t.count)
  {
    forall d: int ensures Plain(PrinterWith(text).date(d)) { IntTextPlain(d); }
    forall n: nat ensures Plain(PrinterWith(text).count(n)) { UnaryInjective(0, n, '+', '+'); }
  }

  lemma ConditionsPrintPlain(m: Material, text: real -> nat)
    requires StatesNoBlank(m)
    ensures PlainConditions(m.conditions, PrinterWith(text))
  {
    var t := PrinterWith(text);
    forall c | c in m.conditions ensures Plain(ConditionText(t)(c)) && ':' !in t.key(c.0) && ':' !in t.key(c.1.operator) {
      IntTextPlain(c.0);
      IntTextPlain(c.1.operator);
      IntTextPlain(c.1.expected);
    }
  }

  lemma PrintsPlain(m: Material, text: real -> nat)
    requires StatesNoBlank(m)
    ensures SeparatorFree(m, PrinterWith(text))
  {
    KeysPrintPlain(m.authorities);
    KeysPrintPlain(m.names);
    KeysPrintPlain(m.types);
    KeysPrintPlain(m.years);
    KeysPrintPlain(m.regions);
    KeysPrintPlain(m.purposes);
    KeysPrintPlain(m.inclusions);
    KeysPrintPlain(m.exclusions);
    KeysPrintPlain(m.methods);
    AmountsPrintPlain(m.limits, text);
    AmountsPrintPlain(m.annualRates, text);
    AmountsPrintPlain(m.discounts, text);
    AmountsPrintPlain(m.coverages, text);
    AmountsPrintPlain(m.fees, text);
    OthersPrintPlain(m, text);
    ConditionsPrintPlain(m, text);
  }

  lemma PrintsFaithfully(m: Material, n: Material, text: real -> nat)
    requires forall a, b :: a in Amounts(m) + Amounts(n) && b in Amounts(m) + Amounts(n) && text(a) == text(b) ==> a == b
    ensures Faithful(m, n, PrinterWith(text))
  {
    var t := PrinterWith(text);
    forall a, b | IntText(a) == IntText(b) ensures a == b { IntTextInjective(a, b); }
    forall a, b | t.date(a) == t.date(b) ensures a == b {
      assert t.date(a)[1..] == IntText(a) && t.date(b)[1..] == IntText(b);
      IntTextInjective(a, b);
    }
    forall a, b | t.count(a) == t.count(b) ensures a == b {
      assert t.count(a)[1..] == Unary(a, '+') && t.count(b)[1..] == Unary(b, '+');
      UnaryInjective(a, b, '+', '+');
    }
    forall a, b | a in Amounts(m) + Amounts(n) && b in Amounts(m) + Amounts(n) && t.amount(a) == t.amount(b) ensures a == b {
      assert t.amount(a)[1..] == Unary(text(a), '+') && t.amount(b)[1..] == Unary(text(b), '+');
      UnaryInjective(text(a), text(b), '+', '+');
    }
  }

  /** Whatever two materials state, some printer meets the conditions under which their texts determine them, and it
      prints the blank key as nothing. */
  lemma FaithfulPrinterExists(m: Material, n: Material) returns (t: Printer)
    requires StatesNoBlank(m) && StatesNoBlank(n)
    ensures t.key(BLANK) == "" && Faithful(m, n, t) && SeparatorFree(m, t) && SeparatorFree(n, t)
  {
    var text := AmountsPrintable(Amounts(m) + Amounts(n));
    t := PrinterWith(text);
    PrintsFaithfully(m, n, text);
    PrintsPlain(m, text);
    PrintsPlain(n, text);
  }
}
