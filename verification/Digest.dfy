/** The canonical JSON printer of `ts/src/platform/Digest.ts`: what its text tells about the value it was made from. */
module Digest {
  import opened Common
  import opened Sorting
  import opened JsText

  type Entry = (JsString, Value)

  /**
    A JavaScript value as the printer sees it. A finite number is the text that `JSON.stringify` gives for it (so
    -0 is 0). `NonFinite` is NaN or an infinity; `NotJson` is undefined, a function or a symbol.
  */
  datatype Value =
    | Null
    | NonFinite
    | Boolean(value: bool)
    | Number(text: JsString)
    | Text(s: JsString)
    | List(items: seq<Value>)
    | Record(entries: seq<Entry>)
    | NotJson

  datatype Printed = Json(text: JsString) | ValueIsNotJson

  const QUOTE: CodeUnit := 34
  const BACKSLASH: CodeUnit := 92
  const COMMA: CodeUnit := 44
  const COLON: CodeUnit := 58
  const LBRACKET: CodeUnit := 91
  const RBRACKET: CodeUnit := 93
  const LBRACE: CodeUnit := 123
  const RBRACE: CodeUnit := 125

  const NULL: JsString := [110, 117, 108, 108]
  const TRUE: JsString := [116, 114, 117, 101]
  const FALSE: JsString := [102, 97, 108, 115, 101]

  // -------------------------------------------------------------------------
  // strings: JSON.stringify
  // -------------------------------------------------------------------------

  predicate Leading(c: CodeUnit) {
    0xD800 <= c <= 0xDBFF
  }

  predicate Trailing(c: CodeUnit) {
    0xDC00 <= c <= 0xDFFF
  }

  /** A lowercase hexadecimal digit. */
  function Hex(d: CodeUnit): CodeUnit
    requires d < 16
  {
    if d < 10 then 48 + d else 87 + d
  }

  function UnicodeEscape(c: CodeUnit): JsString {
    [BACKSLASH, 117, Hex(c / 4096), Hex(c / 256 % 16), Hex(c / 16 % 16), Hex(c % 16)]
  }

  /** The letter of the two-character escape of a code unit that has one. */
  function ShortEscape(c: CodeUnit): CodeUnit {
    if c == QUOTE then QUOTE
    else if c == BACKSLASH then BACKSLASH
    else if c == 8 then 98
    else if c == 9 then 116
    else if c == 10 then 110
    else if c == 12 then 102
    else if c == 13 then 114
    else 0
  }

  function EscapeUnit(c: CodeUnit): JsString {
    if ShortEscape(c) != 0 then [BACKSLASH, ShortEscape(c)]
    else if c < 0x20 || Leading(c) || Trailing(c) then UnicodeEscape(c)
    else [c]
  }

  predicate StartsWithPair(s: JsString) {
    |s| >= 2 && Leading(s[0]) && Trailing(s[1])
  }

  /** How many code units the next piece of output stands for: a surrogate pair is copied as it is. */
  function PieceLength(s: JsString): nat
    requires s != []
  {
    if StartsWithPair(s) then 2 else 1
  }

  function Piece(s: JsString): JsString
    requires s != []
  {
    if StartsWithPair(s) then s[..2] else EscapeUnit(s[0])
  }

  function Escape(s: JsString): JsString
    decreases |s|
  {
    if s == [] then [] else Piece(s) + Escape(s[PieceLength(s)..])
  }

  function Quote(s: JsString): JsString {
    [QUOTE] + Escape(s) + [QUOTE]
  }

  // -------------------------------------------------------------------------
  // values
  // -------------------------------------------------------------------------

  predicate NumberUnit(c: CodeUnit) {
    48 <= c <= 57 || c == 43 || c == 45 || c == 46 || c == 101
  }

  /** Digits, signs, a point, an exponent; the first is a digit or a minus. */
  predicate NumberText(s: JsString) {
    s != [] && (48 <= s[0] <= 57 || s[0] == 45) && forall i :: 0 <= i < |s| ==> NumberUnit(s[i])
  }

  ghost predicate DistinctKeys(entries: seq<Entry>) {
    forall i, j :: 0 <= i < j < |entries| ==> entries[i].0 != entries[j].0
  }

  /** What is true of every JavaScript value. */
  ghost predicate WellFormed(v: Value) {
    match v
    case Number(text) => NumberText(text)
    case List(items) => forall i :: 0 <= i < |items| ==> WellFormed(items[i])
    case Record(entries) => DistinctKeys(entries) && forall i :: 0 <= i < |entries| ==> WellFormed(entries[i].1)
    case _ => true
  }

  predicate IsJson(v: Value) {
    match v
    case NotJson => false
    case List(items) => forall i :: 0 <= i < |items| ==> IsJson(items[i])
    case Record(entries) => forall i :: 0 <= i < |entries| ==> IsJson(entries[i].1)
    case _ => true
  }

  const KEYATMOST: (Entry, Entry) -> bool := (a: Entry, b: Entry) => AtMost(a.0, b.0)

  lemma KeyOrder()
    ensures TotalPreorder(KEYATMOST)
  {
    AtMostOrder();
    forall a, b, c ensures (KEYATMOST(a, b) || KEYATMOST(b, a)) &&
      (KEYATMOST(a, b) && KEYATMOST(b, c) ==> KEYATMOST(a, c)) {
      assert ATMOST(a.0, b.0) || ATMOST(b.0, a.0);
      assert ATMOST(a.0, b.0) && ATMOST(b.0, c.0) ==> ATMOST(a.0, c.0);
    }
  }

  /** `Object.entries(value).sort(...)`. */
  function SortEntries(entries: seq<Entry>): (r: seq<Entry>)
    ensures Ascending(KEYATMOST, r) && multiset(r) == multiset(entries)
    ensures |r| == |entries| && forall e :: e in r <==> e in entries
  {
    KeyOrder();
    Sort(KEYATMOST, entries)
  }

  /** `parts.join(",")`. */
  function Join(parts: seq<JsString>): JsString {
    if parts == [] then []
    else if |parts| == 1 then parts[0]
    else parts[0] + [COMMA] + Join(parts[1..])
  }

  function PrintedEntry(e: Entry): JsString
    requires IsJson(e.1)
    decreases e.1, 1
  {
    Quote(e.0) + [COLON] + Print(e.1)
  }

  function PrintedItems(items: seq<Value>): (r: seq<JsString>)
    requires forall i :: 0 <= i < |items| ==> IsJson(items[i])
    decreases items, 2
  {
    seq(|items|, i requires 0 <= i < |items| => Print(items[i]))
  }

  function Print(v: Value): JsString
    requires IsJson(v)
    decreases v, 0
  {
    match v
    case Null => NULL
    case NonFinite => NULL
    case Boolean(b) => if b then TRUE else FALSE
    case Number(text) => text
    case Text(s) => Quote(s)
    case List(items) => [LBRACKET] + Join(PrintedItems(items)) + [RBRACKET]
    case Record(entries) =>
      var sorted := SortEntries(entries);
      assert forall i :: 0 <= i < |sorted| ==> sorted[i] in entries;
      [LBRACE] + Join(seq(|sorted|, i requires 0 <= i < |sorted| => PrintedEntry(sorted[i]))) + [RBRACE]
  }

  function PrintedEntries(es: seq<Entry>): (r: seq<JsString>)
    requires forall i :: 0 <= i < |es| ==> IsJson(es[i].1)
  {
    seq(|es|, i requires 0 <= i < |es| => PrintedEntry(es[i]))
  }

  lemma RecordPrints(entries: seq<Entry>)
    requires IsJson(Record(entries))
    ensures forall i :: 0 <= i < |entries| ==> IsJson(SortEntries(entries)[i].1)
    ensures Print(Record(entries)) == [LBRACE] + Join(PrintedEntries(SortEntries(entries))) + [RBRACE]
  {
    var sorted := SortEntries(entries);
    assert forall i :: 0 <= i < |sorted| ==> sorted[i] in entries;
    assert PrintedEntries(sorted) == seq(|sorted|, i requires 0 <= i < |sorted| => PrintedEntry(sorted[i]));
  }

  /** `canonicalJson`: a value that is not JSON, at whatever depth, is an error. */
  function CanonicalJson(v: Value): Printed {
    if IsJson(v) then Json(Print(v)) else ValueIsNotJson
  }

  /** The same JSON value up to the order of keys, at every depth. */
  ghost predicate Same(a: Value, b: Value) {
    match a
    case List(items) =>
      b.List? && |items| == |b.items| && forall i :: 0 <= i < |items| ==> Same(items[i], b.items[i])
    case Record(entries) =>
      && b.Record?
      && (forall i :: 0 <= i < |entries| ==> HasKey(b.entries, entries[i].0))
      && (forall j :: 0 <= j < |b.entries| ==> HasKey(entries, b.entries[j].0))
      && forall i, j :: 0 <= i < |entries| && 0 <= j < |b.entries| && entries[i].0 == b.entries[j].0
           ==> Same(entries[i].1, b.entries[j].1)
    case Null => b.Null? || b.NonFinite?
    case NonFinite => b.Null? || b.NonFinite?
    case _ => a == b
  }

  predicate HasKey(entries: seq<Entry>, key: JsString) {
    exists j :: 0 <= j < |entries| && entries[j].0 == key
  }

  // -------------------------------------------------------------------------
  // the text of a string can be read back
  // -------------------------------------------------------------------------

  lemma FourDigits(x: int)
    ensures x == 4096 * (x / 4096) + 256 * (x / 256 % 16) + 16 * (x / 16 % 16) + x % 16
  {
    var y := x / 16;
    var z := y / 16;
    assert x / 256 == z && x / 4096 == z / 16;
  }

  lemma HexDigitInjective(a: CodeUnit, b: CodeUnit)
    requires a < 16 && b < 16 && Hex(a) == Hex(b)
    ensures a == b
  {
  }

  lemma HexInjective(c: CodeUnit, d: CodeUnit)
    requires UnicodeEscape(c) == UnicodeEscape(d)
    ensures c == d
  {
    var x, y := UnicodeEscape(c), UnicodeEscape(d);
    assert x[2] == y[2] && x[3] == y[3] && x[4] == y[4] && x[5] == y[5];
    HexDigitInjective(c / 4096, d / 4096);
    HexDigitInjective(c / 256 % 16, d / 256 % 16);
    HexDigitInjective(c / 16 % 16, d / 16 % 16);
    HexDigitInjective(c % 16, d % 16);
    FourDigits(c as int);
    FourDigits(d as int);
  }

  lemma ShortInjective(c: CodeUnit, d: CodeUnit)
    requires ShortEscape(c) != 0 && ShortEscape(c) == ShortEscape(d)
    ensures c == d
  {
  }

  /** What the first unit of a piece tells about it. */
  lemma PieceStarts(s: JsString)
    requires s != []
    ensures Piece(s) != [] && Piece(s)[0] != QUOTE
    ensures StartsWithPair(s) <==> Leading(Piece(s)[0])
    ensures Piece(s)[0] == BACKSLASH <==> !StartsWithPair(s) && Piece(s) != [s[0]]
    ensures Piece(s)[0] == BACKSLASH ==> |Piece(s)| >= 2 && (Piece(s)[1] == 117 <==> ShortEscape(s[0]) == 0)
  {
  }

  /** Pieces are prefix-free: what a piece stands for and where it ends can be read off the text. */
  lemma PieceParse(s: JsString, t: JsString, r1: JsString, r2: JsString)
    requires s != [] && t != [] && Piece(s) + r1 == Piece(t) + r2
    ensures PieceLength(s) == PieceLength(t) && s[..PieceLength(s)] == t[..PieceLength(t)] && r1 == r2
  {
    PieceStarts(s);
    PieceStarts(t);
    var a, b := Piece(s) + r1, Piece(t) + r2;
    assert a[0] == b[0] && Piece(s)[0] == Piece(t)[0];
    if Piece(s)[0] == BACKSLASH {
      assert a[1] == Piece(s)[1] && b[1] == Piece(t)[1];
    }
    assert |Piece(s)| == |Piece(t)|;
    assert Piece(s) == a[..|Piece(s)|] && Piece(t) == b[..|Piece(t)|];
    assert r1 == a[|Piece(s)|..] && r2 == b[|Piece(t)|..];
    if Piece(s)[0] == BACKSLASH {
      if ShortEscape(s[0]) != 0 { ShortInjective(s[0], t[0]); } else { HexInjective(s[0], t[0]); }
    }
  }

  lemma Regroup(a: JsString, b: JsString, c: JsString)
    ensures (a + b) + c == a + (b + c)
  {
  }

  lemma SameHead(c: CodeUnit, r1: JsString, r2: JsString)
    requires [c] + r1 == [c] + r2
    ensures r1 == r2
  {
    assert r1 == ([c] + r1)[1..] && r2 == ([c] + r2)[1..];
  }

  lemma EscapeStarts(t: JsString, r: JsString)
    requires t != []
    ensures Escape(t) + r != [] && (Escape(t) + r)[0] != QUOTE
  {
    PieceStarts(t);
    assert (Escape(t) + r)[0] == Piece(t)[0];
  }

  lemma EscapeEnds(t: JsString, r1: JsString, r2: JsString)
    requires [QUOTE] + r1 == Escape(t) + ([QUOTE] + r2)
    ensures t == [] && r1 == r2
  {
    if t != [] {
      EscapeStarts(t, [QUOTE] + r2);
      assert false;
    }
    assert Escape(t) + ([QUOTE] + r2) == [QUOTE] + r2;
    SameHead(QUOTE, r1, r2);
  }

  lemma {:induction false} EscapeParse(s: JsString, t: JsString, r1: JsString, r2: JsString)
    requires Escape(s) + ([QUOTE] + r1) == Escape(t) + ([QUOTE] + r2)
    ensures s == t && r1 == r2
    decreases |s| + |t|
  {
    if s == [] {
      assert Escape(s) + ([QUOTE] + r1) == [QUOTE] + r1;
      EscapeEnds(t, r1, r2);
    } else if t == [] {
      assert Escape(t) + ([QUOTE] + r2) == [QUOTE] + r2;
      EscapeEnds(s, r2, r1);
    } else {
      var s1, t1 := s[PieceLength(s)..], t[PieceLength(t)..];
      Regroup(Piece(s), Escape(s1), [QUOTE] + r1);
      Regroup(Piece(t), Escape(t1), [QUOTE] + r2);
      PieceParse(s, t, Escape(s1) + ([QUOTE] + r1), Escape(t1) + ([QUOTE] + r2));
      EscapeParse(s1, t1, r1, r2);
      assert s == s[..PieceLength(s)] + s1 && t == t[..PieceLength(t)] + t1;
    }
  }

  lemma QuoteParse(s: JsString, t: JsString, r1: JsString, r2: JsString)
    requires Quote(s) + r1 == Quote(t) + r2
    ensures s == t && r1 == r2
  {
    Regroup([QUOTE], Escape(s), [QUOTE] + r1);
    Regroup([QUOTE], Escape(t), [QUOTE] + r2);
    Regroup([QUOTE] + Escape(s), [QUOTE], r1);
    Regroup([QUOTE] + Escape(t), [QUOTE], r2);
    SameHead(QUOTE, Escape(s) + ([QUOTE] + r1), Escape(t) + ([QUOTE] + r2));
    EscapeParse(s, t, r1, r2);
  }

  // -------------------------------------------------------------------------
  // a reader of JSON strings: RFC 8259, section 7
  // -------------------------------------------------------------------------

  predicate HexUnit(c: CodeUnit) {
    48 <= c <= 57 || 65 <= c <= 70 || 97 <= c <= 102
  }

  function HexValue(c: CodeUnit): int
    requires HexUnit(c)
  {
    if c <= 57 then c as int - 48 else if c <= 70 then c as int - 55 else c as int - 87
  }

  /** The code unit that a two-character escape stands for. */
  function Meaning(letter: CodeUnit): Option<CodeUnit> {
    if letter == 34 then Some(34)
    else if letter == 92 then Some(92)
    else if letter == 47 then Some(47)
    else if letter == 98 then Some(8)
    else if letter == 102 then Some(12)
    else if letter == 110 then Some(10)
    else if letter == 114 then Some(13)
    else if letter == 116 then Some(9)
    else None
  }

  /** One character of a JSON string: the code unit and how much text it takes. */
  function ReadUnit(text: JsString): Option<(CodeUnit, nat)> {
    if text == [] || text[0] == QUOTE || text[0] < 0x20 then None
    else if text[0] != BACKSLASH then Some((text[0], 1))
    else if |text| < 2 then None
    else if text[1] == 117 then
      if |text| < 6 || !HexUnit(text[2]) || !HexUnit(text[3]) || !HexUnit(text[4]) || !HexUnit(text[5]) then None
      else
        var x := 4096 * HexValue(text[2]) + 256 * HexValue(text[3]) + 16 * HexValue(text[4]) + HexValue(text[5]);
        if x < 0x1_0000 then Some((x as CodeUnit, 6)) else None
    else
      match Meaning(text[1])
      case None => None
      case Some(c) => Some((c, 2))
  }

  /** What the characters between two quotes stand for. */
  function ReadString(text: JsString): Option<JsString>
    decreases |text|
  {
    if text == [] then Some([])
    else
      match ReadUnit(text)
      case None => None
      case Some(read) =>
        if read.1 == 0 || read.1 > |text| then None
        else
          match ReadString(text[read.1..])
          case None => None
          case Some(rest) => Some([read.0] + rest)
  }

  lemma HexReads(d: CodeUnit)
    requires d < 16
    ensures HexUnit(Hex(d)) && HexValue(Hex(d)) == d as int
  {
  }

  lemma UnitReads(c: CodeUnit, r: JsString)
    ensures ReadUnit(EscapeUnit(c) + r) == Some((c, |EscapeUnit(c)|))
  {
    if ShortEscape(c) == 0 && (c < 0x20 || Leading(c) || Trailing(c)) {
      HexReads(c / 4096);
      HexReads(c / 256 % 16);
      HexReads(c / 16 % 16);
      HexReads(c % 16);
      FourDigits(c as int);
    }
  }

  lemma ReadMore(unit: JsString, c: CodeUnit, r: JsString)
    requires unit != [] && ReadUnit(unit + r) == Some((c, |unit|)) && ReadString(r).Some?
    ensures ReadString(unit + r) == Some([c] + ReadString(r).value)
  {
    assert (unit + r)[|unit|..] == r;
  }

  lemma PairReads(a: CodeUnit, b: CodeUnit, r: JsString)
    requires Leading(a) && Trailing(b) && ReadString(r).Some?
    ensures ReadString([a] + ([b] + r)) == Some([a] + ([b] + ReadString(r).value))
  {
    ReadMore([b], b, r);
    ReadMore([a], a, [b] + r);
  }

  lemma PairStep(s: JsString, rest: JsString)
    requires StartsWithPair(s) && rest == s[2..] && ReadString(Escape(rest)) == Some(rest)
    ensures ReadString(Escape(s)) == Some(s)
  {
    EscapeOfPair(s, rest);
    PairReads(s[0], s[1], Escape(rest));
  }

  lemma EscapeOfPair(s: JsString, rest: JsString)
    requires StartsWithPair(s) && rest == s[2..]
    ensures Escape(s) == [s[0]] + ([s[1]] + Escape(rest)) && s == [s[0]] + ([s[1]] + rest)
  {
    TwoInFront(s[0], s[1], Escape(rest));
    TwoInFront(s[0], s[1], rest);
    FirstTwo(s);
  }

  lemma TwoInFront(a: CodeUnit, b: CodeUnit, tail: JsString)
    ensures [a, b] + tail == [a] + ([b] + tail)
  {
  }

  lemma FirstTwo(s: JsString)
    requires |s| >= 2
    ensures s[..2] == [s[0], s[1]] && s == [s[0], s[1]] + s[2..]
  {
  }

  lemma UnitStep(s: JsString, rest: JsString)
    requires s != [] && !StartsWithPair(s) && rest == s[1..] && ReadString(Escape(rest)) == Some(rest)
    ensures ReadString(Escape(s)) == Some(s)
  {
    UnitReads(s[0], Escape(rest));
    ReadMore(EscapeUnit(s[0]), s[0], Escape(rest));
    assert s == [s[0]] + rest;
  }

  /** Round trip: what `JSON.stringify` writes between the quotes, a JSON reader reads back as the same string. */
  lemma {:induction false} EscapedReadsBack(s: JsString)
    ensures ReadString(Escape(s)) == Some(s)
    decreases |s|
  {
    if s != [] {
      EscapedReadsBack(s[PieceLength(s)..]);
      if StartsWithPair(s) { PairStep(s, s[2..]); } else { UnitStep(s, s[1..]); }
    }
  }

  // -------------------------------------------------------------------------
  // the text of a value can be read back, up to the order of keys
  // -------------------------------------------------------------------------

  /** What may follow a value: nothing, a comma, or a closing bracket or brace. */
  predicate Delimited(r: JsString) {
    r == [] || r[0] == COMMA || r[0] == RBRACKET || r[0] == RBRACE
  }

  /** The first unit of a value's text names its kind. */
  function FirstOf(v: Value): CodeUnit
    requires IsJson(v) && (v.Number? ==> v.text != [])
  {
    match v
    case Null => 110
    case NonFinite => 110
    case Boolean(b) => if b then 116 else 102
    case Number(text) => text[0]
    case Text(_) => QUOTE
    case List(_) => LBRACKET
    case Record(_) => LBRACE
  }

  lemma PrintStarts(v: Value)
    requires IsJson(v) && WellFormed(v)
    ensures Print(v) != [] && Print(v)[0] == FirstOf(v)
  {
  }

  lemma UnitAt(p: JsString, r: JsString, i: nat)
    ensures i < |p| ==> (p + r)[i] == p[i]
    ensures |p| <= i < |p| + |r| ==> (p + r)[i] == r[i - |p|]
  {
  }

  lemma NumberNotShorter(s: JsString, t: JsString, r1: JsString, r2: JsString)
    requires NumberText(t) && Delimited(r1) && s + r1 == t + r2
    ensures |t| <= |s|
  {
    UnitAt(s, r1, |s|);
    UnitAt(t, r2, |s|);
    assert |s + r1| == |t + r2|;
  }

  lemma NumberParse(s: JsString, t: JsString, r1: JsString, r2: JsString)
    requires NumberText(s) && NumberText(t) && Delimited(r1) && Delimited(r2) && s + r1 == t + r2
    ensures s == t && r1 == r2
  {
    NumberNotShorter(s, t, r1, r2);
    NumberNotShorter(t, s, r2, r1);
    var a, b := s + r1, t + r2;
    assert s == a[..|s|] && t == b[..|t|] && r1 == a[|s|..] && r2 == b[|t|..];
  }

  /** What follows the first part of a joined list that `close` ends. */
  function After(parts: seq<JsString>, close: CodeUnit, r: JsString): JsString {
    if parts == [] then [close] + r else [COMMA] + (Join(parts) + ([close] + r))
  }

  lemma JoinSplit(parts: seq<JsString>, close: CodeUnit, r: JsString)
    requires parts != []
    ensures Join(parts) + ([close] + r) == parts[0] + After(parts[1..], close, r)
  {
    if |parts| > 1 {
      Regroup([COMMA], Join(parts[1..]), [close] + r);
      Regroup(parts[0], [COMMA] + Join(parts[1..]), [close] + r);
      Regroup(parts[0], [COMMA], Join(parts[1..]));
    }
  }

  lemma AfterParse(p1: seq<JsString>, p2: seq<JsString>, close: CodeUnit, r1: JsString, r2: JsString)
    requires After(p1, close, r1) == After(p2, close, r2) && close != COMMA
    ensures p1 == [] <==> p2 == []
    ensures p1 == [] ==> r1 == r2
    ensures p1 != [] ==> Join(p1) + ([close] + r1) == Join(p2) + ([close] + r2)
  {
    assert After(p1, close, r1)[0] == After(p2, close, r2)[0];
    if p1 == [] {
      SameHead(close, r1, r2);
    } else {
      SameHead(COMMA, Join(p1) + ([close] + r1), Join(p2) + ([close] + r2));
    }
  }

  ghost predicate AllFine(xs: seq<Value>) {
    forall i :: 0 <= i < |xs| ==> IsJson(xs[i]) && WellFormed(xs[i])
  }

  ghost predicate AllEntriesFine(es: seq<Entry>) {
    forall i :: 0 <= i < |es| ==> IsJson(es[i].1) && WellFormed(es[i].1)
  }

  ghost predicate SameItems(xs: seq<Value>, ys: seq<Value>) {
    |xs| == |ys| && forall i :: 0 <= i < |xs| ==> Same(xs[i], ys[i])
  }

  ghost predicate SameEntries(es: seq<Entry>, fs: seq<Entry>) {
    |es| == |fs| && forall i :: 0 <= i < |es| ==> es[i].0 == fs[i].0 && Same(es[i].1, fs[i].1)
  }

  lemma EntryStarts(e: Entry)
    requires IsJson(e.1)
    ensures PrintedEntry(e) != [] && PrintedEntry(e)[0] == QUOTE
  {
  }

  lemma {:induction false} ItemsParse(a: Value, xs: seq<Value>, ys: seq<Value>, r1: JsString, r2: JsString)
    requires AllFine(xs) && AllFine(ys) && forall i :: 0 <= i < |xs| ==> xs[i] < a
    requires Join(PrintedItems(xs)) + ([RBRACKET] + r1) == Join(PrintedItems(ys)) + ([RBRACKET] + r2)
    ensures SameItems(xs, ys) && r1 == r2
    decreases a, 2, |xs|
  {
    var p1, p2 := PrintedItems(xs), PrintedItems(ys);
    if xs != [] { JoinSplit(p1, RBRACKET, r1); PrintStarts(xs[0]); }
    if ys != [] { JoinSplit(p2, RBRACKET, r2); PrintStarts(ys[0]); }
    if xs == [] || ys == [] {
      NotClosed(p1, p2, RBRACKET, r1, r2);
    } else {
      ValueParse(xs[0], ys[0], After(p1[1..], RBRACKET, r1), After(p2[1..], RBRACKET, r2));
      AfterParse(p1[1..], p2[1..], RBRACKET, r1, r2);
      assert p1[1..] == PrintedItems(xs[1..]) && p2[1..] == PrintedItems(ys[1..]);
      if |xs| > 1 {
        ItemsParse(a, xs[1..], ys[1..], r1, r2);
      }
    }
  }

  /** An empty list is told from one whose first part does not start with the closing unit. */
  lemma NotClosed(p1: seq<JsString>, p2: seq<JsString>, close: CodeUnit, r1: JsString, r2: JsString)
    requires p1 == [] || p2 == []
    requires p1 != [] ==> p1[0] != [] && p1[0][0] != close
    requires p2 != [] ==> p2[0] != [] && p2[0][0] != close
    requires Join(p1) + ([close] + r1) == Join(p2) + ([close] + r2)
    ensures p1 == [] && p2 == [] && r1 == r2
  {
    if p1 != [] { JoinSplit(p1, close, r1); }
    if p2 != [] { JoinSplit(p2, close, r2); }
    assert (Join(p1) + ([close] + r1))[0] == (Join(p2) + ([close] + r2))[0];
    assert Join(p1) + ([close] + r1) == [close] + r1 && Join(p2) + ([close] + r2) == [close] + r2;
    SameHead(close, r1, r2);
  }

  lemma ConsEntries(es: seq<Entry>, fs: seq<Entry>)
    requires es != [] && fs != [] && es[0].0 == fs[0].0 && Same(es[0].1, fs[0].1) && SameEntries(es[1..], fs[1..])
    ensures SameEntries(es, fs)
  {
    assert forall i :: 0 < i < |es| ==> es[i] == es[1..][i - 1] && fs[i] == fs[1..][i - 1];
  }

  lemma {:induction false} EntriesParse(a: Value, es: seq<Entry>, fs: seq<Entry>, r1: JsString, r2: JsString)
    requires AllEntriesFine(es) && AllEntriesFine(fs) && forall i :: 0 <= i < |es| ==> es[i].1 < a
    requires Join(PrintedEntries(es)) + ([RBRACE] + r1) == Join(PrintedEntries(fs)) + ([RBRACE] + r2)
    ensures SameEntries(es, fs) && r1 == r2
    decreases a, 2, |es|
  {
    if es == [] || fs == [] {
      if es != [] { EntryStarts(es[0]); }
      if fs != [] { EntryStarts(fs[0]); }
      NotClosed(PrintedEntries(es), PrintedEntries(fs), RBRACE, r1, r2);
    } else {
      FirstEntryParse(a, es, fs, r1, r2);
      AfterParse(PrintedEntries(es[1..]), PrintedEntries(fs[1..]), RBRACE, r1, r2);
      if |es| > 1 {
        EntriesParse(a, es[1..], fs[1..], r1, r2);
        ConsEntries(es, fs);
      }
    }
  }

  lemma {:induction false} FirstEntryParse(a: Value, es: seq<Entry>, fs: seq<Entry>, r1: JsString, r2: JsString)
    requires AllEntriesFine(es) && AllEntriesFine(fs) && es != [] && fs != [] && es[0].1 < a
    requires Join(PrintedEntries(es)) + ([RBRACE] + r1) == Join(PrintedEntries(fs)) + ([RBRACE] + r2)
    ensures es[0].0 == fs[0].0 && Same(es[0].1, fs[0].1)
    ensures After(PrintedEntries(es[1..]), RBRACE, r1) == After(PrintedEntries(fs[1..]), RBRACE, r2)
    decreases a, 1, 0
  {
    var p1, p2 := PrintedEntries(es), PrintedEntries(fs);
    JoinSplit(p1, RBRACE, r1);
    JoinSplit(p2, RBRACE, r2);
    assert p1[1..] == PrintedEntries(es[1..]) && p2[1..] == PrintedEntries(fs[1..]);
    EntryParse(a, es[0], fs[0], After(p1[1..], RBRACE, r1), After(p2[1..], RBRACE, r2));
  }

  lemma {:induction false} EntryParse(a: Value, e: Entry, f: Entry, r1: JsString, r2: JsString)
    requires IsJson(e.1) && WellFormed(e.1) && IsJson(f.1) && WellFormed(f.1) && e.1 < a && Delimited(r1) &&
      Delimited(r2)
    requires PrintedEntry(e) + r1 == PrintedEntry(f) + r2
    ensures e.0 == f.0 && Same(e.1, f.1) && r1 == r2
    decreases a, 0, 0
  {
    EntryGroups(e, r1);
    EntryGroups(f, r2);
    QuoteParse(e.0, f.0, [COLON] + (Print(e.1) + r1), [COLON] + (Print(f.1) + r2));
    SameHead(COLON, Print(e.1) + r1, Print(f.1) + r2);
    ValueParse(e.1, f.1, r1, r2);
  }

  lemma EntryGroups(e: Entry, r: JsString)
    requires IsJson(e.1)
    ensures PrintedEntry(e) + r == Quote(e.0) + ([COLON] + (Print(e.1) + r))
  {
    Regroup(Quote(e.0) + [COLON], Print(e.1), r);
    Regroup(Quote(e.0), [COLON], Print(e.1) + r);
  }

  /**
    If the texts of two values, each with something after it, agree, then the values are the same up to key order
    and what follows is the same: no text of a value is a prefix of another one's, and none has two readings.
  */
  lemma {:induction false} ValueParse(a: Value, b: Value, r1: JsString, r2: JsString)
    requires IsJson(a) && WellFormed(a) && IsJson(b) && WellFormed(b) && Delimited(r1) && Delimited(r2)
    requires Print(a) + r1 == Print(b) + r2
    ensures Same(a, b) && r1 == r2
    decreases a, 4, 0
  {
    PrintStarts(a);
    PrintStarts(b);
    assert (Print(a) + r1)[0] == (Print(b) + r2)[0];
    assert FirstOf(a) == FirstOf(b);
    match a {
      case Number(text) => NumberParse(text, b.text, r1, r2);
      case Text(s) => QuoteParse(s, b.s, r1, r2);
      case List(items) =>
        BracketGroups(LBRACKET, Join(PrintedItems(items)), RBRACKET, r1);
        BracketGroups(LBRACKET, Join(PrintedItems(b.items)), RBRACKET, r2);
        SameHead(LBRACKET, Join(PrintedItems(items)) + ([RBRACKET] + r1),
          Join(PrintedItems(b.items)) + ([RBRACKET] + r2));
        ItemsParse(a, items, b.items, r1, r2);
      case Record(entries) =>
        RecordParse(a, b, r1, r2);
      case Null => SamePrefix(Print(a), r1, r2);
      case NonFinite => SamePrefix(Print(a), r1, r2);
      case Boolean(_) => SamePrefix(Print(a), r1, r2);
    }
  }

  lemma SamePrefix(p: JsString, r1: JsString, r2: JsString)
    requires p + r1 == p + r2
    ensures r1 == r2
  {
    assert r1 == (p + r1)[|p|..] && r2 == (p + r2)[|p|..];
  }

  lemma BracketGroups(open: CodeUnit, inner: JsString, close: CodeUnit, r: JsString)
    ensures ([open] + inner + [close]) + r == [open] + (inner + ([close] + r))
  {
    Regroup([open] + inner, [close], r);
    Regroup([open], inner, [close] + r);
  }

  lemma {:induction false} RecordParse(a: Value, b: Value, r1: JsString, r2: JsString)
    requires a.Record? && b.Record? && IsJson(a) && WellFormed(a) && IsJson(b) && WellFormed(b)
    requires Delimited(r1) && Delimited(r2) && Print(a) + r1 == Print(b) + r2
    ensures Same(a, b) && r1 == r2
    decreases a, 3, 0
  {
    var sa, sb := SortEntries(a.entries), SortEntries(b.entries);
    SortedFine(a.entries);
    SortedFine(b.entries);
    RecordPrints(a.entries);
    RecordPrints(b.entries);
    BracketGroups(LBRACE, Join(PrintedEntries(sa)), RBRACE, r1);
    BracketGroups(LBRACE, Join(PrintedEntries(sb)), RBRACE, r2);
    SameHead(LBRACE, Join(PrintedEntries(sa)) + ([RBRACE] + r1), Join(PrintedEntries(sb)) + ([RBRACE] + r2));
    assert forall i :: 0 <= i < |sa| ==> sa[i] in a.entries;
    EntriesParse(a, sa, sb, r1, r2);
    RearrangedIsSame(a.entries, b.entries, sa, sb);
  }

  lemma SortedFine(entries: seq<Entry>)
    requires AllEntriesFine(entries)
    ensures AllEntriesFine(SortEntries(entries))
  {
    var sorted := SortEntries(entries);
    forall i | 0 <= i < |sorted| ensures IsJson(sorted[i].1) && WellFormed(sorted[i].1) {
      assert sorted[i] in entries;
    }
  }

  lemma RearrangedIsSame(es: seq<Entry>, fs: seq<Entry>, se: seq<Entry>, sf: seq<Entry>)
    requires DistinctKeys(es) && DistinctKeys(fs) && SameEntries(se, sf)
    requires (forall e :: e in se <==> e in es) && (forall e :: e in sf <==> e in fs)
    ensures Same(Record(es), Record(fs))
  {
    forall i | 0 <= i < |es| ensures HasKey(fs, es[i].0) {
      assert es[i] in se;
      var k :| 0 <= k < |se| && se[k] == es[i];
      assert sf[k] in fs;
    }
    forall j | 0 <= j < |fs| ensures HasKey(es, fs[j].0) {
      assert fs[j] in sf;
      var k :| 0 <= k < |sf| && sf[k] == fs[j];
      assert se[k] in es;
    }
    forall i, j | 0 <= i < |es| && 0 <= j < |fs| && es[i].0 == fs[j].0 ensures Same(es[i].1, fs[j].1) {
      assert es[i] in se;
      var k :| 0 <= k < |se| && se[k] == es[i];
      assert sf[k] in fs;
      var m :| 0 <= m < |fs| && fs[m] == sf[k];
      assert m == j;
    }
  }

  // -------------------------------------------------------------------------
  // the order of keys leaves no trace
  // -------------------------------------------------------------------------

  function Keys(es: seq<Entry>): seq<JsString> {
    seq(|es|, i requires 0 <= i < |es| => es[i].0)
  }

  lemma TwiceCounted(s: seq<Entry>, i: int, j: int)
    requires 0 <= i < j < |s|
    ensures s[i] == s[j] ==> multiset(s)[s[i]] >= 2
  {
    assert s == s[..j] + s[j..];
    assert s[i] in s[..j] && s[j] in s[j..];
    assert s[i] in multiset(s[..j]) && s[j] in multiset(s[j..]);
  }

  lemma RearrangedDistinct(es: seq<Entry>, fs: seq<Entry>)
    requires DistinctKeys(es) && multiset(es) == multiset(fs)
    ensures DistinctKeys(fs)
  {
    SameElements(es, fs);
    forall i, j | 0 <= i < j < |fs| ensures fs[i].0 != fs[j].0 {
      assert fs[i] in es && fs[j] in es;
      CountDistinct(es, fs[i]);
      TwiceCounted(fs, i, j);
    }
  }

  lemma SortedKeysAgree(es: seq<Entry>, fs: seq<Entry>)
    requires DistinctKeys(es) && DistinctKeys(fs)
    requires forall i :: 0 <= i < |es| ==> HasKey(fs, es[i].0)
    requires forall j :: 0 <= j < |fs| ==> HasKey(es, fs[j].0)
    ensures Keys(SortEntries(es)) == Keys(SortEntries(fs))
  {
    var ke, kf := Keys(SortEntries(es)), Keys(SortEntries(fs));
    RearrangedDistinct(es, SortEntries(es));
    RearrangedDistinct(fs, SortEntries(fs));
    forall k ensures k in ke <==> k in kf {
      KeyListed(es, k);
      KeyListed(fs, k);
    }
    DistinctSameMultiset(ke, kf);
    AtMostOrder();
    KeysAscend(es);
    KeysAscend(fs);
    AscendingUnique(ATMOST, ke, kf);
  }

  lemma KeysAscend(es: seq<Entry>)
    ensures Ascending(ATMOST, Keys(SortEntries(es)))
  {
    var s := SortEntries(es);
    forall i, j | 0 <= i < j < |s| ensures ATMOST(Keys(s)[i], Keys(s)[j]) {
      assert KEYATMOST(s[i], s[j]);
    }
  }

  lemma KeyListed(es: seq<Entry>, k: JsString)
    ensures k in Keys(SortEntries(es)) <==> HasKey(es, k)
  {
    var s := SortEntries(es);
    if k in Keys(s) {
      var i :| 0 <= i < |s| && s[i].0 == k;
      assert s[i] in es;
    }
    if HasKey(es, k) {
      var i :| 0 <= i < |es| && es[i].0 == k;
      assert es[i] in s;
      var j :| 0 <= j < |s| && s[j] == es[i];
      assert Keys(s)[j] == k;
    }
  }

  lemma {:induction false} SamePrints(a: Value, b: Value)
    requires Same(a, b) && IsJson(a) && WellFormed(a) && IsJson(b) && WellFormed(b)
    ensures Print(a) == Print(b)
    decreases a, 1
  {
    match a {
      case List(items) =>
        forall i | 0 <= i < |items| ensures Print(items[i]) == Print(b.items[i]) {
          SamePrints(items[i], b.items[i]);
        }
        assert PrintedItems(items) == PrintedItems(b.items);
      case Record(entries) =>
        SortedFine(entries);
        SortedFine(b.entries);
        SameRecordPrints(a, b);
        RecordPrints(entries);
        RecordPrints(b.entries);
      case _ =>
    }
  }

  lemma {:induction false} SameRecordPrints(a: Value, b: Value)
    requires a.Record? && Same(a, b) && DistinctKeys(a.entries) && DistinctKeys(b.entries)
    requires AllEntriesFine(SortEntries(a.entries)) && AllEntriesFine(SortEntries(b.entries))
    ensures PrintedEntries(SortEntries(a.entries)) == PrintedEntries(SortEntries(b.entries))
    decreases a, 0
  {
    var sa, sb := SortEntries(a.entries), SortEntries(b.entries);
    SortedKeysAgree(a.entries, b.entries);
    assert |Keys(sa)| == |Keys(sb)|;
    forall i | 0 <= i < |sa| ensures PrintedEntry(sa[i]) == PrintedEntry(sb[i]) {
      assert Keys(sa)[i] == Keys(sb)[i];
      assert sa[i] in a.entries && sb[i] in b.entries;
      SamePrints(sa[i].1, sb[i].1);
    }
  }

  // -------------------------------------------------------------------------
  // main results
  // -------------------------------------------------------------------------

  /** Two JSON values have one canonical text exactly when they are the same value up to the order of keys. */
  lemma CanonicalIffSame(a: Value, b: Value)
    requires WellFormed(a) && WellFormed(b) && IsJson(a)
    ensures CanonicalJson(a) == CanonicalJson(b) <==> IsJson(b) && Same(a, b)
  {
    if IsJson(b) {
      if Print(a) == Print(b) {
        assert Print(a) + [] == Print(b) + [];
        ValueParse(a, b, [], []);
      }
      if Same(a, b) {
        SamePrints(a, b);
      }
    }
  }

  lemma {:induction false} SameAsItself(v: Value)
    requires WellFormed(v)
    ensures Same(v, v)
    decreases v
  {
    match v {
      case List(items) =>
        forall i | 0 <= i < |items| ensures Same(items[i], items[i]) { SameAsItself(items[i]); }
      case Record(entries) =>
        forall i | 0 <= i < |entries| ensures Same(entries[i].1, entries[i].1) { SameAsItself(entries[i].1); }
      case _ =>
    }
  }

  /** JSONB may hand back the entries of an object in any order: the text, and so the digest, does not change. */
  lemma EntryOrderIsForgotten(es: seq<Entry>, fs: seq<Entry>)
    requires WellFormed(Record(es)) && multiset(es) == multiset(fs)
    ensures CanonicalJson(Record(es)) == CanonicalJson(Record(fs))
  {
    SameElements(es, fs);
    assert WellFormed(Record(fs)) by { RearrangedDistinct(es, fs); assert forall j :: 0 <= j < |fs| ==> fs[j] in es; }
    forall i, j | 0 <= i < |es| && 0 <= j < |fs| && es[i].0 == fs[j].0 ensures Same(es[i].1, fs[j].1) {
      assert fs[j] in es;
      SameAsItself(es[i].1);
    }
    assert forall i :: 0 <= i < |es| ==> es[i] in fs;
    assert forall j :: 0 <= j < |fs| ==> fs[j] in es;
    assert Same(Record(es), Record(fs));
    assert IsJson(Record(es)) <==> IsJson(Record(fs));
    if IsJson(Record(es)) {
      CanonicalIffSame(Record(es), Record(fs));
    }
  }
}
