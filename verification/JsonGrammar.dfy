// The JSON grammar as syntax trees, and the proof that the scanner accepts exactly its duplicate-free texts.
module JsonGrammar {
  import opened Basics
  import opened JsonScanner

  // ---- Syntax trees (sections 2 to 7 of RFC 8259) ----

  datatype Piece = Plain(unit: Unit) | Escape(unit: Unit) | Unicode(hex: Text)

  datatype Exponent = Exponent(mark: Unit, sign: Text, digits: Text)

  /** An empty fraction stands for none. */
  datatype Number = Number(minus: bool, whole: Text, fraction: Text, exponent: Option<Exponent>)

  datatype Json =
    | JString(pieces: seq<Piece>)
    | JNumber(number: Number)
    | JTrue
    | JFalse
    | JNull
    | JArray(space: Text, items: seq<Item>)
    | JObject(space: Text, members: seq<Member>)

  datatype Item = Item(before: Text, value: Json, after: Text)

  datatype Member = Member(before: Text, key: seq<Piece>, colon: Text, item: Item)

  // ---- Printing ----

  function PrintPiece(p: Piece): Text {
    match p
    case Plain(u) => [u]
    case Escape(u) => [BACKSLASH, u]
    case Unicode(h) => [BACKSLASH, LOWER_U] + h
  }

  function PrintPieces(ps: seq<Piece>): Text {
    if ps == [] then [] else PrintPiece(ps[0]) + PrintPieces(ps[1..])
  }

  function PrintString(ps: seq<Piece>): Text {
    [QUOTE] + (PrintPieces(ps) + [QUOTE])
  }

  function PrintFraction(digits: Text): Text {
    if digits == [] then [] else [DOT] + digits
  }

  function PrintExponent(e: Option<Exponent>): Text {
    if e.None? then [] else [e.value.mark] + e.value.sign + e.value.digits
  }

  function PrintNumber(n: Number): Text {
    (if n.minus then [MINUS] else []) + (n.whole + (PrintFraction(n.fraction) + PrintExponent(n.exponent)))
  }

  function Print(j: Json): Text {
    match j
    case JString(pieces) => PrintString(pieces)
    case JNumber(number) => PrintNumber(number)
    case JTrue => TRUE
    case JFalse => FALSE
    case JNull => NULL
    case JArray(space, items) => [OPEN_BRACKET] + ((if items == [] then space else PrintItems(items)) + [CLOSE_BRACKET])
    case JObject(space, members) => [OPEN_BRACE] + ((if members == [] then space else PrintMembers(members)) + [CLOSE_BRACE])
  }

  function PrintItem(i: Item): Text {
    i.before + (Print(i.value) + i.after)
  }

  function PrintItems(items: seq<Item>): Text {
    if items == [] then []
    else if |items| == 1 then PrintItem(items[0])
    else PrintItem(items[0]) + ([COMMA] + PrintItems(items[1..]))
  }

  function PrintMember(m: Member): Text {
    m.before + (PrintString(m.key) + (m.colon + ([COLON] + PrintItem(m.item))))
  }

  function PrintMembers(members: seq<Member>): Text {
    if members == [] then []
    else if |members| == 1 then PrintMember(members[0])
    else PrintMember(members[0]) + ([COMMA] + PrintMembers(members[1..]))
  }

  // ---- Well-formed trees with distinct names ----

  predicate Spaces(s: Text) {
    forall u <- s :: IsSpace(u)
  }

  predicate Digits(s: Text) {
    s != [] && forall u <- s :: IsDigit(u)
  }

  predicate ValidPiece(p: Piece) {
    match p
    case Plain(u) => u >= 0x20 && u != QUOTE && u != BACKSLASH
    case Escape(u) => u in ESCAPES
    case Unicode(h) => |h| == 4 && forall u <- h :: IsHex(u)
  }

  function DecodePiece(p: Piece): Unit
    requires ValidPiece(p)
  {
    match p
    case Plain(u) => u
    case Escape(u) => ESCAPES[u]
    case Unicode(h) => UnitOf(h)
  }

  predicate ValidString(ps: seq<Piece>) {
    forall p <- ps :: ValidPiece(p)
  }

  function Decode(ps: seq<Piece>): Text
    requires ValidString(ps)
  {
    if ps == [] then [] else [DecodePiece(ps[0])] + Decode(ps[1..])
  }

  predicate ValidNumber(n: Number) {
    && Digits(n.whole) && (n.whole[0] == ZERO ==> |n.whole| == 1)
    && (n.fraction != [] ==> Digits(n.fraction))
    && (n.exponent.Some? ==>
          && IsExponent(n.exponent.value.mark) && Digits(n.exponent.value.digits)
          && (n.exponent.value.sign == [] || (|n.exponent.value.sign| == 1 && IsSign(n.exponent.value.sign[0]))))
  }

  predicate WellFormed(j: Json) {
    match j
    case JString(pieces) => ValidString(pieces)
    case JNumber(number) => ValidNumber(number)
    case JArray(space, items) => Spaces(space) && ItemsFormed(items)
    case JObject(space, members) => Spaces(space) && MembersFormed(members, {})
    case _ => true
  }

  predicate ItemFormed(i: Item) {
    Spaces(i.before) && Spaces(i.after) && WellFormed(i.value)
  }

  predicate ItemsFormed(items: seq<Item>) {
    items == [] || (ItemFormed(items[0]) && ItemsFormed(items[1..]))
  }

  /** Well-formed members whose decoded names are distinct from each other and from the names before them. */
  predicate MembersFormed(members: seq<Member>, keys: set<Text>) {
    members == [] ||
    var m := members[0];
    && Spaces(m.before) && ValidString(m.key) && Spaces(m.colon) && ItemFormed(m.item)
    && Decode(m.key) !in keys
    && MembersFormed(members[1..], keys + {Decode(m.key)})
  }

  ghost predicate IsDocument(text: Text) {
    exists before, j, after :: Spaces(before) && Spaces(after) && WellFormed(j) && text == before + (Print(j) + after)
  }

  // ---- Every printed tree is accepted ----

  lemma Associates(a: Text, b: Text, c: Text)
    ensures (a + b) + c == a + (b + c)
  {
  }

  lemma {:induction false} SpaceSkipped(space: Text, s: Text)
    requires Spaces(space)
    ensures SkipSpace(space + s) == SkipSpace(s)
  {
    if space == [] {
      assert space + s == s;
    } else {
      assert (space + s)[1..] == space[1..] + s;
      SpaceSkipped(space[1..], s);
    }
  }

  lemma {:induction false} StringScanned(ps: seq<Piece>, suffix: Text)
    requires ValidString(ps)
    ensures ScanTail(PrintPieces(ps) + ([QUOTE] + suffix)) == Some(Scanned(Decode(ps), suffix))
  {
    hide ScanTail, PrintPiece, ValidPiece, DecodePiece;
    if ps == [] {
      assert [QUOTE] + suffix == PrintPieces(ps) + ([QUOTE] + suffix);
      EmptyScanned(suffix);
    } else {
      var rest := PrintPieces(ps[1..]) + ([QUOTE] + suffix);
      assert ps[0] in ps;
      StringScanned(ps[1..], suffix);
      PieceScanned(ps[0], rest);
      Associates(PrintPiece(ps[0]), PrintPieces(ps[1..]), [QUOTE] + suffix);
    }
  }

  lemma EmptyScanned(suffix: Text)
    ensures ScanTail([QUOTE] + suffix) == Some(Scanned([], suffix))
  {
  }

  lemma PieceScanned(p: Piece, rest: Text)
    requires ValidPiece(p) && ScanTail(rest).Some?
    ensures ScanTail(PrintPiece(p) + rest)
         == Some(Scanned([DecodePiece(p)] + ScanTail(rest).value.key, ScanTail(rest).value.rest))
  {
    var s := PrintPiece(p) + rest;
    match p
    case Plain(_) => assert s[1..] == rest;
    case Escape(_) => assert s[2..] == rest;
    case Unicode(h) =>
      assert s[6..] == rest && s[2..6] == h;
      assert h[0] in h && h[1] in h && h[2] in h && h[3] in h;
  }

  lemma QuotedScanned(ps: seq<Piece>, suffix: Text)
    requires ValidString(ps)
    ensures ScanString(PrintString(ps) + suffix) == Some(Scanned(Decode(ps), suffix))
  {
    hide PrintPieces, ScanTail, Decode;
    StringScanned(ps, suffix);
    Associates(PrintPieces(ps), [QUOTE], suffix);
    Associates([QUOTE], PrintPieces(ps) + [QUOTE], suffix);
  }

  /** A text after which no number goes on. */
  predicate Stops(s: Text) {
    s == [] || IsSpace(s[0]) || s[0] == COMMA || s[0] == CLOSE_BRACKET || s[0] == CLOSE_BRACE
  }

  lemma {:induction false} DigitsSkipped(digits: Text, s: Text)
    requires forall u <- digits :: IsDigit(u)
    requires s == [] || !IsDigit(s[0])
    ensures SkipDigits(digits + s) == s
  {
    if digits == [] {
      assert digits + s == s;
    } else {
      assert (digits + s)[1..] == digits[1..] + s;
      DigitsSkipped(digits[1..], s);
    }
  }

  lemma ExponentSkipped(e: Option<Exponent>, s: Text)
    requires e.Some? ==> IsExponent(e.value.mark) && Digits(e.value.digits)
    requires e.Some? ==> e.value.sign == [] || (|e.value.sign| == 1 && IsSign(e.value.sign[0]))
    requires Stops(s)
    ensures SkipExponent(PrintExponent(e) + s) == s
  {
    hide SkipDigits, Stops;
    var t := PrintExponent(e) + s;
    if e.Some? {
      var digits := e.value.digits + s;
      StoppedDigits(e.value.digits, s);
      if e.value.sign == [] {
        assert t == [e.value.mark] + digits;
        assert t[1..] == digits;
      } else {
        assert t == [e.value.mark, e.value.sign[0]] + digits;
        assert t[2..] == digits;
        assert !IsDigit(t[1]);
      }
    } else {
      StoppedExponent(s);
      assert t == s;
    }
  }

  lemma StoppedDigits(digits: Text, s: Text)
    requires Digits(digits) && Stops(s)
    ensures SkipDigits(digits + s) == s && IsDigit((digits + s)[0])
  {
    DigitsSkipped(digits, s);
  }

  lemma StoppedExponent(s: Text)
    requires Stops(s)
    ensures SkipExponent(s) == s
  {
  }

  lemma FractionSkipped(digits: Text, s: Text)
    requires digits != [] ==> Digits(digits)
    requires s == [] || (!IsDigit(s[0]) && s[0] != DOT)
    ensures SkipFraction(PrintFraction(digits) + s) == s
  {
    var t := PrintFraction(digits) + s;
    if digits == [] {
      assert t == s;
    } else {
      assert t[1..] == digits + s;
      DigitsSkipped(digits, s);
    }
  }

  lemma WholeSkipped(whole: Text, s: Text)
    requires Digits(whole) && (whole[0] == ZERO ==> |whole| == 1)
    requires s == [] || !IsDigit(s[0])
    ensures ScanWhole(whole + s) == Some(s)
  {
    assert (whole + s)[1..] == whole[1..] + s;
    DigitsSkipped(whole[1..], s);
    if |whole| == 1 {
      assert whole[1..] + s == s;
    }
  }

  lemma NumberText(n: Number, s: Text)
    ensures PrintNumber(n) + s
         == (if n.minus then [MINUS] else []) + (n.whole + (PrintFraction(n.fraction) + (PrintExponent(n.exponent) + s)))
  {
    hide PrintFraction, PrintExponent;
    var f, e := PrintFraction(n.fraction), PrintExponent(n.exponent);
    Associates(f, e, s);
    Associates(n.whole, f + e, s);
    Associates(if n.minus then [MINUS] else [], n.whole + (f + e), s);
  }

  lemma SignSkipped(minus: bool, s: Text)
    requires s != [] && IsDigit(s[0])
    ensures var t := (if minus then [MINUS] else []) + s;
            (if t != [] && t[0] == MINUS then t[1..] else t) == s
  {
    if !minus {
      assert [] + s == s;
    }
  }

  lemma NumberScanned(n: Number, s: Text)
    requires ValidNumber(n) && Stops(s)
    ensures ScanNumber(PrintNumber(n) + s) == Some(s)
  {
    var exponent := PrintExponent(n.exponent) + s;
    var fraction := PrintFraction(n.fraction) + exponent;
    ExponentSkipped(n.exponent, s);
    FractionSkipped(n.fraction, exponent);
    WholeSkipped(n.whole, fraction);
    SignSkipped(n.minus, n.whole + fraction);
    NumberText(n, s);
    hide PrintNumber, ScanWhole, SkipFraction, SkipExponent;
  }

  /** How the text of a value can begin. */
  predicate Begins(u: Unit) {
    || u == QUOTE || u == OPEN_BRACE || u == OPEN_BRACKET || u == MINUS || IsDigit(u)
    || u == TRUE[0] || u == FALSE[0] || u == NULL[0]
  }

  lemma PrintBegins(j: Json)
    requires WellFormed(j)
    ensures Print(j) != [] && Begins(Print(j)[0])
    ensures j.JNumber? <==> Print(j)[0] == MINUS || IsDigit(Print(j)[0])
  {
  }

  lemma TokenScanned(j: Json, s: Text)
    requires WellFormed(j) && Stops(s) && !j.JArray? && !j.JObject?
    ensures ScanValue(Print(j) + s) == Some(s)
  {
    PrintBegins(j);
    var t := Print(j) + s;
    assert SkipSpace(t) == t;
    match j
    case JString(pieces) => QuotedScanned(pieces, s);
    case JNumber(number) => NumberScanned(number, s);
    case JTrue => assert t[|TRUE|..] == s;
    case JFalse => assert t[|FALSE|..] == s && t[0] != TRUE[0];
    case JNull => assert t[|NULL|..] == s && t[0] != TRUE[0] && t[0] != FALSE[0];
  }

  lemma ValueAfterSpace(space: Text, s: Text)
    requires Spaces(space)
    ensures ScanValue(space + s) == ScanValue(s)
  {
    SpaceSkipped(space, s);
  }

  lemma SpaceStops(space: Text, s: Text)
    requires Spaces(space) && Stops(s)
    ensures Stops(space + s)
  {
    if space != [] {
      assert space[0] in space;
    }
  }

  lemma {:induction false} ValueScanned(j: Json, s: Text)
    requires WellFormed(j) && Stops(s)
    ensures ScanValue(Print(j) + s) == Some(s)
    decreases j, 1
  {
    match j
    case JArray(space, items) =>
      ArrayText(space, items, s);
      if items == [] {
        SpaceSkipped(space, [CLOSE_BRACKET] + s);
      } else {
        ItemsScanned(items, s);
      }
    case JObject(space, members) =>
      ObjectText(space, members, s);
      if members == [] {
        SpaceSkipped(space, [CLOSE_BRACE] + s);
      } else {
        MembersScanned(members, s, {});
        MembersBegin(members, [CLOSE_BRACE] + s);
      }
    case _ => TokenScanned(j, s);
  }

  lemma ArrayText(space: Text, items: seq<Item>, s: Text)
    ensures var inside := (if items == [] then space else PrintItems(items)) + ([CLOSE_BRACKET] + s);
            ScanValue(Print(JArray(space, items)) + s) == ScanArray(inside)
  {
    hide PrintItems, ScanArray, ScanLiteral, ScanNumber, ScanString;
    var inside := if items == [] then space else PrintItems(items);
    Associates(inside, [CLOSE_BRACKET], s);
    Associates([OPEN_BRACKET], inside + [CLOSE_BRACKET], s);
    var t := [OPEN_BRACKET] + (inside + ([CLOSE_BRACKET] + s));
    assert SkipSpace(t) == t && t[1..] == inside + ([CLOSE_BRACKET] + s);
  }

  lemma ObjectText(space: Text, members: seq<Member>, s: Text)
    ensures var inside := (if members == [] then space else PrintMembers(members)) + ([CLOSE_BRACE] + s);
            ScanValue(Print(JObject(space, members)) + s) == ScanObject(inside)
  {
    hide PrintMembers, ScanObject, ScanLiteral, ScanNumber, ScanString;
    var inside := if members == [] then space else PrintMembers(members);
    Associates(inside, [CLOSE_BRACE], s);
    Associates([OPEN_BRACE], inside + [CLOSE_BRACE], s);
    var t := [OPEN_BRACE] + (inside + ([CLOSE_BRACE] + s));
    assert SkipSpace(t) == t && t[1..] == inside + ([CLOSE_BRACE] + s);
  }

  /** A value between spaces, up to the punctuation behind it. */
  lemma {:induction false} ItemScanned(i: Item, s: Text)
    requires ItemFormed(i) && s != [] && Stops(s) && !IsSpace(s[0])
    ensures ScanValue(PrintItem(i) + s).Some? && SkipSpace(ScanValue(PrintItem(i) + s).value) == s
    decreases i, 1
  {
    SpaceStops(i.after, s);
    ValueScanned(i.value, i.after + s);
    ValueAfterSpace(i.before, Print(i.value) + (i.after + s));
    assert PrintItem(i) + s == i.before + (Print(i.value) + (i.after + s));
    SpaceSkipped(i.after, s);
  }

  lemma ElementsAfterSpace(s: Text)
    ensures ScanElements(SkipSpace(s)) == ScanElements(s)
  {
    assert SkipSpace(SkipSpace(s)) == SkipSpace(s);
    assert ScanValue(SkipSpace(s)) == ScanValue(s);
  }

  lemma ItemBegins(i: Item, s: Text)
    requires ItemFormed(i)
    ensures var t := SkipSpace(PrintItem(i) + s); t != [] && Begins(t[0])
  {
    PrintBegins(i.value);
    SpaceSkipped(i.before, Print(i.value) + (i.after + s));
    assert PrintItem(i) + s == i.before + (Print(i.value) + (i.after + s));
    var v := Print(i.value) + (i.after + s);
    assert SkipSpace(v) == v;
  }

  lemma {:induction false} ItemsScanned(items: seq<Item>, s: Text)
    requires items != [] && ItemsFormed(items)
    ensures ScanElements(PrintItems(items) + ([CLOSE_BRACKET] + s)) == Some(s)
    ensures ScanArray(PrintItems(items) + ([CLOSE_BRACKET] + s)) == Some(s)
    decreases items, 0
  {
    var first := items[0];
    var behind := if |items| == 1 then [CLOSE_BRACKET] + s
                  else [COMMA] + (PrintItems(items[1..]) + ([CLOSE_BRACKET] + s));
    var t := PrintItems(items) + ([CLOSE_BRACKET] + s);
    assert t == PrintItem(first) + behind;
    ItemScanned(first, behind);
    ItemBegins(first, behind);
    if |items| > 1 {
      ItemsScanned(items[1..], s);
      assert behind[1..] == PrintItems(items[1..]) + ([CLOSE_BRACKET] + s);
    } else {
      assert behind[1..] == s;
    }
    ElementsAfterSpace(t);
  }

  lemma MembersBegin(members: seq<Member>, s: Text)
    requires members != [] && Spaces(members[0].before)
    ensures var t := SkipSpace(PrintMembers(members) + s); t != [] && t[0] == QUOTE
    ensures ScanMembers(SkipSpace(PrintMembers(members) + s), {}) == ScanMembers(PrintMembers(members) + s, {})
  {
    hide PrintString, PrintItem, Decode, ValidString, ItemFormed;
    var m := members[0];
    var more := if |members| == 1 then s else [COMMA] + (PrintMembers(members[1..]) + s);
    var name := PrintString(m.key) + ((m.colon + ([COLON] + PrintItem(m.item))) + more);
    Associates(PrintString(m.key), m.colon + ([COLON] + PrintItem(m.item)), more);
    Associates(m.before, PrintString(m.key) + (m.colon + ([COLON] + PrintItem(m.item))), more);
    if |members| > 1 {
      Associates([COMMA], PrintMembers(members[1..]), s);
      Associates(PrintMember(m), [COMMA] + PrintMembers(members[1..]), s);
    }
    assert PrintMembers(members) + s == m.before + name;
    QuoteFirst(m.key, (m.colon + ([COLON] + PrintItem(m.item))) + more);
    SpaceSkipped(m.before, name);
    assert SkipSpace(name) == name;
  }

  lemma QuoteFirst(key: seq<Piece>, s: Text)
    ensures (PrintString(key) + s)[0] == QUOTE
  {
  }

  lemma {:induction false} MemberScanned(m: Member, s: Text, keys: set<Text>)
    requires Spaces(m.before) && ValidString(m.key) && Spaces(m.colon) && ItemFormed(m.item) && Decode(m.key) !in keys
    requires s != [] && Stops(s) && !IsSpace(s[0])
    ensures ScanMember(PrintMember(m) + s, keys) == Some(Scanned(Decode(m.key), s))
    decreases m, 1
  {
    var item := PrintItem(m.item) + s;
    var colon := m.colon + ([COLON] + item);
    var name := PrintString(m.key) + colon;
    assert PrintMember(m) + s == m.before + name;
    SpaceSkipped(m.before, name);
    assert SkipSpace(name) == name;
    QuotedScanned(m.key, colon);
    SpaceSkipped(m.colon, [COLON] + item);
    assert ([COLON] + item)[1..] == item;
    ItemScanned(m.item, s);
  }

  lemma {:induction false} MembersScanned(members: seq<Member>, s: Text, keys: set<Text>)
    requires members != [] && MembersFormed(members, keys)
    ensures ScanMembers(PrintMembers(members) + ([CLOSE_BRACE] + s), keys) == Some(s)
    decreases members, 0
  {
    hide PrintMember, ScanMember, Decode, ValidString, ItemFormed;
    var first := members[0];
    var behind := if |members| == 1 then [CLOSE_BRACE] + s
                  else [COMMA] + (PrintMembers(members[1..]) + ([CLOSE_BRACE] + s));
    var t := PrintMembers(members) + ([CLOSE_BRACE] + s);
    if |members| > 1 {
      Associates([COMMA], PrintMembers(members[1..]), [CLOSE_BRACE] + s);
      Associates(PrintMember(first), [COMMA] + PrintMembers(members[1..]), [CLOSE_BRACE] + s);
    }
    assert t == PrintMember(first) + behind;
    MemberScanned(first, behind, keys);
    if |members| > 1 {
      MembersScanned(members[1..], s, keys + {Decode(first.key)});
      assert behind[1..] == PrintMembers(members[1..]) + ([CLOSE_BRACE] + s);
    } else {
      assert behind[1..] == s;
    }
  }

  /** A duplicate-free value printed as JSON, with any spacing, is always accepted. */
  lemma PrintedIsAccepted(before: Text, j: Json, after: Text)
    requires Spaces(before) && Spaces(after) && WellFormed(j)
    ensures Accepts(before + (Print(j) + after))
  {
    SpaceStops(after, []);
    assert after + [] == after;
    ValueScanned(j, after);
    ValueAfterSpace(before, Print(j) + after);
    SpaceSkipped(after, []);
  }

  // ---- Every accepted text is a printed tree ----

  lemma {:induction false} SplitSpace(s: Text) returns (space: Text)
    ensures Spaces(space) && s == space + SkipSpace(s)
  {
    if s != [] && IsSpace(s[0]) {
      var more := SplitSpace(s[1..]);
      space := [s[0]] + more;
    } else {
      space := [];
    }
  }

  lemma {:induction false} SplitTail(s: Text) returns (ps: seq<Piece>)
    requires ScanTail(s).Some?
    ensures ValidString(ps) && ScanTail(s).value.key == Decode(ps)
    ensures s == PrintPieces(ps) + ([QUOTE] + ScanTail(s).value.rest)
    decreases |s|
  {
    if s[0] == QUOTE {
      ps := [];
    } else {
      var p := if s[0] != BACKSLASH then Plain(s[0]) else if s[1] == LOWER_U then Unicode(s[2..6]) else Escape(s[1]);
      var length := |PrintPiece(p)|;
      var more := SplitTail(s[length..]);
      ps := [p] + more;
      assert s == PrintPiece(p) + s[length..];
    }
  }

  lemma SplitString(s: Text) returns (ps: seq<Piece>)
    requires ScanString(s).Some?
    ensures ValidString(ps) && ScanString(s).value.key == Decode(ps)
    ensures s == PrintString(ps) + ScanString(s).value.rest
  {
    ps := SplitTail(s[1..]);
  }

  lemma {:induction false} SplitDigits(s: Text) returns (digits: Text)
    ensures (forall u <- digits :: IsDigit(u)) && s == digits + SkipDigits(s)
    ensures s != [] && IsDigit(s[0]) ==> digits != []
  {
    if s != [] && IsDigit(s[0]) {
      var more := SplitDigits(s[1..]);
      digits := [s[0]] + more;
    } else {
      digits := [];
    }
  }

  lemma SplitWhole(s: Text) returns (whole: Text)
    requires ScanWhole(s).Some?
    ensures Digits(whole) && (whole[0] == ZERO ==> |whole| == 1) && s == whole + ScanWhole(s).value
  {
    if s[0] == ZERO {
      whole := [s[0]];
    } else {
      var more := SplitDigits(s[1..]);
      whole := [s[0]] + more;
    }
  }

  lemma SplitFraction(s: Text) returns (digits: Text)
    ensures (digits != [] ==> Digits(digits)) && s == PrintFraction(digits) + SkipFraction(s)
  {
    if |s| > 1 && s[0] == DOT && IsDigit(s[1]) {
      digits := SplitDigits(s[1..]);
    } else {
      digits := [];
    }
  }

  lemma SplitExponent(s: Text) returns (e: Option<Exponent>)
    ensures e.Some? ==> IsExponent(e.value.mark) && Digits(e.value.digits)
    ensures e.Some? ==> e.value.sign == [] || (|e.value.sign| == 1 && IsSign(e.value.sign[0]))
    ensures s == PrintExponent(e) + SkipExponent(s)
  {
    if |s| > 1 && IsExponent(s[0]) && IsDigit(s[1]) {
      var digits := SplitDigits(s[1..]);
      e := Some(Exponent(s[0], [], digits));
      assert s == [s[0]] + s[1..];
    } else if |s| > 2 && IsExponent(s[0]) && IsSign(s[1]) && IsDigit(s[2]) {
      var digits := SplitDigits(s[2..]);
      e := Some(Exponent(s[0], [s[1]], digits));
      assert s == [s[0]] + [s[1]] + s[2..];
    } else {
      e := None;
    }
  }

  lemma SplitNumber(s: Text) returns (n: Number)
    requires ScanNumber(s).Some?
    ensures ValidNumber(n) && s == PrintNumber(n) + ScanNumber(s).value
  {
    var minus := s != [] && s[0] == MINUS;
    var unsigned := if minus then s[1..] else s;
    var whole := SplitWhole(unsigned);
    var rest := ScanWhole(unsigned).value;
    var fraction := SplitFraction(rest);
    var exponent := SplitExponent(SkipFraction(rest));
    n := Number(minus, whole, fraction, exponent);
    NumberText(n, SkipExponent(SkipFraction(rest)));
    hide PrintNumber, ScanWhole, SkipFraction, SkipExponent, PrintFraction, PrintExponent;
    assert s == (if minus then [MINUS] else []) + unsigned;
  }

  /** A scanned value is some well-formed tree behind some space. */
  lemma {:induction false} SplitValue(s: Text) returns (space: Text, j: Json)
    requires ScanValue(s).Some?
    ensures Spaces(space) && WellFormed(j) && s == space + (Print(j) + ScanValue(s).value)
    decreases |s|, 3
  {
    hide ScanObject, ScanArray, ScanLiteral, ScanNumber, ScanString, Print, WellFormed;
    space := SplitSpace(s);
    var t := SkipSpace(s);
    if t[0] == OPEN_BRACE {
      j := SplitObject(t[1..]);
      assert t == [OPEN_BRACE] + t[1..];
    } else if t[0] == OPEN_BRACKET {
      j := SplitArray(t[1..]);
      assert t == [OPEN_BRACKET] + t[1..];
    } else {
      j := SplitToken(t);
    }
  }

  lemma SplitToken(t: Text) returns (j: Json)
    requires t != [] && t[0] != OPEN_BRACE && t[0] != OPEN_BRACKET
    requires (if t[0] == QUOTE then ScanString(t).Some? else ScanLiteral(t).Some? || ScanNumber(t).Some?)
    ensures WellFormed(j)
    ensures t == Print(j) + (if t[0] == QUOTE then ScanString(t).value.rest
                             else if ScanLiteral(t).Some? then ScanLiteral(t).value else ScanNumber(t).value)
  {
    if t[0] == QUOTE {
      var pieces := SplitString(t);
      j := JString(pieces);
    } else if ScanLiteral(t).Some? {
      j := if TRUE <= t then JTrue else if FALSE <= t then JFalse else JNull;
      assert t == Print(j) + t[|Print(j)|..];
    } else {
      var n := SplitNumber(t);
      j := JNumber(n);
    }
  }

  lemma {:induction false} SplitArray(s: Text) returns (j: Json)
    requires ScanArray(s).Some?
    ensures j.JArray? && WellFormed(j) && [OPEN_BRACKET] + s == Print(j) + ScanArray(s).value
    decreases |s|, 5
  {
    hide ScanElements, ItemFormed, PrintItem;
    var space := SplitSpace(s);
    var t := SkipSpace(s);
    if t != [] && t[0] == CLOSE_BRACKET {
      j := JArray(space, []);
      assert t == [CLOSE_BRACKET] + t[1..];
      PrintedArray(space, [], t[1..]);
    } else {
      var items := SplitElements(t);
      var tail := [CLOSE_BRACKET] + ScanArray(s).value;
      var all := [items[0].(before := space + items[0].before)] + items[1..];
      Rebefore(items, space);
      Associates(space, PrintItems(items), tail);
      j := JArray([], all);
      PrintedArray([], all, ScanArray(s).value);
    }
  }

  lemma PrintedArray(space: Text, items: seq<Item>, s: Text)
    ensures Print(JArray(space, items)) + s
         == [OPEN_BRACKET] + ((if items == [] then space else PrintItems(items)) + ([CLOSE_BRACKET] + s))
  {
    hide PrintItems;
    var inside := if items == [] then space else PrintItems(items);
    Associates(inside, [CLOSE_BRACKET], s);
    Associates([OPEN_BRACKET], inside + [CLOSE_BRACKET], s);
  }

  /** Space in front of a list of items belongs to the first of them. */
  lemma Rebefore(items: seq<Item>, space: Text)
    requires items != [] && ItemsFormed(items) && Spaces(space)
    ensures var all := [items[0].(before := space + items[0].before)] + items[1..];
            ItemsFormed(all) && PrintItems(all) == space + PrintItems(items)
  {
    hide Print, WellFormed;
    var i := items[0];
    var first := i.(before := space + i.before);
    var all := [first] + items[1..];
    assert all[1..] == items[1..];
    assert forall u <- space + i.before :: u in space || u in i.before;
    Associates(space, i.before, Print(i.value) + i.after);
    if |items| > 1 {
      Associates(space, PrintItem(i), [COMMA] + PrintItems(items[1..]));
    }
  }

  /** One more element in front of a printed list. */
  lemma ElementText(first: Item, more: seq<Item>, tail: Text)
    requires more != []
    ensures PrintItem(first) + ([COMMA] + (PrintItems(more) + tail)) == PrintItems([first] + more) + tail
  {
    hide PrintItem;
    assert ([first] + more)[1..] == more;
    Associates([COMMA], PrintItems(more), tail);
    Associates(PrintItem(first), [COMMA] + PrintItems(more), tail);
  }

  lemma ItemText(i: Item, end: Text)
    ensures PrintItem(i) + end == i.before + (Print(i.value) + (i.after + end))
  {
    hide Print;
    Associates(Print(i.value), i.after, end);
    Associates(i.before, Print(i.value) + i.after, end);
  }

  lemma {:induction false} SplitElements(s: Text) returns (items: seq<Item>)
    requires ScanElements(s).Some?
    ensures items != [] && ItemsFormed(items)
    ensures s == PrintItems(items) + ([CLOSE_BRACKET] + ScanElements(s).value)
    decreases |s|, 4
  {
    var before, j := SplitValue(s);
    var behind := ScanValue(s).value;
    var after := SplitSpace(behind);
    var end := SkipSpace(behind);
    var first := Item(before, j, after);
    ItemText(first, end);
    hide ScanValue, SkipSpace, Print, PrintItem, WellFormed;
    if end[0] == CLOSE_BRACKET {
      items := [first];
      assert end == [CLOSE_BRACKET] + end[1..];
      OneItem(first);
    } else {
      var more := SplitElements(end[1..]);
      items := [first] + more;
      assert items[1..] == more;
      assert end == [COMMA] + end[1..];
      ElementText(first, more, [CLOSE_BRACKET] + ScanElements(s).value);
    }
  }

  lemma OneItem(i: Item)
    ensures PrintItems([i]) == PrintItem(i)
    ensures ItemFormed(i) ==> ItemsFormed([i])
  {
    hide PrintItem, ItemFormed;
    assert ItemsFormed([]);
    assert [i][1..] == [];
  }

  lemma {:induction false} SplitObject(s: Text) returns (j: Json)
    requires ScanObject(s).Some?
    ensures j.JObject? && WellFormed(j) && [OPEN_BRACE] + s == Print(j) + ScanObject(s).value
    decreases |s|, 2
  {
    hide ScanMembers, PrintMember, Decode, ValidString, ItemFormed;
    var space := SplitSpace(s);
    var t := SkipSpace(s);
    if t != [] && t[0] == CLOSE_BRACE {
      j := JObject(space, []);
      assert t == [CLOSE_BRACE] + t[1..];
      PrintedObject(space, [], t[1..]);
    } else {
      var members := SplitMembers(t, {});
      var tail := [CLOSE_BRACE] + ScanObject(s).value;
      var all := [members[0].(before := space + members[0].before)] + members[1..];
      RebeforeMember(members, space);
      Associates(space, PrintMembers(members), tail);
      j := JObject([], all);
      PrintedObject([], all, ScanObject(s).value);
    }
  }

  lemma PrintedObject(space: Text, members: seq<Member>, s: Text)
    ensures Print(JObject(space, members)) + s
         == [OPEN_BRACE] + ((if members == [] then space else PrintMembers(members)) + ([CLOSE_BRACE] + s))
  {
    hide PrintMembers;
    var inside := if members == [] then space else PrintMembers(members);
    Associates(inside, [CLOSE_BRACE], s);
    Associates([OPEN_BRACE], inside + [CLOSE_BRACE], s);
  }

  lemma RebeforeMember(members: seq<Member>, space: Text)
    requires members != [] && MembersFormed(members, {}) && Spaces(space)
    ensures var all := [members[0].(before := space + members[0].before)] + members[1..];
            MembersFormed(all, {}) && PrintMembers(all) == space + PrintMembers(members)
  {
    hide PrintString, PrintItem, ItemFormed, Decode, ValidString;
    var m := members[0];
    var first := m.(before := space + m.before);
    var all := [first] + members[1..];
    assert all[1..] == members[1..];
    assert forall u <- space + m.before :: u in space || u in m.before;
    Associates(space, m.before, PrintString(m.key) + (m.colon + ([COLON] + PrintItem(m.item))));
    if |members| > 1 {
      Associates(space, PrintMember(m), [COMMA] + PrintMembers(members[1..]));
    }
  }

  lemma MemberText(m: Member, end: Text)
    ensures PrintMember(m) + end == m.before + (PrintString(m.key) + (m.colon + ([COLON] + (PrintItem(m.item) + end))))
  {
    hide PrintString, PrintItem;
    Associates([COLON], PrintItem(m.item), end);
    Associates(m.colon, [COLON] + PrintItem(m.item), end);
    Associates(PrintString(m.key), m.colon + ([COLON] + PrintItem(m.item)), end);
    Associates(m.before, PrintString(m.key) + (m.colon + ([COLON] + PrintItem(m.item))), end);
  }

  lemma MoreMembers(m: Member, more: seq<Member>, tail: Text)
    ensures PrintMembers([m]) == PrintMember(m)
    ensures more != [] ==> PrintMember(m) + ([COMMA] + (PrintMembers(more) + tail)) == PrintMembers([m] + more) + tail
  {
    hide PrintMember;
    assert ([m] + more)[1..] == more;
    Associates([COMMA], PrintMembers(more), tail);
    Associates(PrintMember(m), [COMMA] + PrintMembers(more), tail);
  }

  lemma {:induction false} SplitMember(s: Text, keys: set<Text>) returns (m: Member)
    requires ScanMember(s, keys).Some?
    ensures Spaces(m.before) && ValidString(m.key) && Spaces(m.colon) && ItemFormed(m.item)
    ensures Decode(m.key) !in keys && Decode(m.key) == ScanMember(s, keys).value.key
    ensures s == PrintMember(m) + ScanMember(s, keys).value.rest
    decreases |s|, 0
  {
    hide ScanValue, SkipSpace, ScanString, Print, PrintString, PrintItem, WellFormed, Decode, ValidString;
    var before := SplitSpace(s);
    var name := SkipSpace(s);
    var key := SplitString(name);
    var rest := ScanString(name).value.rest;
    var colon := SplitSpace(rest);
    var behind := SkipSpace(rest);
    assert behind == [COLON] + behind[1..];
    var space, j := SplitValue(behind[1..]);
    var after := SplitSpace(ScanValue(behind[1..]).value);
    m := Member(before, key, colon, Item(space, j, after));
    var end := SkipSpace(ScanValue(behind[1..]).value);
    ItemText(m.item, end);
    MemberText(m, end);
  }

  lemma {:induction false} SplitMembers(s: Text, keys: set<Text>) returns (members: seq<Member>)
    requires ScanMembers(s, keys).Some?
    ensures members != [] && MembersFormed(members, keys)
    ensures s == PrintMembers(members) + ([CLOSE_BRACE] + ScanMembers(s, keys).value)
    decreases |s|, 1
  {
    hide ScanMember, PrintMember, WellFormed, ItemFormed, ValidString, Decode;
    var m := SplitMember(s, keys);
    var end := ScanMember(s, keys).value.rest;
    if end[0] == CLOSE_BRACE {
      members := [m];
      assert end == [CLOSE_BRACE] + end[1..];
      MoreMembers(m, [], []);
      assert members[1..] == [];
    } else {
      var more := SplitMembers(end[1..], keys + {Decode(m.key)});
      members := [m] + more;
      assert members[1..] == more;
      assert end == [COMMA] + end[1..];
      MoreMembers(m, more, [CLOSE_BRACE] + ScanMembers(s, keys).value);
    }
  }

  /** The scanner accepts exactly the JSON texts whose objects all have distinct decoded names. */
  lemma ScannerIsExact(text: Text)
    ensures Accepts(text) <==> IsDocument(text)
  {
    if Accepts(text) {
      var before, j := SplitValue(text);
      var after := SplitSpace(ScanValue(text).value);
      assert after + [] == after;
    }
    if IsDocument(text) {
      var before, j, after :| Spaces(before) && Spaces(after) && WellFormed(j) && text == before + (Print(j) + after);
      PrintedIsAccepted(before, j, after);
    }
  }
}
