// Names in JSON texts: what an escape spells, and that a repeated name is refused however it is spelled.
module JsonNames {
  import opened Basics
  import opened JsonScanner
  import opened JsonGrammar

  // ---- Spellings ----

  /** A hexadecimal digit, with letters from the given unit on. */
  function HexDigit(d: nat, letterA: Unit): Unit
    requires d < 16 && (letterA == 0x41 || letterA == 0x61)
  {
    if d < 10 then 0x30 + d else letterA + (d - 10)
  }

  /** The four digits of a unit, the most significant first. */
  function HexText(u: Unit, letterA: Unit): Text
    requires letterA == 0x41 || letterA == 0x61
  {
    [HexDigit(u / 0x1000, letterA), HexDigit(u / 0x100 % 0x10, letterA),
     HexDigit(u / 0x10 % 0x10, letterA), HexDigit(u % 0x10, letterA)]
  }

  lemma HexDigitReads(d: nat, letterA: Unit)
    requires d < 16 && (letterA == 0x41 || letterA == 0x61)
    ensures IsHex(HexDigit(d, letterA)) && HexValue(HexDigit(d, letterA)) == d
  {
  }

  lemma Nibbles(u: Unit)
    ensures u / 0x1000 * 0x1000 + u / 0x100 % 0x10 * 0x100 + u / 0x10 % 0x10 * 0x10 + u % 0x10 == u
  {
    assert u / 0x10 == u / 0x10 / 0x10 * 0x10 + u / 0x10 % 0x10;
    assert u / 0x10 / 0x10 == u / 0x100;
    assert u / 0x100 == u / 0x100 / 0x10 * 0x10 + u / 0x100 % 0x10;
    assert u / 0x100 / 0x10 == u / 0x1000;
  }

  /** Every unit is what its four hexadecimal digits stand for, in small or capital letters. */
  lemma UnicodeReads(u: Unit, letterA: Unit)
    requires letterA == 0x41 || letterA == 0x61
    ensures ValidPiece(Unicode(HexText(u, letterA))) && DecodePiece(Unicode(HexText(u, letterA))) == u
  {
    hide HexDigit, HexValue, IsHex;
    HexDigitReads(u / 0x1000, letterA);
    HexDigitReads(u / 0x100 % 0x10, letterA);
    HexDigitReads(u / 0x10 % 0x10, letterA);
    HexDigitReads(u % 0x10, letterA);
    Nibbles(u);
  }

  function CodeOf(c: char): Unit
    requires c as int < 0x1_0000
  {
    c as int
  }

  /** The named escapes, and no others: quote, backslash and slash stand for themselves, the letters for controls. */
  lemma NamedEscapes(c: char)
    requires c as int < 0x1_0000
    ensures ValidPiece(Escape(CodeOf(c))) <==> c in "\"\\/bfnrt"
    ensures c in "\"\\/" ==> DecodePiece(Escape(CodeOf(c))) == CodeOf(c)
    ensures DecodePiece(Escape(CodeOf('b'))) == 8 && DecodePiece(Escape(CodeOf('t'))) == CodeOf('\t')
    ensures DecodePiece(Escape(CodeOf('n'))) == CodeOf('\n') && DecodePiece(Escape(CodeOf('f'))) == 12
    ensures DecodePiece(Escape(CodeOf('r'))) == CodeOf('\r')
  {
  }

  /** A name with every unit spelled out in digits. */
  function Spelled(name: Text): seq<Piece> {
    if name == [] then [] else [Unicode(HexText(name[0], 0x61))] + Spelled(name[1..])
  }

  /** Every name has a spelling that decodes to it. */
  lemma {:induction false} SpelledReads(name: Text)
    ensures ValidString(Spelled(name)) && Decode(Spelled(name)) == name
    decreases |name|
  {
    hide HexText;
    if name != [] {
      SpelledReads(name[1..]);
      UnicodeReads(name[0], 0x61);
      assert Spelled(name)[1..] == Spelled(name[1..]);
    }
  }

  // ---- Trees whose names may repeat ----

  predicate Shaped(j: Json) {
    match j
    case JString(pieces) => ValidString(pieces)
    case JNumber(number) => ValidNumber(number)
    case JArray(space, items) => Spaces(space) && ItemsShaped(items)
    case JObject(space, members) => Spaces(space) && MembersShaped(members)
    case _ => true
  }

  predicate ItemShaped(i: Item) {
    Spaces(i.before) && Spaces(i.after) && Shaped(i.value)
  }

  predicate ItemsShaped(items: seq<Item>) {
    items == [] || (ItemShaped(items[0]) && ItemsShaped(items[1..]))
  }

  predicate MemberShaped(m: Member) {
    Spaces(m.before) && ValidString(m.key) && Spaces(m.colon) && ItemShaped(m.item)
  }

  predicate MembersShaped(members: seq<Member>) {
    members == [] || (MemberShaped(members[0]) && MembersShaped(members[1..]))
  }

  // ---- A repeated name, however deep, refuses the whole text ----

  lemma {:induction false} ValueRefused(j: Json, s: Text)
    requires Shaped(j) && !WellFormed(j) && Stops(s)
    ensures ScanValue(Print(j) + s) == None
    decreases j, 1
  {
    match j
    case JArray(space, items) =>
      ArrayText(space, items, s);
      ItemsRefused(items, s);
    case JObject(space, members) =>
      ObjectText(space, members, s);
      MembersRefused(members, s, {});
      MembersBegin(members, [CLOSE_BRACE] + s);
      ObjectRefused(members, s);
  }

  lemma ObjectRefused(members: seq<Member>, s: Text)
    requires members != []
    requires ScanMembers(PrintMembers(members) + ([CLOSE_BRACE] + s), {}) == None
    requires var t := SkipSpace(PrintMembers(members) + ([CLOSE_BRACE] + s)); t != [] && t[0] == QUOTE
    requires ScanMembers(SkipSpace(PrintMembers(members) + ([CLOSE_BRACE] + s)), {})
          == ScanMembers(PrintMembers(members) + ([CLOSE_BRACE] + s), {})
    ensures ScanObject(PrintMembers(members) + ([CLOSE_BRACE] + s)) == None
  {
    hide PrintMembers, ScanMembers, SkipSpace;
  }

  lemma {:induction false} ItemRefused(i: Item, s: Text)
    requires ItemShaped(i) && !ItemFormed(i) && s != [] && Stops(s) && !IsSpace(s[0])
    ensures ScanValue(PrintItem(i) + s) == None
    ensures var t := SkipSpace(PrintItem(i) + s); t != [] && t[0] != CLOSE_BRACKET
    decreases i, 1
  {
    SpaceStops(i.after, s);
    ValueRefused(i.value, i.after + s);
    ValueAfterSpace(i.before, Print(i.value) + (i.after + s));
    assert PrintItem(i) + s == i.before + (Print(i.value) + (i.after + s));
    SpaceSkipped(i.before, Print(i.value) + (i.after + s));
    var v := Print(i.value) + (i.after + s);
    assert v[0] == OPEN_BRACE || v[0] == OPEN_BRACKET;
    assert SkipSpace(v) == v;
  }

  lemma {:induction false} ItemsRefused(items: seq<Item>, s: Text)
    requires ItemsShaped(items) && !ItemsFormed(items)
    ensures ScanElements(PrintItems(items) + ([CLOSE_BRACKET] + s)) == None
    ensures ScanArray(PrintItems(items) + ([CLOSE_BRACKET] + s)) == None
    decreases items, 0
  {
    var first := items[0];
    var behind := if |items| == 1 then [CLOSE_BRACKET] + s
                  else [COMMA] + (PrintItems(items[1..]) + ([CLOSE_BRACKET] + s));
    var t := PrintItems(items) + ([CLOSE_BRACKET] + s);
    assert t == PrintItem(first) + behind;
    if ItemFormed(first) {
      ItemScanned(first, behind);
      ItemBegins(first, behind);
      ItemsRefused(items[1..], s);
      assert behind[1..] == PrintItems(items[1..]) + ([CLOSE_BRACKET] + s);
    } else {
      ItemRefused(first, behind);
    }
    ElementsAfterSpace(t);
  }

  lemma {:induction false} MemberRefused(m: Member, s: Text, keys: set<Text>)
    requires MemberShaped(m) && (Decode(m.key) in keys || !ItemFormed(m.item))
    requires s != [] && Stops(s) && !IsSpace(s[0])
    ensures ScanMember(PrintMember(m) + s, keys) == None
    decreases m, 1
  {
    var item := PrintItem(m.item) + s;
    var colon := m.colon + ([COLON] + item);
    var name := PrintString(m.key) + colon;
    assert PrintMember(m) + s == m.before + name;
    SpaceSkipped(m.before, name);
    assert SkipSpace(name) == name;
    QuotedScanned(m.key, colon);
    SpaceSkipped(m.colon, [COLON] + item);
    assert ([COLON] + item)[1..] == item;
    if !ItemFormed(m.item) {
      ItemRefused(m.item, s);
    }
  }

  lemma {:induction false} MembersRefused(members: seq<Member>, s: Text, keys: set<Text>)
    requires MembersShaped(members) && !MembersFormed(members, keys)
    ensures ScanMembers(PrintMembers(members) + ([CLOSE_BRACE] + s), keys) == None
    decreases members, 0
  {
    hide PrintMember, ScanMember, Decode, ValidString, ItemFormed;
    var first := members[0];
    var behind := if |members| == 1 then [CLOSE_BRACE] + s
                  else [COMMA] + (PrintMembers(members[1..]) + ([CLOSE_BRACE] + s));
    var t := PrintMembers(members) + ([CLOSE_BRACE] + s);
    if |members| > 1 {
      Associates([COMMA], PrintMembers(members[1..]), [CLOSE_BRACE] + s);
      Associates(PrintMember(first), [COMMA] + PrintMembers(members[1..]), [CLOSE_BRACE] + s);
    }
    assert t == PrintMember(first) + behind;
    if Decode(first.key) in keys || !ItemFormed(first.item) {
      MemberRefused(first, behind, keys);
    } else {
      MemberScanned(first, behind, keys);
      MembersRefused(members[1..], s, keys + {Decode(first.key)});
      assert behind[1..] == PrintMembers(members[1..]) + ([CLOSE_BRACE] + s);
    }
  }

  /** A printed value is accepted exactly when no object in it repeats a decoded name. */
  lemma PrintedExactly(before: Text, j: Json, after: Text)
    requires Spaces(before) && Spaces(after) && Shaped(j)
    ensures Accepts(before + (Print(j) + after)) <==> WellFormed(j)
  {
    hide Print, ScanValue, Shaped, WellFormed;
    if WellFormed(j) {
      PrintedIsAccepted(before, j, after);
    } else {
      SpaceStops(after, []);
      assert after + [] == after;
      ValueRefused(j, after);
      ValueAfterSpace(before, Print(j) + after);
    }
  }

  /** Two spellings of one name in one object refuse it, whatever else it holds. */
  lemma RespelledIsRefused(space: Text, members: seq<Member>, i: nat, j: nat)
    requires Spaces(space) && MembersShaped(members) && i < j < |members|
    requires ValidString(members[i].key) && ValidString(members[j].key) && Decode(members[i].key) == Decode(members[j].key)
    ensures !Accepts(Print(JObject(space, members)))
  {
    var whole := JObject(space, members);
    RepeatedNotFormed(members, {}, i, j);
    assert [] + (Print(whole) + []) == Print(whole);
    PrintedExactly([], whole, []);
  }

  lemma {:induction false} UsedNotFormed(members: seq<Member>, keys: set<Text>, j: nat)
    requires j < |members| && ValidString(members[j].key) && Decode(members[j].key) in keys
    ensures !MembersFormed(members, keys)
    decreases |members|
  {
    if j > 0 && ValidString(members[0].key) {
      UsedNotFormed(members[1..], keys + {Decode(members[0].key)}, j - 1);
    }
  }

  lemma {:induction false} RepeatedNotFormed(members: seq<Member>, keys: set<Text>, i: nat, j: nat)
    requires i < j < |members|
    requires ValidString(members[i].key) && ValidString(members[j].key) && Decode(members[i].key) == Decode(members[j].key)
    ensures !MembersFormed(members, keys)
    decreases |members|
  {
    if i == 0 {
      UsedNotFormed(members[1..], keys + {Decode(members[0].key)}, j - 1);
    } else if ValidString(members[0].key) {
      RepeatedNotFormed(members[1..], keys + {Decode(members[0].key)}, i - 1, j - 1);
    }
  }
}
