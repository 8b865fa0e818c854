// The duplicate-key scanner of the browser journal (scanJsonForDuplicateKeys in browser/src/journal.ts).
module JsonScanner {
  import opened Basics

  /** UTF-16 code units. */
  type Unit = x: int | 0 <= x < 0x1_0000

  type Text = seq<Unit>

  const QUOTE: Unit := 0x22
  const BACKSLASH: Unit := 0x5C
  const COMMA: Unit := 0x2C
  const COLON: Unit := 0x3A
  const DOT: Unit := 0x2E
  const MINUS: Unit := 0x2D
  const PLUS: Unit := 0x2B
  const ZERO: Unit := 0x30
  const LOWER_U: Unit := 0x75
  const OPEN_BRACE: Unit := 0x7B
  const CLOSE_BRACE: Unit := 0x7D
  const OPEN_BRACKET: Unit := 0x5B
  const CLOSE_BRACKET: Unit := 0x5D
  const TRUE: Text := [0x74, 0x72, 0x75, 0x65]
  const FALSE: Text := [0x66, 0x61, 0x6C, 0x73, 0x65]
  const NULL: Text := [0x6E, 0x75, 0x6C, 0x6C]

  /** The \s class of JavaScript, wider than the whitespace of RFC 8259. */
  predicate IsSpace(u: Unit) {
    || 0x9 <= u <= 0xD || u == 0x20 || u == 0xA0 || u == 0x1680 || 0x2000 <= u <= 0x200A
    || u == 0x2028 || u == 0x2029 || u == 0x202F || u == 0x205F || u == 0x3000 || u == 0xFEFF
  }

  predicate IsDigit(u: Unit) { 0x30 <= u <= 0x39 }
  predicate IsHex(u: Unit) { IsDigit(u) || 0x41 <= u <= 0x46 || 0x61 <= u <= 0x66 }
  predicate IsExponent(u: Unit) { u == 0x65 || u == 0x45 }
  predicate IsSign(u: Unit) { u == PLUS || u == MINUS }

  /** The characters that may follow a backslash, other than u, and what they stand for. */
  const ESCAPES: map<Unit, Unit> :=
    map[0x22 := 0x22, 0x5C := 0x5C, 0x2F := 0x2F, 0x62 := 0x8, 0x66 := 0xC, 0x6E := 0xA, 0x72 := 0xD, 0x74 := 0x9]

  function HexValue(u: Unit): nat
    requires IsHex(u)
  {
    if IsDigit(u) then u - 0x30 else if u >= 0x61 then u - 0x61 + 10 else u - 0x41 + 10
  }

  function UnitOf(h: Text): Unit
    requires |h| == 4 && forall u <- h :: IsHex(u)
  {
    HexValue(h[0]) * 0x1000 + HexValue(h[1]) * 0x100 + HexValue(h[2]) * 0x10 + HexValue(h[3])
  }

  // ---- The scanner on the text still to read ----

  function SkipSpace(s: Text): (rest: Text)
    ensures |rest| <= |s| && (rest != [] ==> !IsSpace(rest[0]))
  {
    if s != [] && IsSpace(s[0]) then SkipSpace(s[1..]) else s
  }

  datatype Scanned = Scanned(key: Text, rest: Text)

  /** From inside a string to just behind its closing quote, with the decoded content. */
  function ScanTail(s: Text): (r: Option<Scanned>)
    ensures r.Some? ==> |r.value.rest| < |s|
  {
    if s == [] then None
    else if s[0] == QUOTE then Some(Scanned([], s[1..]))
    else if s[0] < 0x20 then None
    else if s[0] != BACKSLASH then
      var tail := ScanTail(s[1..]);
      if tail.None? then None else Some(Scanned([s[0]] + tail.value.key, tail.value.rest))
    else if |s| > 1 && s[1] == LOWER_U then
      if |s| < 6 || !(IsHex(s[2]) && IsHex(s[3]) && IsHex(s[4]) && IsHex(s[5])) then None
      else
        var tail := ScanTail(s[6..]);
        if tail.None? then None else Some(Scanned([UnitOf(s[2..6])] + tail.value.key, tail.value.rest))
    else if |s| > 1 && s[1] in ESCAPES then
      var tail := ScanTail(s[2..]);
      if tail.None? then None else Some(Scanned([ESCAPES[s[1]]] + tail.value.key, tail.value.rest))
    else None
  }

  function ScanString(s: Text): (r: Option<Scanned>)
    ensures r.Some? ==> |r.value.rest| < |s|
  {
    if s == [] || s[0] != QUOTE then None else ScanTail(s[1..])
  }

  function SkipDigits(s: Text): (rest: Text)
    ensures |rest| <= |s|
  {
    if s != [] && IsDigit(s[0]) then SkipDigits(s[1..]) else s
  }

  function ScanWhole(s: Text): (r: Option<Text>)
    ensures r.Some? ==> |r.value| < |s|
  {
    if s == [] || !IsDigit(s[0]) then None
    else if s[0] == ZERO then Some(s[1..])
    else Some(SkipDigits(s[1..]))
  }

  function SkipFraction(s: Text): (rest: Text)
    ensures |rest| <= |s|
  {
    if |s| > 1 && s[0] == DOT && IsDigit(s[1]) then SkipDigits(s[1..]) else s
  }

  function SkipExponent(s: Text): (rest: Text)
    ensures |rest| <= |s|
  {
    if |s| > 1 && IsExponent(s[0]) && IsDigit(s[1]) then SkipDigits(s[1..])
    else if |s| > 2 && IsExponent(s[0]) && IsSign(s[1]) && IsDigit(s[2]) then SkipDigits(s[2..])
    else s
  }

  /** The longest match of the number expression. */
  function ScanNumber(s: Text): (r: Option<Text>)
    ensures r.Some? ==> |r.value| < |s|
  {
    var whole := ScanWhole(if s != [] && s[0] == MINUS then s[1..] else s);
    if whole.None? then None else Some(SkipExponent(SkipFraction(whole.value)))
  }

  function ScanLiteral(s: Text): (r: Option<Text>)
    ensures r.Some? ==> |r.value| < |s|
  {
    if TRUE <= s then Some(s[|TRUE|..])
    else if FALSE <= s then Some(s[|FALSE|..])
    else if NULL <= s then Some(s[|NULL|..])
    else None
  }

  function ScanValue(s: Text): (r: Option<Text>)
    ensures r.Some? ==> |r.value| < |s|
    decreases |s|, 3
  {
    var t := SkipSpace(s);
    if t == [] then None
    else if t[0] == QUOTE then
      var scanned := ScanString(t);
      if scanned.None? then None else Some(scanned.value.rest)
    else if t[0] == OPEN_BRACE then ScanObject(t[1..])
    else if t[0] == OPEN_BRACKET then ScanArray(t[1..])
    else if ScanLiteral(t).Some? then ScanLiteral(t)
    else ScanNumber(t)
  }

  function ScanObject(s: Text): (r: Option<Text>)
    ensures r.Some? ==> |r.value| < |s|
    decreases |s|, 2
  {
    var t := SkipSpace(s);
    if t != [] && t[0] == CLOSE_BRACE then Some(t[1..]) else ScanMembers(t, {})
  }

  /** One name, its colon and its value, up to the comma or the brace. */
  function ScanMember(s: Text, keys: set<Text>): (r: Option<Scanned>)
    ensures r.Some? ==> |r.value.rest| < |s|
    decreases |s|, 0
  {
    var key := ScanString(SkipSpace(s));
    if key.None? || key.value.key in keys then None
    else
      var colon := SkipSpace(key.value.rest);
      if colon == [] || colon[0] != COLON then None
      else
        var value := ScanValue(colon[1..]);
        if value.None? then None else Some(Scanned(key.value.key, SkipSpace(value.value)))
  }

  function ScanMembers(s: Text, keys: set<Text>): (r: Option<Text>)
    ensures r.Some? ==> |r.value| < |s|
    decreases |s|, 1
  {
    var member := ScanMember(s, keys);
    if member.None? || member.value.rest == [] then None
    else
      var end := member.value.rest;
      if end[0] == CLOSE_BRACE then Some(end[1..])
      else if end[0] == COMMA then ScanMembers(end[1..], keys + {member.value.key})
      else None
  }

  function ScanArray(s: Text): (r: Option<Text>)
    ensures r.Some? ==> |r.value| < |s|
    decreases |s|, 5
  {
    var t := SkipSpace(s);
    if t != [] && t[0] == CLOSE_BRACKET then Some(t[1..]) else ScanElements(t)
  }

  function ScanElements(s: Text): (r: Option<Text>)
    ensures r.Some? ==> |r.value| < |s|
    decreases |s|, 4
  {
    var value := ScanValue(s);
    if value.None? then None
    else
      var end := SkipSpace(value.value);
      if end == [] then None
      else if end[0] == CLOSE_BRACKET then Some(end[1..])
      else if end[0] == COMMA then ScanElements(end[1..])
      else None
  }

  predicate Accepts(text: Text) {
    ScanValue(text).Some? && SkipSpace(ScanValue(text).value) == []
  }

  // ---- The scanner as it runs: one index into the text ----

  class Scanner {
    const text: Text
    var index: nat

    constructor (text: Text)
      ensures this.text == text && index == 0
    {
      this.text, index := text, 0;
    }

    predicate Inside()
      reads this
    {
      index <= |text|
    }

    method SkipWhitespace()
      requires Inside()
      modifies this
      ensures Inside() && old(index) <= index && text[index..] == SkipSpace(text[old(index)..])
    {
      while index < |text| && IsSpace(text[index])
        invariant Inside() && old(index) <= index && SkipSpace(text[index..]) == SkipSpace(text[old(index)..])
        decreases |text| - index
      {
        assert text[index..][1..] == text[index + 1..];
        index := index + 1;
      }
    }

    method Expect(u: Unit) returns (ok: bool)
      requires Inside()
      modifies this
      ensures ok <==> old(index) < |text| && text[old(index)] == u
      ensures Inside() && index == if ok then old(index) + 1 else old(index)
    {
      ok := index < |text| && text[index] == u;
      if ok {
        index := index + 1;
      }
    }

    method ReadString() returns (ok: bool)
      requires Inside()
      modifies this
      ensures Inside()
      ensures ok <==> ScanString(text[old(index)..]).Some?
      ensures ok ==> old(index) < index && text[index..] == ScanString(text[old(index)..]).value.rest
    {
      if index == |text| || text[index] != QUOTE {
        return false;
      }
      assert text[index..][1..] == text[index + 1..];
      index := index + 1;
      ghost var start := index;
      while index < |text|
        invariant Inside() && start <= index && SameRest(ScanTail(text[start..]), ScanTail(text[index..]))
        decreases |text| - index
      {
        var u := text[index];
        if u == QUOTE {
          assert text[index..][1..] == text[index + 1..];
          index := index + 1;
          return true;
        }
        if u < 0x20 {
          return false;
        }
        var step := EscapeLength(text, index);
        if step == 0 {
          return false;
        }
        index := index + step;
      }
      return false;
    }

    method ReadValue() returns (ok: bool)
      requires Inside()
      modifies this
      ensures Inside()
      ensures ok <==> ScanValue(text[old(index)..]).Some?
      ensures ok ==> old(index) < index && text[index..] == ScanValue(text[old(index)..]).value
      decreases |text| - index, 3
    {
      SkipWhitespace();
      if index == |text| {
        return false;
      }
      var u := text[index];
      assert text[index..][1..] == text[index + 1..];
      if u == QUOTE {
        ok := ReadString();
        return;
      }
      if u == OPEN_BRACE {
        index := index + 1;
        ok := ReadObject();
        return;
      }
      if u == OPEN_BRACKET {
        index := index + 1;
        ok := ReadArray();
        return;
      }
      var rest := text[index..];
      var after := if ScanLiteral(rest).Some? then ScanLiteral(rest) else ScanNumber(rest);
      if after.None? {
        return false;
      }
      SuffixAt(text, index, after.value);
      index := |text| - |after.value|;
      return true;
    }

    method ReadObject() returns (ok: bool)
      requires Inside()
      modifies this
      ensures Inside()
      ensures ok <==> ScanObject(text[old(index)..]).Some?
      ensures ok ==> old(index) < index && text[index..] == ScanObject(text[old(index)..]).value
      decreases |text| - index, 2
    {
      SkipWhitespace();
      var keys: set<Text> := {};
      ghost var first := text[index..];
      var closed := Expect(CLOSE_BRACE);
      if closed {
        assert first[1..] == text[index..];
        return true;
      }
      while true
        invariant Inside() && old(index) <= index
        invariant ScanMembers(text[index..], keys) == ScanMembers(first, {})
        decreases |text| - index
      {
        var key := ReadMember(keys);
        if key.None? {
          return false;
        }
        ghost var end := text[index..];
        closed := Expect(CLOSE_BRACE);
        if closed {
          assert end[1..] == text[index..];
          return true;
        }
        var comma := Expect(COMMA);
        if !comma {
          return false;
        }
        assert end[1..] == text[index..];
        keys := keys + {key.value};
      }
    }

    method ReadMember(keys: set<Text>) returns (key: Option<Text>)
      requires Inside()
      modifies this
      ensures Inside()
      ensures key.Some? <==> ScanMember(text[old(index)..], keys).Some?
      ensures key.Some? ==> old(index) < index
      ensures key.Some? ==> ScanMember(text[old(index)..], keys).value == Scanned(key.value, text[index..])
      decreases |text| - index, 1
    {
      hide ScanTail;
      SkipWhitespace();
      var keyStart := index;
      var ok := ReadString();
      if !ok {
        return None;
      }
      var name := ScanString(text[keyStart..]).value.key;
      if name in keys {
        return None;
      }
      SkipWhitespace();
      ghost var colonAt := text[index..];
      var colon := Expect(COLON);
      if !colon {
        return None;
      }
      assert colonAt[1..] == text[index..];
      ok := ReadValue();
      if !ok {
        return None;
      }
      SkipWhitespace();
      return Some(name);
    }

    method ReadArray() returns (ok: bool)
      requires Inside()
      modifies this
      ensures Inside()
      ensures ok <==> ScanArray(text[old(index)..]).Some?
      ensures ok ==> old(index) < index && text[index..] == ScanArray(text[old(index)..]).value
      decreases |text| - index, 4
    {
      SkipWhitespace();
      ghost var first := text[index..];
      var closed := Expect(CLOSE_BRACKET);
      if closed {
        assert first[1..] == text[index..];
        return true;
      }
      while true
        invariant Inside() && old(index) <= index
        invariant ScanElements(text[index..]) == ScanElements(first)
        decreases |text| - index
      {
        ok := ReadValue();
        if !ok {
          return false;
        }
        SkipWhitespace();
        ghost var endAt := index;
        closed := Expect(CLOSE_BRACKET);
        if closed {
          assert text[endAt..][1..] == text[index..];
          return true;
        }
        var comma := Expect(COMMA);
        if !comma {
          return false;
        }
        assert text[endAt..][1..] == text[index..];
      }
    }
  }

  /** How far one character or escape inside a string reaches; zero if it is malformed. */
  method EscapeLength(text: Text, index: nat) returns (step: nat)
    requires index < |text| && text[index] != QUOTE && text[index] >= 0x20
    ensures step == 0 ==> ScanTail(text[index..]).None?
    ensures step > 0 ==> index + step <= |text| && SameRest(ScanTail(text[index..]), ScanTail(text[index + step..]))
  {
    ghost var here := text[index..];
    if text[index] != BACKSLASH {
      assert here[1..] == text[index + 1..];
      return 1;
    }
    if index + 1 < |text| && text[index + 1] == LOWER_U {
      EscapeHex(text, index);
      if index + 6 > |text| || !(forall h <- text[index + 2..index + 6] :: IsHex(h)) {
        return 0;
      }
      assert here[6..] == text[index + 6..];
      return 6;
    }
    if index + 1 < |text| && text[index + 1] in ESCAPES {
      assert here[2..] == text[index + 2..];
      return 2;
    }
    return 0;
  }

  predicate SameRest(a: Option<Scanned>, b: Option<Scanned>) {
    (a.Some? <==> b.Some?) && (a.Some? ==> a.value.rest == b.value.rest)
  }

  lemma EscapeHex(text: Text, index: nat)
    requires index + 1 < |text| && text[index] == BACKSLASH && text[index + 1] == LOWER_U
    ensures var here := text[index..];
            (index + 6 <= |text| && (forall h <- text[index + 2..index + 6] :: IsHex(h))) <==>
            (|here| >= 6 && IsHex(here[2]) && IsHex(here[3]) && IsHex(here[4]) && IsHex(here[5]))
  {
    if index + 6 <= |text| {
      var h := text[index + 2..index + 6];
      assert h[0] == text[index + 2] && h[1] == text[index + 3] && h[2] == text[index + 4] && h[3] == text[index + 5];
      assert forall x <- h :: x == h[0] || x == h[1] || x == h[2] || x == h[3];
    }
  }

  /** What a token leaves is a suffix of the text. */
  lemma SuffixAt(text: Text, index: nat, rest: Text)
    requires index < |text|
    requires ScanLiteral(text[index..]) == Some(rest) || ScanNumber(text[index..]) == Some(rest)
    ensures |rest| < |text| - index && text[|text| - |rest|..] == rest
  {
    var s := text[index..];
    if ScanLiteral(s) != Some(rest) {
      NumberLeavesSuffix(s);
    }
    assert s[|s| - |rest|..] == rest;
  }

  predicate SuffixOf(rest: Text, s: Text) {
    |rest| <= |s| && s[|s| - |rest|..] == rest
  }

  lemma {:induction false} DigitsLeaveSuffix(s: Text)
    ensures SuffixOf(SkipDigits(s), s)
    decreases |s|
  {
    if s != [] && IsDigit(s[0]) {
      DigitsLeaveSuffix(s[1..]);
      SuffixTrans(SkipDigits(s), s[1..], s);
    }
  }

  lemma SuffixTrans(a: Text, b: Text, c: Text)
    requires SuffixOf(a, b) && SuffixOf(b, c)
    ensures SuffixOf(a, c)
  {
    assert c[|c| - |b|..][|b| - |a|..] == c[|c| - |a|..];
  }

  lemma DropIsSuffix(s: Text, k: nat)
    requires k <= |s|
    ensures SuffixOf(s[k..], s)
  {
  }

  lemma FractionLeavesSuffix(s: Text)
    ensures SuffixOf(SkipFraction(s), s)
  {
    if |s| > 1 {
      DropIsSuffix(s, 1);
      DigitsLeaveSuffix(s[1..]);
      SuffixTrans(SkipDigits(s[1..]), s[1..], s);
    }
  }

  lemma ExponentLeavesSuffix(s: Text)
    ensures SuffixOf(SkipExponent(s), s)
  {
    if |s| > 1 {
      DropIsSuffix(s, 1);
      DigitsLeaveSuffix(s[1..]);
      SuffixTrans(SkipDigits(s[1..]), s[1..], s);
    }
    if |s| > 2 {
      DropIsSuffix(s, 2);
      DigitsLeaveSuffix(s[2..]);
      SuffixTrans(SkipDigits(s[2..]), s[2..], s);
    }
  }

  lemma WholeLeavesSuffix(s: Text)
    requires ScanWhole(s).Some?
    ensures SuffixOf(ScanWhole(s).value, s)
  {
    DropIsSuffix(s, 1);
    DigitsLeaveSuffix(s[1..]);
    SuffixTrans(SkipDigits(s[1..]), s[1..], s);
  }

  lemma NumberLeavesSuffix(s: Text)
    requires ScanNumber(s).Some?
    ensures SuffixOf(ScanNumber(s).value, s)
  {
    hide SuffixOf, SkipFraction, SkipExponent, ScanWhole;
    var k := if s != [] && s[0] == MINUS then 1 else 0;
    var whole := ScanWhole(s[k..]).value;
    DropIsSuffix(s, k);
    WholeLeavesSuffix(s[k..]);
    SuffixTrans(whole, s[k..], s);
    FractionLeavesSuffix(whole);
    SuffixTrans(SkipFraction(whole), whole, s);
    ExponentLeavesSuffix(SkipFraction(whole));
    SuffixTrans(SkipExponent(SkipFraction(whole)), SkipFraction(whole), s);
  }

  /** scanJsonForDuplicateKeys. */
  method ScanJsonForDuplicateKeys(text: Text) returns (ok: bool)
    ensures ok <==> Accepts(text)
  {
    var scanner := new Scanner(text);
    assert text[0..] == text;
    ok := scanner.ReadValue();
    if !ok {
      return false;
    }
    scanner.SkipWhitespace();
    return scanner.index == |text|;
  }
}
