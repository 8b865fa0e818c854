// Player-facing text and the word counts the observation budget is stated in.
module Text {
  import opened Basics

  /** The Unicode White_Space class, on which words are split. */
  predicate IsSpace(c: char) {
    var u := c as int;
    || 0x9 <= u <= 0xD
    || u == 0x20
    || u == 0x85
    || u == 0xA0
    || u == 0x1680
    || 0x2000 <= u <= 0x200A
    || u == 0x2028
    || u == 0x2029
    || u == 0x202F
    || u == 0x205F
    || u == 0x3000
  }

  predicate StartsWord(s: string, i: nat)
    requires i < |s|
  {
    !IsSpace(s[i]) && (i == 0 || IsSpace(s[i - 1]))
  }

  /** The number of maximal runs of non-space characters. */
  function WordCount(s: string): nat {
    if s == [] then 0
    else WordCount(s[..|s| - 1]) + if StartsWord(s, |s| - 1) then 1 else 0
  }

  predicate Blank(s: string) {
    forall c <- s :: IsSpace(c)
  }

  /** Text put after a space adds exactly its own words. */
  lemma {:induction false} WordCountAfterSpace(a: string, space: char, b: string)
    requires IsSpace(space)
    ensures WordCount(a + [space] + b) == WordCount(a) + WordCount(b)
    decreases |b|
  {
    var whole := a + [space] + b;
    var n := |whole| - 1;
    if b == [] {
      assert whole[..n] == a;
    } else {
      var m := |b| - 1;
      WordCountAfterSpace(a, space, b[..m]);
      assert whole[..n] == a + [space] + b[..m];
      assert whole[n] == b[m];
      assert StartsWord(whole, n) == StartsWord(b, m);
    }
  }

  /** Non-space characters glued to a word make it longer, not two words. */
  lemma {:induction false} WordCountGlue(a: string, b: string)
    requires a != [] && !IsSpace(a[|a| - 1])
    requires forall c <- b :: !IsSpace(c)
    ensures WordCount(a + b) == WordCount(a)
    decreases |b|
  {
    if b == [] {
      assert a + b == a;
    } else {
      var whole := a + b;
      var m := |b| - 1;
      WordCountGlue(a, b[..m]);
      assert whole[..|whole| - 1] == a + b[..m];
    }
  }

  lemma {:induction false} WordCountOneWord(s: string)
    requires s != [] && forall c <- s :: !IsSpace(c)
    ensures WordCount(s) == 1
    decreases |s|
  {
    if |s| > 1 {
      WordCountOneWord(s[..|s| - 1]);
    } else {
      assert s[..0] == [];
    }
  }

  // ---- Numbers ----

  function Digits(n: nat): (s: string)
    ensures s != [] && forall c <- s :: '0' <= c <= '9'
  {
    if n < 10 then ['0' + n as char] else Digits(n / 10) + ['0' + (n % 10) as char]
  }

  function Decimal(n: int): (s: string)
    ensures s != [] && forall c <- s :: !IsSpace(c)
  {
    if n < 0 then ['-'] + Digits(-n) else Digits(n)
  }

  // ---- The supply readout ----

  function ResourceLine(name: string, amount: int): string {
    name + [' '] + Decimal(amount)
  }

  function ItemLine(name: string, count: nat): string {
    name + [' ', '×'] + Decimal(count)
  }

  function Join(parts: seq<string>, separator: string): string {
    if parts == [] then []
    else if |parts| == 1 then parts[0]
    else Join(parts[..|parts| - 1], separator) + separator + parts[|parts| - 1]
  }

  const SUPPLIES := "Supplies:"
  const GEAR := "Gear:"

  function Headed(heading: string, body: string): string {
    heading + [' '] + body
  }

  function SupplySummary(resources: seq<string>, items: seq<string>): string {
    var supplies := Join(resources, ", ");
    var gear := Join(items, ", ");
    if supplies == [] && gear == [] then []
    else if gear == [] then Headed(SUPPLIES, supplies)
    else if supplies == [] then Headed(GEAR, gear)
    else Headed(SUPPLIES, supplies) + [';'] + [' '] + Headed(GEAR, gear)
  }

  predicate EndsInWord(s: string) {
    s != [] && !IsSpace(s[|s| - 1])
  }

  lemma LineWords(name: string, amount: int)
    ensures EndsInWord(ResourceLine(name, amount))
    ensures WordCount(ResourceLine(name, amount)) == WordCount(name) + 1
  {
    WordCountOneWord(Decimal(amount));
    WordCountAfterSpace(name, ' ', Decimal(amount));
  }

  lemma ItemLineWords(name: string, count: nat)
    ensures EndsInWord(ItemLine(name, count))
    ensures WordCount(ItemLine(name, count)) == WordCount(name) + 1
  {
    var quantity := ['×'] + Decimal(count);
    WordCountOneWord(quantity);
    WordCountAfterSpace(name, ' ', quantity);
    assert ItemLine(name, count) == name + [' '] + quantity;
  }

  function SumWords(parts: seq<string>): nat {
    if parts == [] then 0
    else SumWords(parts[..|parts| - 1]) + WordCount(parts[|parts| - 1])
  }

  lemma {:induction false} JoinCommaWords(parts: seq<string>)
    requires forall part <- parts :: EndsInWord(part)
    ensures WordCount(Join(parts, ", ")) == SumWords(parts)
    ensures parts != [] ==> EndsInWord(Join(parts, ", "))
    decreases |parts|
  {
    if |parts| == 1 {
      assert parts[..0] == [];
      assert SumWords(parts) == SumWords(parts[..0]) + WordCount(parts[0]);
    } else if |parts| > 1 {
      var front, last := parts[..|parts| - 1], parts[|parts| - 1];
      assert last in parts;
      JoinCommaWords(front);
      var left := Join(front, ", ");
      WordCountGlue(left, ",");
      WordCountAfterSpace(left + ",", ' ', last);
      assert left + ", " + last == (left + ",") + [' '] + last;
    }
  }

  /** A heading word and a space in front of a text add one word. */
  lemma HeadedWords(heading: string, body: string)
    requires heading != [] && forall c <- heading :: !IsSpace(c)
    ensures WordCount(Headed(heading, body)) == 1 + WordCount(body)
    ensures EndsInWord(body) ==> EndsInWord(Headed(heading, body))
  {
    WordCountOneWord(heading);
    WordCountAfterSpace(heading, ' ', body);
    if EndsInWord(body) {
      assert Headed(heading, body)[|heading| + |body|] == body[|body| - 1];
    }
  }

  lemma BothGroupsWords(supplies: string, gear: string)
    requires EndsInWord(supplies)
    ensures WordCount(supplies + [';'] + [' '] + gear) == WordCount(supplies) + WordCount(gear)
  {
    WordCountGlue(supplies, [';']);
    WordCountAfterSpace(supplies + [';'], ' ', gear);
  }

  /** The readout shows every line, plus one heading word per nonempty group. */
  lemma SupplySummaryWords(resources: seq<string>, items: seq<string>)
    requires forall line <- resources :: EndsInWord(line)
    requires forall line <- items :: EndsInWord(line)
    ensures WordCount(SupplySummary(resources, items))
         == (if resources == [] then 0 else 1 + SumWords(resources))
          + (if items == [] then 0 else 1 + SumWords(items))
  {
    var supplies, gear := Join(resources, ", "), Join(items, ", ");
    JoinCommaWords(resources);
    JoinCommaWords(items);
    HeadedWords(SUPPLIES, supplies);
    HeadedWords(GEAR, gear);
    if resources != [] {
      BothGroupsWords(Headed(SUPPLIES, supplies), Headed(GEAR, gear));
    }
  }

  /** The words of texts joined by single spaces add up. */
  lemma {:induction false} JoinSpaceWords(parts: seq<string>)
    ensures WordCount(Join(parts, " ")) == SumWords(parts)
    decreases |parts|
  {
    if |parts| == 1 {
      assert SumWords(parts) == SumWords(parts[..0]) + WordCount(parts[0]);
      assert parts[..0] == [];
    } else if |parts| > 1 {
      JoinSpaceWords(parts[..|parts| - 1]);
      WordCountAfterSpace(Join(parts[..|parts| - 1], " "), ' ', parts[|parts| - 1]);
    }
  }

  // ---- Numbers read back ----

  predicate AllDigits(s: string) {
    forall i :: 0 <= i < |s| ==> '0' <= s[i] <= '9'
  }

  /** What a row of decimal digits says. */
  function Reads(s: string): nat
    requires AllDigits(s)
  {
    if s == [] then 0 else 10 * Reads(s[..|s| - 1]) + (s[|s| - 1] as int - '0' as int)
  }

  lemma {:induction false} DigitsRead(n: nat)
    ensures AllDigits(Digits(n)) && Reads(Digits(n)) == n
    ensures (n > 0 ==> Digits(n)[0] != '0') && (n == 0 ==> Digits(n) == "0")
    decreases n
  {
    assert AllDigits(Digits(n)) by {
      assert forall i :: 0 <= i < |Digits(n)| ==> Digits(n)[i] in Digits(n);
    }
    if n < 10 {
      assert Digits(n)[..0] == [];
    } else {
      DigitsRead(n / 10);
      assert Digits(n)[..|Digits(n)| - 1] == Digits(n / 10);
    }
  }

  /** The printed form of a number reads back, with a sign exactly for negative numbers and no leading zero. */
  lemma DecimalReads(n: int)
    ensures (Decimal(n)[0] == '-') == (n < 0)
    ensures var digits := if n < 0 then Decimal(n)[1..] else Decimal(n);
            && AllDigits(digits) && Reads(digits) == (if n < 0 then -n else n)
            && digits != [] && (digits[0] == '0' ==> digits == "0")
  {
    DigitsRead(if n < 0 then -n else n);
  }
}
