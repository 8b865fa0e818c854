// The deterministic random stream: SplitMix64 at an explicit cursor (crates/forge-kernel/src/entropy.rs).
module Entropy {
  import opened Basics
  import opened Model

  datatype EntropyError = UnsupportedAlgorithm | CursorExhausted

  datatype EntropyDraw = EntropyDraw(before: EntropyState, value: bv64, after: EntropyState)

  /** Wrapping addition. */
  function Plus(x: bv64, y: bv64): bv64 { x + y }

  /** The 64-bit word of a number. */
  function Word(n: nat): bv64 {
    if n == 0 then 0 else Plus(Word(n - 1), 1)
  }

  // ---- The mixer, step by step; all arithmetic wraps ----

  const GAMMA: bv64 := 0x9E37_79B9_7F4A_7C15

  function TimesGamma(x: bv64): bv64 { x * 0x9E37_79B9_7F4A_7C15 }
  function TimesA(x: bv64): bv64 { x * 0xBF58_476D_1CE4_E5B9 }
  function TimesB(x: bv64): bv64 { x * 0x94D0_49BB_1331_11EB }
  function Fold30(x: bv64): bv64 { x ^ (x >> 30) }
  function Fold27(x: bv64): bv64 { x ^ (x >> 27) }
  function Fold31(x: bv64): bv64 { x ^ (x >> 31) }

  function SplitMix64(input: bv64): bv64 {
    Fold31(TimesB(Fold27(TimesA(Fold30(Plus(input, GAMMA))))))
  }

  /** The value at a cursor. */
  function Value(seed: u64, cursor: u64): bv64 {
    SplitMix64(Plus(Word(seed), TimesGamma(Word(cursor))))
  }

  function Validate(e: EntropyState): Option<EntropyError> {
    if e.algorithm != ENTROPY_ALGORITHM then Some(UnsupportedAlgorithm)
    else if e.cursor > MAX_ENTROPY_CURSOR then Some(CursorExhausted)
    else None
  }

  function NextU64(e: EntropyState): Result<(EntropyState, bv64), EntropyError> {
    if Validate(e).Some? then Err(Validate(e).value)
    else if e.cursor == MAX_ENTROPY_CURSOR then Err(CursorExhausted)
    else Ok((e.(cursor := e.cursor + 1), Value(e.seed, e.cursor)))
  }

  function Draw(e: EntropyState): Result<EntropyDraw, EntropyError> {
    var next := NextU64(e);
    if next.Err? then Err(next.error) else Ok(EntropyDraw(e, next.value.1, next.value.0))
  }

  // ---- SplitMix64 is a bijection ----

  /** Multiplication by the inverse of each odd constant. */
  function OverGamma(x: bv64): bv64 { x * 0xF1DE_83E1_9937_733D }
  function OverA(x: bv64): bv64 { x * 0x96DE_1B17_3F11_9089 }
  function OverB(x: bv64): bv64 { x * 0x3196_42B2_D24D_8EC3 }
  function Minus(x: bv64, y: bv64): bv64 { x - y }
  function Unfold30(x: bv64): bv64 { x ^ (x >> 30) ^ (x >> 60) }
  function Unfold27(x: bv64): bv64 { x ^ (x >> 27) ^ (x >> 54) }
  function Unfold31(x: bv64): bv64 { x ^ (x >> 31) ^ (x >> 62) }

  /** Undo the steps of the mixer, last first. */
  function Unmix(output: bv64): bv64 {
    Minus(Unfold30(OverA(Unfold27(OverB(Unfold31(output))))), GAMMA)
  }

  lemma GammaInverts(x: bv64)
    ensures OverGamma(TimesGamma(x)) == x
  {
    hide OverGamma;
    GammaUndone(x);
  }

  lemma GammaUndone(x: bv64)
    ensures OverGamma(x * 0x9E37_79B9_7F4A_7C15) == x
  {
  }

  lemma AUndone(x: bv64)
    ensures OverA(x * 0xBF58_476D_1CE4_E5B9) == x
    ensures TimesA(x * 0x96DE_1B17_3F11_9089) == x
  {
  }

  lemma AInverts(x: bv64)
    ensures OverA(TimesA(x)) == x
  {
    hide OverA;
    AUndone(x);
  }

  lemma AReverts(x: bv64)
    ensures TimesA(OverA(x)) == x
  {
    hide TimesA;
    AUndone(x);
  }

  lemma BUndone(x: bv64)
    ensures OverB(x * 0x94D0_49BB_1331_11EB) == x
    ensures TimesB(x * 0x3196_42B2_D24D_8EC3) == x
  {
  }

  lemma BInverts(x: bv64)
    ensures OverB(TimesB(x)) == x
  {
    hide OverB;
    BUndone(x);
  }

  lemma BReverts(x: bv64)
    ensures TimesB(OverB(x)) == x
  {
    hide TimesB;
    BUndone(x);
  }

  lemma Fold30Undone(x: bv64)
    ensures Unfold30(x ^ (x >> 30)) == x
    ensures Fold30(x ^ (x >> 30) ^ (x >> 60)) == x
  {
  }

  lemma Fold30Inverts(x: bv64)
    ensures Unfold30(Fold30(x)) == x
  {
    hide Unfold30;
    Fold30Undone(x);
  }

  lemma Fold30Reverts(x: bv64)
    ensures Fold30(Unfold30(x)) == x
  {
    hide Fold30;
    Fold30Undone(x);
  }

  lemma Fold27Undone(x: bv64)
    ensures Unfold27(x ^ (x >> 27)) == x
    ensures Fold27(x ^ (x >> 27) ^ (x >> 54)) == x
  {
  }

  lemma Fold27Inverts(x: bv64)
    ensures Unfold27(Fold27(x)) == x
  {
    hide Unfold27;
    Fold27Undone(x);
  }

  lemma Fold27Reverts(x: bv64)
    ensures Fold27(Unfold27(x)) == x
  {
    hide Fold27;
    Fold27Undone(x);
  }

  lemma Fold31Undone(x: bv64)
    ensures Unfold31(x ^ (x >> 31)) == x
    ensures Fold31(x ^ (x >> 31) ^ (x >> 62)) == x
  {
  }

  lemma Fold31Inverts(x: bv64)
    ensures Unfold31(Fold31(x)) == x
  {
    hide Unfold31;
    Fold31Undone(x);
  }

  lemma Fold31Reverts(x: bv64)
    ensures Fold31(Unfold31(x)) == x
  {
    hide Fold31;
    Fold31Undone(x);
  }

  lemma PlusIs(x: bv64, y: bv64)
    ensures Plus(x, y) == x + y
  {
  }

  lemma MinusIs(x: bv64, y: bv64)
    ensures Minus(x, y) == x - y
  {
  }

  lemma SumUndone(x: bv64, y: bv64)
    ensures Minus(x + y, y) == x && Minus(x + y, x) == y
  {
  }

  lemma DifferenceUndone(x: bv64, y: bv64)
    ensures Plus(x - y, y) == x
  {
  }

  lemma PlusInverts(x: bv64, y: bv64)
    ensures Minus(Plus(x, y), y) == x && Minus(Plus(x, y), x) == y
    ensures Plus(Minus(x, y), y) == x
  {
    hide Plus, Minus;
    PlusIs(x, y);
    MinusIs(x, y);
    SumUndone(x, y);
    DifferenceUndone(x, y);
  }

  lemma UnmixesMix(x: bv64)
    ensures Unmix(SplitMix64(x)) == x
  {
    hide Plus, Minus, TimesA, TimesB, Fold30, Fold27, Fold31, OverA, OverB, Unfold30, Unfold27, Unfold31;
    var a := Fold30(Plus(x, GAMMA));
    var b := Fold27(TimesA(a));
    PlusInverts(x, GAMMA);
    Fold30Inverts(Plus(x, GAMMA));
    AInverts(a);
    Fold27Inverts(TimesA(a));
    BInverts(b);
    Fold31Inverts(TimesB(b));
  }

  lemma MixesUnmix(y: bv64)
    ensures SplitMix64(Unmix(y)) == y
  {
    hide Plus, Minus, TimesA, TimesB, Fold30, Fold27, Fold31, OverA, OverB, Unfold30, Unfold27, Unfold31;
    var c := Unfold31(y);
    var b := Unfold27(OverB(c));
    Fold31Reverts(y);
    BReverts(c);
    Fold27Reverts(OverB(c));
    AReverts(b);
    Fold30Reverts(OverA(b));
    PlusInverts(Unfold30(OverA(b)), GAMMA);
  }

  /** The mixer permutes the 64-bit words: every word is the image of exactly one word. */
  lemma SplitMixBijective(x: bv64, y: bv64)
    ensures SplitMix64(x) == SplitMix64(y) ==> x == y
    ensures SplitMix64(Unmix(y)) == y
  {
    hide SplitMix64, Unmix;
    UnmixesMix(x);
    UnmixesMix(y);
    MixesUnmix(y);
  }

  // ---- Different numbers have different words ----

  function Twice(x: bv64): bv64 { x << 1 }

  function Doubled(j: nat, x: bv64): bv64 {
    if j == 0 then x else Twice(Doubled(j - 1, x))
  }

  lemma TwiceIs(x: bv64)
    ensures Twice(x) == x << 1 && Twice(x << 1) == x << 2 && Twice(x << 2) == x << 3 && Twice(x << 3) == x << 4
  {
  }

  lemma TwiceOfSum(x: bv64, y: bv64)
    ensures Twice(x + y) == Plus(x << 1, y << 1)
    ensures Plus(x, x) == Twice(x)
  {
  }

  lemma TwicePlus(x: bv64, y: bv64)
    ensures Twice(Plus(x, y)) == Plus(Twice(x), Twice(y))
    ensures Plus(x, x) == Twice(x)
  {
    hide Plus, Twice;
    PlusIs(x, y);
    TwiceIs(x);
    TwiceIs(y);
    TwiceOfSum(x, y);
  }

  lemma SumAssociates(x: bv64, y: bv64, z: bv64)
    ensures Plus(x + y, z) == Plus(x, y + z)
  {
  }

  lemma PlusAssociates(x: bv64, y: bv64, z: bv64)
    ensures Plus(Plus(x, y), z) == Plus(x, Plus(y, z))
  {
    hide Plus;
    PlusIs(x, y);
    PlusIs(y, z);
    SumAssociates(x, y, z);
  }

  lemma PlusZero(x: bv64)
    ensures Plus(x, 0) == x && Plus(0, x) == x
  {
  }

  lemma {:induction false} DoubledTwice(i: nat, j: nat, x: bv64)
    ensures Doubled(i + j, x) == Doubled(i, Doubled(j, x))
    decreases i
  {
    hide Twice;
    if i > 0 {
      DoubledTwice(i - 1, j, x);
    }
  }

  lemma {:induction false} DoubledPlus(j: nat, x: bv64, y: bv64)
    ensures Doubled(j, Plus(x, y)) == Plus(Doubled(j, x), Doubled(j, y))
    decreases j
  {
    hide Plus, Twice;
    if j > 0 {
      DoubledPlus(j - 1, x, y);
      TwicePlus(Doubled(j - 1, x), Doubled(j - 1, y));
    }
  }

  lemma Doubled4(x: bv64)
    ensures Doubled(3, x) == x << 3 && Doubled(4, x) == x << 4
  {
    hide Twice;
    TwiceIs(x);
    assert Doubled(1, x) == Twice(x);
    assert Doubled(2, x) == Twice(x << 1);
    assert Doubled(3, x) == Twice(x << 2);
  }

  lemma Doubled8(x: bv64)
    ensures Doubled(8, x) == x << 8
  {
    hide Doubled;
    Doubled4(x);
    Doubled4(x << 4);
    DoubledTwice(4, 4, x);
  }

  lemma Doubled16(x: bv64)
    ensures Doubled(16, x) == x << 16
  {
    hide Doubled;
    Doubled8(x);
    Doubled8(x << 8);
    DoubledTwice(8, 8, x);
  }

  lemma Doubled32(x: bv64)
    ensures Doubled(32, x) == x << 32
  {
    hide Doubled;
    Doubled16(x);
    Doubled16(x << 16);
    DoubledTwice(16, 16, x);
  }

  /** Sixty-four doublings leave nothing of a word. */
  lemma Doubled64(x: bv64)
    ensures Doubled(64, x) == 0
  {
    hide Doubled;
    Doubled32(x);
    Doubled32(x << 32);
    DoubledTwice(32, 32, x);
  }

  /** Sixty-three leave a one at the top. */
  lemma Doubled63()
    ensures Doubled(63, 1) == 0x8000_0000_0000_0000
  {
    hide Doubled;
    Doubled32(1);
    Doubled16(0x1_0000_0000);
    DoubledTwice(16, 32, 1);
    Doubled8(0x1_0000_0000_0000);
    DoubledTwice(8, 48, 1);
    Doubled4(0x100_0000_0000_0000);
    DoubledTwice(4, 56, 1);
    Doubled4(0x1000_0000_0000_0000);
    DoubledTwice(3, 60, 1);
  }

  lemma {:induction false} WordSum(m: nat, n: nat)
    ensures Word(m + n) == Plus(Word(m), Word(n))
    decreases n
  {
    hide Plus;
    PlusZero(Word(m));
    if n > 0 {
      WordSum(m, n - 1);
      PlusAssociates(Word(m), Word(n - 1), 1);
    }
  }

  lemma {:induction false} DoubledZero(j: nat)
    ensures Doubled(j, 0) == 0
  {
    if j > 0 {
      DoubledZero(j - 1);
    }
  }

  function Power(k: nat): nat {
    if k == 0 then 1 else 2 * Power(k - 1)
  }

  lemma HalvesAdd(m: nat, p: nat)
    ensures Word(m + m + p) == Plus(Twice(Word(m)), Word(p))
  {
    hide Plus, Twice, Word;
    WordSum(m, m);
    WordSum(m + m, p);
    TwicePlus(Word(m), Word(m));
  }

  lemma SmallWords()
    ensures Word(0) == 0 && Word(1) == 1
  {
    hide Plus;
    PlusZero(1);
  }

  lemma OnceDoubled(x: bv64)
    ensures Doubled(0, x) == x && Doubled(1, x) == Twice(x)
  {
    hide Twice;
  }

  /** The lowest bit decides what 63 doublings leave. */
  lemma LowestBit(m: nat, p: nat)
    requires p < 2 && Doubled(63, Word(m + m + p)) == 0
    ensures p == 0
  {
    hide Doubled, Plus, Twice, Word;
    HalvesAdd(m, p);
    DoubledPlus(63, Twice(Word(m)), Word(p));
    OnceDoubled(Word(m));
    DoubledTwice(63, 1, Word(m));
    Doubled64(Word(m));
    PlusZero(Doubled(63, Word(p)));
    SmallWords();
    Doubled63();
  }

  /** A number below 2^k whose word vanishes after 64 - k doublings is zero. */
  lemma {:induction false} OnlyZeroVanishes(k: nat, n: nat)
    requires k <= 64 && n < Power(k) && Doubled(64 - k, Word(n)) == 0
    ensures n == 0
    decreases k
  {
    hide Doubled, Plus, Twice, Word;
    if k > 0 {
      var m, p := n / 2, n % 2;
      assert n == m + m + p;
      DoubledTwice(k - 1, 64 - k, Word(n));
      DoubledZero(k - 1);
      LowestBit(m, p);
      HalvesAdd(m, 0);
      SmallWords();
      PlusZero(Twice(Word(m)));
      OnceDoubled(Word(m));
      DoubledTwice(64 - k, 1, Word(m));
      OnlyZeroVanishes(k - 1, m);
    }
  }

  lemma PowerOf64()
    ensures Power(64) == 0x1_0000_0000_0000_0000
  {
    assert Power(8) == 0x100;
    assert Power(16) == 0x1_0000;
    assert Power(24) == 0x100_0000;
    assert Power(32) == 0x1_0000_0000;
    assert Power(40) == 0x100_0000_0000;
    assert Power(48) == 0x1_0000_0000_0000;
    assert Power(56) == 0x100_0000_0000_0000;
  }

  /** The words of different 64-bit numbers are different. */
  lemma WordInjective(a: u64, b: u64)
    requires Word(a) == Word(b)
    ensures a == b
  {
    hide Word, Plus, Minus, Doubled;
    var low, high := if a < b then a else b, if a < b then b else a;
    WordSum(low, high - low);
    WordSum(low, 0);
    SmallWords();
    PlusInverts(Word(low), Word(high - low));
    PlusInverts(Word(low), 0);
    PowerOf64();
    OnceDoubled(Word(high - low));
    OnlyZeroVanishes(64, high - low);
  }

  /** For one seed, different cursors give different values. */
  lemma DistinctDraws(seed: u64, a: u64, b: u64)
    requires Value(seed, a) == Value(seed, b)
    ensures a == b
  {
    hide SplitMix64, TimesGamma, Unmix, OverGamma, Word, Plus, Minus;
    var x, y := TimesGamma(Word(a)), TimesGamma(Word(b));
    SplitMixBijective(Plus(Word(seed), x), Plus(Word(seed), y));
    PlusInverts(Word(seed), x);
    PlusInverts(Word(seed), y);
    GammaInverts(Word(a));
    GammaInverts(Word(b));
    WordInjective(a, b);
  }

  /** At one cursor, different seeds give different values. */
  lemma DistinctSeeds(a: u64, b: u64, cursor: u64)
    requires Value(a, cursor) == Value(b, cursor)
    ensures a == b
  {
    hide SplitMix64, TimesGamma, Unmix, Word, Plus, Minus;
    var z := TimesGamma(Word(cursor));
    SplitMixBijective(Plus(Word(a), z), Plus(Word(b), z));
    PlusCommutes(Word(a), z);
    PlusCommutes(Word(b), z);
    PlusInverts(z, Word(a));
    PlusInverts(z, Word(b));
    WordInjective(a, b);
  }

  lemma PlusCommutes(x: bv64, y: bv64)
    ensures Plus(x, y) == Plus(y, x)
  {
    PlusIs(x, y);
    PlusIs(y, x);
  }

  lemma OneMoreGamma(x: bv64)
    ensures TimesGamma(Plus(x, 1)) == Plus(TimesGamma(x), GAMMA)
  {
    PlusIs(x, 1);
    PlusIs(TimesGamma(x), GAMMA);
  }

  /** The stream starts at the mixer of the seed's word and then steps by the golden gamma before mixing. */
  lemma StreamStepsByGamma(seed: u64, cursor: u64)
    requires cursor < U64_MAX
    ensures Value(seed, 0) == SplitMix64(Word(seed))
    ensures Unmix(Value(seed, cursor)) == Plus(Word(seed), TimesGamma(Word(cursor)))
    ensures Unmix(Value(seed, cursor + 1)) == Plus(Unmix(Value(seed, cursor)), GAMMA)
  {
    FirstInput(seed);
    hide SplitMix64, Unmix, TimesGamma, Plus;
    UnmixesMix(Plus(Word(seed), TimesGamma(Word(cursor))));
    UnmixesMix(Plus(Word(seed), TimesGamma(Word(cursor + 1))));
    OneMoreGamma(Word(cursor));
    PlusAssociates(Word(seed), TimesGamma(Word(cursor)), GAMMA);
  }

  lemma FirstInput(seed: u64)
    ensures Plus(Word(seed), TimesGamma(Word(0))) == Word(seed)
  {
    PlusZero(Word(seed));
  }

  lemma WordOf42()
    ensures Word(0) == 0 && Word(1) == 1 && Word(2) == 2 && Word(3) == 3 && Word(42) == 42
  {
    SmallWords();
    WordSum(1, 1);
    WordSum(2, 1);
    WordSum(3, 2);
    WordSum(5, 5);
    WordSum(10, 10);
    WordSum(20, 1);
    WordSum(21, 21);
  }

  /** The published reference words of seed 42. */
  lemma ReferenceWords()
    ensures Value(42, 0) == 0xBDD7_3226_2FEB_6E95
    ensures Value(42, 1) == 0x28EF_E333_B266_F103
    ensures Value(42, 2) == 0x4752_6757_130F_9F52
    ensures Value(42, 3) == 0x581C_E1FF_0E4A_E394
  {
    WordOf42();
  }

  // ---- Chains of draws ----

  /** n draws in a row. */
  function Chain(e: EntropyState, n: nat): Result<(EntropyState, seq<bv64>), EntropyError> {
    if n == 0 then Ok((e, []))
    else
      var earlier := Chain(e, n - 1);
      if earlier.Err? then earlier
      else
        var next := NextU64(earlier.value.0);
        if next.Err? then Err(next.error) else Ok((next.value.0, earlier.value.1 + [next.value.1]))
  }

  /** A chain advances the cursor by one per draw, reads the values at the cursors it passes, and stops without wrapping. */
  lemma {:induction false} ChainAdvances(e: EntropyState, n: nat)
    requires n > 0
    ensures Chain(e, n).Ok? <==> e.algorithm == ENTROPY_ALGORITHM && e.cursor + n <= MAX_ENTROPY_CURSOR
    ensures Chain(e, n).Ok? ==>
      var (after, values) := Chain(e, n).value;
      after == e.(cursor := e.cursor + n) && |values| == n
      && forall i :: 0 <= i < n ==> values[i] == Value(e.seed, e.cursor + i)
    decreases n
  {
    hide Value;
    if n > 1 {
      ChainAdvances(e, n - 1);
    } else {
      assert Chain(e, 0) == Ok((e, []));
    }
  }

  /** No value repeats in a chain, however long. */
  lemma ChainDistinct(e: EntropyState, n: nat, i: nat, j: nat)
    requires Chain(e, n).Ok? && i < j < n
    ensures |Chain(e, n).value.1| == n && Chain(e, n).value.1[i] != Chain(e, n).value.1[j]
  {
    hide Value, Chain;
    ChainAdvances(e, n);
    if Value(e.seed, e.cursor + i) == Value(e.seed, e.cursor + j) {
      DistinctDraws(e.seed, e.cursor + i, e.cursor + j);
    }
  }

  /** Stopping after m draws and continuing from the stored state draws the same values. */
  lemma {:induction false} ChainResumes(e: EntropyState, m: nat, n: nat)
    requires Chain(e, m).Ok?
    ensures var rest := Chain(Chain(e, m).value.0, n);
            Chain(e, m + n) == if rest.Err? then Err(rest.error)
                               else Ok((rest.value.0, Chain(e, m).value.1 + rest.value.1))
    decreases n
  {
    hide NextU64;
    if n == 0 {
      assert Chain(e, m).value.1 + [] == Chain(e, m).value.1;
    } else {
      ChainResumes(e, m, n - 1);
      var rest := Chain(Chain(e, m).value.0, n);
      if rest.Ok? {
        var before := Chain(Chain(e, m).value.0, n - 1).value.1;
        var last := rest.value.1[|before|];
        assert Chain(e, m).value.1 + (before + [last]) == (Chain(e, m).value.1 + before) + [last];
      }
    }
  }
}
