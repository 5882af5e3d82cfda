/** The spectrum bit set: four words refine a set of slot numbers. */
module SlotMask {
  import opened Base
  import opened Bits
  import opened Arithmetic
  import Network
  import PlanModel
  import PlanTheorems

  const SLOTS: nat := Network.MAX_SLOTS
  const WORDS: nat := 4

  // ----- the set behind the words ---------------------------------------------------------

  /** The slots whose bits are set. */
  function SlotsOf(words: seq<Word>): set<nat>
    requires |words| == WORDS
  {
    set slot: nat | slot < SLOTS && Bit(words[slot / 64], slot % 64)
  }

  lemma {:induction false} SamePlace(s: nat, t: nat)
    ensures s / 64 == t / 64 && s % 64 == t % 64 <==> s == t
  {}

  lemma {:induction false} SetRefines(words: seq<Word>, slot: nat, w: Word)
    requires |words| == WORDS && slot < SLOTS && w == Or(words[slot / 64], Single(slot % 64))
    ensures SlotsOf(words[slot / 64 := w]) == SlotsOf(words) + {slot}
  {
    forall s: nat
      ensures s in SlotsOf(words[slot / 64 := w]) <==> s in SlotsOf(words) + {slot}
    {
      SamePlace(s, slot);
      BitOfOr(words[slot / 64], Single(slot % 64), s % 64);
      BitOfSingle(slot % 64, s % 64);
    }
  }

  lemma {:induction false} ResetRefines(words: seq<Word>, slot: nat, w: Word)
    requires |words| == WORDS && slot < SLOTS && w == AndNot(words[slot / 64], Single(slot % 64))
    ensures SlotsOf(words[slot / 64 := w]) == SlotsOf(words) - {slot}
  {
    forall s: nat
      ensures s in SlotsOf(words[slot / 64 := w]) <==> s in SlotsOf(words) - {slot}
    {
      SamePlace(s, slot);
      BitOfAndNot(words[slot / 64], Single(slot % 64), s % 64);
      BitOfSingle(slot % 64, s % 64);
    }
  }

  lemma {:induction false} AndRefines(a: seq<Word>, b: seq<Word>, r: seq<Word>)
    requires |a| == |b| == |r| == WORDS && forall i | 0 <= i < WORDS :: r[i] == And(a[i], b[i])
    ensures SlotsOf(r) == SlotsOf(a) * SlotsOf(b)
  {
    forall s: nat | s < SLOTS
      ensures s in SlotsOf(r) <==> s in SlotsOf(a) && s in SlotsOf(b)
    {
      BitOfAnd(a[s / 64], b[s / 64], s % 64);
    }
  }

  lemma {:induction false} SlotAt(words: seq<Word>, i: nat, k: nat)
    requires |words| == WORDS && i < WORDS && k < 64
    ensures 64 * i + k in SlotsOf(words) <==> Bit(words[i], k)
  {
    assert (64 * i + k) / 64 == i && (64 * i + k) % 64 == k;
  }

  /** The words hold no slot exactly when they are all zero. */
  lemma {:induction false} EmptyRefines(words: seq<Word>)
    requires |words| == WORDS
    ensures SlotsOf(words) == {} <==> forall i | 0 <= i < WORDS :: words[i] == 0
  {
    if SlotsOf(words) == {} {
      forall i | 0 <= i < WORDS
        ensures words[i] == 0
      {
        if words[i] != 0 {
          WordBound();
          var k := HasBit(words[i], 64);
          SlotAt(words, i, k);
        }
      }
    } else {
      var s :| s in SlotsOf(words);
      if words[s / 64] == 0 {
        ZeroHasNoBit(s % 64);
      }
    }
  }

  lemma {:induction false} SubsetRefines(a: seq<Word>, b: seq<Word>)
    requires |a| == |b| == WORDS
    ensures SlotsOf(a) <= SlotsOf(b) <==> forall i | 0 <= i < WORDS :: AndNot(a[i], b[i]) == 0
  {
    if SlotsOf(a) <= SlotsOf(b) {
      forall i | 0 <= i < WORDS
        ensures AndNot(a[i], b[i]) == 0
      {
        if AndNot(a[i], b[i]) != 0 {
          WordBound();
          var k := HasBit(AndNot(a[i], b[i]), 64);
          BitOfAndNot(a[i], b[i], k);
          SlotAt(a, i, k);
          SlotAt(b, i, k);
        }
      }
    } else {
      var s :| s in SlotsOf(a) && s !in SlotsOf(b);
      BitOfAndNot(a[s / 64], b[s / 64], s % 64);
      ZeroHasNoBit(s % 64);
    }
  }

  /** Words are equal exactly when their slots are. */
  lemma {:induction false} WordsAreSlots(a: seq<Word>, b: seq<Word>)
    requires |a| == |b| == WORDS
    ensures a == b <==> SlotsOf(a) == SlotsOf(b)
  {
    if SlotsOf(a) == SlotsOf(b) {
      WordBound();
      forall i | 0 <= i < WORDS
        ensures a[i] == b[i]
      {
        forall k: nat | k < 64
          ensures Bit(a[i], k) == Bit(b[i], k)
        {
          SlotAt(a, i, k);
          SlotAt(b, i, k);
        }
        SameBits(a[i], b[i], 64);
      }
    }
  }

  // ----- channels -------------------------------------------------------------------------

  /** Taking channel starts commutes with intersection: a run of slots is free on both
      resources exactly when it is free on each. */
  lemma {:induction false} StartsCommute(a: set<nat>, b: set<nat>, width: nat)
    ensures Network.ChannelStarts(a * b, width) ==
            Network.ChannelStarts(a, width) * Network.ChannelStarts(b, width)
  {
    forall start: nat
      ensures Network.ChannelFits(a * b, start, width) <==>
              Network.ChannelFits(a, start, width) && Network.ChannelFits(b, start, width)
    {
      assert forall slot: nat :: slot in a * b <==> slot in a && slot in b;
      if Network.ChannelFits(a * b, start, width) {
        forall slot: nat | start <= slot < start + width
          ensures slot in a && slot in b
        {
          assert slot in a * b;
        }
      }
    }
  }

  // ----- the class ------------------------------------------------------------------------

  class SlotMask {
    const words: array<Word>

    ghost predicate Valid()
      reads this
    {
      words.Length == WORDS
    }

    ghost function Slots(): set<nat>
      reads this, words
      requires Valid()
    {
      SlotsOf(words[..])
    }

    /** The empty mask. */
    constructor ()
      ensures Valid() && fresh(words) && Slots() == {}
    {
      words := new Word[WORDS](_ => 0);
      new;
      EmptyRefines(words[..]);
    }

    constructor Copy(from: SlotMask)
      requires from.Valid()
      ensures Valid() && fresh(words) && words[..] == from.words[..]
    {
      words := new Word[WORDS](i requires 0 <= i < WORDS && from.words.Length == WORDS reads from.words =>
                                 from.words[i]);
    }

    /** All slots of a model; counts above the capacity are cut off. */
    static method All(slotCount: nat) returns (mask: SlotMask)
      ensures fresh(mask) && fresh(mask.words) && mask.Valid() && mask.Slots() == Network.SlotRange(slotCount)
    {
      mask := new SlotMask();
      var i := 0;
      while i < slotCount && i < SLOTS
        invariant i <= slotCount && i <= SLOTS && mask.Valid() && fresh(mask) && fresh(mask.words)
        invariant mask.Slots() == Network.SlotRange(i)
        decreases SLOTS - i
      {
        mask.Set(i);
        i := i + 1;
      }
    }

    /** Adds a slot; one out of range is ignored. */
    method Set(slot: nat)
      requires Valid()
      modifies words
      ensures Slots() == if slot < SLOTS then old(Slots()) + {slot} else old(Slots())
    {
      if slot >= SLOTS {
        return;
      }
      WordBound();
      SingleBound(slot % 64, 64);
      OrBound(words[slot / 64], Single(slot % 64), 64);
      SetRefines(words[..], slot, Or(words[slot / 64], Single(slot % 64)));
      words[slot / 64] := Or(words[slot / 64], Single(slot % 64));
      assert words[..] == old(words[..])[slot / 64 := words[slot / 64]];
    }

    /** Removes a slot; one out of range is ignored. */
    method Reset(slot: nat)
      requires Valid()
      modifies words
      ensures Slots() == old(Slots()) - {slot}
    {
      if slot >= SLOTS {
        return;
      }
      ResetRefines(words[..], slot, AndNot(words[slot / 64], Single(slot % 64)));
      words[slot / 64] := AndNot(words[slot / 64], Single(slot % 64));
      assert words[..] == old(words[..])[slot / 64 := words[slot / 64]];
    }

    method Test(slot: nat) returns (present: bool)
      requires Valid()
      ensures present <==> slot in Slots()
    {
      if slot >= SLOTS {
        return false;
      }
      MaskedBit(words[slot / 64], slot % 64);
      present := And(words[slot / 64], Single(slot % 64)) != 0;
    }

    method AndWith(other: SlotMask)
      requires Valid() && other.Valid()
      modifies words
      ensures Slots() == old(Slots()) * old(other.Slots())
    {
      ghost var a, b := words[..], other.words[..];
      for i := 0 to WORDS
        invariant forall k | 0 <= k < i :: words[k] == And(a[k], b[k])
        invariant forall k | i <= k < WORDS :: words[k] == a[k] && other.words[k] == b[k]
      {
        words[i] := And(words[i], other.words[i]);
      }
      AndRefines(a, b, words[..]);
    }

    method Intersect(other: SlotMask) returns (result: SlotMask)
      requires Valid() && other.Valid()
      ensures fresh(result) && fresh(result.words) && result.Valid() && result.Slots() == Slots() * other.Slots()
    {
      result := new SlotMask.Copy(this);
      result.AndWith(other);
    }

    method IsEmpty() returns (empty: bool)
      requires Valid()
      ensures empty <==> Slots() == {}
    {
      EmptyRefines(words[..]);
      for i := 0 to WORDS
        invariant forall k | 0 <= k < i :: words[k] == 0
      {
        if words[i] != 0 {
          return false;
        }
      }
      return true;
    }

    method IsSubsetOf(other: SlotMask) returns (subset: bool)
      requires Valid() && other.Valid()
      ensures subset <==> Slots() <= other.Slots()
    {
      SubsetRefines(words[..], other.words[..]);
      for i := 0 to WORDS
        invariant forall k | 0 <= k < i :: AndNot(words[k], other.words[k]) == 0
      {
        if AndNot(words[i], other.words[i]) != 0 {
          return false;
        }
      }
      return true;
    }

    /** The lowest slot, as the search and the plan builder pick it. */
    method LowestSetBit() returns (lowest: Option<nat>)
      requires Valid()
      ensures lowest == PlanModel.LowestSlot(Slots())
    {
      for i := 0 to WORDS
        invariant forall k | 0 <= k < i :: words[k] == 0
      {
        if words[i] != 0 {
          var bit := LowestBit(words[i]);
          LowestIs(words[..], i, bit);
          return Some(64 * i + bit);
        }
      }
      EmptyRefines(words[..]);
      PlanTheorems.LowestFromIsLeast(Slots(), 0);
      return None;
    }

    /** The slots at which a run of `width` set slots starts. */
    method FirstSlotMask(width: nat) returns (result: SlotMask)
      requires Valid()
      ensures fresh(result) && fresh(result.words) && result.Valid()
      ensures result.Slots() == Network.ChannelStarts(Slots(), width)
    {
      result := new SlotMask();
      if width == 0 || width > SLOTS {
        return;
      }
      var start := 0;
      while start <= SLOTS - width
        invariant start <= SLOTS - width + 1 && result.Valid() && fresh(result) && fresh(result.words)
        invariant result.Slots() == set s: nat | s < start && s <= SLOTS - width
                                                 && Network.ChannelFits(Slots(), s, width)
      {
        var available := RunAvailable(start, width);
        if available {
          result.Set(start);
        }
        start := start + 1;
      }
    }

    method RunAvailable(start: nat, width: nat) returns (available: bool)
      requires Valid()
      ensures available <==> Network.ChannelFits(Slots(), start, width)
    {
      for offset := 0 to width
        invariant forall slot: nat | start <= slot < start + offset :: slot in Slots()
      {
        var present := Test(start + offset);
        if !present {
          return false;
        }
      }
      return true;
    }

    /** The text form: 64 hexadecimal characters, most significant word first. */
    method ToHex() returns (text: string)
      requires Valid()
      ensures text == HexOf(words[..])
    {
      text := "";
      var index := WORDS;
      while index > 0
        invariant 0 <= index <= WORDS && text == HexOf(words[index..])
      {
        index := index - 1;
        var digits := HexText(words[index]);
        text := text + digits;
        assert words[index..][1..] == words[index + 1..];
      }
      assert words[0..] == words[..];
    }

    /** Reads the text form, in either case; anything else is malformed. */
    static method FromHex(text: string) returns (mask: Option<SlotMask>)
      ensures mask.Some? <==> IsHex(text)
      ensures mask.Some? ==> fresh(mask.value) && fresh(mask.value.words) && mask.value.Valid()
      ensures mask.Some? ==> mask.value.words[..] == WordsOf(text)
    {
      if |text| != 16 * WORDS {
        return None;
      }
      var m := new SlotMask();
      var ok := m.Read(text);
      if !ok {
        return None;
      }
      return Some(m);
    }

    /** Fills the words from the text, the last one first. */
    method Read(text: string) returns (ok: bool)
      requires Valid() && |text| == 16 * WORDS
      modifies words
      ensures ok <==> IsHex(text)
      ensures ok ==> words[..] == WordsOf(text)
    {
      var index, cursor := WORDS, 0;
      while index > 0
        invariant 0 <= index <= WORDS && cursor == 16 * (WORDS - index) && HexDigits(text[..cursor])
        invariant forall i | index <= i < WORDS :: words[i] == WordAt(text, i)
      {
        index := index - 1;
        MoreDigits(text, cursor);
        var word := ReadWord(text[cursor..cursor + 16]);
        if word.None? {
          return false;
        }
        words[index] := word.value;
        cursor := cursor + 16;
      }
      assert text[..cursor] == text;
      return true;
    }
  }

  lemma {:induction false} MoreDigits(text: string, cursor: nat)
    requires cursor + 16 <= |text| && HexDigits(text[..cursor])
    ensures HexDigits(text[..cursor + 16]) <==> HexDigits(text[cursor..cursor + 16])
    ensures HexDigits(text) ==> HexDigits(text[..cursor + 16])
  {
    assert text[..cursor + 16] == text[..cursor] + text[cursor..cursor + 16];
  }

  /** Writes sixteen hexadecimal digits. */
  method HexText(word: Word) returns (text: string)
    ensures text == HexOfWord(word, 16)
  {
    text := "";
    var nibble := 16;
    while nibble > 0
      invariant 0 <= nibble <= 16 && text + HexOfWord(word, nibble) == HexOfWord(word, 16)
    {
      nibble := nibble - 1;
      text := text + [HexDigit(word / Sixteens(nibble) % 16)];
    }
  }

  /** Reads sixteen hexadecimal digits. */
  method ReadWord(text: string) returns (word: Option<Word>)
    requires |text| == 16
    ensures if HexDigits(text) then word == Some(ValueOf(text)) else word == None
  {
    var value := 0;
    for nibble := 0 to 16
      invariant HexDigits(text[..nibble]) && value == ValueOf(text[..nibble])
    {
      var digit := HexValue(text[nibble]);
      if digit.None? {
        return None;
      }
      assert text[..nibble + 1][..nibble] == text[..nibble];
      OrDigit(value, digit.value);
      value := Or(value * 16, digit.value);
    }
    assert text[..16] == text;
    SixteensBound();
    return Some(value);
  }

  lemma {:induction false} MaskedBit(w: nat, k: nat)
    ensures And(w, Single(k)) != 0 <==> Bit(w, k)
  {
    BitOfAnd(w, Single(k), k);
    BitOfSingle(k, k);
    ZeroHasNoBit(k);
    if And(w, Single(k)) != 0 && !Bit(w, k) {
      OnlyBit(w, k);
    }
  }

  lemma {:induction false} OnlyBit(w: nat, k: nat)
    requires !Bit(w, k)
    ensures And(w, Single(k)) == 0
  {
    if w > 0 {
      if k > 0 {
        OnlyBit(w / 2, k - 1);
      } else {
        AndZero(w / 2);
      }
    }
  }

  lemma {:induction false} AndZero(w: nat)
    ensures And(w, 0) == 0
  {
    if w > 0 {
      AndZero(w / 2);
    }
  }

  function Lowest(w: nat): nat
    requires w != 0
  {
    if w % 2 == 1 then 0 else 1 + Lowest(w / 2)
  }

  lemma {:induction false} LowestIsFirst(w: nat)
    requires w != 0
    ensures Bit(w, Lowest(w)) && forall k: nat | k < Lowest(w) :: !Bit(w, k)
  {
    if w % 2 == 0 {
      LowestIsFirst(w / 2);
    }
  }

  /** The position of the lowest bit of a word that is not zero. */
  method LowestBit(word: Word) returns (bit: nat)
    requires word != 0
    ensures bit < 64 && Bit(word, bit) && forall k: nat | k < bit :: !Bit(word, k)
  {
    var value: nat := word;
    bit := 0;
    while value % 2 == 0
      invariant value > 0 && bit + Lowest(value) == Lowest(word)
      decreases value
    {
      value := value / 2;
      bit := bit + 1;
    }
    LowestIsFirst(word);
    BitInRange(word, bit);
  }

  lemma {:induction false} BitInRange(word: Word, k: nat)
    requires Bit(word, k)
    ensures k < 64
  {
    WordBound();
    BitBelow(word, k, 64);
  }

  lemma {:induction false} BitBelow(w: nat, k: nat, n: nat)
    requires w < Single(n) && Bit(w, k)
    ensures k < n
  {
    if n == 0 {
      ZeroHasNoBit(k);
    } else if k > 0 {
      BitBelow(w / 2, k - 1, n - 1);
    }
  }

  lemma {:induction false} LowestIs(words: seq<Word>, i: nat, bit: nat)
    requires |words| == WORDS && i < WORDS && bit < 64 && Bit(words[i], bit)
    requires forall k | 0 <= k < i :: words[k] == 0
    requires forall k: nat | k < bit :: !Bit(words[i], k)
    ensures PlanModel.LowestSlot(SlotsOf(words)) == Some(64 * i + bit)
  {
    SlotAt(words, i, bit);
    forall s: nat | s < 64 * i + bit
      ensures s !in SlotsOf(words)
    {
      if s / 64 < i {
        ZeroHasNoBit(s % 64);
      }
    }
    PlanTheorems.LowestFromIsLeast(SlotsOf(words), 0);
  }

  // ----- hexadecimal ----------------------------------------------------------------------

  function HexDigit(v: nat): char
    requires v < 16
  {
    "0123456789abcdef"[v]
  }

  function HexValue(c: char): Option<nat> {
    if '0' <= c <= '9' then Some(c as nat - '0' as nat)
    else if 'a' <= c <= 'f' then Some(c as nat - 'a' as nat + 10)
    else if 'A' <= c <= 'F' then Some(c as nat - 'A' as nat + 10)
    else None
  }

  lemma {:induction false} DigitRoundTrip(v: nat)
    requires v < 16
    ensures HexValue(HexDigit(v)) == Some(v)
  {}

  /** 16 to the power `n`. */
  function Sixteens(n: nat): (r: nat)
    ensures r > 0
  {
    if n == 0 then 1 else 16 * Sixteens(n - 1)
  }

  lemma {:induction false} SixteensBound()
    ensures Sixteens(16) == 0x1_0000_0000_0000_0000
  {
    assert Sixteens(4) == 0x1_0000;
    assert Sixteens(8) == 0x1_0000_0000;
    assert Sixteens(12) == 0x1_0000_0000_0000;
  }

  /** The `n` low hexadecimal digits of a word. */
  function HexOfWord(w: nat, n: nat): (r: string)
    ensures |r| == n
  {
    if n == 0 then "" else [HexDigit(w / Sixteens(n - 1) % 16)] + HexOfWord(w, n - 1)
  }

  /** The text of some words, the last one first. */
  function HexOf(words: seq<Word>): (r: string)
    ensures |r| == 16 * |words|
  {
    if words == [] then "" else HexOf(words[1..]) + HexOfWord(words[0], 16)
  }

  predicate HexDigits(text: string) { forall k | 0 <= k < |text| :: HexValue(text[k]).Some? }

  predicate IsHex(text: string) { |text| == 16 * WORDS && HexDigits(text) }

  /** The number some hexadecimal digits spell. */
  function ValueOf(text: string): (r: nat)
    requires HexDigits(text)
    ensures r < Sixteens(|text|)
  {
    if text == "" then 0
    else
      var n := |text| - 1;
      16 * ValueOf(text[..n]) + HexValue(text[n]).value
  }

  function WordAt(text: string, i: nat): Word
    requires |text| == 16 * WORDS && i < WORDS && HexDigits(text[16 * (WORDS - 1 - i)..16 * (WORDS - i)])
  {
    SixteensBound();
    ValueOf(text[16 * (WORDS - 1 - i)..16 * (WORDS - i)])
  }

  function WordsOf(text: string): (r: seq<Word>)
    requires IsHex(text)
    ensures |r| == WORDS
  {
    seq(WORDS, i requires 0 <= i < WORDS => WordAt(text, i))
  }

  lemma {:induction false} AppendDigit(w: nat, head: string, n: nat)
    requires n > 0 && HexDigits(head) && ValueOf(head) == w / Sixteens(n)
    ensures var longer := head + [HexDigit(w / Sixteens(n - 1) % 16)];
            HexDigits(longer) && ValueOf(longer) == w / Sixteens(n - 1)
  {
    var high := w / Sixteens(n - 1);
    DigitRoundTrip(high % 16);
    var longer := head + [HexDigit(high % 16)];
    assert longer[..|head|] == head;
    DivideAgain(w, Sixteens(n - 1), 16);
    assert high == 16 * (high / 16) + high % 16;
  }

  /** Appending the low digits of a word to what spells its high part spells the word. */
  lemma {:induction false} WordRoundTrip(w: nat, head: string, n: nat)
    requires HexDigits(head) && ValueOf(head) == w / Sixteens(n)
    ensures HexDigits(head + HexOfWord(w, n)) && ValueOf(head + HexOfWord(w, n)) == w
    decreases n
  {
    if n == 0 {
      assert head + HexOfWord(w, n) == head;
      assert Sixteens(0) == 1;
    } else {
      AppendDigit(w, head, n);
      var digit := [HexDigit(w / Sixteens(n - 1) % 16)];
      WordRoundTrip(w, head + digit, n - 1);
      assert head + digit + HexOfWord(w, n - 1) == head + (digit + HexOfWord(w, n - 1));
    }
  }

  lemma {:induction false} OneWord(w: Word)
    ensures HexDigits(HexOfWord(w, 16)) && ValueOf(HexOfWord(w, 16)) == w
  {
    SixteensBound();
    WordRoundTrip(w, "", 16);
    assert "" + HexOfWord(w, 16) == HexOfWord(w, 16);
  }

  /** Where word `i` stands in the text. */
  lemma {:induction false} WordInText(words: seq<Word>, i: nat)
    requires i < |words|
    ensures HexOf(words)[16 * (|words| - 1 - i)..16 * (|words| - i)] == HexOfWord(words[i], 16)
  {
    var rest, last := HexOf(words[1..]), HexOfWord(words[0], 16);
    assert HexOf(words) == rest + last;
    if i > 0 {
      WordInText(words[1..], i - 1);
      InFront(rest, last, 16 * (|words| - 1 - i), 16 * (|words| - i));
    } else {
      assert (rest + last)[|rest|..|rest| + 16] == last;
    }
  }

  lemma {:induction false} InFront(a: string, b: string, i: nat, j: nat)
    requires i <= j <= |a|
    ensures (a + b)[i..j] == a[i..j]
  {}

  lemma {:induction false} TextIsHex(words: seq<Word>)
    ensures HexDigits(HexOf(words))
  {
    if words != [] {
      TextIsHex(words[1..]);
      OneWord(words[0]);
    }
  }

  /** Reading the text of a mask gives the mask back. */
  lemma {:induction false} HexRoundTrip(words: seq<Word>)
    requires |words| == WORDS
    ensures IsHex(HexOf(words)) && WordsOf(HexOf(words)) == words
  {
    TextIsHex(words);
    forall i | 0 <= i < WORDS
      ensures WordAt(HexOf(words), i) == words[i]
    {
      WordInText(words, i);
      OneWord(words[i]);
    }
  }
}
