/** The token and line codec: byte strings as printable tokens, and lines of tokens. */
module Codec {
  import opened Base

  type Byte = b: nat | b < 256
  type Text = seq<Byte>

  const MAX_TOKEN: nat := 1024
  const MAX_LINE: nat := 8192

  const PERCENT: Byte := 37
  const SPACE: Byte := 32
  const TAB: Byte := 9
  const EQUALS: Byte := 61

  // ----- tokens ---------------------------------------------------------------------------

  predicate Digit(b: Byte) { '0' as nat <= b <= '9' as nat }

  /** Bytes that stand for themselves. */
  predicate Raw(b: Byte) {
    || Digit(b) || 'a' as nat <= b <= 'z' as nat || 'A' as nat <= b <= 'Z' as nat
    || b == '_' as nat || b == '.' as nat || b == ':' as nat || b == '@' as nat || b == '/' as nat
    || b == '+' as nat || b == '*' as nat || b == '=' as nat || b == '-' as nat
  }

  function Hex(v: nat): Byte
    requires v < 16
  {
    if v < 10 then '0' as nat + v else 'A' as nat + (v - 10)
  }

  /** The value of a hexadecimal digit in either case. */
  function HexValue(b: Byte): Option<nat> {
    if Digit(b) then Some(b - '0' as nat)
    else if 'a' as nat <= b <= 'f' as nat then Some(b - 'a' as nat + 10)
    else if 'A' as nat <= b <= 'F' as nat then Some(b - 'A' as nat + 10)
    else None
  }

  function EncodeByte(b: Byte): Text {
    if Raw(b) then [b] else [PERCENT, Hex(b / 16), Hex(b % 16)]
  }

  function EncodeBytes(raw: Text): Text {
    if raw == [] then [] else EncodeBytes(raw[..|raw| - 1]) + EncodeByte(raw[|raw| - 1])
  }

  /** The token for a byte string; a lone percent sign stands for the empty one. */
  function Encode(raw: Text): Text { if raw == [] then [PERCENT] else EncodeBytes(raw) }

  function Prepend(head: Text, rest: Option<Text>): Option<Text> {
    if rest.Some? then Some(head + rest.value) else None
  }

  function DecodeBytes(token: Text): Option<Text> {
    if token == [] then Some([])
    else if token[0] != PERCENT then Prepend([token[0]], DecodeBytes(token[1..]))
    else if |token| < 3 || HexValue(token[1]).None? || HexValue(token[2]).None? then None
    else Prepend([HexValue(token[1]).value * 16 + HexValue(token[2]).value], DecodeBytes(token[3..]))
  }

  function Decode(token: Text): Option<Text> {
    if token == [] || |token| > 3 * MAX_TOKEN then None
    else if token == [PERCENT] then Some([])
    else DecodeBytes(token)
  }

  lemma {:induction false} RawStaysRaw(raw: Text)
    requires forall k | 0 <= k < |raw| :: Raw(raw[k])
    ensures EncodeBytes(raw) == raw
  {
    if raw != [] {
      RawStaysRaw(raw[..|raw| - 1]);
    }
  }

  lemma {:induction false} PrependAll(a: Text, b: Text, rest: Option<Text>)
    ensures Prepend(a, Prepend(b, rest)) == Prepend(a + b, rest) && Prepend([], rest) == rest
  {
    if rest.Some? {
      assert a + (b + rest.value) == a + b + rest.value;
      assert [] + rest.value == rest.value;
    }
  }

  method EncodeToken(raw: Text) returns (token: Text)
    ensures token == Encode(raw)
  {
    var needsEscaping := NeedsEscaping(raw);
    if !needsEscaping {
      RawStaysRaw(raw);
      return raw;
    }
    token := [];
    for i := 0 to |raw|
      invariant token == EncodeBytes(raw[..i])
    {
      assert raw[..i + 1][..i] == raw[..i];
      if Raw(raw[i]) {
        token := token + [raw[i]];
      } else {
        token := token + [PERCENT, Hex(raw[i] / 16), Hex(raw[i] % 16)];
      }
    }
    assert raw[..|raw|] == raw;
    if token == [] {
      EncodedSize(raw);
      token := [PERCENT];
    }
  }

  method NeedsEscaping(raw: Text) returns (needed: bool)
    ensures !needed ==> raw != [] && forall k | 0 <= k < |raw| :: Raw(raw[k])
  {
    if |raw| == 0 || |raw| > MAX_TOKEN {
      return true;
    }
    for i := 0 to |raw|
      invariant forall k | 0 <= k < i :: Raw(raw[k])
    {
      if !Raw(raw[i]) {
        return true;
      }
    }
    return false;
  }

  method DecodeToken(token: Text) returns (raw: Option<Text>)
    ensures raw == Decode(token)
  {
    if |token| == 0 || |token| > 3 * MAX_TOKEN {
      return None;
    }
    if token == [PERCENT] {
      return Some([]);
    }
    var out: Text := [];
    var i := 0;
    assert token[0..] == token;
    PrependAll([], [], DecodeBytes(token));
    while i < |token|
      invariant i <= |token| && Prepend(out, DecodeBytes(token[i..])) == DecodeBytes(token)
    {
      if token[i] != PERCENT {
        assert token[i..][1..] == token[i + 1..];
        PrependAll(out, [token[i]], DecodeBytes(token[i + 1..]));
        out := out + [token[i]];
        i := i + 1;
      } else {
        if i + 2 >= |token| || HexValue(token[i + 1]).None? || HexValue(token[i + 2]).None? {
          return None;
        }
        assert token[i..][3..] == token[i + 3..];
        var byte: Byte := HexValue(token[i + 1]).value * 16 + HexValue(token[i + 2]).value;
        PrependAll(out, [byte], DecodeBytes(token[i + 3..]));
        out := out + [byte];
        i := i + 3;
      }
    }
    assert token[i..] == [] && out + [] == out;
    return Some(out);
  }

  // ----- decoding undoes encoding ---------------------------------------------------------

  lemma {:induction false} HexRoundTrip(v: nat)
    requires v < 16
    ensures HexValue(Hex(v)) == Some(v)
  {}

  /** What one byte becomes is neither blank nor a loose percent sign. */
  lemma {:induction false} ByteRoundTrip(b: Byte, rest: Text)
    ensures DecodeBytes(EncodeByte(b) + rest) == Prepend([b], DecodeBytes(rest))
    ensures 1 <= |EncodeByte(b)| <= 3 && SPACE !in EncodeByte(b) && TAB !in EncodeByte(b)
  {
    var t := EncodeByte(b) + rest;
    if Raw(b) {
      assert t[1..] == rest;
    } else {
      HexRoundTrip(b / 16);
      HexRoundTrip(b % 16);
      assert t[3..] == rest;
      assert b / 16 * 16 + b % 16 == b;
    }
  }

  lemma {:induction false} BytesRoundTrip(raw: Text, rest: Text)
    ensures DecodeBytes(EncodeBytes(raw) + rest) == Prepend(raw, DecodeBytes(rest))
  {
    if raw == [] {
      assert EncodeBytes(raw) + rest == rest;
      PrependAll([], [], DecodeBytes(rest));
    } else {
      var n := |raw| - 1;
      var more := EncodeByte(raw[n]) + rest;
      assert EncodeBytes(raw) + rest == EncodeBytes(raw[..n]) + more;
      BytesRoundTrip(raw[..n], more);
      ByteRoundTrip(raw[n], rest);
      PrependAll(raw[..n], [raw[n]], DecodeBytes(rest));
      assert raw[..n] + [raw[n]] == raw;
    }
  }

  /** An encoding is at least as long as what it encodes, and never blank. */
  lemma {:induction false} EncodedSize(raw: Text)
    ensures |raw| <= |EncodeBytes(raw)| <= 3 * |raw|
    ensures SPACE !in EncodeBytes(raw) && TAB !in EncodeBytes(raw)
  {
    if raw != [] {
      EncodedSize(raw[..|raw| - 1]);
      ByteRoundTrip(raw[|raw| - 1], []);
    }
  }

  /** Decoding an encoded token gives the byte string back exactly when the token is not too
      long; then and only then does it decode at all. */
  lemma {:induction false} TokenRoundTrip(raw: Text)
    ensures Decode(Encode(raw)) == (if |Encode(raw)| <= 3 * MAX_TOKEN then Some(raw) else None)
  {
    EncodedSize(raw);
    BytesRoundTrip(raw, []);
    assert EncodeBytes(raw) + [] == EncodeBytes(raw) && raw + [] == raw;
    assert DecodeBytes([PERCENT]) == None;
  }

  // ----- lines ----------------------------------------------------------------------------

  predicate Blank(b: Byte) { b == SPACE || b == TAB }

  /** Something a line can carry as one token. */
  predicate Solid(piece: Text) { piece != [] && forall k | 0 <= k < |piece| :: !Blank(piece[k]) }

  /** The pieces with one space between neighbours. */
  function Join(pieces: seq<Text>): Text {
    if pieces == [] then []
    else if |pieces| == 1 then pieces[0]
    else Join(pieces[..|pieces| - 1]) + [SPACE] + pieces[|pieces| - 1]
  }

  /** Builds one line, piece by piece. */
  class LineAssembler {
    var line: Text
    ghost var pieces: seq<Text>

    ghost predicate Valid()
      reads this
    {
      line == Join(pieces) && forall k | 0 <= k < |pieces| :: pieces[k] != []
    }

    constructor (record: Text)
      ensures Valid() && pieces == if record == [] then [] else [record]
    {
      line := record;
      pieces := if record == [] then [] else [record];
    }

    method Begin(record: Text)
      modifies this
      ensures Valid() && pieces == if record == [] then [] else [record]
    {
      line := record;
      pieces := if record == [] then [] else [record];
    }

    /** Adds a byte string as an encoded token. */
    method Add(token: Text)
      requires Valid()
      modifies this
      ensures Valid() && pieces == old(pieces) + [Encode(token)]
    {
      var encoded := EncodeToken(token);
      EncodedSize(token);
      AppendPiece(encoded);
    }

    /** Adds `key=value` with the value encoded. */
    method AddKeyToken(key: Text, value: Text)
      requires Valid()
      modifies this
      ensures Valid() && pieces == old(pieces) + [key + [EQUALS] + Encode(value)]
    {
      var encoded := EncodeToken(value);
      AppendPiece(key + [EQUALS] + encoded);
    }

    method AppendPiece(piece: Text)
      requires Valid() && piece != []
      modifies this
      ensures Valid() && pieces == old(pieces) + [piece]
    {
      JoinEmpty(pieces);
      if line != [] {
        line := line + [SPACE];
      }
      line := line + piece;
      assert (pieces + [piece])[..|pieces|] == pieces;
      pieces := pieces + [piece];
    }
  }

  lemma {:induction false} JoinEmpty(pieces: seq<Text>)
    requires forall k | 0 <= k < |pieces| :: pieces[k] != []
    ensures Join(pieces) == [] <==> pieces == []
  {}

  // ----- splitting ------------------------------------------------------------------------

  datatype Split = Tokens(tokens: seq<Text>) | EmptyLine | LineTooLong | TokenTooLong | NoTokens

  /** The end of the run of blanks, or of non-blanks, that starts at `from`. */
  function RunEnd(line: Text, from: nat, blank: bool): (r: nat)
    requires from <= |line|
    ensures from <= r <= |line| && (forall k | from <= k < r :: Blank(line[k]) == blank)
    ensures r < |line| ==> Blank(line[r]) != blank
    decreases |line| - from
  {
    if from == |line| || Blank(line[from]) != blank then from else RunEnd(line, from + 1, blank)
  }

  /** The tokens of a line from position `from` on, or None if one is too long. */
  function TokensFrom(line: Text, from: nat): Option<seq<Text>>
    requires from <= |line|
    decreases |line| - from
  {
    var start := RunEnd(line, from, true);
    if start == |line| then Some([])
    else
      var end := RunEnd(line, start, false);
      if end - start > MAX_TOKEN then None
      else After([line[start..end]], TokensFrom(line, end))
  }

  function SplitLine(line: Text): Split {
    if line == [] then EmptyLine
    else if |line| > MAX_LINE then LineTooLong
    else
      match TokensFrom(line, 0)
      case None => TokenTooLong
      case Some(tokens) => if tokens == [] then NoTokens else Tokens(tokens)
  }

  function After(tokens: seq<Text>, rest: Option<seq<Text>>): Option<seq<Text>> {
    if rest.Some? then Some(tokens + rest.value) else None
  }

  lemma {:induction false} AfterAll(a: seq<Text>, b: seq<Text>, rest: Option<seq<Text>>)
    ensures After(a, After(b, rest)) == After(a + b, rest) && After([], rest) == rest
  {
    if rest.Some? {
      assert a + (b + rest.value) == a + b + rest.value;
      assert [] + rest.value == rest.value;
    }
  }

  method SplitTokens(line: Text) returns (split: Split)
    ensures split == SplitLine(line)
  {
    if line == [] {
      return EmptyLine;
    }
    if |line| > MAX_LINE {
      return LineTooLong;
    }
    var tokens: seq<Text> := [];
    var index := 0;
    AfterAll([], [], TokensFrom(line, 0));
    while index < |line|
      invariant index <= |line| && After(tokens, TokensFrom(line, index)) == TokensFrom(line, 0)
    {
      index := SkipRun(line, index, true);
      if index >= |line| {
        break;
      }
      var start := index;
      index := SkipRun(line, index, false);
      if index - start > MAX_TOKEN {
        return TokenTooLong;
      }
      AfterAll(tokens, [line[start..index]], TokensFrom(line, index));
      tokens := tokens + [line[start..index]];
    }
    assert tokens + [] == tokens;
    if tokens == [] {
      return NoTokens;
    }
    return Tokens(tokens);
  }

  method SkipRun(line: Text, from: nat, blank: bool) returns (index: nat)
    requires from <= |line|
    ensures index == RunEnd(line, from, blank)
  {
    index := from;
    while index < |line| && Blank(line[index]) == blank
      invariant index <= |line| && RunEnd(line, index, blank) == RunEnd(line, from, blank)
    {
      index := index + 1;
    }
  }

  // ----- what splitting finds -------------------------------------------------------------

  function Concat(tokens: seq<Text>): Text {
    if tokens == [] then [] else tokens[0] + Concat(tokens[1..])
  }

  function NonBlanks(line: Text, from: nat): Text
    requires from <= |line|
    decreases |line| - from
  {
    if from == |line| then []
    else (if Blank(line[from]) then [] else [line[from]]) + NonBlanks(line, from + 1)
  }

  lemma {:induction false} NonBlanksRun(line: Text, from: nat, blank: bool)
    requires from <= |line|
    ensures var end := RunEnd(line, from, blank);
            NonBlanks(line, from) == (if blank then [] else line[from..end]) + NonBlanks(line, end)
    decreases |line| - from
  {
    if from < |line| && Blank(line[from]) == blank {
      NonBlanksRun(line, from + 1, blank);
      var end := RunEnd(line, from, blank);
      if !blank {
        assert line[from..end] == [line[from]] + line[from + 1..end];
        SeqAssociates([line[from]], line[from + 1..end], NonBlanks(line, end));
      }
    }
  }

  lemma {:induction false} SeqAssociates(a: Text, b: Text, c: Text)
    ensures a + (b + c) == (a + b) + c
  {}

  /** Splitting loses and invents nothing: the tokens are solid, short enough, and together are
      the line without its blanks. */
  lemma {:induction false} SplitSound(line: Text, from: nat)
    requires from <= |line| && TokensFrom(line, from).Some?
    ensures var tokens := TokensFrom(line, from).value;
            && (forall k | 0 <= k < |tokens| :: Solid(tokens[k]) && |tokens[k]| <= MAX_TOKEN)
            && Concat(tokens) == NonBlanks(line, from)
    decreases |line| - from
  {
    var start := RunEnd(line, from, true);
    NonBlanksRun(line, from, true);
    if start < |line| {
      var end := RunEnd(line, start, false);
      NonBlanksRun(line, start, false);
      SplitSound(line, end);
      assert TokensFrom(line, from).value[1..] == TokensFrom(line, end).value;
    }
  }

  // ----- lines round trip -----------------------------------------------------------------

  /** The pieces, each followed by whatever comes next, from the front. */
  function Spread(pieces: seq<Text>): Text {
    if pieces == [] then [] else [SPACE] + pieces[0] + Spread(pieces[1..])
  }

  lemma {:induction false} SpreadAppend(pieces: seq<Text>, last: Text)
    ensures Spread(pieces + [last]) == Spread(pieces) + [SPACE] + last
  {
    if pieces == [] {
      assert [last][1..] == [];
    } else {
      SpreadAppend(pieces[1..], last);
      assert (pieces + [last])[1..] == pieces[1..] + [last];
    }
  }

  lemma {:induction false} JoinIsSpread(pieces: seq<Text>)
    requires pieces != []
    ensures Join(pieces) == pieces[0] + Spread(pieces[1..])
  {
    var n := |pieces| - 1;
    if n > 0 {
      JoinIsSpread(pieces[..n]);
      SpreadAppend(pieces[1..n], pieces[n]);
      assert pieces[..n][1..] == pieces[1..n];
      assert pieces[1..] == pieces[1..n] + [pieces[n]];
    }
  }

  lemma {:induction false} RunIs(line: Text, from: nat, end: nat, blank: bool)
    requires from <= end <= |line| && (forall k | from <= k < end :: Blank(line[k]) == blank)
    requires end < |line| ==> Blank(line[end]) != blank
    ensures RunEnd(line, from, blank) == end
  {}

  /** The pieces as far as they are short enough. */
  function Kept(pieces: seq<Text>): Option<seq<Text>> {
    if forall k | 0 <= k < |pieces| :: |pieces[k]| <= MAX_TOKEN then Some(pieces) else None
  }

  lemma {:induction false} TokenAt(line: Text, start: nat, piece: Text, rest: Text)
    requires start <= |line| && Solid(piece) && (rest == [] || rest[0] == SPACE) && line[start..] == piece + rest
    ensures start + |piece| <= |line| && RunEnd(line, start, false) == start + |piece|
    ensures RunEnd(line, start, true) == start < |line|
    ensures line[start..start + |piece|] == piece && line[start + |piece|..] == rest
  {
    assert forall k | start <= k < |line| :: line[k] == line[start..][k - start];
    assert forall k | start <= k < start + |piece| :: line[k] == piece[k - start];
    RunIs(line, start, start, true);
    RunIs(line, start, start + |piece|, false);
  }

  lemma {:induction false} FirstToken(line: Text, at: nat, piece: Text, rest: Text)
    requires at <= |line| && Solid(piece) && (rest == [] || rest[0] == SPACE)
    requires line[at..] == [SPACE] + piece + rest || line[at..] == piece + rest
    ensures var start := RunEnd(line, at, true);
            && start < |line| && RunEnd(line, start, false) == start + |piece| && start + |piece| <= |line|
            && line[start..start + |piece|] == piece && line[start + |piece|..] == rest
  {
    if line[at..] == piece + rest {
      TokenAt(line, at, piece, rest);
    } else {
      assert line[at] == line[at..][0] == SPACE && line[at + 1..] == line[at..][1..] == piece + rest;
      TokenAt(line, at + 1, piece, rest);
    }
  }

  lemma {:induction false} SpreadSplits(line: Text, at: nat, pieces: seq<Text>)
    requires at <= |line| && line[at..] == Spread(pieces) && forall k | 0 <= k < |pieces| :: Solid(pieces[k])
    ensures TokensFrom(line, at) == Kept(pieces)
    decreases |pieces|
  {
    if pieces == [] {
      RunIs(line, at, at, true);
    } else {
      var rest := Spread(pieces[1..]);
      FirstToken(line, at, pieces[0], rest);
      var end := RunEnd(line, at, true) + |pieces[0]|;
      SpreadSplits(line, end, pieces[1..]);
      KeptSplits(pieces);
    }
  }

  lemma {:induction false} KeptSplits(pieces: seq<Text>)
    requires pieces != []
    ensures Kept(pieces) == if |pieces[0]| > MAX_TOKEN then None else After([pieces[0]], Kept(pieces[1..]))
  {
    assert pieces == [pieces[0]] + pieces[1..];
  }

  /** A joined line splits into exactly its pieces, when it and they are short enough; when not,
      it is refused for that reason. */
  lemma {:induction false} LineRoundTrip(pieces: seq<Text>)
    requires forall k | 0 <= k < |pieces| :: Solid(pieces[k])
    ensures SplitLine(Join(pieces)) ==
            if pieces == [] then EmptyLine
            else if |Join(pieces)| > MAX_LINE then LineTooLong
            else if exists k :: 0 <= k < |pieces| && |pieces[k]| > MAX_TOKEN then TokenTooLong
            else Tokens(pieces)
  {
    if pieces != [] {
      var line := Join(pieces);
      JoinIsSpread(pieces);
      FirstToken(line, 0, pieces[0], Spread(pieces[1..]));
      SpreadSplits(line, RunEnd(line, 0, true) + |pieces[0]|, pieces[1..]);
      KeptSplits(pieces);
    }
  }

  function EncodeEach(tokens: seq<Text>): (encoded: seq<Text>)
    ensures |encoded| == |tokens|
  {
    if tokens == [] then [] else EncodeEach(tokens[..|tokens| - 1]) + [Encode(tokens[|tokens| - 1])]
  }

  lemma {:induction false} EncodedSolid(tokens: seq<Text>)
    ensures |EncodeEach(tokens)| == |tokens|
    ensures forall k | 0 <= k < |tokens| :: EncodeEach(tokens)[k] == Encode(tokens[k]) && Solid(Encode(tokens[k]))
  {
    forall k | 0 <= k < |tokens|
      ensures EncodeEach(tokens)[k] == Encode(tokens[k]) && Solid(Encode(tokens[k]))
    {
      EncodedAt(tokens, k);
      EncodedSize(tokens[k]);
    }
  }

  lemma {:induction false} EncodedAt(tokens: seq<Text>, k: nat)
    requires k < |tokens|
    ensures EncodeEach(tokens)[k] == Encode(tokens[k])
  {
    if k < |tokens| - 1 {
      EncodedAt(tokens[..|tokens| - 1], k);
    }
  }

  /** A line assembled from any byte strings, empty ones and ones with blanks or percent signs
      included, splits and decodes into exactly those byte strings, provided that the line and
      every encoding fit. */
  lemma {:induction false} RecordRoundTrip(record: Text, tokens: seq<Text>)
    requires Solid(record) && |record| <= MAX_TOKEN
    requires |Join([record] + EncodeEach(tokens))| <= MAX_LINE
    requires forall k | 0 <= k < |tokens| :: |Encode(tokens[k])| <= MAX_TOKEN
    ensures SplitLine(Join([record] + EncodeEach(tokens))) == Tokens([record] + EncodeEach(tokens))
    ensures |EncodeEach(tokens)| == |tokens|
    ensures forall k | 0 <= k < |tokens| :: Decode(EncodeEach(tokens)[k]) == Some(tokens[k])
  {
    EncodedSolid(tokens);
    LineRoundTrip([record] + EncodeEach(tokens));
    forall k | 0 <= k < |tokens|
      ensures Decode(EncodeEach(tokens)[k]) == Some(tokens[k])
    {
      TokenRoundTrip(tokens[k]);
    }
  }

  /** Assembles a record line and reads it back. */
  method WriteAndRead(record: Text, fields: seq<Text>) returns (read: Split)
    requires Solid(record)
    ensures read == SplitLine(Join([record] + EncodeEach(fields)))
  {
    var line := new LineAssembler(record);
    for i := 0 to |fields|
      invariant line.Valid() && fresh(line) && line.pieces == [record] + EncodeEach(fields[..i])
    {
      line.Add(fields[i]);
      assert fields[..i + 1][..i] == fields[..i];
    }
    assert fields[..|fields|] == fields;
    read := SplitTokens(line.line);
  }
}
