/**
 * Text as a log reader meets it: UTF-8 bytes in pieces, and lines ended by a line feed with or without a carriage
 * return.
 */
module LogText {
  import HistoryTypes

  type Byte = HistoryTypes.Byte

  /** A character. Only scalar values are ever encoded; 0xFFFD stands for what is no valid UTF-8. */
  type Code = c: int | 0 <= c < 0x110000

  const REPLACEMENT: Code := 0xFFFD
  const LF: Code := 10
  const CR: Code := 13

  predicate Scalar(c: Code) { !(0xD800 <= c < 0xE000) }

  // ----- UTF-8 (section 3 of RFC 3629) -----

  function Encode(c: Code): (bytes: seq<Byte>)
    ensures 1 <= |bytes| <= 4
  {
    if c < 0x80 then [c as Byte]
    else if c < 0x800 then [(0xC0 + c / 64) as Byte, (0x80 + c % 64) as Byte]
    else if c < 0x10000 then [(0xE0 + c / 4096) as Byte, (0x80 + c / 64 % 64) as Byte, (0x80 + c % 64) as Byte]
    else [(0xF0 + c / 262144) as Byte, (0x80 + c / 4096 % 64) as Byte, (0x80 + c / 64 % 64) as Byte,
          (0x80 + c % 64) as Byte]
  }

  function EncodeAll(text: seq<Code>): seq<Byte> {
    if text == [] then [] else Encode(text[0]) + EncodeAll(text[1..])
  }

  /** How many bytes a sequence beginning so has; 0 when none begins so. */
  function Length(lead: Byte): nat {
    if lead < 0x80 then 1
    else if lead < 0xC2 then 0
    else if lead < 0xE0 then 2
    else if lead < 0xF0 then 3
    else if lead < 0xF5 then 4
    else 0
  }

  /** How many bytes a decoder waits for, by the high bits of the first one alone. */
  function Announced(lead: Byte): nat {
    if 0xC0 <= lead < 0xE0 then 2
    else if 0xE0 <= lead < 0xF0 then 3
    else if 0xF0 <= lead < 0xF8 then 4
    else 1
  }

  /** Too few bytes have come to fill the announced number, and none of them begins anything else. */
  predicate Unfinished(bytes: seq<Byte>)
    requires bytes != []
  {
    |bytes| < Announced(bytes[0]) && forall k :: 1 <= k < |bytes| ==> 0x80 <= bytes[k] < 0xC0
  }

  /** The byte may stand at position `k` of a sequence beginning so. */
  predicate Continues(lead: Byte, k: nat, b: Byte) {
    var low := if k == 1 && lead == 0xE0 then 0xA0 else if k == 1 && lead == 0xF0 then 0x90 else 0x80;
    var high := if k == 1 && lead == 0xED then 0x9F else if k == 1 && lead == 0xF4 then 0x8F else 0xBF;
    low <= b as int <= high
  }

  predicate Fits(bytes: seq<Byte>)
    requires bytes != []
  {
    forall k :: 1 <= k < Length(bytes[0]) && k < |bytes| ==> Continues(bytes[0], k, bytes[k])
  }

  /** The first byte that may not continue the sequence: the bytes before it are replaced by one character. */
  function Break(bytes: seq<Byte>, k: nat): (at: nat)
    requires bytes != [] && 1 <= k
             && exists j :: k <= j < Length(bytes[0]) && j < |bytes| && !Continues(bytes[0], j, bytes[j])
    ensures k <= at < Length(bytes[0]) && at < |bytes| && !Continues(bytes[0], at, bytes[at])
    ensures forall j :: k <= j < at ==> Continues(bytes[0], j, bytes[j])
    decreases |bytes| - k
  {
    if k >= |bytes| || !Continues(bytes[0], k, bytes[k]) then k else Break(bytes, k + 1)
  }

  function Value(bytes: seq<Byte>): int
    requires 1 <= |bytes| <= 4
  {
    if |bytes| == 1 then bytes[0] as int
    else if |bytes| == 2 then (bytes[0] as int - 0xC0) * 64 + (bytes[1] as int - 0x80)
    else if |bytes| == 3 then (bytes[0] as int - 0xE0) * 4096 + (bytes[1] as int - 0x80) * 64 + (bytes[2] as int - 0x80)
    else (bytes[0] as int - 0xF0) * 262144 + (bytes[1] as int - 0x80) * 4096 + (bytes[2] as int - 0x80) * 64
         + (bytes[3] as int - 0x80)
  }

  lemma ValueIsCode(bytes: seq<Byte>)
    requires bytes != [] && Fits(bytes) && |bytes| == Length(bytes[0])
    ensures 0 <= Value(bytes) < 0x110000
    ensures |bytes| > 1 ==> Value(bytes) >= 0x80
  {
    assert forall k :: 1 <= k < |bytes| ==> Continues(bytes[0], k, bytes[k]);
  }

  /** What a decoder does with the front of its bytes: a character of so many bytes, or nothing until more arrive. */
  datatype Front = Char(code: Code, size: nat) | Incomplete

  function Take(bytes: seq<Byte>): (front: Front)
    requires bytes != []
    ensures front.Char? ==> 1 <= front.size <= |bytes|
  {
    var n := Length(bytes[0]);
    if Unfinished(bytes) then Incomplete
    else if n == 0 then Char(REPLACEMENT, 1)
    else if !Fits(bytes) then Char(REPLACEMENT, Break(bytes, 1))
    else
      ValueIsCode(bytes[..n]);
      Char(Value(bytes[..n]), n)
  }

  /** The characters decoded so far, and the bytes held back. */
  datatype Decoded = Decoded(text: seq<Code>, rest: seq<Byte>)

  function Decode(bytes: seq<Byte>): Decoded {
    if bytes == [] then Decoded([], [])
    else
      var front := Take(bytes);
      if front.Incomplete? then Decoded([], bytes)
      else
        var d := Decode(bytes[front.size..]);
        Decoded([front.code] + d.text, d.rest)
  }

  lemma FinishedStays(a: seq<Byte>, b: seq<Byte>)
    requires a != [] && !Unfinished(a)
    ensures !Unfinished(a + b)
  {
    if |a| < Announced(a[0]) {
      var k :| 1 <= k < |a| && !(0x80 <= a[k] < 0xC0);
      assert (a + b)[k] == a[k];
    }
  }

  lemma FittingStays(a: seq<Byte>, b: seq<Byte>)
    requires a != [] && !Unfinished(a) && Length(a[0]) > 0
    ensures Fits(a + b) <==> Fits(a)
    ensures Fits(a) ==> Length(a[0]) <= |a|
    ensures !Fits(a) ==> Break(a + b, 1) == Break(a, 1)
  {
    assert forall k :: 0 <= k < |a| ==> (a + b)[k] == a[k];
    if !Fits(a) {
      var k := Break(a, 1);
      assert !Continues((a + b)[0], k, (a + b)[k]);
      assert forall j :: 1 <= j < k ==> Continues((a + b)[0], j, (a + b)[j]);
    }
  }

  lemma TakeIsStable(a: seq<Byte>, b: seq<Byte>)
    requires a != [] && Take(a).Char?
    ensures Take(a + b) == Take(a)
  {
    FinishedStays(a, b);
    hide Unfinished, Fits, Break;
    var n := Length(a[0]);
    if n > 0 {
      FittingStays(a, b);
      if n <= |a| { assert (a + b)[..n] == a[..n]; }
    }
  }

  /** Decoding in pieces is decoding at once, wherever the bytes are cut. */
  lemma {:induction false} DecodeJoins(a: seq<Byte>, b: seq<Byte>)
    ensures var d := Decode(a); Decode(a + b) == Decoded(d.text + Decode(d.rest + b).text, Decode(d.rest + b).rest)
    decreases |a|
  {
    if a == [] {
      assert a + b == b;
    } else if Take(a).Char? {
      TakeIsStable(a, b);
      var n := Take(a).size;
      assert (a + b)[n..] == a[n..] + b;
      DecodeJoins(a[n..], b);
      DecodeStep(a);
      DecodeStep(a + b);
      hide Decode, Take;
      AppendAgain(Take(a).code, Decode(a[n..]).text, Decode(Decode(a[n..]).rest + b).text);
    } else {
      assert Decode(a) == Decoded([], a);
    }
  }

  lemma AppendAgain(x: Code, s: seq<Code>, t: seq<Code>)
    ensures [x] + (s + t) == ([x] + s) + t
  {
  }

  lemma DecodeStep(bytes: seq<Byte>)
    requires bytes != [] && Take(bytes).Char?
    ensures var n := Take(bytes).size;
            Decode(bytes) == Decoded([Take(bytes).code] + Decode(bytes[n..]).text, Decode(bytes[n..]).rest)
  {
  }

  /** What is held back is the end of the bytes, and is still held back when it stands alone. */
  lemma {:induction false} RestIsSuffix(bytes: seq<Byte>)
    ensures var rest := Decode(bytes).rest;
            |rest| <= |bytes| && bytes[|bytes| - |rest|..] == rest && Decode(rest) == Decoded([], rest)
    decreases |bytes|
  {
    if bytes != [] && Take(bytes).Char? {
      RestIsSuffix(bytes[Take(bytes).size..]);
    } else {
      assert bytes[0..] == bytes;
    }
  }

  lemma EncodedFits(c: Code)
    requires Scalar(c)
    ensures Length(Encode(c)[0]) == |Encode(c)| && Fits(Encode(c)) && Value(Encode(c)) == c
  {
    if c < 0x800 {
      ShortFits(c);
    } else if c < 0x10000 {
      ThreeFit(c);
    } else {
      FourFit(c);
    }
  }

  lemma ShortFits(c: Code)
    requires c < 0x800
    ensures Length(Encode(c)[0]) == |Encode(c)| && Fits(Encode(c)) && Value(Encode(c)) == c
  {
  }

  lemma ThreeFit(c: Code)
    requires Scalar(c) && 0x800 <= c < 0x10000
    ensures Length(Encode(c)[0]) == |Encode(c)| && Fits(Encode(c)) && Value(Encode(c)) == c
  {
  }

  lemma FourFit(c: Code)
    requires 0x10000 <= c
    ensures Length(Encode(c)[0]) == |Encode(c)| && Fits(Encode(c)) && Value(Encode(c)) == c
  {
  }

  /** What was encoded is decoded, and nothing is held back. */
  lemma {:induction false} DecodeInvertsEncode(text: seq<Code>)
    requires forall c :: c in text ==> Scalar(c)
    ensures Decode(EncodeAll(text)) == Decoded(text, [])
  {
    if text != [] {
      var e, more := Encode(text[0]), EncodeAll(text[1..]);
      EncodedFits(text[0]);
      assert e[..|e|] == e;
      assert Take(e) == Char(text[0], |e|);
      TakeIsStable(e, more);
      assert (e + more)[|e|..] == more;
      DecodeInvertsEncode(text[1..]);
      DecodeStep(e + more);
      assert [text[0]] + text[1..] == text;
    }
  }

  // ----- line feeds -----

  /** The first line feed among the bytes. */
  function FirstFeed(bytes: seq<Byte>): (at: nat)
    ensures at <= |bytes| && (at < |bytes| ==> bytes[at] == 10)
    ensures forall k :: 0 <= k < at ==> bytes[k] != 10
  {
    if bytes == [] || bytes[0] == 10 then 0 else 1 + FirstFeed(bytes[1..])
  }

  function FirstLF(text: seq<Code>): (at: nat)
    ensures at <= |text| && (at < |text| ==> text[at] == LF)
    ensures forall k :: 0 <= k < at ==> text[k] != LF
  {
    if text == [] || text[0] == LF then 0 else 1 + FirstLF(text[1..])
  }

  /** A character other than a line feed never swallows one, even when its bytes are no valid UTF-8. */
  lemma TakeSparesFeeds(bytes: seq<Byte>, at: nat)
    requires at < |bytes| && bytes[at] == 10 && forall k :: 0 <= k < at ==> bytes[k] != 10
    ensures Take(bytes).Char?
    ensures at == 0 ==> Take(bytes) == Char(LF, 1)
    ensures at > 0 ==> Take(bytes).size <= at && Take(bytes).code != LF
  {
    var n := Length(bytes[0]);
    assert at > 0 ==> !Continues(bytes[0], at, bytes[at]);
    if at > 0 && n > 0 && Fits(bytes) {
      ValueIsCode(bytes[..n]);
    }
  }

  /** Cutting decoded text after its first line feed is decoding the bytes after theirs, wherever the bytes began. */
  lemma {:induction false} FeedsAlign(bytes: seq<Byte>)
    requires FirstFeed(bytes) < |bytes|
    ensures var i, d := FirstFeed(bytes), Decode(bytes);
            var k := FirstLF(d.text);
            k < |d.text| && d.text[k + 1..] == Decode(bytes[i + 1..]).text && d.rest == Decode(bytes[i + 1..]).rest
    decreases |bytes|
  {
    hide Take, Decode, FirstFeed, FirstLF;
    var i := FirstFeed(bytes);
    TakeSparesFeeds(bytes, i);
    DecodeStep(bytes);
    var n, tail := Take(bytes).size, Decode(bytes[Take(bytes).size..]);
    if i == 0 {
      LFLeads(tail.text);
    } else {
      FeedMoves(bytes, n);
      FeedsAlign(bytes[n..]);
      assert bytes[n..][i - n + 1..] == bytes[i + 1..];
      LFMoves(Take(bytes).code, tail.text);
    }
  }

  lemma LFLeads(text: seq<Code>)
    ensures FirstLF([LF] + text) == 0 && ([LF] + text)[1..] == text
  {
  }

  /** Without a line feed among the bytes there is none in their text. */
  lemma {:induction false} NoFeeds(bytes: seq<Byte>)
    requires FirstFeed(bytes) == |bytes|
    ensures FirstLF(Decode(bytes).text) == |Decode(bytes).text|
    decreases |bytes|
  {
    if bytes != [] && Take(bytes).Char? {
      var n := Take(bytes).size;
      NoFeedsLater(bytes, n);
      NoFeeds(bytes[n..]);
      DecodeStep(bytes);
      TakesNoFeed(bytes);
      var tail := Decode(bytes[n..]).text;
      assert ([Take(bytes).code] + tail)[1..] == tail;
    }
  }

  lemma TakesNoFeed(bytes: seq<Byte>)
    requires bytes != [] && bytes[0] != 10 && Take(bytes).Char?
    ensures Take(bytes).code != LF
  {
    var n := Length(bytes[0]);
    if n > 0 && Fits(bytes) { ValueIsCode(bytes[..n]); }
  }

  lemma NoFeedsLater(bytes: seq<Byte>, n: nat)
    requires n <= |bytes| && FirstFeed(bytes) == |bytes|
    ensures FirstFeed(bytes[n..]) == |bytes[n..]|
  {
    assert forall k :: 0 <= k < |bytes[n..]| ==> bytes[n..][k] == bytes[n + k];
  }

  lemma {:induction false} FeedMoves(bytes: seq<Byte>, n: nat)
    requires n <= FirstFeed(bytes) < |bytes|
    ensures FirstFeed(bytes[n..]) == FirstFeed(bytes) - n
  {
    if n > 0 {
      FeedMoves(bytes[1..], n - 1);
      assert bytes[1..][n - 1..] == bytes[n..];
    } else {
      assert bytes[0..] == bytes;
    }
  }

  lemma LFMoves(c: Code, text: seq<Code>)
    requires c != LF && FirstLF(text) < |text|
    ensures FirstLF([c] + text) == 1 + FirstLF(text)
            && ([c] + text)[FirstLF([c] + text) + 1..] == text[FirstLF(text) + 1..]
  {
    assert ([c] + text)[1..] == text;
  }

  // ----- lines -----

  function Trimmed(line: seq<Code>): seq<Code> {
    if line != [] && line[|line| - 1] == CR then line[..|line| - 1] else line
  }

  /** `text.split(/\r?\n/)`. The last line is what follows the last line feed. */
  function Split(text: seq<Code>): (lines: seq<seq<Code>>)
    ensures |lines| >= 1
    decreases |text|
  {
    var i := FirstLF(text);
    if i == |text| then [text] else [Trimmed(text[..i])] + Split(text[i + 1..])
  }

  function Complete(text: seq<Code>): seq<seq<Code>> { Split(text)[..|Split(text)| - 1] }

  function Pending(text: seq<Code>): seq<Code> { Split(text)[|Split(text)| - 1] }

  lemma SplitIs(text: seq<Code>)
    ensures Split(text) == Complete(text) + [Pending(text)]
  {
  }

  lemma {:induction false} FirstLFJoins(a: seq<Code>, b: seq<Code>)
    ensures FirstLF(a) < |a| ==> FirstLF(a + b) == FirstLF(a)
    ensures FirstLF(a) == |a| ==> FirstLF(a + b) == |a| + FirstLF(b)
  {
    if a == [] {
      assert a + b == b;
    } else if a[0] != LF {
      assert (a + b)[1..] == a[1..] + b;
      FirstLFJoins(a[1..], b);
    }
  }

  /** Splitting in pieces is splitting at once, wherever the text is cut, even between CR and LF. */
  lemma {:induction false} SplitJoins(a: seq<Code>, b: seq<Code>)
    ensures Split(a + b) == Complete(a) + Split(Pending(a) + b)
    decreases |a|
  {
    hide Split, FirstLF, Trimmed;
    var i := FirstLF(a);
    FirstLFJoins(a, b);
    if i == |a| {
      SplitLast(a);
    } else {
      var more := a[i + 1..];
      assert (a + b)[..i] == a[..i] && (a + b)[i + 1..] == more + b;
      SplitJoins(more, b);
      SplitStep(a);
      SplitStep(a + b);
      assert Complete(a) == [Trimmed(a[..i])] + Complete(more) && Pending(a) == Pending(more);
    }
  }

  lemma SplitStep(text: seq<Code>)
    requires FirstLF(text) < |text|
    ensures Split(text) == [Trimmed(text[..FirstLF(text)])] + Split(text[FirstLF(text) + 1..])
  {
  }

  lemma SplitLast(text: seq<Code>)
    requires FirstLF(text) == |text|
    ensures Split(text) == [text]
  {
  }

  /** UTF-16 code units. */
  function Units(text: seq<Code>): nat {
    if text == [] then 0 else Units(text[..|text| - 1]) + if text[|text| - 1] >= 0x10000 then 2 else 1
  }

  // ----- the code's loops -----

  method DecodeBytes(bytes: seq<Byte>) returns (d: Decoded)
    ensures d == Decode(bytes)
  {
    var text, rest := [], bytes;
    while rest != []
      invariant Decode(bytes) == Decoded(text + Decode(rest).text, Decode(rest).rest)
      decreases |rest|
    {
      var front := Take(rest);
      if front.Incomplete? { return Decoded(text, rest); }
      DecodeStep(rest);
      text, rest := text + [front.code], rest[front.size..];
    }
    d := Decoded(text, []);
  }

  method SplitLines(text: seq<Code>) returns (lines: seq<seq<Code>>)
    ensures lines == Split(text)
  {
    hide Split, Trimmed, FirstLF;
    lines := [];
    var rest := text;
    while true
      invariant Split(text) == lines + Split(rest)
      decreases |rest|
    {
      var i := FirstLF(rest);
      if i == |rest| {
        SplitLast(rest);
        return lines + [rest];
      }
      SplitStep(rest);
      lines, rest := lines + [Trimmed(rest[..i])], rest[i + 1..];
    }
  }
}
