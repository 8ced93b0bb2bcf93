/** What splitting, opening and following a log come to, told without the functions that compute it. */
module LogMeaning {
  import opened Wrappers
  import opened LogText
  import opened LogFollow

  // ----- characters -----

  /** The bytes begin as an encoded character does. */
  ghost predicate BeginsOne(bytes: seq<Byte>) { exists c :: Scalar(c) && bytes <= Encode(c) }

  /** Bytes that fit their first one are the encoding of what they stand for. */
  lemma FittingIsEncoded(bytes: seq<Byte>)
    requires bytes != [] && Fits(bytes) && |bytes| == Length(bytes[0])
    ensures 0 <= Value(bytes) < 0x110000 && Scalar(Value(bytes)) && Encode(Value(bytes)) == bytes
  {
    ValueIsCode(bytes);
    assert forall k :: 1 <= k < |bytes| ==> Continues(bytes[0], k, bytes[k]);
    if |bytes| == 3 {
      ThreeAreEncoded(bytes);
    } else if |bytes| == 4 {
      FourAreEncoded(bytes);
    }
  }

  lemma ThreeAreEncoded(bytes: seq<Byte>)
    requires |bytes| == 3 == Length(bytes[0]) && Continues(bytes[0], 1, bytes[1]) && Continues(bytes[0], 2, bytes[2])
    ensures 0 <= Value(bytes) < 0x110000 && Scalar(Value(bytes)) && Encode(Value(bytes)) == bytes
  {
    var a, b, c := bytes[0] as int - 0xE0, bytes[1] as int - 0x80, bytes[2] as int - 0x80;
    ThreeDigits(a, b, c);
    ThreeLead(bytes, a, b);
    hide Continues, Length;
    assert 0 <= c < 64;
  }

  lemma ThreeDigits(a: int, b: int, c: int)
    requires 0 <= b < 64 && 0 <= c < 64
    ensures var v := a * 4096 + b * 64 + c; v / 4096 == a && v / 64 % 64 == b && v % 64 == c
  {
    var v := a * 4096 + b * 64 + c;
    assert v / 64 == a * 64 + b;
  }

  lemma ThreeLead(bytes: seq<Byte>, a: int, b: int)
    requires |bytes| == 3 == Length(bytes[0]) && Continues(bytes[0], 1, bytes[1])
    requires a == bytes[0] as int - 0xE0 && b == bytes[1] as int - 0x80
    ensures 0 <= a < 16 && 0 <= b < 64 && (a == 0 ==> b >= 32) && (a == 13 ==> b < 32)
  {
  }

  lemma FourAreEncoded(bytes: seq<Byte>)
    requires |bytes| == 4 == Length(bytes[0]) && Continues(bytes[0], 1, bytes[1]) && Continues(bytes[0], 2, bytes[2])
             && Continues(bytes[0], 3, bytes[3])
    ensures 0 <= Value(bytes) < 0x110000 && Scalar(Value(bytes)) && Encode(Value(bytes)) == bytes
  {
    var a, b, c, d := bytes[0] as int - 0xF0, bytes[1] as int - 0x80, bytes[2] as int - 0x80, bytes[3] as int - 0x80;
    FourDigits(a, b, c, d);
    FourLead(bytes, a, b);
  }

  /** The digits of a number to base 64. */
  lemma FourDigits(a: int, b: int, c: int, d: int)
    requires 0 <= b < 64 && 0 <= c < 64 && 0 <= d < 64
    ensures var v := a * 262144 + b * 4096 + c * 64 + d;
            v / 262144 == a && v / 4096 % 64 == b && v / 64 % 64 == c && v % 64 == d
  {
    var v := a * 262144 + b * 4096 + c * 64 + d;
    assert v / 4096 == a * 64 + b;
    assert v / 64 == a * 4096 + b * 64 + c;
  }

  lemma FourLead(bytes: seq<Byte>, a: int, b: int)
    requires |bytes| == 4 == Length(bytes[0]) && Continues(bytes[0], 1, bytes[1])
    requires a == bytes[0] as int - 0xF0 && b == bytes[1] as int - 0x80
    ensures 0 <= a <= 4 && (a == 0 ==> b >= 16) && (a == 4 ==> b < 16)
  {
  }

  /** The least byte that may continue. */
  function Least(lead: Byte, k: nat): Byte {
    if k == 1 && lead == 0xE0 then 0xA0 else if k == 1 && lead == 0xF0 then 0x90 else 0x80
  }

  /** Fewer fitting bytes than announced begin some character. */
  lemma PartBeginsOne(part: seq<Byte>)
    requires part != [] && Fits(part) && |part| <= Length(part[0])
    ensures BeginsOne(part)
  {
    var n := Length(part[0]);
    var whole := seq(n, k requires 0 <= k < n => if k < |part| then part[k] else Least(part[0], k));
    assert whole[0] == part[0];
    forall k | 1 <= k < n
      ensures Continues(whole[0], k, whole[k])
    {
      assert k < |part| ==> Continues(part[0], k, part[k]);
    }
    FittingIsEncoded(whole);
    assert part <= whole;
  }

  lemma EncodedContinues(c: Code, bytes: seq<Byte>)
    requires Scalar(c) && bytes != [] && bytes <= Encode(c)
    ensures Length(bytes[0]) == |Encode(c)| && forall k :: 1 <= k < |bytes| ==> Continues(bytes[0], k, bytes[k])
  {
    EncodedFits(c);
    assert forall k :: 1 <= k < |Encode(c)| ==> Continues(Encode(c)[0], k, Encode(c)[k]);
    hide Encode, Continues, Length;
  }

  /** A character at the front of the bytes is taken from them. */
  lemma WholeIsTaken(bytes: seq<Byte>, c: Code)
    requires bytes != [] && Scalar(c) && Encode(c) <= bytes
    ensures Take(bytes) == Char(c, |Encode(c)|)
  {
    EncodedFits(c);
    var e := Encode(c);
    assert bytes == e + bytes[|e|..];
    assert e[..|e|] == e;
    assert Take(e) == Char(c, |e|);
    hide Encode;
    TakeIsStable(e, bytes[|e|..]);
  }

  /**
   * The front of any bytes: a character when one is there; nothing, while more may come; otherwise one replacement
   * character for the longest part that begins a character, or for a single byte.
   */
  lemma FrontIsTold(bytes: seq<Byte>)
    requires bytes != []
    ensures var front := Take(bytes);
            if exists c :: Scalar(c) && Encode(c) <= bytes
            then front.Char? && Scalar(front.code) && front.size == |Encode(front.code)| && Encode(front.code) <= bytes
            else if Unfinished(bytes) then front.Incomplete?
            else
              && front.Char? && front.code == REPLACEMENT
              && (front.size > 1 ==> BeginsOne(bytes[..front.size]))
              && !(front.size < |bytes| && BeginsOne(bytes[..front.size + 1]))
              && (front.size == |bytes| ==> |bytes| == 1)
  {
    if c :| Scalar(c) && Encode(c) <= bytes {
      WholeIsTaken(bytes, c);
    } else if !Unfinished(bytes) {
      MalformedIsReplaced(bytes);
    }
  }

  lemma MalformedIsReplaced(bytes: seq<Byte>)
    requires bytes != [] && !Unfinished(bytes) && forall c :: Scalar(c) ==> !(Encode(c) <= bytes)
    ensures var front := Take(bytes);
            && front.Char? && front.code == REPLACEMENT
            && (front.size > 1 ==> BeginsOne(bytes[..front.size]))
            && !(front.size < |bytes| && BeginsOne(bytes[..front.size + 1]))
            && (front.size == |bytes| ==> |bytes| == 1)
  {
    hide Encode, Value;
    if Length(bytes[0]) == 0 {
      LeadBeginsNone(bytes);
    } else if Fits(bytes) {
      FittingIsOne(bytes);
    } else {
      var k := Break(bytes, 1);
      PartBeginsOne(bytes[..k]);
      BreakBeginsNone(bytes, k);
    }
  }

  lemma FittingIsOne(bytes: seq<Byte>)
    requires bytes != [] && !Unfinished(bytes) && Length(bytes[0]) > 0 && Fits(bytes)
    ensures exists c :: Scalar(c) && Encode(c) <= bytes
  {
    var n := Length(bytes[0]);
    FittingStays(bytes, []);
    assert bytes[..n][0] == bytes[0] && Fits(bytes[..n]);
    FittingIsEncoded(bytes[..n]);
    assert Encode(Value(bytes[..n])) <= bytes;
  }

  lemma LeadBeginsNone(bytes: seq<Byte>)
    requires bytes != [] && Length(bytes[0]) == 0
    ensures forall k :: 1 <= k <= |bytes| ==> !BeginsOne(bytes[..k])
  {
    forall k, c | 1 <= k <= |bytes| && Scalar(c)
      ensures !(bytes[..k] <= Encode(c))
    {
      if bytes[..k] <= Encode(c) { EncodedContinues(c, bytes[..k]); }
    }
  }

  lemma BreakBeginsNone(bytes: seq<Byte>, k: nat)
    requires bytes != [] && 1 <= k < |bytes| && !Continues(bytes[0], k, bytes[k])
    ensures !BeginsOne(bytes[..k + 1])
  {
    var part := bytes[..k + 1];
    forall c | Scalar(c)
      ensures !(part <= Encode(c))
    {
      if part <= Encode(c) { EncodedContinues(c, part); }
    }
  }

  // ----- lines -----

  /** A line and how it ends: with a line feed, or with a carriage return before it. */
  datatype Ended = Ended(line: seq<Code>, crlf: bool)

  /** A line that is written is one line, whatever it holds: a carriage return before a bare line feed ends it too. */
  predicate Whole(e: Ended) {
    && (forall k :: 0 <= k < |e.line| ==> e.line[k] != LF)
    && (!e.crlf && e.line != [] ==> e.line[|e.line| - 1] != CR)
  }

  function Written(lines: seq<Ended>): seq<Code> {
    if lines == [] then []
    else lines[0].line + (if lines[0].crlf then [CR, LF] else [LF]) + Written(lines[1..])
  }

  function TextsOf(lines: seq<Ended>): (r: seq<seq<Code>>)
    ensures |r| == |lines| && forall k :: 0 <= k < |r| ==> r[k] == lines[k].line
  {
    seq(|lines|, k requires 0 <= k < |lines| => lines[k].line)
  }

  lemma FeedAt(line: seq<Code>, more: seq<Code>)
    requires forall k :: 0 <= k < |line| ==> line[k] != LF
    ensures FirstLF(line + [LF] + more) == |line|
  {
    var text := line + [LF] + more;
    assert text[|line|] == LF;
    assert forall k :: 0 <= k < |line| ==> text[k] == line[k];
  }

  lemma TrimmedIs(e: Ended)
    requires Whole(e)
    ensures Trimmed(if e.crlf then e.line + [CR] else e.line) == e.line
  {
    assert (e.line + [CR])[..|e.line|] == e.line;
  }

  /** Splitting gives back the lines that were written, each without its ending, and what follows the last ending. */
  lemma {:induction false} SplitInvertsWriting(lines: seq<Ended>, tail: seq<Code>)
    requires forall k :: 0 <= k < |lines| ==> Whole(lines[k])
    requires forall k :: 0 <= k < |tail| ==> tail[k] != LF
    ensures Split(Written(lines) + tail) == TextsOf(lines) + [tail]
  {
    hide Split, FirstLF, Trimmed;
    if lines == [] {
      assert Written(lines) + tail == tail;
      SplitLast(tail);
    } else {
      var e, more := lines[0], Written(lines[1..]) + tail;
      var raw := if e.crlf then e.line + [CR] else e.line;
      var text := raw + [LF] + more;
      assert Written(lines) + tail == text;
      FeedAt(raw, more);
      SplitStep(text);
      assert text[..|raw|] == raw && text[|raw| + 1..] == more;
      TrimmedIs(e);
      SplitInvertsWriting(lines[1..], tail);
      assert TextsOf(lines) == [e.line] + TextsOf(lines[1..]);
    }
  }

  // ----- the snapshot -----

  /** What was read of the last 256 KiB of a log. */
  lemma WindowIs(o: Opening)
    ensures var size := |o.file.bytes|;
            var start := if size > 262144 then size - 262144 else 0;
            var end := start + if o.wanted < size - start then o.wanted else size - start;
            start == WindowStart(o.file.bytes) && end == start + |Window(o)| && Window(o) == o.file.bytes[start..end]
  {
  }

  /**
   * What a snapshot keeps of a log begins at the first line that begins in what was read, if one does, and goes to the
   * end of that.
   */
  lemma SnapshotBeginsWithALine(o: Opening, k: nat)
    ensures var start := WindowStart(o.file.bytes);
            var end := start + |Window(o)|;
            && Head(o) == o.file.bytes[HeadStart(o)..end] && start <= HeadStart(o)
            && (!InsideALine(o) ==>
                  && LineBegins(o.file.bytes, HeadStart(o))
                  && (start <= k < HeadStart(o) ==> !LineBegins(o.file.bytes, k)))
            && (InsideALine(o) && start <= k <= end ==> !LineBegins(o.file.bytes, k))
  {
    var bytes, window, start := o.file.bytes, Window(o), WindowStart(o.file.bytes);
    hide Decode, WindowStart;
    WindowInsideALine(o);
    assert HeadStart(o) == start + |window| - |Head(o)|;
    if CutsALine(bytes) && start < k <= start + FirstFeed(window) {
      assert bytes[k - 1] == window[k - 1 - start];
    }
  }

  // ----- a log that was replaced -----

  lemma FreshIsBatch(file: File)
    ensures IsBatch([], 0, file.bytes, [], Cursor(0, Some(file.identity), [], []))
  {
    assert [] + file.bytes[0..0] == [];
    assert Decode([]) == Decoded([], []);
    NothingIsOneLine();
    hide Decode, Complete, Pending;
  }

  lemma {:induction false} FollowsAnew(c: Cursor, anew: Cursor, looks: seq<Look>)
    requires looks != [] && anew == Cursor(0, Some(looks[0].file.identity), [], [])
    requires c.identity != Some(looks[0].file.identity) || |looks[0].file.bytes| < c.offset
    ensures Follow(c, looks) == Follow(anew, looks)
    ensures Oversized(c, looks[0].file, looks[0].wanted) <==> Oversized(anew, looks[0].file, looks[0].wanted)
  {
    hide Joined, Complete, Pending, Decode, NonEmpty;
    if |looks| == 1 {
      assert looks[..0] == [];
      assert Follow(c, []) == ([], c) && Follow(anew, []) == ([], anew);
    } else {
      hide Poll;
      FollowsAnew(c, anew, looks[..|looks| - 1]);
    }
  }

  /** A log that was replaced, or cut short, is followed from its beginning: nothing of what was read before is left. */
  lemma ReplacedLogIsReadAnew(c: Cursor, looks: seq<Look>) returns (more: seq<seq<Code>>)
    requires looks != [] && Appends(looks[0].file, looks) && Quiet(c, looks)
    requires c.identity != Some(looks[0].file.identity) || |looks[0].file.bytes| < c.offset
    ensures var (delivered, end) := Follow(c, looks);
            var all := Last(looks[0].file, looks).bytes;
            && delivered == Lines(more) && end.identity == Some(looks[0].file.identity) && end.offset <= |all|
            && var text := Decode(all[..end.offset]).text;
               more == NonEmpty(Complete(text)) && end.pending == Pending(text)
  {
    var file := looks[0].file;
    var anew := Cursor(0, Some(file.identity), [], []);
    FollowsAnew(c, anew, looks);
    AnewIsQuiet(c, anew, looks);
    FreshIsBatch(file);
    hide Follow, Quiet, Appends, Decode, Split, Oversized, NonEmpty;
    more := FollowIsBatch([], 0, file, [], anew, looks);
    var end := Follow(c, looks).1;
    assert [] + Last(file, looks).bytes[0..end.offset] == Last(file, looks).bytes[..end.offset];
    assert [] + more == more;
  }

  lemma AnewIsQuiet(c: Cursor, anew: Cursor, looks: seq<Look>)
    requires looks != [] && anew == Cursor(0, Some(looks[0].file.identity), [], [])
    requires c.identity != Some(looks[0].file.identity) || |looks[0].file.bytes| < c.offset
    requires Quiet(c, looks)
    ensures Quiet(anew, looks)
  {
    hide Oversized;
    forall i | 0 <= i < |looks|
      ensures !Oversized(Follow(anew, looks[..i]).1, looks[i].file, looks[i].wanted)
    {
      if i > 0 {
        assert looks[..i][0] == looks[0];
        FollowsAnew(c, anew, looks[..i]);
      } else {
        assert looks[..0] == [];
        FollowsAnew(c, anew, looks);
      }
    }
  }

  // ----- one poll -----

  function Least3(a: nat, b: nat, c: nat): (least: nat)
    ensures least <= a && least <= b && least <= c && least in {a, b, c}
  {
    if a <= b && a <= c then a else if b <= c then b else c
  }

  /** A poll reads on by what is there, by what one read gives of it, or by 256 KiB, whichever is least. */
  lemma PollReads(c: Cursor, file: File, wanted: nat)
    ensures var start := if c.identity != Some(file.identity) || |file.bytes| < c.offset then 0 else c.offset;
            var next := Poll(c, file, wanted).1;
            && next.offset == start + Least3(|file.bytes| - start, wanted, 262144)
            && next.identity == Some(file.identity)
  {
    hide Joined, Complete, Pending, Decode, NonEmpty, Units;
  }

  /**
   * A poll that arrives at too long an unfinished line says so first, delivers the lines before it, and forgets what it
   * has of it: what is delivered later is a split of what follows.
   */
  lemma OmissionDropsTheLine(head: seq<Byte>, base: nat, bytes: seq<Byte>, lines: seq<seq<Code>>, c: Cursor, look: Look)
    returns (more: seq<seq<Code>>)
    requires IsBatch(head, base, bytes, lines, c) && c.identity == Some(look.file.identity) && bytes <= look.file.bytes
    requires Oversized(c, look.file, look.wanted)
    ensures var (delivered, next) := Poll(c, look.file, look.wanted);
            && delivered == [Omitted] + Lines(more)
            && base <= next.offset <= |look.file.bytes|
            && var d := Decode(head + look.file.bytes[base..next.offset]);
               lines + more == NonEmpty(Complete(d.text)) && IsBatch(d.rest, next.offset, look.file.bytes, [], next)
  {
    hide Split, Complete, Pending, Units, NonEmpty, Decode;
    var all, n := look.file.bytes, Available(c, look.file, look.wanted);
    var a, b := head + bytes[base..c.offset], all[c.offset..c.offset + n];
    assert head + all[base..c.offset + n] == a + b;
    Carries(a, b);
    more := NonEmpty(Complete(Joined(c, look.file, look.wanted)));
    var next := Poll(c, look.file, look.wanted).1;
    RestIsSuffix(a + b);
    assert next.rest + all[next.offset..next.offset] == next.rest;
    NothingIsOneLine();
  }

  lemma NothingIsOneLine()
    ensures Complete([]) == [] && Pending([]) == [] && NonEmpty([]) == []
  {
    SplitLast([]);
    hide Split;
  }

  /** A character beyond the basic plane counts twice. */
  lemma {:induction false} UnitsAreCounted(text: seq<Code>)
    ensures Units(text) == |text| + |set k: nat | k < |text| && text[k] >= 0x10000|
  {
    var wide := set k: nat | k < |text| && text[k] >= 0x10000;
    if text != [] {
      var less, last := text[..|text| - 1], |text| - 1;
      UnitsAreCounted(less);
      var before := set k: nat | k < |less| && less[k] >= 0x10000;
      assert wide == before + if text[last] >= 0x10000 then {last} else {};
    } else {
      assert wide == {};
    }
  }
}
