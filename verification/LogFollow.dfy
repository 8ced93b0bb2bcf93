/** Following a log file: a snapshot of its end, then polls of what is appended, in whatever pieces the bytes arrive. */
module LogFollow {
  import opened Wrappers
  import opened LogText
  import opened StableSort

  const WINDOW := 256 * 1024

  datatype File = File(identity: nat, bytes: seq<Byte>)

  /**
   * Where reading stands: the bytes read, the file they came from, the unfinished line, the bytes of an unfinished
   * character.
   */
  datatype Cursor = Cursor(offset: nat, identity: Option<nat>, pending: seq<Code>, rest: seq<Byte>)

  datatype Delivered = Line(text: seq<Code>) | Omitted

  function Lines(lines: seq<seq<Code>>): (r: seq<Delivered>)
    ensures |r| == |lines| && forall i :: 0 <= i < |r| ==> r[i] == Line(lines[i])
  {
    seq(|lines|, i requires 0 <= i < |lines| => Line(lines[i]))
  }

  /** Empty lines are not shown. */
  function NonEmpty(lines: seq<seq<Code>>): (r: seq<seq<Code>>)
    ensures forall line :: line in r <==> line in lines && line != []
  {
    if lines == [] then []
    else NonEmpty(lines[..|lines| - 1]) + if lines[|lines| - 1] == [] then [] else [lines[|lines| - 1]]
  }

  lemma {:induction false} NonEmptyJoins(a: seq<seq<Code>>, b: seq<seq<Code>>)
    ensures NonEmpty(a + b) == NonEmpty(a) + NonEmpty(b)
  {
    if b == [] {
      assert a + b == a;
    } else {
      assert (a + b)[..|a + b| - 1] == a + b[..|b| - 1];
      NonEmptyJoins(a, b[..|b| - 1]);
    }
  }

  // ----- the snapshot -----

  /** A file as it is opened, and how many bytes the read of its window may give. */
  datatype Opening = Opening(file: File, wanted: nat)

  function WindowStart(bytes: seq<Byte>): (start: nat)
    ensures start <= |bytes|
  {
    if |bytes| > WINDOW then |bytes| - WINDOW else 0
  }

  /** The bytes read: the last 256 KiB, or what one read gave of them. */
  function Window(o: Opening): (window: seq<Byte>)
    ensures WindowStart(o.file.bytes) + |window| <= |o.file.bytes|
    ensures window == o.file.bytes[WindowStart(o.file.bytes)..WindowStart(o.file.bytes) + |window|]
  {
    var rest := o.file.bytes[WindowStart(o.file.bytes)..];
    if o.wanted < |rest| then rest[..o.wanted] else rest
  }

  /** The window begins inside a line. */
  predicate CutsALine(bytes: seq<Byte>) { WindowStart(bytes) > 0 && bytes[WindowStart(bytes) - 1] != 10 }

  function AfterFirstLine(text: seq<Code>): seq<Code> {
    if FirstLF(text) == |text| then [] else text[FirstLF(text) + 1..]
  }

  /** The text of the window, without a line whose beginning is not in it. */
  function Visible(o: Opening): seq<Code> {
    var text := Decode(Window(o)).text;
    if CutsALine(o.file.bytes) then AfterFirstLine(text) else text
  }

  /**
   * The lines shown at once, and where following goes on: after the file as it was opened, whatever was read of it.
   * Without following, the unfinished line is shown too.
   */
  function Snapshot(o: Opening, follow: bool): (seq<seq<Code>>, Cursor) {
    var text, rest := Visible(o), Decode(Window(o)).rest;
    if follow then (NonEmpty(Complete(text)), Cursor(|o.file.bytes|, Some(o.file.identity), Pending(text), rest))
    else (NonEmpty(Split(text)), Cursor(|o.file.bytes|, Some(o.file.identity), [], rest))
  }

  // ----- a poll -----

  /** A file that was replaced or cut short is read from its beginning. */
  function Resumed(c: Cursor, file: File): (r: Cursor)
    ensures r.offset <= |file.bytes|
  {
    if c.identity != Some(file.identity) || |file.bytes| < c.offset then Cursor(0, Some(file.identity), [], []) else c
  }

  /** At most a window of what is there, and perhaps less. */
  function Available(c: Cursor, file: File, wanted: nat): (n: nat)
    requires c.offset <= |file.bytes|
    ensures c.offset + n <= |file.bytes| && n <= WINDOW
  {
    var left := |file.bytes| - c.offset;
    var most := if left < WINDOW then left else WINDOW;
    if wanted < most then wanted else most
  }

  /** The unfinished line and what the new bytes add to it. */
  function Joined(c: Cursor, file: File, wanted: nat): seq<Code>
    requires c.offset <= |file.bytes|
  {
    c.pending + Decode(c.rest + file.bytes[c.offset..c.offset + Available(c, file, wanted)]).text
  }

  predicate Oversized(c: Cursor, file: File, wanted: nat) {
    var r := Resumed(c, file);
    Units(Pending(Joined(r, file, wanted))) > WINDOW
  }

  function Poll(c: Cursor, file: File, wanted: nat): (seq<Delivered>, Cursor) {
    var r := Resumed(c, file);
    var n, text := Available(r, file, wanted), Joined(r, file, wanted);
    var rest := Decode(r.rest + file.bytes[r.offset..r.offset + n]).rest;
    if Oversized(c, file, wanted) then
      ([Omitted] + Lines(NonEmpty(Complete(text))), Cursor(r.offset + n, Some(file.identity), [], rest))
    else (Lines(NonEmpty(Complete(text))), Cursor(r.offset + n, Some(file.identity), Pending(text), rest))
  }

  datatype Look = Look(file: File, wanted: nat)

  function Follow(c: Cursor, looks: seq<Look>): (seq<Delivered>, Cursor) {
    if looks == [] then ([], c)
    else
      var (before, at) := Follow(c, looks[..|looks| - 1]);
      var (more, next) := Poll(at, looks[|looks| - 1].file, looks[|looks| - 1].wanted);
      (before + more, next)
  }

  // ----- the simple form -----

  /**
   * The lines delivered and the cursor are one batch split, without empty lines, of what the snapshot kept and of all
   * bytes from its end to the cursor.
   */
  ghost predicate IsBatch(head: seq<Byte>, base: nat, bytes: seq<Byte>, lines: seq<seq<Code>>, c: Cursor) {
    && base <= c.offset <= |bytes|
    && var d := Decode(head + bytes[base..c.offset]);
       lines == NonEmpty(Complete(d.text)) && c.pending == Pending(d.text) && c.rest == d.rest
  }

  /** No line begins in the window. */
  predicate InsideALine(o: Opening) {
    CutsALine(o.file.bytes) && FirstFeed(Window(o)) == |Window(o)|
  }

  /** What the snapshot keeps: the window from its first whole line on, or else what it could not decode at its end. */
  function Head(o: Opening): (head: seq<Byte>)
    ensures |head| <= |Window(o)| && head == Window(o)[|Window(o)| - |head|..]
  {
    var window := Window(o);
    if InsideALine(o) then
      RestIsSuffix(window);
      Decode(window).rest
    else if CutsALine(o.file.bytes) then window[FirstFeed(window) + 1..]
    else window
  }

  /** Where in the file what is kept begins. */
  function HeadStart(o: Opening): (from: nat)
    ensures from + |Head(o)| <= |o.file.bytes|
  {
    WindowStart(o.file.bytes) + |Window(o)| - |Head(o)|
  }

  /** A line of the log begins here. */
  predicate LineBegins(bytes: seq<Byte>, from: nat) {
    from <= |bytes| && (from == 0 || bytes[from - 1] == 10)
  }

  /** Following starts with a whole line exactly when the window does not lie inside one line. */
  lemma WindowInsideALine(o: Opening)
    ensures LineBegins(o.file.bytes, HeadStart(o)) <==> !InsideALine(o)
  {
    var bytes, window, start := o.file.bytes, Window(o), WindowStart(o.file.bytes);
    if InsideALine(o) {
      RestIsSuffix(window);
      if HeadStart(o) > start {
        assert bytes[HeadStart(o) - 1] == window[HeadStart(o) - 1 - start];
      }
    } else if CutsALine(bytes) {
      assert bytes[start + FirstFeed(window)] == window[FirstFeed(window)];
    }
    hide Decode;
  }

  /** The read gave the whole window. */
  predicate ReadInFull(o: Opening) { WindowStart(o.file.bytes) + |Window(o)| == |o.file.bytes| }

  /**
   * What the snapshot keeps and later bytes are one stretch of the log exactly when its read was not short: the bytes
   * a short read leaves out are never read.
   */
  lemma ShortReadsSkip(o: Opening, bytes: seq<Byte>, end: nat)
    requires o.file.bytes <= bytes && |o.file.bytes| <= end <= |bytes|
    ensures Head(o) + bytes[|o.file.bytes|..end] == bytes[HeadStart(o)..end] <==> ReadInFull(o)
  {
    var size, from := |o.file.bytes|, HeadStart(o);
    if ReadInFull(o) {
      assert Head(o) == bytes[from..size];
      hide Head, HeadStart, Window;
      assert bytes[from..end] == bytes[from..size] + bytes[size..end];
    } else {
      hide Head, Window;
      assert |Head(o) + bytes[size..end]| != |bytes[from..end]|;
    }
  }

  /**
   * A snapshot shows exactly the lines of its window that begin in it, even when the window begins inside a character;
   * when it lies inside one line it shows nothing, and following goes on with what is left of that line.
   */
  lemma SnapshotIsBatch(o: Opening)
    ensures var (lines, c) := Snapshot(o, true); IsBatch(Head(o), |o.file.bytes|, o.file.bytes, lines, c)
    ensures Snapshot(o, false).0 == NonEmpty(Split(Decode(Head(o)).text))
  {
    var size := |o.file.bytes|;
    assert Head(o) + o.file.bytes[size..size] == Head(o);
    VisibleIsDecoded(o);
    hide Decode, Split, Head, Visible;
  }

  /** What is visible is the text of what is kept. */
  lemma VisibleIsDecoded(o: Opening)
    ensures Visible(o) == Decode(Head(o)).text
    ensures Decode(Window(o)).rest == Decode(Head(o)).rest
  {
    var window := Window(o);
    if InsideALine(o) {
      RestIsSuffix(window);
      NoFeeds(window);
      hide Decode, FirstLF;
    } else {
      hide Decode, FirstLF;
      if CutsALine(o.file.bytes) { FeedsAlign(window); }
    }
  }

  /** An unfinished line and held-back bytes are all that is needed to go on. */
  lemma Carries(a: seq<Byte>, b: seq<Byte>)
    ensures var d, whole := Decode(a), Decode(a + b);
            var text := Pending(d.text) + Decode(d.rest + b).text;
            && Complete(d.text) + Complete(text) == Complete(whole.text)
            && NonEmpty(Complete(d.text)) + NonEmpty(Complete(text)) == NonEmpty(Complete(whole.text))
            && Pending(text) == Pending(whole.text) && Decode(d.rest + b).rest == whole.rest
  {
    var d := Decode(a);
    var more := Decode(d.rest + b).text;
    DecodeJoins(a, b);
    SplitJoins(d.text, more);
    SplitIs(Pending(d.text) + more);
    SplitIs(d.text + more);
    NonEmptyJoins(Complete(d.text), Complete(Pending(d.text) + more));
    hide Decode, Split, NonEmpty;
    assert Split(d.text + more)
             == (Complete(d.text) + Complete(Pending(d.text) + more)) + [Pending(Pending(d.text) + more)];
  }

  /** A poll that omits nothing carries the batch on by the bytes it read. */
  lemma PollIsBatch(head: seq<Byte>, base: nat, bytes: seq<Byte>, lines: seq<seq<Code>>, c: Cursor, look: Look)
    returns (more: seq<seq<Code>>)
    requires IsBatch(head, base, bytes, lines, c) && c.identity == Some(look.file.identity) && bytes <= look.file.bytes
    requires !Oversized(c, look.file, look.wanted)
    ensures Poll(c, look.file, look.wanted).0 == Lines(more)
    ensures IsBatch(head, base, look.file.bytes, lines + more, Poll(c, look.file, look.wanted).1)
    ensures Poll(c, look.file, look.wanted).1.identity == c.identity
    ensures Poll(c, look.file, look.wanted).1.offset == c.offset + Available(c, look.file, look.wanted)
  {
    hide Decode, Split, Complete, Pending, Units, NonEmpty;
    var all, n := look.file.bytes, Available(c, look.file, look.wanted);
    var a, b := head + bytes[base..c.offset], all[c.offset..c.offset + n];
    assert head + all[base..c.offset + n] == a + b;
    Carries(a, b);
    more := NonEmpty(Complete(Joined(c, look.file, look.wanted)));
  }

  /** The log only grows. */
  ghost predicate Appends(file: File, looks: seq<Look>) {
    && (forall i :: 0 <= i < |looks| ==> looks[i].file.identity == file.identity && file.bytes <= looks[i].file.bytes)
    && (forall i, k :: 0 <= i < k < |looks| ==> looks[i].file.bytes <= looks[k].file.bytes)
  }

  lemma AppendsNext(file: File, looks: seq<Look>)
    requires Appends(file, looks) && looks != []
    ensures var i := |looks| - 1;
            && Appends(file, looks[..i])
            && looks[i].file.identity == file.identity && Last(file, looks[..i]).bytes <= looks[i].file.bytes
               && file.bytes <= Last(file, looks[..i]).bytes
  {
    var less := looks[..|looks| - 1];
    assert forall k :: 0 <= k < |less| ==> less[k] == looks[k];
  }

  /** No poll found an unfinished line over the window. */
  ghost predicate Quiet(c: Cursor, looks: seq<Look>) {
    forall i :: 0 <= i < |looks| ==> !Oversized(Follow(c, looks[..i]).1, looks[i].file, looks[i].wanted)
  }

  function Last(file: File, looks: seq<Look>): File { if looks == [] then file else looks[|looks| - 1].file }

  lemma {:induction false} FollowIsBatch(head: seq<Byte>, base: nat, file: File, lines: seq<seq<Code>>, c: Cursor,
                                         looks: seq<Look>)
      returns (more: seq<seq<Code>>)
    requires IsBatch(head, base, file.bytes, lines, c) && c.identity == Some(file.identity) && Appends(file, looks)
             && Quiet(c, looks)
    ensures Follow(c, looks).0 == Lines(more) && Follow(c, looks).1.identity == Some(file.identity)
    ensures IsBatch(head, base, Last(file, looks).bytes, lines + more, Follow(c, looks).1)
    ensures c.offset <= Follow(c, looks).1.offset
  {
    hide IsBatch, Oversized, Poll;
    if looks == [] {
      more := [];
      assert lines + more == lines;
    } else {
      var i := |looks| - 1;
      var less := looks[..i];
      QuietNext(c, looks);
      AppendsNext(file, looks);
      hide Quiet, Appends;
      var before := FollowIsBatch(head, base, file, lines, c, less);
      var (_, at) := Follow(c, less);
      var next := PollIsBatch(head, base, Last(file, less).bytes, lines + before, at, looks[i]);
      more := before + next;
      assert lines + more == (lines + before) + next;
    }
  }

  /**
   * The snapshot's lines and those of all later polls are one batch split, without empty lines, of what the snapshot
   * kept and everything appended up to the last byte read, however the reads cut a line ending or a character. What is
   * not yet delivered is the unfinished line. A window inside one line makes the rest of that line the first one
   * delivered.
   */
  lemma FollowingIsBatchSplitting(o: Opening, looks: seq<Look>) returns (more: seq<seq<Code>>)
    requires Appends(o.file, looks) && Quiet(Snapshot(o, true).1, looks)
    ensures var (lines, c) := Snapshot(o, true);
            var (delivered, end) := Follow(c, looks);
            var size, all := |o.file.bytes|, Last(o.file, looks).bytes;
            && size <= end.offset <= |all|
            && delivered == Lines(more)
            && var text := Decode(Head(o) + all[size..end.offset]).text;
               lines + more == NonEmpty(Complete(text)) && end.pending == Pending(text)
  {
    SnapshotIsBatch(o);
    hide Decode, Split;
    var (lines, c) := Snapshot(o, true);
    more := FollowIsBatch(Head(o), |o.file.bytes|, o.file, lines, c, looks);
  }

  /** On a valid log, the lines delivered are the lines that were written. */
  lemma FollowingDeliversWhatWasWritten(o: Opening, looks: seq<Look>, written: seq<Code>)
    returns (more: seq<seq<Code>>)
    requires Appends(o.file, looks) && Quiet(Snapshot(o, true).1, looks)
    requires forall c :: c in written ==> Scalar(c)
    requires var size, all := |o.file.bytes|, Last(o.file, looks).bytes;
             var end := Follow(Snapshot(o, true).1, looks).1.offset;
             size <= end <= |all| && Head(o) + all[size..end] == EncodeAll(written)
    ensures Follow(Snapshot(o, true).1, looks).0 == Lines(more)
    ensures Snapshot(o, true).0 + more == NonEmpty(Complete(written))
  {
    more := FollowingIsBatchSplitting(o, looks);
    DecodeInvertsEncode(written);
  }

  // ----- lines over the window -----

  /** However the bytes from `read` on are cut, the unfinished line before the cut fits the window. */
  ghost predicate Narrow(head: seq<Byte>, base: nat, bytes: seq<Byte>, read: nat) {
    forall m :: base <= read <= m <= |bytes| ==> Units(Pending(Decode(head + bytes[base..m]).text)) <= WINDOW
  }

  /** The unfinished line a poll arrives at is the one before the last byte it read. */
  lemma PollArrives(head: seq<Byte>, base: nat, bytes: seq<Byte>, lines: seq<seq<Code>>, c: Cursor, look: Look)
    requires IsBatch(head, base, bytes, lines, c) && c.identity == Some(look.file.identity) && bytes <= look.file.bytes
    ensures var m := c.offset + Available(c, look.file, look.wanted);
            && base <= c.offset <= m <= |look.file.bytes|
            && (Oversized(c, look.file, look.wanted) <==>
                  Units(Pending(Decode(head + look.file.bytes[base..m]).text)) > WINDOW)
  {
    hide Decode, Split, Complete, Pending, Units, NonEmpty;
    var all, n := look.file.bytes, Available(c, look.file, look.wanted);
    var a, b := head + bytes[base..c.offset], all[c.offset..c.offset + n];
    assert head + all[base..c.offset + n] == a + b;
    Carries(a, b);
  }

  /** The looks see nothing beyond these bytes. */
  ghost predicate Within(file: File, looks: seq<Look>, bytes: seq<Byte>) {
    Appends(file, looks) && forall i :: 0 <= i < |looks| ==> looks[i].file.bytes <= bytes
  }

  lemma {:induction false} NarrowIsFollowed(head: seq<Byte>, base: nat, file: File, lines: seq<seq<Code>>, c: Cursor,
                                            looks: seq<Look>, bytes: seq<Byte>)
    requires IsBatch(head, base, file.bytes, lines, c) && c.identity == Some(file.identity)
    requires Within(file, looks, bytes)
    requires Narrow(head, base, bytes, c.offset)
    ensures Quiet(c, looks)
  {
    hide Oversized, Decode, Follow, IsBatch;
    FollowedWithin(head, base, file.bytes, lines, c);
    if looks != [] {
      var i := |looks| - 1;
      var less, look := looks[..i], looks[i];
      AppendsNext(file, looks);
      QuietNext(c, looks);
      assert Within(file, less, bytes);
      NarrowIsFollowed(head, base, file, lines, c, less, bytes);
      var before := FollowIsBatch(head, base, file, lines, c, less);
      var at := Follow(c, less).1;
      PollArrives(head, base, Last(file, less).bytes, lines + before, at, look);
      var m := at.offset + Available(at, look.file, look.wanted);
      assert look.file.bytes[base..m] == bytes[base..m] by { PrefixSlice(look.file.bytes, bytes, base, m); }
    }
  }

  lemma PrefixSlice(a: seq<Byte>, b: seq<Byte>, from: nat, m: nat)
    requires a <= b && from <= m <= |a|
    ensures a[from..m] == b[from..m]
  {
  }

  /** One file looked at over and over, a window at a time. */
  function Again(file: File, times: nat): (looks: seq<Look>)
    ensures |looks| == times && forall i :: 0 <= i < times ==> looks[i] == Look(file, WINDOW)
  {
    seq(times, _ => Look(file, WINDOW))
  }

  /** Enough looks reach the end of the file, when none of them finds anything to omit. */
  lemma {:induction false} LooksArrive(head: seq<Byte>, base: nat, file: File, lines: seq<seq<Code>>, c: Cursor,
                                       whole: File, times: nat)
    requires IsBatch(head, base, file.bytes, lines, c) && c.identity == Some(file.identity) == Some(whole.identity)
    requires file.bytes <= whole.bytes && Quiet(c, Again(whole, times)) && c.offset == |file.bytes|
    ensures Follow(c, Again(whole, times)).1.offset
              >= if c.offset + times < |whole.bytes| then c.offset + times else |whole.bytes|
  {
    hide IsBatch, Oversized, Poll;
    var looks := Again(whole, times);
    assert Appends(file, looks);
    if times > 0 {
      var less := looks[..times - 1];
      assert less == Again(whole, times - 1);
      QuietNext(c, looks);
      LooksArrive(head, base, file, lines, c, whole, times - 1);
      var before := FollowIsBatch(head, base, file, lines, c, less);
      var (_, at) := Follow(c, less);
      var _ := PollIsBatch(head, base, Last(file, less).bytes, lines + before, at, looks[times - 1]);
      FollowedWithin(head, base, Last(file, less).bytes, lines + before, at);
    }
  }

  lemma FollowedWithin(head: seq<Byte>, base: nat, bytes: seq<Byte>, lines: seq<seq<Code>>, c: Cursor)
    requires IsBatch(head, base, bytes, lines, c)
    ensures base <= c.offset <= |bytes|
  {
  }

  /** A cut with too long an unfinished line before it is found by someone who reads up to it and looks again. */
  lemma WideIsOmitted(head: seq<Byte>, base: nat, file: File, lines: seq<seq<Code>>, c: Cursor, bytes: seq<Byte>,
                      m: nat)
      returns (looks: seq<Look>)
    requires IsBatch(head, base, file.bytes, lines, c) && c.identity == Some(file.identity) && c.offset == |file.bytes|
    requires file.bytes <= bytes && base <= |file.bytes| <= m <= |bytes|
    requires Units(Pending(Decode(head + bytes[base..m]).text)) > WINDOW
    ensures Within(file, looks, bytes) && !Quiet(c, looks)
  {
    hide IsBatch, Oversized, Decode, Follow;
    var whole := File(file.identity, bytes[..m]);
    looks := Again(whole, |bytes| + 1);
    assert Within(file, looks, bytes);
    if Quiet(c, looks) {
      var less := looks[..|bytes|];
      assert less == Again(whole, |bytes|);
      QuietNext(c, looks);
      LooksArrive(head, base, file, lines, c, whole, |bytes|);
      var before := FollowIsBatch(head, base, file, lines, c, less);
      var at := Follow(c, less).1;
      FollowedWithin(head, base, Last(file, less).bytes, lines + before, at);
      PollArrives(head, base, Last(file, less).bytes, lines + before, at, looks[|bytes|]);
      PrefixSlice(whole.bytes, bytes, base, m);
      assert false;
    }
  }

  /**
   * Which logs are followed without omissions, in whatever pieces they are read: exactly those in which no cut after
   * the snapshot leaves an unfinished line over the window before it.
   */
  lemma NarrowIsQuiet(o: Opening, bytes: seq<Byte>)
    requires o.file.bytes <= bytes
    ensures (forall looks :: Within(o.file, looks, bytes) ==> Quiet(Snapshot(o, true).1, looks))
       <==> Narrow(Head(o), |o.file.bytes|, bytes, |o.file.bytes|)
  {
    var (lines, c) := Snapshot(o, true);
    var head, base := Head(o), |o.file.bytes|;
    SnapshotIsBatch(o);
    assert c.offset == base && c.identity == Some(o.file.identity);
    hide Snapshot, Within, Quiet, Head, IsBatch;
    if Narrow(head, base, bytes, base) {
      forall looks | Within(o.file, looks, bytes)
        ensures Quiet(c, looks)
      {
        NarrowIsFollowed(head, base, o.file, lines, c, looks, bytes);
      }
    } else {
      var m :| base <= m <= |bytes| && Units(Pending(Decode(head + bytes[base..m]).text)) > WINDOW;
      var looks := WideIsOmitted(head, base, o.file, lines, c, bytes, m);
    }
  }

  /** Something is omitted exactly when some poll found an unfinished line over the window. */
  lemma {:induction false} QuietOmitsNothing(c: Cursor, looks: seq<Look>)
    ensures Quiet(c, looks) <==> Omitted !in Follow(c, looks).0
  {
    if looks == [] {
      assert Follow(c, looks).0 == [];
    } else {
      var i := |looks| - 1;
      var less, look := looks[..i], looks[i];
      QuietOmitsNothing(c, less);
      QuietNext(c, looks);
      FollowNext(c, looks);
      hide Oversized, Poll, Quiet, Follow;
      PollOmits(Follow(c, less).1, look.file, look.wanted);
    }
  }

  lemma FollowNext(c: Cursor, looks: seq<Look>)
    requires looks != []
    ensures var less, look := looks[..|looks| - 1], looks[|looks| - 1];
            Follow(c, looks).0 == Follow(c, less).0 + Poll(Follow(c, less).1, look.file, look.wanted).0
  {
    hide Poll;
  }

  lemma QuietNext(c: Cursor, looks: seq<Look>)
    requires looks != []
    ensures var i := |looks| - 1;
            Quiet(c, looks) <==>
              Quiet(c, looks[..i]) && !Oversized(Follow(c, looks[..i]).1, looks[i].file, looks[i].wanted)
  {
    hide Oversized, Follow;
    var less := looks[..|looks| - 1];
    assert forall k :: 0 <= k < |less| ==> less[..k] == looks[..k] && less[k] == looks[k];
  }

  lemma PollOmits(c: Cursor, file: File, wanted: nat)
    ensures Omitted in Poll(c, file, wanted).0 <==> Oversized(c, file, wanted)
  {
    hide Oversized, Complete, Pending, Decode, Joined;
    if Oversized(c, file, wanted) { assert Poll(c, file, wanted).0[0] == Omitted; }
  }

  // ----- an input at the limit -----

  predicate Ascii(bytes: seq<Byte>) {
    forall k :: 0 <= k < |bytes| ==> bytes[k] < 0x80
  }

  function Codes(bytes: seq<Byte>): (text: seq<Code>)
    ensures |text| == |bytes| && forall k :: 0 <= k < |text| ==> text[k] == bytes[k] as Code
  {
    seq(|bytes|, k requires 0 <= k < |bytes| => bytes[k] as Code)
  }

  lemma {:induction false} AsciiDecodes(bytes: seq<Byte>)
    requires Ascii(bytes)
    ensures Decode(bytes) == Decoded(Codes(bytes), [])
  {
    if bytes != [] {
      AsciiTaken(bytes);
      DecodeStep(bytes);
      AsciiDecodes(bytes[1..]);
      hide Decode, Take;
      assert Codes(bytes) == [bytes[0] as Code] + Codes(bytes[1..]);
    }
  }

  lemma AsciiTaken(bytes: seq<Byte>)
    requires bytes != [] && bytes[0] < 0x80
    ensures Take(bytes) == Char(bytes[0] as Code, 1)
  {
    assert bytes[..1] == [bytes[0]];
  }

  lemma {:induction false} AsciiUnits(text: seq<Code>)
    requires forall k :: 0 <= k < |text| ==> text[k] < 0x80
    ensures Units(text) == |text|
  {
    if text != [] {
      AsciiUnits(text[..|text| - 1]);
    }
  }

  lemma NoLF(text: seq<Code>)
    requires forall k :: 0 <= k < |text| ==> text[k] != LF
    ensures FirstLF(text) == |text|
  {
  }

  /** A line of exactly one window, whose carriage return has arrived before its line feed. */
  lemma CarriageReturnCounts(line: seq<Byte>) returns (looks: seq<Look>)
    requires |line| == WINDOW && Ascii(line) && (forall k :: 0 <= k < |line| ==> line[k] != 10 && line[k] != 13)
    ensures var bytes := line + [13, 10];
            && NonEmpty(Complete(Decode(bytes).text)) == [Codes(line)] && Units(Codes(line)) == WINDOW
            && Within(File(0, []), looks, bytes)
            && Omitted in Follow(Snapshot(Opening(File(0, []), 0), true).1, looks).0
  {
    hide Decode, Split, Units, Narrow, Follow, NonEmpty, Pending, Complete;
    var bytes, cut := line + [13, 10], line + [13];
    LineAndEnd(line);
    CutIsWide(line);
    assert [] + bytes[0..|cut|] == cut;
    var o := Opening(File(0, []), 0);
    SnapshotIsBatch(o);
    var (lines, c) := Snapshot(o, true);
    assert Head(o) == [];
    hide Snapshot, Head;
    looks := WideIsOmitted([], 0, o.file, lines, c, bytes, |cut|);
    QuietOmitsNothing(c, looks);
  }

  lemma CutIsWide(line: seq<Byte>)
    requires Ascii(line) && (forall k :: 0 <= k < |line| ==> line[k] != 10)
    ensures Units(Codes(line)) == |line| && Units(Pending(Decode(line + [13]).text)) == |line| + 1
    ensures Decode(line + [13, 10]).text == Codes(line + [13, 10])
  {
    hide Decode, Units, Split, FirstLF, Codes;
    var cut := line + [13];
    FeedsAreAscii(line);
    AsciiDecodes(line + [13, 10]);
    AsciiDecodes(cut);
    NoLF(Codes(cut));
    SplitLast(Codes(cut));
    AsciiUnits(Codes(cut));
    AsciiUnits(Codes(line));
  }

  lemma FeedsAreAscii(line: seq<Byte>)
    requires Ascii(line)
    ensures Ascii(line + [13]) && Ascii(line + [13, 10])
  {
  }

  lemma LineAndEnd(line: seq<Byte>)
    requires |line| == WINDOW && (forall k :: 0 <= k < |line| ==> line[k] != 10 && line[k] != 13)
    ensures NonEmpty(Complete(Codes(line + [13, 10]))) == [Codes(line)]
  {
    var text := Codes(line + [13, 10]);
    var before := Codes(line + [13]);
    NoLF(before);
    assert text == before + [LF];
    FirstLFJoins(before, [LF]);
    assert FirstLF([LF]) == 0;
    SplitStep(text);
    assert text[..|before|] == before && text[|before| + 1..] == [];
    assert before[..|before| - 1] == Codes(line);
    assert Split([]) == [[]];
    hide Split, FirstLF;
    assert Split(text) == [Codes(line), []];
    assert Complete(text) == [Codes(line)];
    assert [Codes(line)][..0] == [];
  }
}
