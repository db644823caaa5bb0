/** How a watcher catches up with a file that has stopped growing, and what can stop it. */
module RolloutDrain {
  import opened Common
  import opened Lines
  import opened Rollout

  /** Nothing left that a poll could act on: the unread part is an unfinished line shorter than
      the window, or it is empty. */
  predicate Drained(file: Bytes, cur: Cursor, w: nat) {
    && cur.offset <= |file|
    && (cur.offset == |file| || (!cur.discarding && NoLF(file[cur.offset..]) && |file| - cur.offset < w))
  }

  /** A complete line of `file`, at `k..e`, that fits the window and makes a poll fail. */
  ghost predicate Poison<E>(file: Bytes, k: nat, e: nat, w: nat, decode: Bytes -> Decoded<E>) {
    && k < e <= |file| && e - k <= w
    && LineStart(file[..k]) && file[e - 1] == LF && NoLF(file[k..e - 1])
    && decode(file[k..e]).Malformed?
  }

  ghost predicate Poisoned<E>(file: Bytes, from: nat, w: nat, decode: Bytes -> Decoded<E>) {
    exists k: nat, e: nat :: from <= k && Poison(file, k, e, w, decode)
  }

  /** A restarted reader takes the rest of an overlong line for a line, and its polls fail on it. */
  predicate TailPoison<E>(file: Bytes, cur: Cursor, w: nat, decode: Bytes -> Decoded<E>) {
    && cur.offset <= |file| && !cur.discarding && !LineStart(file[..cur.offset])
    && var data := Window(file, cur.offset, w);
    && FirstLF(data) < |data| && decode(data[..FirstLF(data) + 1]).Malformed?
  }

  /** Something in front of the cursor makes polls fail. */
  ghost predicate Blocked<E>(file: Bytes, cur: Cursor, w: nat, decode: Bytes -> Decoded<E>) {
    Poisoned(file, cur.offset, w, decode) || TailPoison(file, cur, w, decode)
  }

  datatype Drain<+E> = Drain(cur: Cursor, events: seq<E>)

  /** `n` polls in a row of an unchanging file. */
  function Polls<E>(file: Bytes, cur: Cursor, n: nat, w: nat, decode: Bytes -> Decoded<E>): Drain<E>
    decreases n
  {
    if n == 0 then Drain(cur, []) else
      var (next, out) := PollOnce(file, cur, w, decode);
      var rest := Polls(file, next, n - 1, w, decode);
      Drain(rest.cur, out.Events() + rest.events)
  }

  // ---------------------------------------------------------------- one poll, seen from its window

  lemma HeadLength(data: Bytes)
    ensures if FirstLF(data) == |data| then Head(data) == [] else |Head(data)| > FirstLF(data)
    ensures NoLF(data[|Head(data)|..])
  {
    HeadAndRest(data);
    var i := FirstLF(data);
    if i == |data| {
      TailOfUnfinished(data);
    } else {
      var n := |Head(data)|;
      assert forall j | n <= j < |data| :: data[j] == Rest(data)[j - n];
    }
  }

  /** The finished lines of a part of the file end at a line start, or where the part begins. */
  lemma HeadEnds(file: Bytes, at: nat, data: Bytes)
    requires at + |data| <= |file| && data == file[at..at + |data|]
    ensures |Head(data)| <= |data| && (Head(data) == [] || LineStart(file[..at + |Head(data)|]))
  {
    hide Tail;
    HeadAndRest(data);
    var head := Head(data);
    if head != [] {
      assert head[|head| - 1] == data[|head| - 1] == file[at + |head| - 1];
    }
  }

  /** Where a successful poll stops, in terms of the bytes of its window. */
  lemma PollStops<E>(file: Bytes, cur: Cursor, w: nat, decode: Bytes -> Decoded<E>)
    requires w >= 1 && NoCR(file) && cur.offset <= |file|
    ensures var (next, out) := PollOnce(file, cur, w, decode);
      var data := Window(file, cur.offset, w);
      var i := FirstLF(data);
      out.Polled? ==>
        if cur.discarding && i == |data| then next == Cursor(cur.offset + |data|, true)
        else if !cur.discarding && i == |data| && |data| >= w then next == Cursor(cur.offset + |data|, true)
        else
          && !next.discarding && cur.offset <= next.offset <= cur.offset + |data|
          && (i < |data| ==> next.offset > cur.offset + i)
          && (i == |data| ==> next.offset == cur.offset)
          && NoLF(data[next.offset - cur.offset..])
  {
    hide SplitLines, LineLength, ScanLines, FirstLF, Tail, Report, Expected, ReadOn;
    var data := Window(file, cur.offset, w);
    var i := FirstLF(data);
    WindowAt(file, cur.offset, w);
    if !cur.discarding {
      ReadOnCases(cur.offset, data, w, decode);
      HeadLength(data);
    } else if i < |data| {
      var rest := data[i + 1..];
      assert NoCR(rest);
      ReadOnCases(cur.offset + i + 1, rest, w, decode);
      HeadLength(rest);
      assert data[i + 1 + |Head(rest)|..] == rest[|Head(rest)|..];
    }
  }

  /** A poll that moves on and does not discard ends at a line start. */
  lemma PollEndsLine<E>(file: Bytes, cur: Cursor, w: nat, decode: Bytes -> Decoded<E>)
    requires w >= 1 && NoCR(file) && cur.offset <= |file|
    ensures var (next, out) := PollOnce(file, cur, w, decode);
      out.Polled? && !next.discarding && next.offset > cur.offset ==> next.offset <= |file| && LineStart(file[..next.offset])
  {
    hide SplitLines, LineLength, ScanLines, FirstLF, Tail, Report, Expected, ReadOn, Head;
    var data := Window(file, cur.offset, w);
    var i := FirstLF(data);
    WindowAt(file, cur.offset, w);
    if !cur.discarding {
      ReadOnCases(cur.offset, data, w, decode);
      HeadEnds(file, cur.offset, data);
    } else if i < |data| {
      var rest := data[i + 1..];
      assert NoCR(rest);
      ReadOnCases(cur.offset + i + 1, rest, w, decode);
      HeadEnds(file, cur.offset + i + 1, rest);
      assert file[cur.offset + i] == data[i];
    }
  }

  /** A poll leaves the watcher as it was exactly when the watcher is drained. */
  lemma FixpointExactly<E>(file: Bytes, cur: Cursor, w: nat, decode: Bytes -> Decoded<E>)
    requires w >= 1 && NoCR(file) && cur.offset <= |file| && PollOnce(file, cur, w, decode).1.Polled?
    ensures PollOnce(file, cur, w, decode).0 == cur <==> Drained(file, cur, w)
  {
    hide PollOnce, Tail;
    PollStops(file, cur, w, decode);
    var data := Window(file, cur.offset, w);
    if FirstLF(data) == |data| {
      assert |data| < w ==> data == file[cur.offset..];
    } else {
      assert file[cur.offset..][FirstLF(data)] == LF;
    }
  }

  /** The cursor never goes back, and never passes the end of the file. */
  lemma CursorInFile<E>(file: Bytes, cur: Cursor, w: nat, decode: Bytes -> Decoded<E>)
    requires w >= 1 && NoCR(file) && cur.offset <= |file|
    ensures cur.offset <= PollOnce(file, cur, w, decode).0.offset <= |file|
  {
    hide PollOnce, Tail, FirstLF, Decoding, NoLF;
    PollStops(file, cur, w, decode);
    PollDecodes(file, cur, w, decode);
    WindowAt(file, cur.offset, w);
  }

  /** What one window showed to be free of LF is free of LF in the next. */
  lemma NoLFSeenBefore(file: Bytes, at: nat, n: nat, w: nat)
    requires at + n <= at + w && at + n + w <= |file| && NoLF(Window(file, at, w)[n..])
    ensures at + n + FirstLF(Window(file, at + n, w)) >= at + w
  {
    var next, known := Window(file, at + n, w), Window(file, at, w)[n..];
    assert |next| == w && |known| == w - n;
    assert forall j | 0 <= j < w - n :: next[j] == known[j];
  }

  /** Two successful polls in a row advance by a whole window, if the second has one to read. */
  lemma TwoPollsAdvance<E>(file: Bytes, cur: Cursor, w: nat, decode: Bytes -> Decoded<E>)
    requires w >= 1 && NoCR(file) && cur.offset <= |file|
    ensures var (one, first) := PollOnce(file, cur, w, decode);
      var (two, second) := PollOnce(file, one, w, decode);
      first.Polled? && second.Polled? && one.offset + w <= |file| ==> two.offset >= cur.offset + w
  {
    hide PollOnce, Tail, FirstLF, Window;
    var (one, first) := PollOnce(file, cur, w, decode);
    PollStops(file, cur, w, decode);
    if first.Polled? && one.offset + w <= |file| {
      PollStops(file, one, w, decode);
      assert |Window(file, cur.offset, w)| == |Window(file, one.offset, w)| == w by { FullWindow(file, cur.offset, one.offset, w); }
      if one.offset < cur.offset + w {
        NoLFSeenBefore(file, cur.offset, one.offset - cur.offset, w);
      }
    }
  }

  lemma FullWindow(file: Bytes, at: nat, later: nat, w: nat)
    requires at <= later && later + w <= |file|
    ensures |Window(file, at, w)| == w && |Window(file, later, w)| == w
  {
  }

  /** When less than a window is left, one successful poll drains the watcher. */
  lemma LastPollDrains<E>(file: Bytes, cur: Cursor, w: nat, decode: Bytes -> Decoded<E>)
    requires w >= 1 && NoCR(file) && cur.offset <= |file| < cur.offset + w
    requires PollOnce(file, cur, w, decode).1.Polled?
    ensures Drained(file, PollOnce(file, cur, w, decode).0, w)
  {
    hide PollOnce, Tail;
    PollStops(file, cur, w, decode);
    var next := PollOnce(file, cur, w, decode).0;
    var data := Window(file, cur.offset, w);
    assert data == file[cur.offset..];
    assert next.offset <= |file| && data[next.offset - cur.offset..] == file[next.offset..];
  }

  // ---------------------------------------------------------------- what makes a poll fail

  /** A scan raises only at a complete line that decodes as malformed. */
  lemma {:induction false} ScanRaises<E>(data: Bytes, decode: Bytes -> Decoded<E>)
    requires NoCR(data) && ScanLines(SplitLines(data), decode).raised
    ensures exists k: nat, e: nat :: Poison(data, k, e, |data|, decode)
  {
    hide SplitLines, LineLength, ScanLines, Tail, FirstLF;
    ScanFirst(data, decode);
    var i := FirstLF(data);
    var line, rest := data[..i + 1], data[i + 1..];
    if decode(line).Malformed? {
      assert data[0..i + 1] == line && data[0..i] == data[..i];
      assert Poison(data, 0, i + 1, |data|, decode);
    } else {
      NoCRParts(line, rest) by { assert line + rest == data; }
      ScanRaises(rest, decode);
      var k: nat, e: nat :| Poison(rest, k, e, |rest|, decode);
      assert rest == data[i + 1..|data|] && data[..i + 1] == line;
      PoisonOfPart(data, i + 1, |data|, k, e, |rest|, |data|, decode);
    }
  }

  /** A poisoned line of a part of the file that begins at a line start is one of the file. */
  lemma PoisonOfPart<E>(file: Bytes, at: nat, n: nat, k: nat, e: nat, v: nat, w: nat, decode: Bytes -> Decoded<E>)
    requires n <= |file| && at <= n && LineStart(file[..at]) && Poison(file[at..n], k, e, v, decode) && v <= w
    ensures Poison(file, at + k, at + e, w, decode)
  {
    var part := file[at..n];
    SliceOfSlice(file, at, n, k, e);
    SliceOfSlice(file, at, n, k, e - 1);
    if k > 0 {
      assert part[..k][k - 1] == file[..at + k][at + k - 1];
    }
  }

  /** A poisoned line of the file is one of every part that holds it. */
  lemma PoisonInPart<E>(file: Bytes, at: nat, n: nat, k: nat, e: nat, w: nat, decode: Bytes -> Decoded<E>)
    requires at <= k && e <= n <= |file| && Poison(file, k, e, w, decode)
    ensures Poison(file[at..n], k - at, e - at, w, decode)
  {
    var part := file[at..n];
    SliceOfSlice(file, at, n, k - at, e - at);
    SliceOfSlice(file, at, n, k - at, e - at - 1);
    if k > at {
      assert part[..k - at][k - at - 1] == file[..k][k - 1];
    }
  }

  /** A scan that does not raise met no malformed line. */
  lemma {:induction false} CleanScan<E>(data: Bytes, k: nat, e: nat, w: nat, decode: Bytes -> Decoded<E>)
    requires NoCR(data) && Poison(data, k, e, w, decode)
    ensures ScanLines(SplitLines(data), decode).raised
  {
    hide SplitLines, LineLength, ScanLines, Tail, Poison, NoCR, FirstLF;
    var i := FirstLF(data);
    PoisonOrFirst(data, k, e, w, decode);
    ScanFirst(data, decode);
    if k > 0 {
      PoisonBehindFirst(data, i + 1, k, e, w, decode);
      CleanScan(data[i + 1..], k - (i + 1), e - (i + 1), w, decode);
    }
  }

  lemma PoisonBehindFirst<E>(data: Bytes, n: nat, k: nat, e: nat, w: nat, decode: Bytes -> Decoded<E>)
    requires NoCR(data) && Poison(data, k, e, w, decode) && n <= k && n <= |data| && e <= |data| && LineStart(data[..n])
    ensures n <= e && NoCR(data[n..]) && Poison(data[n..], k - n, e - n, w, decode)
  {
    hide Poison;
    PoisonInPart(data, n, |data|, k, e, w, decode);
    assert data[n..] == data[n..|data|];
    assert data == data[..n] + data[n..];
    NoCRParts(data[..n], data[n..]);
  }

  /** The poisoned line is the first one, or it starts behind the first LF. */
  lemma PoisonOrFirst<E>(data: Bytes, k: nat, e: nat, w: nat, decode: Bytes -> Decoded<E>)
    requires Poison(data, k, e, w, decode)
    ensures var i := FirstLF(data);
      && i < |data| && e <= |data|
      && if k == 0 then decode(data[..i + 1]).Malformed? else k >= i + 1
  {
    var i := FirstLF(data);
    assert data[e - 1] == LF;
    if k == 0 {
      assert forall j | 0 <= j < e - 1 :: data[j] == data[k..e - 1][j];
      assert data[0..e] == data[..i + 1];
    } else {
      assert data[..k][k - 1] == LF;
    }
  }

  /** The bytes a poll decodes: its window, from behind the end of a discarded line. */
  function Decoding(file: Bytes, cur: Cursor, w: nat): (r: (nat, Bytes))
    requires cur.offset <= |file|
    ensures r.0 + |r.1| <= |file| && r.1 == file[r.0..r.0 + |r.1|] && |r.1| <= w && cur.offset <= r.0
  {
    var data := Window(file, cur.offset, w);
    var i := FirstLF(data);
    if !cur.discarding then (cur.offset, data)
    else if i == |data| then (cur.offset + |data|, [])
    else (cur.offset + i + 1, data[i + 1..])
  }

  lemma DecodingEnds(file: Bytes, cur: Cursor, w: nat)
    requires cur.offset <= |file|
    ensures var (at, data) := Decoding(file, cur, w);
      at + |data| == cur.offset + |Window(file, cur.offset, w)|
  {
  }

  lemma DecodingFromLineStart(file: Bytes, cur: Cursor, w: nat)
    requires w >= 1 && Anchored(file, cur, w)
    ensures var (at, data) := Decoding(file, cur, w);
      data != [] ==> LineStart(file[..at])
  {
    hide Tail;
    var window := Window(file, cur.offset, w);
    var i := FirstLF(window);
    if cur.discarding && i < |window| {
      assert file[..cur.offset + i + 1][cur.offset + i] == window[i];
    }
  }

  lemma PollDecodes<E>(file: Bytes, cur: Cursor, w: nat, decode: Bytes -> Decoded<E>)
    requires cur.offset <= |file|
    ensures var (next, out) := PollOnce(file, cur, w, decode);
      var (at, data) := Decoding(file, cur, w);
      if out.Failed? then next == Cursor(at, false) && ScanLines(SplitLines(data), decode).raised
      else next.discarding || !ScanLines(SplitLines(data), decode).raised
  {
    hide SplitLines, LineLength, ScanLines, FirstLF;
  }

  lemma AnchoredFails<E>(file: Bytes, cur: Cursor, w: nat, decode: Bytes -> Decoded<E>)
    requires w >= 1 && NoCR(file) && Anchored(file, cur, w) && PollOnce(file, cur, w, decode).1.Failed?
    ensures Poisoned(file, cur.offset, w, decode)
  {
    hide SplitLines, LineLength, ScanLines, Tail, FirstLF, PollOnce, Decoding;
    var (at, data) := Decoding(file, cur, w);
    DecodingFromLineStart(file, cur, w);
    PollDecodes(file, cur, w, decode);
    assert NoCR(data);
    ScanRaises(data, decode);
    var k: nat, e: nat :| Poison(data, k, e, |data|, decode);
    PoisonOfPart(file, at, at + |data|, k, e, |data|, w, decode);
  }

  /** A poisoned line of a window that begins inside a line is its first, or one of the file. */
  lemma PoisonPastTail<E>(file: Bytes, at: nat, data: Bytes, k: nat, e: nat, w: nat, decode: Bytes -> Decoded<E>)
    requires at + |data| <= |file| && data == file[at..at + |data|] && |data| <= w
    requires Poison(data, k, e, |data|, decode)
    ensures FirstLF(data) < |data|
    ensures decode(data[..FirstLF(data) + 1]).Malformed? || Poisoned(file, at, w, decode)
  {
    hide Poison, FirstLF, NoLF;
    PoisonOrFirst(data, k, e, |data|, decode);
    if k > 0 {
      PoisonBehind(file, at, data, FirstLF(data) + 1, k, e, w, decode);
    }
  }

  lemma PoisonBehind<E>(file: Bytes, at: nat, data: Bytes, n: nat, k: nat, e: nat, w: nat, decode: Bytes -> Decoded<E>)
    requires at + |data| <= |file| && data == file[at..at + |data|] && |data| <= w
    requires Poison(data, k, e, |data|, decode) && 0 < n <= k && n <= |data| && data[n - 1] == LF
    ensures Poison(file, at + k, at + e, w, decode)
  {
    PoisonAtLineStart(data, k, e, |data|, decode);
    hide Poison;
    var part := file[at + n..at + |data|];
    assert data[n..|data|] == part;
    PoisonInPart(data, n, |data|, k, e, |data|, decode);
    assert LineStart(file[..at + n]) by { assert file[at + n - 1] == data[n - 1]; }
    PoisonOfPart(file, at + n, at + |data|, k - n, e - n, |data|, w, decode);
  }

  lemma RestartedFails<E>(file: Bytes, cur: Cursor, w: nat, decode: Bytes -> Decoded<E>)
    requires w >= 1 && NoCR(file) && cur.offset <= |file| && !cur.discarding && !LineStart(file[..cur.offset])
    requires PollOnce(file, cur, w, decode).1.Failed?
    ensures Blocked(file, cur, w, decode)
  {
    hide SplitLines, LineLength, ScanLines, Tail, FirstLF, PollOnce, Poison, Poisoned;
    var data := Window(file, cur.offset, w);
    assert Decoding(file, cur, w) == (cur.offset, data);
    PollDecodes(file, cur, w, decode);
    assert NoCR(data);
    ScanRaises(data, decode);
    var k: nat, e: nat :| Poison(data, k, e, |data|, decode);
    PoisonPastTail(file, cur.offset, data, k, e, w, decode);
  }

  /** A failed poll has a poisoned line, or a poisoned rest of a line, in front of it. */
  lemma FailsOnPoison<E>(file: Bytes, cur: Cursor, w: nat, decode: Bytes -> Decoded<E>)
    requires w >= 1 && NoCR(file) && Resumable(file, cur, w) && PollOnce(file, cur, w, decode).1.Failed?
    ensures Blocked(file, cur, w, decode)
  {
    hide PollOnce, Tail, Poisoned, TailPoison;
    if cur.discarding || LineStart(file[..cur.offset]) {
      AnchoredFails(file, cur, w, decode);
    } else {
      RestartedFails(file, cur, w, decode);
    }
  }

  lemma TailPoisonFails<E>(file: Bytes, cur: Cursor, w: nat, decode: Bytes -> Decoded<E>)
    requires w >= 1 && NoCR(file) && TailPoison(file, cur, w, decode)
    ensures PollOnce(file, cur, w, decode) == (cur, Failed)
  {
    hide SplitLines, LineLength, ScanLines, FirstLF;
    var data := Window(file, cur.offset, w);
    ScanFirst(data, decode);
    ReadOnScans(cur.offset, data, w, decode);
  }

  /** A line start inside the window has a LF of the window in front of it. */
  lemma LineStartsBehindLF(file: Bytes, cur: Cursor, w: nat, k: nat)
    requires w >= 1 && Resumable(file, cur, w) && cur.offset <= k <= |file| && LineStart(file[..k])
    requires k <= cur.offset + |Window(file, cur.offset, w)|
    ensures k > cur.offset ==> k > cur.offset + FirstLF(Window(file, cur.offset, w))
    ensures cur.discarding ==> k > cur.offset
  {
    var window := Window(file, cur.offset, w);
    if k > cur.offset {
      assert file[..k][k - 1] == LF == window[k - 1 - cur.offset];
    }
  }

  /** A poll that does not fail at its first byte decodes from a point no later than the next line. */
  lemma DecodesBefore(file: Bytes, cur: Cursor, w: nat, k: nat)
    requires w >= 1 && Resumable(file, cur, w) && cur.offset <= k <= |file| && LineStart(file[..k])
    ensures Decoding(file, cur, w).0 <= k
  {
    var window := Window(file, cur.offset, w);
    if k <= cur.offset + |window| {
      LineStartsBehindLF(file, cur, w, k);
    }
  }

  /** A poll that discards has not passed the start of a line that fits. */
  lemma DiscardKeepsBefore<E>(file: Bytes, cur: Cursor, w: nat, decode: Bytes -> Decoded<E>, k: nat, e: nat)
    requires w >= 1 && NoCR(file) && Resumable(file, cur, w) && Poison(file, k, e, w, decode) && cur.offset <= k
    requires PollOnce(file, cur, w, decode).1.Polled? && PollOnce(file, cur, w, decode).0.discarding
    ensures PollOnce(file, cur, w, decode).0.offset <= k
  {
    hide SplitLines, LineLength, ScanLines, Tail, FirstLF, PollOnce;
    var next := PollOnce(file, cur, w, decode).0;
    var window := Window(file, cur.offset, w);
    PollStops(file, cur, w, decode);
    if next.offset > k {
      LineStartsBehindLF(file, cur, w, k);
    }
  }

  /** The part of the file before a line start holds the line whole, or none of it. */
  lemma WholeLine<E>(file: Bytes, at: nat, k: nat, e: nat, w: nat, decode: Bytes -> Decoded<E>)
    requires Poison(file, k, e, w, decode) && k < at <= |file| && LineStart(file[..at])
    ensures e <= at
  {
    assert file[..at][at - 1] == LF;
    assert forall j | k <= j < e - 1 :: file[j] == file[k..e - 1][j - k];
  }

  lemma NoFailureNoPoison<E>(file: Bytes, cur: Cursor, w: nat, decode: Bytes -> Decoded<E>, k: nat, e: nat)
    requires w >= 1 && NoCR(file) && Resumable(file, cur, w) && Poison(file, k, e, w, decode)
    requires cur.offset <= k && e <= cur.offset + |Window(file, cur.offset, w)|
    ensures PollOnce(file, cur, w, decode).1.Failed? || PollOnce(file, cur, w, decode).0.discarding
  {
    hide SplitLines, LineLength, ScanLines, Tail, FirstLF, PollOnce, Decoding, Resumable, Poison;
    PoisonAtLineStart(file, k, e, w, decode);
    var (at, data) := Decoding(file, cur, w);
    DecodesBefore(file, cur, w, k);
    DecodingEnds(file, cur, w);
    PoisonInPart(file, at, at + |data|, k, e, w, decode);
    assert NoCR(data);
    CleanScan(data, k - at, e - at, w, decode);
    PollDecodes(file, cur, w, decode);
  }

  /** No poll, successful or not, takes the cursor past a poisoned line, also after a restart. */
  lemma NeverPassesPoison<E>(file: Bytes, cur: Cursor, w: nat, decode: Bytes -> Decoded<E>, k: nat, e: nat)
    requires w >= 1 && NoCR(file) && Resumable(file, cur, w) && Poison(file, k, e, w, decode) && cur.offset <= k
    ensures PollOnce(file, cur, w, decode).0.offset <= k
  {
    hide SplitLines, LineLength, ScanLines, Tail, FirstLF, PollOnce, Decoding, Poison;
    var (next, out) := PollOnce(file, cur, w, decode);
    PoisonAtLineStart(file, k, e, w, decode);
    DecodesBefore(file, cur, w, k);
    PollDecodes(file, cur, w, decode);
    if out.Polled? && next.discarding {
      DiscardKeepsBefore(file, cur, w, decode, k, e);
    } else if out.Polled? && next.offset > k {
      PollEndsLine(file, cur, w, decode);
      PollStops(file, cur, w, decode);
      WholeLine(file, next.offset, k, e, w, decode);
      NoFailureNoPoison(file, cur, w, decode, k, e);
    }
  }

  lemma PoisonAtLineStart<E>(file: Bytes, k: nat, e: nat, w: nat, decode: Bytes -> Decoded<E>)
    requires Poison(file, k, e, w, decode)
    ensures k < e <= |file| && LineStart(file[..k])
  {
  }

  // ---------------------------------------------------------------- many polls

  lemma {:induction false} PollsAgain<E>(file: Bytes, cur: Cursor, m: nat, n: nat, w: nat, decode: Bytes -> Decoded<E>)
    ensures var one := Polls(file, cur, m, w, decode);
      var two := Polls(file, one.cur, n, w, decode);
      Polls(file, cur, m + n, w, decode) == Drain(two.cur, one.events + two.events)
    decreases m
  {
    hide PollOnce;
    var one := Polls(file, cur, m, w, decode);
    var two := Polls(file, one.cur, n, w, decode);
    if m == 0 {
      assert [] + two.events == two.events;
    } else {
      var (next, out) := PollOnce(file, cur, w, decode);
      PollsAgain(file, next, m - 1, n, w, decode);
      var rest := Polls(file, next, m - 1, w, decode);
      assert out.Events() + (rest.events + two.events) == out.Events() + rest.events + two.events;
    }
  }

  /** A restarted reader is anchored after its first poll, or was not moved by it. */
  lemma PollAnchors<E>(file: Bytes, cur: Cursor, w: nat, decode: Bytes -> Decoded<E>)
    requires w >= 1 && NoCR(file) && Resumable(file, cur, w)
    ensures var (next, out) := PollOnce(file, cur, w, decode);
      || (next == cur && out.Events() == [] && Stray(file, cur, w, decode) == [])
      || Anchored(file, next, w)
  {
    hide PollOnce, Tail, FirstLF, Decoding, Expected, NoLF;
    var (next, out) := PollOnce(file, cur, w, decode);
    PollKeepsLog(file, cur, w, decode);
    if !Anchored(file, cur, w) {
      PollStops(file, cur, w, decode);
      PollEndsLine(file, cur, w, decode);
      if out.Failed? {
        PollDecodes(file, cur, w, decode);
        assert Decoding(file, cur, w).0 == cur.offset by { DecodingStarts(file, cur, w); }
      } else if next == cur {
        assert Stray(file, cur, w, decode) == [];
        assert |Expected(file[..cur.offset], w, decode)| == |Expected(file[..cur.offset], w, decode)| + |out.Events()[0..]|;
      }
    }
  }

  lemma DecodingStarts(file: Bytes, cur: Cursor, w: nat)
    requires cur.offset <= |file| && !cur.discarding
    ensures Decoding(file, cur, w).0 == cur.offset
  {
  }

  /** Over any number of polls of an unchanging file, what is returned is the stray event of the
      first, if there is one, and then exactly what the part of the file read owes. */
  lemma {:induction false} PollsKeepLog<E>(file: Bytes, cur: Cursor, n: nat, w: nat, decode: Bytes -> Decoded<E>)
    requires w >= 1 && NoCR(file) && Resumable(file, cur, w)
    ensures var d := Polls(file, cur, n, w, decode);
      var stray := if n == 0 then [] else Stray(file, cur, w, decode);
      && Resumable(file, d.cur, w) && cur.offset <= d.cur.offset
      && stray <= d.events
      && Expected(file[..d.cur.offset], w, decode) == Expected(file[..cur.offset], w, decode) + d.events[|stray|..]
    ensures Anchored(file, cur, w) ==>
      var d := Polls(file, cur, n, w, decode);
      && Anchored(file, d.cur, w)
      && Expected(file[..d.cur.offset], w, decode) == Expected(file[..cur.offset], w, decode) + d.events
    decreases n
  {
    hide PollOnce, Expected, Tail, Stray, Anchored, Resumable;
    if n > 0 {
      var next := PollOnce(file, cur, w, decode).0;
      PollKeepsLog(file, cur, w, decode);
      PollAnchors(file, cur, w, decode);
      PollResumable(file, cur, w, decode);
      PollsKeepLog(file, next, n - 1, w, decode);
      if Anchored(file, next, w) {
        ResumableInside(file, Polls(file, next, n - 1, w, decode).cur, w);
        FirstPollFirst(file, cur, n, w, decode);
      } else {
        FirstPollIdle(file, cur, n, w, decode);
      }
    } else {
      var nothing: seq<E> := [];
      assert nothing[0..] == nothing;
    }
  }

  /** What the polls behind the first return comes behind what the first returned. */
  lemma FirstPollFirst<E>(file: Bytes, cur: Cursor, n: nat, w: nat, decode: Bytes -> Decoded<E>)
    requires n > 0 && cur.offset <= |file|
    requires LogKeptBut(file, cur, Stray(file, cur, w, decode), w, decode)
    requires var next := PollOnce(file, cur, w, decode).0;
      var rest := Polls(file, next, n - 1, w, decode);
      && rest.cur.offset <= |file|
      && Expected(file[..rest.cur.offset], w, decode) == Expected(file[..next.offset], w, decode) + rest.events
    ensures var d, stray := Polls(file, cur, n, w, decode), Stray(file, cur, w, decode);
      && stray <= d.events
      && Expected(file[..d.cur.offset], w, decode) == Expected(file[..cur.offset], w, decode) + d.events[|stray|..]
      && (stray == [] ==>
            Expected(file[..d.cur.offset], w, decode) == Expected(file[..cur.offset], w, decode) + d.events)
  {
    hide PollOnce, Expected, Stray, ResumableAt;
    var (next, out) := PollOnce(file, cur, w, decode);
    var rest := Polls(file, next, n - 1, w, decode);
    assert Polls(file, cur, n, w, decode) == Drain(rest.cur, out.Events() + rest.events);
    hide Polls;
    AddedBehind(Stray(file, cur, w, decode), out.Events(), rest.events, Expected(file[..cur.offset], w, decode));
  }

  lemma AddedBehind<E>(stray: seq<E>, first: seq<E>, rest: seq<E>, before: seq<E>)
    requires stray <= first
    ensures stray <= first + rest && before + first[|stray|..] + rest == before + (first + rest)[|stray|..]
    ensures stray == [] ==> before + (first + rest)[|stray|..] == before + (first + rest)
  {
    EventsBehind(stray, first, rest);
    if stray == [] {
      assert (first + rest)[0..] == first + rest;
    }
  }

  /** A first poll that does nothing leaves everything to the others. */
  lemma FirstPollIdle<E>(file: Bytes, cur: Cursor, n: nat, w: nat, decode: Bytes -> Decoded<E>)
    requires n > 0 && PollOnce(file, cur, w, decode).0 == cur && PollOnce(file, cur, w, decode).1.Events() == []
    ensures Polls(file, cur, n, w, decode) == Polls(file, cur, n - 1, w, decode)
    ensures Polls(file, cur, n, w, decode).events[0..] == Polls(file, cur, n, w, decode).events
  {
    hide PollOnce;
    var rest := Polls(file, cur, n - 1, w, decode).events;
    var nothing: seq<E> := [];
    assert nothing + rest == rest;
  }

  lemma ResumableInside(file: Bytes, cur: Cursor, w: nat)
    requires Resumable(file, cur, w)
    ensures cur.offset <= |file|
  {
  }

  lemma EventsBehind<E>(stray: seq<E>, first: seq<E>, rest: seq<E>)
    requires stray <= first
    ensures stray <= first + rest && (first + rest)[|stray|..] == first[|stray|..] + rest
    ensures first[0..] == first && rest[0..] == rest
  {
  }

  lemma PollResumable<E>(file: Bytes, cur: Cursor, w: nat, decode: Bytes -> Decoded<E>)
    requires w >= 1 && NoCR(file) && Resumable(file, cur, w)
    ensures Resumable(file, PollOnce(file, cur, w, decode).0, w)
    ensures cur.offset <= PollOnce(file, cur, w, decode).0.offset <= |file|
    ensures Anchored(file, PollOnce(file, cur, w, decode).0, w) ==>
      Stray(file, PollOnce(file, cur, w, decode).0, w, decode) == []
  {
    hide PollOnce, Expected, Tail;
    PollKeepsLog(file, cur, w, decode);
    var next := PollOnce(file, cur, w, decode).0;
    if Anchored(file, next, w) {
      PollKeepsLog(file, next, w, decode);
    }
  }

  lemma {:induction false} PollsStopAtPoison<E>(file: Bytes, cur: Cursor, n: nat, w: nat, decode: Bytes -> Decoded<E>,
                                                      k: nat, e: nat)
    requires w >= 1 && NoCR(file) && Resumable(file, cur, w) && Poison(file, k, e, w, decode) && cur.offset <= k
    ensures Polls(file, cur, n, w, decode).cur.offset <= k
    decreases n
  {
    hide PollOnce, Tail, Anchored, Poison, Resumable, LogKeptBut, LogKept, Stray;
    if n > 0 {
      NeverPassesPoison(file, cur, w, decode, k, e);
      PollResumable(file, cur, w, decode);
      PollsStopAtPoison(file, PollOnce(file, cur, w, decode).0, n - 1, w, decode, k, e);
    }
  }

  /** Linear drain: every two polls read a window, until less than a window is left. */
  lemma {:induction false} LinearDrain<E>(file: Bytes, cur: Cursor, k: nat, w: nat, decode: Bytes -> Decoded<E>)
    requires w >= 1 && NoCR(file) && Resumable(file, cur, w) && !Blocked(file, cur, w, decode)
    ensures var at := Polls(file, cur, 2 * k, w, decode).cur.offset;
      at + w > |file| || at >= cur.offset + k * w
    decreases k
  {
    hide PollOnce, Tail, Anchored, Expected, Poison;
    if k > 0 {
      var one := PollOnce(file, cur, w, decode).0;
      var two := PollOnce(file, one, w, decode).0;
      PollWhenClean(file, cur, w, decode);
      PollWhenClean(file, one, w, decode);
      TwoPollsAdvance(file, cur, w, decode);
      LinearDrain(file, two, k - 1, w, decode);
      PollsKeepLog(file, two, 2 * (k - 1), w, decode);
      assert Polls(file, cur, 2 * k, w, decode).cur == Polls(file, one, 2 * k - 1, w, decode).cur;
      assert Polls(file, one, 2 * k - 1, w, decode).cur == Polls(file, two, 2 * (k - 1), w, decode).cur;
      assert k * w == (k - 1) * w + w;
    }
  }

  lemma PollWhenClean<E>(file: Bytes, cur: Cursor, w: nat, decode: Bytes -> Decoded<E>)
    requires w >= 1 && NoCR(file) && Resumable(file, cur, w) && !Blocked(file, cur, w, decode)
    ensures var (next, out) := PollOnce(file, cur, w, decode);
      && out.Polled? && Resumable(file, next, w) && cur.offset <= next.offset <= |file|
      && !Blocked(file, next, w, decode)
    ensures Anchored(file, cur, w) ==> Anchored(file, PollOnce(file, cur, w, decode).0, w)
  {
    hide PollOnce, Tail, Expected, Poison;
    PollKeepsLog(file, cur, w, decode);
    PollAnchors(file, cur, w, decode);
    PollResumable(file, cur, w, decode);
    AnchoredTail(file, PollOnce(file, cur, w, decode).0, w, decode);
    if PollOnce(file, cur, w, decode).1.Failed? {
      FailsOnPoison(file, cur, w, decode);
    }
  }

  lemma AnchoredTail<E>(file: Bytes, cur: Cursor, w: nat, decode: Bytes -> Decoded<E>)
    ensures Anchored(file, cur, w) ==> !TailPoison(file, cur, w, decode)
  {
  }

  lemma {:induction false} DrainedStays<E>(file: Bytes, cur: Cursor, n: nat, w: nat, decode: Bytes -> Decoded<E>)
    requires w >= 1 && NoCR(file) && Resumable(file, cur, w) && Drained(file, cur, w)
    requires !Blocked(file, cur, w, decode)
    ensures Polls(file, cur, n, w, decode).cur == cur
  {
    hide PollOnce, Tail, Drained, Resumable, Blocked;
    if n > 0 {
      PollWhenClean(file, cur, w, decode);
      FixpointExactly(file, cur, w, decode);
      DrainedStays(file, cur, n - 1, w, decode);
    }
  }

  /** The report of a file is complete once the watcher is drained. */
  lemma DrainedIsComplete<E>(file: Bytes, cur: Cursor, w: nat, decode: Bytes -> Decoded<E>)
    requires w >= 1 && NoCR(file) && Resumable(file, cur, w) && Drained(file, cur, w)
    ensures Expected(file[..cur.offset], w, decode) == Expected(file, w, decode)
  {
    var done, rest := file[..cur.offset], file[cur.offset..];
    assert file == done + rest;
    NoCRParts(done, rest);
    if rest == [] {
      assert done == file;
    } else if LineStart(done) {
      ExpectedDropsLine(done, rest, w, decode);
    } else {
      ExpectedOverlong(done, rest, w, decode);
    }
  }

  /** Enough polls for any unread part of a file. */
  function Enough(unread: nat, w: nat): nat
    requires w >= 1
  {
    2 * (unread / w) + 1
  }

  lemma DivisionBound(u: nat, w: nat)
    requires w >= 1
    ensures u < (u / w) * w + w
  {
  }

  /** The first polls of a clean file bring the cursor near its end. */
  lemma NearEnd<E>(file: Bytes, cur: Cursor, w: nat, decode: Bytes -> Decoded<E>) returns (m: nat)
    requires w >= 1 && NoCR(file) && Resumable(file, cur, w) && !Blocked(file, cur, w, decode)
    ensures m + 1 == Enough(|file| - cur.offset, w)
    ensures var near := Polls(file, cur, m, w, decode).cur;
      && Resumable(file, near, w) && !Blocked(file, near, w, decode)
      && near.offset <= |file| < near.offset + w
  {
    hide PollOnce, Tail, Anchored, Expected, Poison, Drained, Blocked, Stray;
    var k := (|file| - cur.offset) / w;
    m := 2 * k;
    LinearDrain(file, cur, k, w, decode);
    PollsStayClean(file, cur, m, w, decode);
    DivisionBound(|file| - cur.offset, w);
  }

  lemma {:induction false} PollsStayClean<E>(file: Bytes, cur: Cursor, n: nat, w: nat, decode: Bytes -> Decoded<E>)
    requires w >= 1 && NoCR(file) && Resumable(file, cur, w) && !Blocked(file, cur, w, decode)
    ensures var d := Polls(file, cur, n, w, decode);
      Resumable(file, d.cur, w) && !Blocked(file, d.cur, w, decode)
    decreases n
  {
    hide PollOnce, Blocked, Resumable;
    if n > 0 {
      PollWhenClean(file, cur, w, decode);
      PollsStayClean(file, PollOnce(file, cur, w, decode).0, n - 1, w, decode);
    }
  }

  lemma DrainsWhenClean<E>(file: Bytes, cur: Cursor, n: nat, w: nat, decode: Bytes -> Decoded<E>)
    requires w >= 1 && NoCR(file) && Resumable(file, cur, w) && !Blocked(file, cur, w, decode)
    requires n >= Enough(|file| - cur.offset, w)
    ensures Drained(file, Polls(file, cur, n, w, decode).cur, w)
  {
    hide PollOnce, Tail, Expected, Drained, Blocked, Resumable;
    var m := NearEnd(file, cur, w, decode);
    var near := Polls(file, cur, m, w, decode).cur;
    PollWhenClean(file, near, w, decode);
    LastPollDrains(file, near, w, decode);
    var last := PollOnce(file, near, w, decode).0;
    PollsAgain(file, cur, m, n - m, w, decode);
    assert Polls(file, near, n - m, w, decode).cur == Polls(file, last, n - m - 1, w, decode).cur;
    DrainedStays(file, last, n - m - 1, w, decode);
  }

  lemma PoisonIsAhead<E>(file: Bytes, cur: Cursor, w: nat, decode: Bytes -> Decoded<E>, k: nat, e: nat)
    requires cur.offset <= k && Poison(file, k, e, w, decode)
    ensures !Drained(file, cur, w)
  {
    assert file[cur.offset..][e - 1 - cur.offset] == LF;
  }

  lemma TailIsAhead<E>(file: Bytes, cur: Cursor, w: nat, decode: Bytes -> Decoded<E>)
    requires TailPoison(file, cur, w, decode)
    ensures !Drained(file, cur, w)
  {
    var data := Window(file, cur.offset, w);
    assert file[cur.offset..][FirstLF(data)] == LF;
  }

  lemma {:induction false} PollsStayAtTail<E>(file: Bytes, cur: Cursor, n: nat, w: nat, decode: Bytes -> Decoded<E>)
    requires w >= 1 && NoCR(file) && TailPoison(file, cur, w, decode)
    ensures Polls(file, cur, n, w, decode) == Drain(cur, [])
    decreases n
  {
    hide PollOnce, TailPoison;
    if n > 0 {
      TailPoisonFails(file, cur, w, decode);
      PollsStayAtTail(file, cur, n - 1, w, decode);
      var nothing: seq<E> := [];
      assert nothing + nothing == nothing;
    }
  }

  /** Catching up, exactly, also after a restart inside an overlong line: after `Enough` polls of a
      file that stopped growing, the watcher is drained if and only if neither a line in front of
      it nor the rest of the line it stands in makes a poll fail; and once it is drained everything
      the file owes has been reported, behind the stray event of a restarted reader. */
  lemma CatchUpExactly<E>(file: Bytes, cur: Cursor, n: nat, w: nat, decode: Bytes -> Decoded<E>)
    requires w >= 1 && NoCR(file) && Resumable(file, cur, w) && n >= Enough(|file| - cur.offset, w)
    ensures var d, stray := Polls(file, cur, n, w, decode), Stray(file, cur, w, decode);
      && (Drained(file, d.cur, w) <==> !Poisoned(file, cur.offset, w, decode) && !TailPoison(file, cur, w, decode))
      && (Drained(file, d.cur, w) ==>
            && stray <= d.events
            && Expected(file, w, decode) == Expected(file[..cur.offset], w, decode) + d.events[|stray|..])
  {
    hide PollOnce, Tail, Expected, Resumable, TailPoison, Stray;
    var d := Polls(file, cur, n, w, decode);
    PollsKeepLog(file, cur, n, w, decode);
    if Poisoned(file, cur.offset, w, decode) {
      var k: nat, e: nat :| cur.offset <= k && Poison(file, k, e, w, decode);
      PollsStopAtPoison(file, cur, n, w, decode, k, e);
      PoisonIsAhead(file, d.cur, w, decode, k, e);
    } else if TailPoison(file, cur, w, decode) {
      PollsStayAtTail(file, cur, n, w, decode);
      TailIsAhead(file, cur, w, decode);
    } else {
      DrainsWhenClean(file, cur, n, w, decode);
    }
    if Drained(file, d.cur, w) {
      DrainedIsComplete(file, d.cur, w, decode);
    }
  }

  /** The same of a file that was replaced by a shorter one: the watcher reports the whole of it,
      wherever its cursor was. */
  lemma CatchUpFromTheStart<E>(file: Bytes, cur: Cursor, n: nat, w: nat, decode: Bytes -> Decoded<E>)
    requires w >= 1 && NoCR(file) && cur.offset > |file| && n >= Enough(|file|, w)
    ensures var d := Polls(file, cur, n, w, decode);
      && (Drained(file, d.cur, w) <==> !Poisoned(file, 0, w, decode))
      && (Drained(file, d.cur, w) ==> d.events == Expected(file, w, decode))
  {
    var start := Cursor(0, false);
    assert Resumable(file, start, w) && !TailPoison(file, start, w, decode) && Stray(file, start, w, decode) == [];
    assert Expected(file[..0], w, decode) == [];
    hide PollOnce, Tail, Expected, Resumable, TailPoison, Stray;
    PollStartsOver(file, cur, w, decode);
    CatchUpExactly(file, start, n, w, decode);
    var d := Polls(file, start, n, w, decode);
    assert d.events[0..] == d.events;
  }

  /** A poisoned line blocks the watcher for good: whatever is appended behind it, no number of
      polls takes the cursor past the line. */
  lemma PoisonBlocks<E>(file: Bytes, more: Bytes, cur: Cursor, n: nat, w: nat, decode: Bytes -> Decoded<E>,
                        k: nat, e: nat)
    requires w >= 1 && NoCR(file + more) && Resumable(file, cur, w) && Poison(file, k, e, w, decode) && cur.offset <= k
    ensures Polls(file + more, cur, n, w, decode).cur.offset <= k
  {
    hide PollOnce, Tail;
    var grown := file + more;
    assert grown[..cur.offset] == file[..cur.offset] && grown[..|file|] == file;
    assert grown[0..|file|] == file && LineStart(grown[..0]);
    PoisonOfPart(grown, 0, |file|, k, e, w, w, decode);
    PollsStopAtPoison(grown, cur, n, w, decode, k, e);
  }

  lemma TailPoisonGrows<E>(file: Bytes, more: Bytes, cur: Cursor, w: nat, decode: Bytes -> Decoded<E>)
    requires TailPoison(file, cur, w, decode)
    ensures TailPoison(file + more, cur, w, decode)
  {
    var grown := file + more;
    var data, wide := Window(file, cur.offset, w), Window(grown, cur.offset, w);
    var i := FirstLF(data);
    assert grown[..cur.offset] == file[..cur.offset] && data <= wide;
    assert FirstLF(wide) == i;
    assert wide[..i + 1] == data[..i + 1];
  }

  /** So does the rest of an overlong line that a restarted reader fails on: it never moves again,
      and reports nothing. */
  lemma TailPoisonBlocks<E>(file: Bytes, more: Bytes, cur: Cursor, n: nat, w: nat, decode: Bytes -> Decoded<E>)
    requires w >= 1 && NoCR(file + more) && TailPoison(file, cur, w, decode)
    ensures Polls(file + more, cur, n, w, decode) == Drain(cur, [])
  {
    TailPoisonGrows(file, more, cur, w, decode);
    PollsStayAtTail(file + more, cur, n, w, decode);
  }
}
