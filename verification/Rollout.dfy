/**
 The rollout watcher: an incremental reader of a growing file of JSON lines that
 looks at no more than one window of bytes per poll.
 */
module Rollout {
  import opened Common
  import opened Lines

  /** What reading one line gives: a visible message; nothing (the line is not JSON, or holds
      no message); or an exception, when the JSON value is not an object. */
  datatype Decoded<+E> = Message(event: E) | Silent | Malformed

  datatype Outcome<+E> = Polled(events: seq<E>) | Failed {
    function Events(): seq<E> { if Polled? then events else [] }
  }

  /** The state of a watcher. Only `offset` survives a restart. */
  datatype Cursor = Cursor(offset: nat, discarding: bool)

  function Emit<E>(d: Decoded<E>): seq<E> {
    if d.Message? then [d.event] else []
  }

  // ---------------------------------------------------------------- specification

  predicate Fits(line: Bytes, w: nat) {
    line != [] && line[|line| - 1] == LF && |line| <= w
  }

  function Report<E>(lines: seq<Bytes>, w: nat, decode: Bytes -> Decoded<E>): seq<E> {
    if lines == [] then [] else
      (if Fits(lines[0], w) then Emit(decode(lines[0])) else []) + Report(lines[1..], w, decode)
  }

  /** What a watcher owes its reader: split the whole file, drop the unfinished line and the
      lines longer than the window, decode the others in order. */
  function Expected<E>(file: Bytes, w: nat, decode: Bytes -> Decoded<E>): seq<E> {
    Report(SplitLines(file), w, decode)
  }

  /** A watcher that has consumed `prefix` is between two lines, or inside a line it already
      knows to be too long. */
  predicate AnchoredAt(prefix: Bytes, discarding: bool, w: nat) {
    if discarding then Tail(prefix) >= w else LineStart(prefix)
  }

  /** What a restart keeps of that: the flag may be gone while the offset is inside the line. */
  predicate ResumableAt(prefix: Bytes, discarding: bool, w: nat) {
    if LineStart(prefix) then !discarding else Tail(prefix) >= w
  }

  predicate Anchored(file: Bytes, cur: Cursor, w: nat) {
    cur.offset <= |file| && AnchoredAt(file[..cur.offset], cur.discarding, w)
  }

  predicate Resumable(file: Bytes, cur: Cursor, w: nat) {
    cur.offset <= |file| && ResumableAt(file[..cur.offset], cur.discarding, w)
  }

  // ---------------------------------------------------------------- one poll

  datatype Scan<+E> = Scan(consumed: nat, events: seq<E>, raised: bool)

  function ScanLines<E>(lines: seq<Bytes>, decode: Bytes -> Decoded<E>): Scan<E> {
    if lines == [] || !Terminated(lines[0]) then Scan(0, [], false) else
      var d := decode(lines[0]);
      if d.Malformed? then Scan(|lines[0]|, [], true) else
        var rest := ScanLines(lines[1..], decode);
        Scan(|lines[0]| + rest.consumed, Emit(d) + rest.events, rest.raised)
  }

  lemma ScanStep<E>(lines: seq<Bytes>, decode: Bytes -> Decoded<E>)
    ensures ScanLines(lines, decode)
      == if lines == [] || !Terminated(lines[0]) then Scan(0, [], false)
         else if decode(lines[0]).Malformed? then Scan(|lines[0]|, [], true)
         else Resumed(|lines[0]|, Emit(decode(lines[0])), ScanLines(lines[1..], decode))
  {
  }

  /** A scan that had consumed some lines already when it went on with the rest. */
  function Resumed<E>(consumed: nat, events: seq<E>, rest: Scan<E>): Scan<E> {
    Scan(consumed + rest.consumed, events + rest.events, rest.raised)
  }

  function Window(file: Bytes, from: nat, w: nat): Bytes
    requires from <= |file|
  {
    if from + w <= |file| then file[from..from + w] else file[from..]
  }

  function ReadOn<E>(at: nat, data: Bytes, w: nat, decode: Bytes -> Decoded<E>): (Cursor, Outcome<E>) {
    if data != [] && FirstLF(data) == |data| && |data| >= w then
      (Cursor(at + |data|, true), Polled([]))
    else
      var s := ScanLines(SplitLines(data), decode);
      if s.raised then (Cursor(at, false), Failed)
      else (Cursor(at + s.consumed, false), Polled(s.events))
  }

  function PollOnce<E>(file: Bytes, cur: Cursor, w: nat, decode: Bytes -> Decoded<E>): (Cursor, Outcome<E>) {
    var start := if cur.offset > |file| then Cursor(0, false) else cur;
    var data := Window(file, start.offset, w);
    if !start.discarding then ReadOn(start.offset, data, w, decode)
    else
      var i := FirstLF(data);
      if i == |data| then (Cursor(start.offset + |data|, true), Polled([]))
      else ReadOn(start.offset + i + 1, data[i + 1..], w, decode)
  }

  class RolloutWatcher<E> {
    var byteOffset: nat
    var discardingOversizedLine: bool
    const maxPollBytes: nat
    const decode: Bytes -> Decoded<E>

    constructor (byteOffset: nat, maxPollBytes: int, decode: Bytes -> Decoded<E>)
      ensures State() == Cursor(byteOffset, false) && this.decode == decode
      ensures this.maxPollBytes >= 4096 && this.maxPollBytes >= maxPollBytes
      ensures this.maxPollBytes == 4096 || this.maxPollBytes == maxPollBytes
    {
      this.byteOffset := byteOffset;
      this.discardingOversizedLine := false;
      this.maxPollBytes := if maxPollBytes < 4096 then 4096 else maxPollBytes;
      this.decode := decode;
    }

    function State(): Cursor
      reads this
    {
      Cursor(byteOffset, discardingOversizedLine)
    }

    /** One poll of the file, or of a missing file. A failed poll is the exception that
        escapes when a line holds JSON that is not an object. */
    method Poll(file: Option<Bytes>) returns (out: Outcome<E>)
      modifies this`byteOffset, this`discardingOversizedLine
      ensures file.None? ==> State() == old(State()) && out == Polled([])
      ensures file.Some? ==> (State(), out) == PollOnce(file.value, old(State()), maxPollBytes, decode)
    {
      hide SplitLines, LineLength, FirstLF, ScanLines;
      if file.None? {
        return Polled([]);
      }
      var content := file.value;
      if byteOffset > |content| {
        byteOffset, discardingOversizedLine := 0, false;
      }
      var data := Window(content, byteOffset, maxPollBytes);
      if discardingOversizedLine {
        var newline := FirstLF(data);
        if newline == |data| {
          byteOffset := byteOffset + |data|;
          return Polled([]);
        }
        byteOffset, discardingOversizedLine := byteOffset + newline + 1, false;
        data := data[newline + 1..];
      }
      if data != [] && FirstLF(data) == |data| && |data| >= maxPollBytes {
        byteOffset, discardingOversizedLine := byteOffset + |data|, true;
        return Polled([]);
      }
      var scan := ScanWindow(SplitLines(data));
      if scan.raised {
        return Failed;
      }
      byteOffset := byteOffset + scan.consumed;
      out := Polled(scan.events);
    }

    /** Decode line by line up to the first unfinished line, or to an exception. */
    method ScanWindow(lines: seq<Bytes>) returns (scan: Scan<E>)
      ensures scan.raised == ScanLines(lines, decode).raised
      ensures !scan.raised ==> scan == ScanLines(lines, decode)
    {
      hide ScanLines;
      var events, consumed, i := [], 0, 0;
      assert lines[0..] == lines;
      assert [] + ScanLines(lines, decode).events == ScanLines(lines, decode).events;
      while i < |lines|
        invariant 0 <= i <= |lines| && consumed >= 0
        invariant ScanLines(lines, decode) == Resumed(consumed, events, ScanLines(lines[i..], decode))
      {
        var line := lines[i];
        ScanStep(lines[i..], decode);
        assert lines[i..][1..] == lines[i + 1..];
        if !Terminated(line) {
          break;
        }
        var d := decode(line);
        if d.Malformed? {
          return Scan(consumed, events, true);
        }
        ghost var rest := ScanLines(lines[i + 1..], decode);
        assert events + (Emit(d) + rest.events) == events + Emit(d) + rest.events;
        consumed, events := consumed + |line|, events + Emit(d);
        i := i + 1;
      }
      ScanStep(lines[i..], decode);
      assert events + [] == events;
      scan := Scan(consumed, events, false);
    }
  }

  // ---------------------------------------------------------------- the log of one poll

  lemma {:induction false} ReportAppend<E>(a: seq<Bytes>, b: seq<Bytes>, w: nat, decode: Bytes -> Decoded<E>)
    ensures Report(a + b, w, decode) == Report(a, w, decode) + Report(b, w, decode)
  {
    if a == [] {
      assert a + b == b;
    } else {
      assert (a + b)[1..] == a[1..] + b;
      ReportAppend(a[1..], b, w, decode);
    }
  }

  lemma ExpectedAppend<E>(a: Bytes, b: Bytes, w: nat, decode: Bytes -> Decoded<E>)
    requires LineStart(a)
    ensures Expected(a + b, w, decode) == Expected(a, w, decode) + Expected(b, w, decode)
  {
    SplitAtLineStart(a, b);
    ReportAppend(SplitLines(a), SplitLines(b), w, decode);
  }

  /** A single line, finished or not. */
  predicate OneLineOf(line: Bytes) {
    line != [] && NoCR(line) && NoLF(line[..|line| - 1])
  }

  lemma ExpectedOneLine<E>(line: Bytes, w: nat, decode: Bytes -> Decoded<E>)
    requires OneLineOf(line)
    ensures Expected(line, w, decode) == if Fits(line, w) then Emit(decode(line)) else []
  {
    OneLine(line);
    assert SplitLines(line)[1..] == [];
    assert Report([], w, decode) == [];
  }

  /** What stands after the last LF is not reported yet. */
  lemma ExpectedHead<E>(data: Bytes, w: nat, decode: Bytes -> Decoded<E>)
    requires NoCR(data)
    ensures Expected(Head(data), w, decode) == Expected(data, w, decode)
  {
    HeadAndRest(data);
    var rest := Rest(data);
    NoCRParts(Head(data), rest);
    ExpectedAppend(Head(data), rest, w, decode);
    if rest != [] {
      assert rest[|rest| - 1] != LF;
      ExpectedOneLine(rest, w, decode);
    }
  }

  lemma ExpectedDropsLine<E>(head: Bytes, line: Bytes, w: nat, decode: Bytes -> Decoded<E>)
    requires LineStart(head) && OneLineOf(line) && !Fits(line, w)
    ensures Expected(head + line, w, decode) == Expected(head, w, decode)
  {
    ExpectedAppend(head, line, w, decode);
    ExpectedOneLine(line, w, decode);
  }

  lemma JoinedLine(rest: Bytes, more: Bytes)
    requires NoLF(rest) && NoCR(rest) && OneLineOf(more)
    ensures OneLineOf(rest + more)
  {
    assert (rest + more)[..|rest + more| - 1] == rest + more[..|more| - 1];
  }

  /** Nothing that continues an overlong line, up to its LF, is ever reported. */
  lemma ExpectedOverlong<E>(p: Bytes, more: Bytes, w: nat, decode: Bytes -> Decoded<E>)
    requires NoCR(p) && OneLineOf(more) && Tail(p) >= w
    ensures Expected(p + more, w, decode) == Expected(p, w, decode)
  {
    var head, rest := Head(p), Rest(p);
    assert head + rest == p && LineStart(head) && NoLF(rest) by { HeadAndRest(p); }
    assert NoCR(rest) by { NoCRParts(head, rest); }
    JoinedLine(rest, more);
    assert Expected(p, w, decode) == Expected(head, w, decode) by { ExpectedHead(p, w, decode); }
    Assoc(head, rest, more);
    ExpectedDropsLine(head, rest + more, w, decode);
  }

  lemma FirstOfMany(data: Bytes)
    requires NoCR(data) && FirstLF(data) < |data|
    ensures var i := FirstLF(data);
      OneLineOf(data[..i + 1]) && SplitLines(data) == [data[..i + 1]] + SplitLines(data[i + 1..])
  {
    hide SplitLines, LineLength, FirstLF;
    var i := FirstLF(data);
    var line, rest := data[..i + 1], data[i + 1..];
    assert line[..|line| - 1] == data[..i];
    assert data == line + rest;
    NoCRParts(line, rest);
    OneLine(line);
    SplitAtLineStart(line, rest);
  }

  lemma OnlyUnfinished(data: Bytes)
    requires data != [] && NoCR(data) && FirstLF(data) == |data|
    ensures OneLineOf(data) && NoLF(data) && SplitLines(data) == [data] && !Terminated(data)
  {
    hide SplitLines, LineLength, FirstLF;
    OneLine(data);
  }

  /** A scan sees an unfinished line, or deals with the first line and goes on with the rest. */
  lemma ScanFirst<E>(data: Bytes, decode: Bytes -> Decoded<E>)
    requires NoCR(data)
    ensures var i := FirstLF(data);
      ScanLines(SplitLines(data), decode) ==
        if i == |data| then Scan(0, [], false)
        else if decode(data[..i + 1]).Malformed? then Scan(i + 1, [], true)
        else Resumed(i + 1, Emit(decode(data[..i + 1])), ScanLines(SplitLines(data[i + 1..]), decode))
  {
    if data == [] {
    } else {
      hide SplitLines, LineLength, FirstLF, ScanLines;
      ScanStep(SplitLines(data), decode);
      if FirstLF(data) == |data| {
        OnlyUnfinished(data);
      } else {
        FirstOfMany(data);
        var i := FirstLF(data);
        assert SplitLines(data)[0] == data[..i + 1];
        assert SplitLines(data)[1..] == SplitLines(data[i + 1..]);
      }
    }
  }

  /** Scanning a window that begins at a line start consumes its complete lines and reports them. */
  lemma {:induction false} ScanFromLineStart<E>(data: Bytes, w: nat, decode: Bytes -> Decoded<E>)
    requires NoCR(data) && |data| <= w
    ensures var s := ScanLines(SplitLines(data), decode);
      !s.raised ==> s.consumed == |Head(data)| && s.events == Expected(data, w, decode)
  {
    hide SplitLines, LineLength, FirstLF, ScanLines, Report, Tail, Head, Expected;
    ScanFirst(data, decode);
    var i := FirstLF(data);
    if i == |data| {
      ScanOfUnfinished(data, w, decode);
    } else {
      var line, rest := data[..i + 1], data[i + 1..];
      assert OneLineOf(line) by { FirstOfMany(data); }
      assert data == line + rest;
      assert NoCR(rest) by { NoCRParts(line, rest); }
      ScanFromLineStart(rest, w, decode);
      assert |Head(data)| == |line| + |Head(rest)| by { TailAfterLineStart(line, rest); HeadSize(data); HeadSize(rest); }
      assert Expected(data, w, decode) == Emit(decode(line)) + Expected(rest, w, decode) by {
        ExpectedAppend(line, rest, w, decode);
        ExpectedOneLine(line, w, decode);
      }
    }
  }

  lemma HeadSize(data: Bytes)
    ensures |Head(data)| == |data| - Tail(data)
  {
  }

  lemma ScanOfUnfinished<E>(data: Bytes, w: nat, decode: Bytes -> Decoded<E>)
    requires NoCR(data) && NoLF(data)
    ensures Head(data) == [] && Expected(data, w, decode) == []
  {
    TailOfUnfinished(data);
    if data != [] {
      OnlyUnfinished(data);
      ExpectedOneLine(data, w, decode);
    }
  }

  /** Moving on from `p` to `done` the watcher reported `events`, and stays restartable. */
  ghost predicate Logged<E>(p: Bytes, done: Bytes, discarding: bool, events: seq<E>, w: nat, decode: Bytes -> Decoded<E>) {
    && ResumableAt(done, discarding, w)
    && Expected(done, w, decode) == Expected(p, w, decode) + events
  }

  lemma LoggedNothing<E>(p: Bytes, discarding: bool, w: nat, decode: Bytes -> Decoded<E>)
    requires ResumableAt(p, discarding, w)
    ensures Logged(p, p, discarding, [], w, decode)
  {
  }

  lemma LoggedLines<E>(p: Bytes, data: Bytes, w: nat, decode: Bytes -> Decoded<E>)
    requires LineStart(p) && NoCR(data)
    ensures Logged(p, p + Head(data), false, Expected(data, w, decode), w, decode)
    ensures LineStart(p + Head(data))
  {
    hide SplitLines, LineLength, Report, Tail, Expected;
    HeadAndRest(data);
    ExpectedHead(data, w, decode);
    ExpectedAppend(p, Head(data), w, decode);
  }

  lemma LoggedDiscard<E>(p: Bytes, data: Bytes, w: nat, decode: Bytes -> Decoded<E>)
    requires LineStart(p) && OneLineOf(data) && NoLF(data) && |data| >= w >= 1
    ensures Logged(p, p + data, true, [], w, decode) && Tail(p + data) >= w
  {
    TailAppend(p, data);
    ExpectedDropsLine(p, data, w, decode);
  }

  lemma LoggedOverlong<E>(p: Bytes, data: Bytes, w: nat, decode: Bytes -> Decoded<E>)
    requires Tail(p) >= w >= 1 && NoCR(p) && NoCR(data) && NoLF(data) && data != []
    ensures Logged(p, p + data, true, [], w, decode) && Tail(p + data) >= w
  {
    TailAppend(p, data);
    ExpectedOverlong(p, data, w, decode);
  }

  lemma LoggedAfterOverlong<E>(p: Bytes, line: Bytes, done: Bytes, discarding: bool, events: seq<E>, w: nat,
                               decode: Bytes -> Decoded<E>)
    requires Tail(p) >= w && NoCR(p) && OneLineOf(line) && Logged(p + line, done, discarding, events, w, decode)
    ensures Logged(p, done, discarding, events, w, decode)
  {
    ExpectedOverlong(p, line, w, decode);
  }

  /** The three ways in which reading on from a line start can end. */
  lemma ReadOnCases<E>(at: nat, data: Bytes, w: nat, decode: Bytes -> Decoded<E>)
    requires w >= 1 && NoCR(data) && |data| <= w
    ensures var (cur, out) := ReadOn(at, data, w, decode);
      if data != [] && FirstLF(data) == |data| && |data| >= w then
        cur == Cursor(at + |data|, true) && out == Polled([]) && OneLineOf(data) && NoLF(data)
      else
        || (cur == Cursor(at + |Head(data)|, false) && out == Polled(Expected(data, w, decode)))
        || (cur == Cursor(at, false) && out == Failed)
  {
    hide SplitLines, LineLength, FirstLF, ScanLines, Report, Tail, Expected;
    ScanFromLineStart(data, w, decode);
  }

  /** Having consumed `n` bytes of the `data` behind `p`, the log grew by `events`. */
  ghost predicate ReadLogged<E>(p: Bytes, data: Bytes, n: int, discarding: bool, events: seq<E>, w: nat,
                                decode: Bytes -> Decoded<E>) {
    && 0 <= n <= |data|
    && Logged(p, p + data[..n], discarding, events, w, decode)
  }

  predicate ReadAnchored(p: Bytes, data: Bytes, n: int, discarding: bool, w: nat) {
    0 <= n <= |data| && AnchoredAt(p + data[..n], discarding, w)
  }

  /** The part of a poll that starts after the discarded bytes, from a line start. */
  lemma ReadOnFromLineStart<E>(p: Bytes, data: Bytes, w: nat, decode: Bytes -> Decoded<E>)
    requires w >= 1 && NoCR(data) && |data| <= w && LineStart(p)
    ensures var (cur, out) := ReadOn(|p|, data, w, decode);
      && ReadLogged(p, data, cur.offset - |p|, cur.discarding, out.Events(), w, decode)
      && ReadAnchored(p, data, cur.offset - |p|, cur.discarding, w)
  {
    hide SplitLines, LineLength, FirstLF, ScanLines, ReadOn, Report, Expected, Tail;
    var (cur, out) := ReadOn(|p|, data, w, decode);
    ReadOnCases(|p|, data, w, decode);
    var done := p + data[..cur.offset - |p|];
    if cur.discarding {
      LoggedDiscard(p, data, w, decode);
      assert data[..|data|] == data;
    } else if out.Polled? {
      LoggedLines(p, data, w, decode);
    } else {
      LoggedNothing(p, false, w, decode);
      assert done == p;
    }
  }

  lemma ReadNothing<E>(p: Bytes, data: Bytes, w: nat, decode: Bytes -> Decoded<E>)
    requires Tail(p) >= w >= 1
    ensures ReadLogged(p, data, 0, false, [], w, decode)
  {
    assert p + data[..0] == p;
    LoggedNothing(p, false, w, decode);
  }

  lemma ReadOnUnfinished<E>(p: Bytes, data: Bytes, w: nat, decode: Bytes -> Decoded<E>)
    requires w >= 1 && NoCR(p) && NoCR(data) && NoLF(data) && Tail(p) >= w
    ensures var (cur, out) := ReadOn(|p|, data, w, decode);
      ReadLogged(p, data, cur.offset - |p|, cur.discarding, out.Events(), w, decode)
  {
    hide SplitLines, LineLength, Report, ScanLines, Expected, Logged;
    var (cur, out) := ReadOn(|p|, data, w, decode);
    ScanFirst(data, decode);
    if cur.discarding {
      assert data[..|data|] == data;
      LoggedOverlong(p, data, w, decode);
    } else {
      ReadNothing(p, data, w, decode);
    }
  }

  /** What was logged past the end of an overlong line was logged from inside it. */
  lemma SkipLine<E>(p: Bytes, data: Bytes, k: nat, m: nat, discarding: bool, events: seq<E>, w: nat,
                    decode: Bytes -> Decoded<E>)
    requires k <= |data| && Tail(p) >= w && NoCR(p) && OneLineOf(data[..k])
    requires ReadLogged(p + data[..k], data[k..], m, discarding, events, w, decode)
    ensures ReadLogged(p, data, k + m, discarding, events, w, decode)
    ensures ReadAnchored(p + data[..k], data[k..], m, discarding, w) ==> ReadAnchored(p, data, k + m, discarding, w)
  {
    hide SplitLines, LineLength, Tail, Report, Expected, Logged, ResumableAt, AnchoredAt;
    var done := p + data[..k] + data[k..][..m];
    LoggedAfterOverlong(p, data[..k], done, discarding, events, w, decode);
    TakeJoin(p, data, k, m);
  }

  /** Reading on from inside a line is reading on behind it, with what the rest of the line reads
      as in front, unless the poll fails. */
  lemma ReadOnPastTail<E>(at: nat, data: Bytes, w: nat, decode: Bytes -> Decoded<E>)
    requires NoCR(data) && |data| <= w && FirstLF(data) < |data|
    ensures var i := FirstLF(data);
      var (cur, out) := ReadOn(at, data, w, decode);
      var (later, rest) := ReadOn(at + i + 1, data[i + 1..], w, decode);
      if out.Failed? then cur == Cursor(at, false)
      else rest.Polled? && cur == later && out.events == Emit(decode(data[..i + 1])) + rest.events
  {
    hide SplitLines, LineLength, FirstLF, ScanLines, ReadOn;
    var i := FirstLF(data);
    ScanFirst(data, decode);
    ReadOnScans(at, data, w, decode);
    ReadOnScans(at + i + 1, data[i + 1..], w, decode);
  }

  lemma ReadOnScans<E>(at: nat, data: Bytes, w: nat, decode: Bytes -> Decoded<E>)
    requires FirstLF(data) < |data| || |data| < w
    ensures var s := ScanLines(SplitLines(data), decode);
      ReadOn(at, data, w, decode)
        == if s.raised then (Cursor(at, false), Failed) else (Cursor(at + s.consumed, false), Polled(s.events))
  {
    hide SplitLines, LineLength, FirstLF, ScanLines;
  }

  lemma ReadPastLine<E>(p: Bytes, data: Bytes, k: nat, w: nat, decode: Bytes -> Decoded<E>)
    requires w >= 1 && NoCR(p) && NoCR(data) && |data| <= w && Tail(p) >= w
    requires 0 < k <= |data| && data[k - 1] == LF && NoLF(data[..k - 1])
    ensures var (cur, out) := ReadOn(|p| + k, data[k..], w, decode);
      && ReadLogged(p, data, cur.offset - |p|, cur.discarding, out.Events(), w, decode)
      && ReadAnchored(p, data, cur.offset - |p|, cur.discarding, w)
  {
    hide SplitLines, LineLength, Tail, Report, ScanLines, ReadOn, Expected, Logged, ResumableAt, AnchoredAt;
    var line, rest := data[..k], data[k..];
    assert |p + line| == |p| + k;
    var (cur, out) := ReadOn(|p + line|, rest, w, decode);
    assert OneLineOf(line) by { assert line[..k - 1] == data[..k - 1]; }
    ReadOnFromLineStart(p + line, rest, w, decode);
    SkipLine(p, data, k, cur.offset - |p| - k, cur.discarding, out.Events(), w, decode);
  }

  /** The log grew by `events` behind some that the file does not owe. */
  ghost predicate ReadLoggedBut<E>(p: Bytes, data: Bytes, n: int, discarding: bool, events: seq<E>, stray: seq<E>, w: nat,
                                   decode: Bytes -> Decoded<E>) {
    stray <= events && ReadLogged(p, data, n, discarding, events[|stray|..], w, decode)
  }

  lemma LoggedBehind<E>(p: Bytes, data: Bytes, n: int, discarding: bool, stray: seq<E>, rest: seq<E>, w: nat,
                        decode: Bytes -> Decoded<E>)
    requires ReadLogged(p, data, n, discarding, rest, w, decode)
    ensures ReadLoggedBut(p, data, n, discarding, stray + rest, stray, w, decode)
  {
    hide ReadLogged;
    assert (stray + rest)[|stray|..] == rest;
  }

  /** The end of an overlong line comes first in `data`: what it reads as is all that is reported
      beyond what the file owes. */
  lemma ReadOnInsideOverlong<E>(p: Bytes, data: Bytes, w: nat, decode: Bytes -> Decoded<E>)
    requires w >= 1 && NoCR(p) && NoCR(data) && |data| <= w && Tail(p) >= w && FirstLF(data) < |data|
    ensures var (cur, out) := ReadOn(|p|, data, w, decode);
      var stray := if out.Failed? then [] else Emit(decode(data[..FirstLF(data) + 1]));
      ReadLoggedBut(p, data, cur.offset - |p|, cur.discarding, out.Events(), stray, w, decode)
  {
    hide SplitLines, LineLength, Report, Tail, FirstLF, ScanLines, ReadOn, Expected, ReadLogged, ReadLoggedBut, Emit, NoCR;
    var k := FirstLF(data) + 1;
    var (cur, out) := ReadOn(|p|, data, w, decode);
    ReadOnPastTail(|p|, data, w, decode);
    if out.Failed? {
      InsideFailed(p, data, out, w, decode);
    } else {
      InsidePolled(p, data, k, cur, out, Emit(decode(data[..k])), w, decode);
    }
  }

  lemma InsideFailed<E>(p: Bytes, data: Bytes, out: Outcome<E>, w: nat, decode: Bytes -> Decoded<E>)
    requires Tail(p) >= w >= 1 && out.Failed?
    ensures ReadLoggedBut(p, data, 0, false, out.Events(), [], w, decode)
  {
    hide ReadLogged, ReadLoggedBut, Tail;
    ReadNothing(p, data, w, decode);
    var nothing: seq<E> := [];
    LoggedBehind(p, data, 0, false, nothing, nothing, w, decode);
    assert nothing + nothing == out.Events() == nothing;
  }

  lemma InsidePolled<E>(p: Bytes, data: Bytes, k: nat, cur: Cursor, out: Outcome<E>, stray: seq<E>, w: nat,
                        decode: Bytes -> Decoded<E>)
    requires w >= 1 && NoCR(p) && NoCR(data) && |data| <= w && Tail(p) >= w
    requires 0 < k <= |data| && data[k - 1] == LF && NoLF(data[..k - 1])
    requires var (later, rest) := ReadOn(|p| + k, data[k..], w, decode);
      out.Polled? && rest.Polled? && cur == later && out.events == stray + rest.events
    ensures ReadLoggedBut(p, data, cur.offset - |p|, cur.discarding, out.Events(), stray, w, decode)
  {
    hide SplitLines, LineLength, Tail, ReadOn, ReadLogged, ReadLoggedBut, NoCR, NoLF;
    ReadPastLine(p, data, k, w, decode);
    var (later, rest) := ReadOn(|p| + k, data[k..], w, decode);
    LoggedBehind(p, data, cur.offset - |p|, cur.discarding, stray, rest.events, w, decode);
  }

  /** What a poll reports without the file owing it: the rest of an overlong line that a restarted
      watcher takes for a line, if that reads as a message. */
  function Stray<E>(file: Bytes, was: Cursor, w: nat, decode: Bytes -> Decoded<E>): seq<E> {
    if was.offset > |file| || was.discarding || LineStart(file[..was.offset]) then [] else
      var data := Window(file, was.offset, w);
      var i := FirstLF(data);
      if i == |data| || PollOnce(file, was, w, decode).1.Failed? then [] else Emit(decode(data[..i + 1]))
  }

  ghost predicate LogKeptBut<E>(file: Bytes, was: Cursor, stray: seq<E>, w: nat, decode: Bytes -> Decoded<E>) {
    var (cur, out) := PollOnce(file, was, w, decode);
    && was.offset <= cur.offset <= |file|
    && stray <= out.Events()
    && Logged(file[..was.offset], file[..cur.offset], cur.discarding, out.Events()[|stray|..], w, decode)
  }

  ghost predicate LogKept<E>(file: Bytes, was: Cursor, w: nat, decode: Bytes -> Decoded<E>) {
    var (cur, out) := PollOnce(file, was, w, decode);
    && was.offset <= cur.offset <= |file|
    && Logged(file[..was.offset], file[..cur.offset], cur.discarding, out.Events(), w, decode)
  }

  lemma WindowAt(file: Bytes, at: nat, w: nat)
    requires at <= |file| && NoCR(file)
    ensures var p, data := file[..at], Window(file, at, w);
      |data| <= w && at + |data| <= |file| && NoCR(p) && NoCR(data)
  {
  }

  lemma Consumed(file: Bytes, at: nat, w: nat, n: nat)
    requires at <= |file| && n <= |Window(file, at, w)|
    ensures file[..at + n] == file[..at] + Window(file, at, w)[..n]
  {
  }

  lemma DiscardKeepsLog<E>(file: Bytes, was: Cursor, w: nat, decode: Bytes -> Decoded<E>)
    requires w >= 1 && NoCR(file) && was.discarding && Resumable(file, was, w)
    ensures LogKept(file, was, w, decode)
    ensures Anchored(file, PollOnce(file, was, w, decode).0, w)
  {
    hide SplitLines, LineLength, Tail, Report, FirstLF, ScanLines, ReadOn;
    var (cur, out) := PollOnce(file, was, w, decode);
    var p, data := file[..was.offset], Window(file, was.offset, w);
    WindowAt(file, was.offset, w);
    var i := FirstLF(data);
    if data == [] {
      LoggedNothing(p, true, w, decode);
    } else if i == |data| {
      Consumed(file, was.offset, w, |data|);
      assert data[..|data|] == data;
      LoggedOverlong(p, data, w, decode);
    } else {
      ReadPastLine(p, data, i + 1, w, decode);
      Consumed(file, was.offset, w, cur.offset - was.offset);
    }
  }

  lemma ReadKeepsLog<E>(file: Bytes, was: Cursor, w: nat, decode: Bytes -> Decoded<E>)
    requires w >= 1 && NoCR(file) && !was.discarding && Resumable(file, was, w)
    ensures LogKeptBut(file, was, Stray(file, was, w, decode), w, decode)
    ensures Anchored(file, was, w) ==> Anchored(file, PollOnce(file, was, w, decode).0, w)
  {
    hide SplitLines, LineLength, Tail, Report, Expected, FirstLF, ScanLines, ReadOn;
    var (cur, out) := PollOnce(file, was, w, decode);
    var p, data := file[..was.offset], Window(file, was.offset, w);
    WindowAt(file, was.offset, w);
    var i := FirstLF(data);
    if LineStart(p) {
      ReadOnFromLineStart(p, data, w, decode);
      assert out.Events()[0..] == out.Events();
    } else if i == |data| {
      ReadOnUnfinished(p, data, w, decode);
      assert out.Events()[0..] == out.Events();
    } else {
      ReadOnInsideOverlong(p, data, w, decode);
    }
    Consumed(file, was.offset, w, cur.offset - was.offset);
  }

  lemma AnchoredIsResumable(file: Bytes, cur: Cursor, w: nat)
    requires w >= 1 && Anchored(file, cur, w)
    ensures Resumable(file, cur, w)
  {
  }

  /** One poll of a watcher that may have been restarted inside an overlong line: what it returns
      is the stray event, if there is one, and then exactly what the file owes. A failed poll
      leaves the log alone, and a watcher that never restarted reports nothing stray. */
  lemma PollKeepsLog<E>(file: Bytes, was: Cursor, w: nat, decode: Bytes -> Decoded<E>)
    requires w >= 1 && NoCR(file) && Resumable(file, was, w)
    ensures LogKeptBut(file, was, Stray(file, was, w, decode), w, decode)
    ensures LogKept(file, was, w, decode) <==> Stray(file, was, w, decode) == []
    ensures Anchored(file, was, w) ==>
      Stray(file, was, w, decode) == [] && Anchored(file, PollOnce(file, was, w, decode).0, w)
  {
    hide SplitLines, LineLength, Tail, Report, Expected, FirstLF, ScanLines, ReadOn;
    var (cur, out) := PollOnce(file, was, w, decode);
    if was.discarding {
      DiscardKeepsLog(file, was, w, decode);
      assert out.Events()[0..] == out.Events();
    } else {
      ReadKeepsLog(file, was, w, decode);
      var stray := Stray(file, was, w, decode);
      assert |out.Events()[|stray|..]| == |out.Events()| - |stray|;
      if stray == [] {
        assert out.Events()[0..] == out.Events();
      }
    }
  }

  /** A file that is shorter than the cursor is another file: the watcher starts over, so what it
      reports is all that is owed for the part of the new file it has read, and nothing else. */
  lemma PollStartsOver<E>(file: Bytes, was: Cursor, w: nat, decode: Bytes -> Decoded<E>)
    requires w >= 1 && NoCR(file) && was.offset > |file|
    ensures var (cur, out) := PollOnce(file, was, w, decode);
      && Anchored(file, cur, w)
      && out.Events() == Expected(file[..cur.offset], w, decode)
    ensures PollOnce(file, was, w, decode) == PollOnce(file, Cursor(0, false), w, decode)
  {
    var start := Cursor(0, false);
    assert PollOnce(file, was, w, decode) == PollOnce(file, start, w, decode);
    assert Resumable(file, start, w) && Anchored(file, start, w) && Expected(file[..0], w, decode) == [];
    hide PollOnce, Expected, Tail, Stray, Resumable;
    PollKeepsLog(file, start, w, decode);
  }
}
