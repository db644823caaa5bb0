/** Whole runs of a watcher: any interleaving of appends to the file with polls of it, and with
    replacements of the file by another one. */
module RolloutSchedule {
  import opened Common
  import opened Lines
  import opened Rollout

  datatype Step = Append(data: Bytes) | Replace(content: Bytes) | Poll

  datatype Run<+E> = Run(file: Bytes, cur: Cursor, log: seq<E>)

  function Apply<E>(s: Run<E>, step: Step, w: nat, decode: Bytes -> Decoded<E>): Run<E> {
    match step
    case Append(data) => s.(file := s.file + data)
    case Replace(content) => s.(file := content)
    case Poll =>
      var (cur, out) := PollOnce(s.file, s.cur, w, decode);
      s.(cur := cur, log := s.log + out.Events())
  }

  function Exec<E>(s: Run<E>, steps: seq<Step>, w: nat, decode: Bytes -> Decoded<E>): Run<E>
    decreases steps
  {
    if steps == [] then s else Exec(Apply(s, steps[0], w, decode), steps[1..], w, decode)
  }

  function Fresh<E>(file: Bytes): Run<E> {
    Run(file, Cursor(0, false), [])
  }

  /** What is written to the file holds no CR. */
  predicate CleanStep(step: Step) {
    match step
    case Append(data) => NoCR(data)
    case Replace(content) => NoCR(content)
    case Poll => true
  }

  predicate OnlyAppends(steps: seq<Step>) {
    forall step | step in steps :: !step.Replace?
  }

  /** The watcher can tell: a file that replaces the one it reads ends before the cursor, and does
      not grow up to the cursor before the next poll. */
  predicate Noticeable<E>(s: Run<E>, step: Step) {
    match step
    case Append(data) => s.cur.offset > |s.file| ==> s.cur.offset > |s.file| + |data|
    case Replace(content) => s.cur.offset > |content|
    case Poll => true
  }

  predicate Noticed<E>(s: Run<E>, steps: seq<Step>, w: nat, decode: Bytes -> Decoded<E>)
    decreases steps
  {
    steps == [] || (Noticeable(s, steps[0]) && Noticed(Apply(s, steps[0], w, decode), steps[1..], w, decode))
  }

  /** The log at the last replacement, or `base` when the file is the one it was. */
  function LogBefore<E>(s: Run<E>, steps: seq<Step>, base: seq<E>, w: nat, decode: Bytes -> Decoded<E>): seq<E>
    decreases steps
  {
    if steps == [] then base else
      LogBefore(Apply(s, steps[0], w, decode), steps[1..], if steps[0].Replace? then s.log else base, w, decode)
  }

  /** Behind what earlier files gave, the log is the report of the consumed part of the file; of a
      file that ends before the cursor nothing is consumed. */
  predicate InStep<E(==)>(s: Run<E>, base: seq<E>, w: nat, decode: Bytes -> Decoded<E>) {
    if s.cur.offset > |s.file| then s.log == base
    else Anchored(s.file, s.cur, w) && s.log == base + Expected(s.file[..s.cur.offset], w, decode)
  }

  lemma PollInStep<E>(s: Run<E>, base: seq<E>, w: nat, decode: Bytes -> Decoded<E>)
    requires w >= 1 && InStep(s, base, w, decode) && NoCR(s.file)
    ensures InStep(Apply(s, Poll, w, decode), base, w, decode)
  {
    hide PollOnce, Expected, Tail, Stray;
    if s.cur.offset > |s.file| {
      PollStartsOver(s.file, s.cur, w, decode);
    } else {
      AnchoredIsResumable(s.file, s.cur, w);
      PollKeepsLog(s.file, s.cur, w, decode);
      var (cur, out) := PollOnce(s.file, s.cur, w, decode);
      assert out.Events()[0..] == out.Events();
    }
  }

  lemma StepInStep<E>(s: Run<E>, step: Step, base: seq<E>, w: nat, decode: Bytes -> Decoded<E>)
    requires w >= 1 && InStep(s, base, w, decode) && NoCR(s.file) && CleanStep(step) && Noticeable(s, step)
    ensures InStep(Apply(s, step, w, decode), if step.Replace? then s.log else base, w, decode)
    ensures NoCR(Apply(s, step, w, decode).file)
  {
    hide PollOnce, Expected, Tail;
    match step {
      case Append(data) =>
        if s.cur.offset <= |s.file| {
          assert (s.file + data)[..s.cur.offset] == s.file[..s.cur.offset];
        }
      case Replace(content) =>
      case Poll => PollInStep(s, base, w, decode);
    }
  }

  /** Every append, every poll and every replacement the watcher can notice keeps log, cursor and
      file in step. */
  lemma {:induction false} StaysInStep<E>(s: Run<E>, steps: seq<Step>, base: seq<E>, w: nat, decode: Bytes -> Decoded<E>)
    requires w >= 1 && InStep(s, base, w, decode) && NoCR(s.file)
    requires (forall step | step in steps :: CleanStep(step)) && Noticed(s, steps, w, decode)
    ensures InStep(Exec(s, steps, w, decode), LogBefore(s, steps, base, w, decode), w, decode)
    decreases steps
  {
    hide InStep, PollOnce;
    if steps != [] {
      StepInStep(s, steps[0], base, w, decode);
      StaysInStep(Apply(s, steps[0], w, decode), steps[1..], if steps[0].Replace? then s.log else base, w, decode);
    }
  }

  /** A cursor stays in a file that only grows. */
  lemma {:induction false} AppendsAreNoticed<E>(s: Run<E>, steps: seq<Step>, w: nat, decode: Bytes -> Decoded<E>)
    requires OnlyAppends(steps) && (s.cur.offset > |s.file| ==> Noticed(s, steps, w, decode))
    ensures Noticed(s, steps, w, decode)
    ensures forall base: seq<E> :: LogBefore(s, steps, base, w, decode) == base
    ensures s.cur.offset <= |s.file| || Poll in steps ==>
      var t := Exec(s, steps, w, decode); t.cur.offset <= |t.file|
    decreases steps
  {
    if steps != [] {
      var next := Apply(s, steps[0], w, decode);
      if steps[0].Poll? {
        PollInFile(s.file, s.cur, w, decode);
      }
      assert s.cur.offset <= |s.file| ==> next.cur.offset <= |next.file|;
      hide PollOnce;
      AppendsAreNoticed(next, steps[1..], w, decode);
    }
  }

  lemma PollInFile<E>(file: Bytes, cur: Cursor, w: nat, decode: Bytes -> Decoded<E>)
    ensures PollOnce(file, cur, w, decode).0.offset <= |file|
  {
    hide SplitLines, LineLength, FirstLF, ScanLines, ReadOn;
    var start := if cur.offset > |file| then Cursor(0, false) else cur;
    var data := Window(file, start.offset, w);
    ReadInData(start.offset, data, w, decode);
    var i := FirstLF(data);
    if i < |data| {
      ReadInData(start.offset + i + 1, data[i + 1..], w, decode);
    }
  }

  lemma ReadInData<E>(at: nat, data: Bytes, w: nat, decode: Bytes -> Decoded<E>)
    ensures ReadOn(at, data, w, decode).0.offset <= at + |data|
  {
    hide SplitLines, LineLength, FirstLF, ScanLines;
    ScanInLines(SplitLines(data), decode);
    JoinSplit(data);
  }

  lemma {:induction false} ScanInLines<E>(lines: seq<Bytes>, decode: Bytes -> Decoded<E>)
    ensures ScanLines(lines, decode).consumed <= |Join(lines)|
  {
    if lines != [] {
      ScanInLines(lines[1..], decode);
    }
  }

  /** Schedule independence. However appends and polls interleave, what was reported is the
      report of the consumed prefix, and the cursor is at a line start or, while discarding,
      inside a line longer than the window. */
  lemma ScheduleIndependence<E>(file: Bytes, steps: seq<Step>, w: nat, decode: Bytes -> Decoded<E>)
    requires w >= 1 && NoCR(file) && OnlyAppends(steps) && forall step | step in steps :: CleanStep(step)
    ensures var s := Exec(Fresh(file), steps, w, decode);
      && Anchored(s.file, s.cur, w)
      && s.log == Expected(s.file[..s.cur.offset], w, decode)
  {
    var start: Run<E> := Fresh(file);
    assert file[..0] == [];
    assert Expected([], w, decode) == [];
    AppendsAreNoticed(start, steps, w, decode);
    StaysInStep(start, steps, [], w, decode);
    hide Exec, Expected, PollOnce;
  }

  /** The same over files that replace one another. Whatever the log and the cursor were, from the
      moment a shorter file stands in the place of the old one, the log goes on with the report of
      what is consumed of the new file, from its first byte; only before the first poll with nothing. */
  lemma ReplacedFile<E>(s: Run<E>, content: Bytes, steps: seq<Step>, w: nat, decode: Bytes -> Decoded<E>)
    requires w >= 1 && NoCR(content) && OnlyAppends(steps) && forall step | step in steps :: CleanStep(step)
    requires Noticed(s, [Replace(content)] + steps, w, decode)
    ensures var t := Exec(s, [Replace(content)] + steps, w, decode);
      if t.cur.offset > |t.file| then Poll !in steps && t.log == s.log
      else Anchored(t.file, t.cur, w) && t.log == s.log + Expected(t.file[..t.cur.offset], w, decode)
  {
    var all := [Replace(content)] + steps;
    assert all[1..] == steps;
    var next := s.(file := content);
    AppendsAreNoticed(next, steps, w, decode);
    StaysInStep(next, steps, s.log, w, decode);
    hide Expected, PollOnce;
  }

  /** A file that replaces one just as long, read to its end, goes unnoticed: no poll moves the
      cursor or reports a line of it. */
  lemma SameSizeUnnoticed<E>(content: Bytes, discarding: bool, w: nat, decode: Bytes -> Decoded<E>)
    ensures PollOnce(content, Cursor(|content|, discarding), w, decode) == (Cursor(|content|, discarding), Polled([]))
  {
    hide LineLength;
    assert Window(content, |content|, w) == [];
    assert SplitLines([]) == [] && ScanLines<E>([], decode) == Scan(0, [], false);
  }

  lemma PollOfBareLine<E>(line: Bytes, w: nat, decode: Bytes -> Decoded<E>)
    requires line != [] && NoLF(line) && NoCR(line) && |line| + 1 < w && decode(line + [CR]).Message?
    ensures PollOnce(line + [CR], Cursor(0, false), w, decode)
      == (Cursor(|line| + 1, false), Polled([decode(line + [CR]).event]))
  {
    hide LineLength, SplitLines;
    var all := line + [CR];
    OneBareLine(line);
    assert Window(all, 0, w) == all && |all| < w;
    assert [all][1..] == [] && ScanLines([], decode) == Scan(0, [], false);
    assert [decode(all).event] + [] == [decode(all).event];
  }

  lemma PollOfFullWindow<E>(data: Bytes, w: nat, decode: Bytes -> Decoded<E>)
    requires NoLF(data) && |data| >= w >= 1
    ensures PollOnce(data, Cursor(0, false), w, decode) == (Cursor(w, true), Polled([]))
  {
    hide LineLength, SplitLines, ScanLines;
    assert Window(data, 0, w) == data[..w];
  }

  /** With a bare CR the schedule shows: whatever the window, the line before the CR is reported
      when it is polled early, and lost when the window is full before any LF arrives. */
  lemma BareCarriageReturn<E>(line: Bytes, w: nat, decode: Bytes -> Decoded<E>)
    requires line != [] && NoLF(line) && NoCR(line) && |line| + 1 < w && decode(line + [CR]).Message?
    ensures var rest: Bytes := seq(w, _ => 120);
      var early := Exec(Fresh([]), [Append(line + [CR]), Poll, Append(rest)], w, decode);
      var late := Exec(Fresh([]), [Append(line + [CR]), Append(rest), Poll], w, decode);
      early.file == late.file && early.log == [decode(line + [CR]).event] && late.log == []
  {
    hide PollOnce;
    var first, rest: Bytes := line + [CR], seq(w, _ => 120);
    assert [] + first == first;
    PollOfBareLine(line, w, decode);
    PollOfFullWindow(first + rest, w, decode);
    var event := decode(first).event;
    var s: Run<E> := Fresh([]);
    var s1, s2 := Run(first, Cursor(0, false), []), Run(first, Cursor(|line| + 1, false), [event]);
    calc {
      Exec(s, [Append(first), Poll, Append(rest)], w, decode);
      { assert [Append(first), Poll, Append(rest)][1..] == [Poll, Append(rest)]; }
      Exec(s1, [Poll, Append(rest)], w, decode);
      { assert [Poll, Append(rest)][1..] == [Append(rest)]; assert [] + [event] == [event]; }
      Exec(s2, [Append(rest)], w, decode);
      { ExecOne(s2, Append(rest), w, decode); }
      s2.(file := first + rest);
    }
    var t := s1.(file := first + rest);
    calc {
      Exec(s, [Append(first), Append(rest), Poll], w, decode);
      { assert [Append(first), Append(rest), Poll][1..] == [Append(rest), Poll]; }
      Exec(s1, [Append(rest), Poll], w, decode);
      { assert [Append(rest), Poll][1..] == [Poll]; }
      Exec(t, [Poll], w, decode);
      { ExecOne(t, Poll, w, decode); }
      t.(cur := Cursor(w, true));
    }
  }

  lemma ExecOne<E>(s: Run<E>, step: Step, w: nat, decode: Bytes -> Decoded<E>)
    ensures Exec(s, [step], w, decode) == Apply(s, step, w, decode)
  {
    assert [step][1..] == [];
  }

  lemma {:induction false} OneBareLine(line: Bytes)
    requires NoLF(line) && NoCR(line)
    ensures SplitLines(line + [CR]) == [line + [CR]]
  {
    BareLength(line);
    var all := line + [CR];
    assert all[..|all|] == all && all[|all|..] == [];
    assert SplitLines(all[|all|..]) == [];
  }

  lemma {:induction false} BareLength(line: Bytes)
    requires NoLF(line) && NoCR(line)
    ensures LineLength(line + [CR]) == |line| + 1
  {
    if line != [] {
      assert (line + [CR])[1..] == line[1..] + [CR];
      BareLength(line[1..]);
    }
  }
}
