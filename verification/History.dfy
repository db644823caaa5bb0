/** The recent dialogue of a rollout, read from a tail window that doubles until it suffices. */
module History {
  import opened Common
  import opened Lines

  datatype Role = User | Assistant

  datatype Item = Item(role: Role, text: string, timestamp: string, turnId: string) {
    /** What a reader sees of a message; two adjacent copies with the same signature are one. */
    function Signature(): (Role, string) { (role, text) }
  }

  /** What one line of the file gives; a JSON value that is not an object raises. */
  datatype Entry = Visible(item: Item) | Hidden | Raises

  datatype Result = Messages(items: seq<Item>) | Raised

  type Decoder = Bytes -> Entry

  // ---------------------------------------------------------------- specification

  function Items(lines: seq<Bytes>, decode: Decoder): seq<Item> {
    if lines == [] then [] else
      var entry := decode(Text(lines[0]));
      Shown(entry) + Items(lines[1..], decode)
  }

  function Shown(entry: Entry): seq<Item> {
    if entry.Visible? then [entry.item] else []
  }

  /** The first item of every run of equal signatures. */
  function Collapse(items: seq<Item>): seq<Item> {
    if items == [] then [] else
      var init, last := items[..|items| - 1], items[|items| - 1];
      Collapse(init)
        + if init != [] && init[|init| - 1].Signature() == last.Signature() then [] else [last]
  }

  function LastOf<T>(s: seq<T>, n: nat): seq<T> {
    if |s| <= n then s else s[|s| - n..]
  }

  /** The whole dialogue of a file, from a full scan. */
  function Dialogue(file: Bytes, decode: Decoder): seq<Item> {
    Collapse(Items(SplitLines(file), decode))
  }

  predicate Raising(lines: seq<Bytes>, decode: Decoder) {
    exists i | 0 <= i < |lines| :: decode(Text(lines[i])).Raises?
  }

  /** `part` shows the last messages of `whole`; only its oldest item may be another copy. */
  predicate ShowsEndOf(part: seq<Item>, whole: seq<Item>) {
    && |part| <= |whole|
    && var skip := |whole| - |part|;
    && (forall i | 0 <= i < |part| :: part[i].Signature() == whole[skip + i].Signature())
    && (forall i | 1 <= i < |part| :: part[i] == whole[skip + i])
  }

  // ---------------------------------------------------------------- the lines of a file

  /** What a writer puts on one line: no terminator is part of it. */
  predicate Bare(line: Bytes) {
    NoLF(line) && NoCR(line)
  }

  /** The file that holds these lines, each ended by a LF. */
  function Written(lines: seq<Bytes>): (file: Bytes)
    ensures LineStart(file)
  {
    if lines == [] then [] else Written(lines[..|lines| - 1]) + lines[|lines| - 1] + [LF]
  }

  /** The visible messages among the written lines, in order. */
  function Spoken(lines: seq<Bytes>, decode: Decoder): seq<Item> {
    if lines == [] then [] else
      var entry := decode(lines[|lines| - 1]);
      Spoken(lines[..|lines| - 1], decode) + if entry.Visible? then [entry.item] else []
  }

  /** The lines of a file whose last line may be unfinished. */
  function AllLines(lines: seq<Bytes>, unfinished: Bytes): seq<Bytes> {
    if unfinished == [] then lines else lines + [unfinished]
  }

  lemma OneItem(a: Bytes, line: Bytes, l: Bytes, decode: Decoder)
    requires LineStart(a) && SplitLines(line) == [line] && Text(line) == l
    ensures Items(SplitLines(a + line), decode) == Items(SplitLines(a), decode) + Shown(decode(l))
    ensures Raising(SplitLines(a + line), decode) <==> Raising(SplitLines(a), decode) || decode(l).Raises?
  {
    hide Text, LineLength;
    var lines := SplitLines(a);
    SplitAtLineStart(a, line);
    assert lines + [line] == SplitLines(a + line);
    hide SplitLines;
    ItemsSnoc(lines + [line], |lines|, decode);
    assert (lines + [line])[..|lines|] == lines && (lines + [line])[..|lines| + 1] == lines + [line];
    hide Items;
    if Raising(lines, decode) {
      var k :| 0 <= k < |lines| && decode(Text(lines[k])).Raises?;
      assert (lines + [line])[k] == lines[k];
    }
    if decode(l).Raises? {
      assert (lines + [line])[|lines|] == line;
    }
  }

  /** A line that is written to the end of a file adds what its own bytes decode to: the LF that
      ends it is not decoded. */
  lemma FinishedLine(a: Bytes, l: Bytes, decode: Decoder)
    requires LineStart(a) && Bare(l)
    ensures Items(SplitLines(a + l + [LF]), decode) == Items(SplitLines(a), decode) + Shown(decode(l))
    ensures Raising(SplitLines(a + l + [LF]), decode) <==> Raising(SplitLines(a), decode) || decode(l).Raises?
  {
    hide SplitLines, Items, Raising;
    var line := l + [LF];
    assert line[..|line| - 1] == l;
    OneLine(line);
    assert Text(line) == l;
    Assoc(a, l, [LF]);
    OneItem(a, line, l, decode);
  }

  /** So does a line whose LF is still to come. */
  lemma UnfinishedLine(a: Bytes, l: Bytes, decode: Decoder)
    requires LineStart(a) && Bare(l) && l != []
    ensures Items(SplitLines(a + l), decode) == Items(SplitLines(a), decode) + Shown(decode(l))
    ensures Raising(SplitLines(a + l), decode) <==> Raising(SplitLines(a), decode) || decode(l).Raises?
  {
    hide SplitLines, Items, Raising;
    OneLine(l);
    assert Text(l) == l;
    OneItem(a, l, l, decode);
  }

  lemma {:induction false} WrittenItems(lines: seq<Bytes>, decode: Decoder)
    requires forall l | l in lines :: Bare(l)
    ensures Items(SplitLines(Written(lines)), decode) == Spoken(lines, decode)
    ensures Raising(SplitLines(Written(lines)), decode) <==> exists l :: l in lines && decode(l).Raises?
  {
    hide SplitLines, Items, Raising, Bare;
    NothingIn(decode);
    if lines != [] {
      var init, l := lines[..|lines| - 1], lines[|lines| - 1];
      WrittenItems(init, decode);
      FinishedLine(Written(init), l, decode);
      assert lines == init + [l];
    }
  }

  /** The dialogue of a file is what its lines decode to, runs of the same message collapsed; and
      reading the whole file raises exactly when one of its lines does. */
  lemma DialogueOfLines(lines: seq<Bytes>, unfinished: Bytes, decode: Decoder)
    requires Bare(unfinished) && forall l | l in lines :: Bare(l)
    ensures var file, all := Written(lines) + unfinished, AllLines(lines, unfinished);
      && Dialogue(file, decode) == Collapse(Spoken(all, decode))
      && (Raising(SplitLines(file), decode) <==> exists l :: l in all && decode(l).Raises?)
  {
    hide SplitLines, Items, Raising, Bare, Collapse;
    WrittenItems(lines, decode);
    var all := AllLines(lines, unfinished);
    if unfinished == [] {
      assert Written(lines) + unfinished == Written(lines);
    } else {
      UnfinishedLine(Written(lines), unfinished, decode);
      assert all[..|all| - 1] == lines;
    }
  }

  /** Two messages in a row are one item when role and text are the same, whatever else differs;
      otherwise both stay. */
  lemma CopiesCollapse(items: seq<Item>, item: Item)
    ensures Collapse(items + [item]) == Collapse(items) +
      if items != [] && items[|items| - 1].role == item.role && items[|items| - 1].text == item.text then [] else [item]
  {
    var all := items + [item];
    assert all[..|all| - 1] == items;
    assert Collapse(all) == Collapse(items) +
      if items != [] && items[|items| - 1].Signature() == item.Signature() then [] else [item];
    hide Collapse;
  }

  // ---------------------------------------------------------------- collapsing a tail

  lemma {:induction false} CollapseEnds(items: seq<Item>)
    requires items != []
    ensures var c := Collapse(items);
      c != [] && c[0] == items[0] && c[|c| - 1].Signature() == items[|items| - 1].Signature()
  {
    if |items| > 1 {
      CollapseEnds(items[..|items| - 1]);
    } else {
      assert items[..0] == [];
    }
  }

  predicate Straddles(a: seq<Item>, b: seq<Item>) {
    a != [] && b != [] && a[|a| - 1].Signature() == b[0].Signature()
  }

  /** Collapsing a file is collapsing its two parts, except for a run across the cut. */
  lemma {:induction false} CollapseParts(a: seq<Item>, b: seq<Item>)
    ensures b != [] ==> Collapse(b) != []
    ensures Collapse(a + b) == Collapse(a) + if Straddles(a, b) then Collapse(b)[1..] else Collapse(b)
  {
    if b == [] {
      assert a + b == a;
    } else {
      CollapseEnds(b);
      var init, last := b[..|b| - 1], b[|b| - 1];
      assert (a + b)[..|a + b| - 1] == a + init;
      CollapseParts(a, init);
      if init == [] {
        assert a + init == a;
        assert Collapse(b) == [last];
      } else {
        assert (a + init)[|a + init| - 1] == init[|init| - 1];
        CollapseEnds(init);
      }
    }
  }

  /** What a window shows is the end of the dialogue; the oldest item is another copy only when a
      run straddles the start of the window and nothing was dropped in front. */
  lemma WindowShowsEnd(a: seq<Item>, b: seq<Item>, n: nat)
    ensures var shown, whole := LastOf(Collapse(b), n), Collapse(a + b);
      && ShowsEndOf(shown, whole)
      && (!Straddles(a, b) || |Collapse(b)| > n ==> shown == whole[|whole| - |shown|..])
  {
    CollapseParts(a, b);
    if Straddles(a, b) {
      CollapseEnds(a);
      CollapseEnds(b);
      hide Collapse;
      StraddlingShowsEnd(Collapse(a), Collapse(b), n);
    } else {
      hide Collapse;
      EndOfAppend(Collapse(a), Collapse(b), n);
    }
  }

  lemma SuffixShowsEnd(part: seq<Item>, whole: seq<Item>)
    requires |part| <= |whole| && part == whole[|whole| - |part|..]
    ensures ShowsEndOf(part, whole)
  {
  }

  lemma EndOfAppend(a: seq<Item>, b: seq<Item>, n: nat)
    ensures var shown := LastOf(b, n);
      |shown| <= |b| && ShowsEndOf(shown, a + b) && shown == (a + b)[|a + b| - |shown|..]
  {
    hide ShowsEndOf;
    var shown := LastOf(b, n);
    assert shown == b[|b| - |shown|..];
    assert (a + b)[|a + b| - |shown|..] == b[|b| - |shown|..];
    SuffixShowsEnd(shown, a + b);
  }

  lemma {:induction false} StraddlingShowsEnd(a: seq<Item>, b: seq<Item>, n: nat)
    requires a != [] && b != [] && a[|a| - 1].Signature() == b[0].Signature()
    ensures var shown, whole := LastOf(b, n), a + b[1..];
      |shown| <= |whole| && ShowsEndOf(shown, whole) && (|b| > n ==> shown == whole[|whole| - |shown|..])
  {
    var whole := a + b[1..];
    if |b| > n {
      EndOfAppend(a, b[1..], n);
      assert LastOf(b[1..], n) == LastOf(b, n);
    } else {
      forall i | 0 <= i < |b|
        ensures whole[|a| - 1 + i].Signature() == b[i].Signature() && (i >= 1 ==> whole[|a| - 1 + i] == b[i])
      {
        if i > 0 {
          assert whole[|a| + (i - 1)] == b[1..][i - 1];
        }
      }
    }
  }

  // ---------------------------------------------------------------- one window

  /** The end of the file behind the first LF at or after `start`; the whole file from 0. */
  function TailFrom(file: Bytes, start: nat): Bytes
    requires start <= |file|
  {
    var data := file[start..];
    if start == 0 then data
    else if FirstLF(data) == |data| then []
    else data[FirstLF(data) + 1..]
  }

  lemma {:induction false} ItemsAppend(a: seq<Bytes>, b: seq<Bytes>, decode: Decoder)
    ensures Items(a + b, decode) == Items(a, decode) + Items(b, decode)
  {
    if a == [] {
      assert a + b == b;
    } else {
      hide Text;
      assert (a + b)[1..] == a[1..] + b && (a + b)[0] == a[0];
      ItemsAppend(a[1..], b, decode);
      var first, mid, last := Shown(decode(Text(a[0]))), Items(a[1..], decode), Items(b, decode);
      assert first + (mid + last) == first + mid + last;
    }
  }

  /** A window holds the last items of the file, never part of a line. */
  lemma WindowHoldsLastItems(file: Bytes, start: nat, decode: Decoder)
    returns (front: seq<Item>)
    requires start <= |file|
    ensures Items(SplitLines(file), decode) == front + Items(SplitLines(TailFrom(file, start)), decode)
    ensures start == 0 ==> front == []
    ensures Raising(SplitLines(TailFrom(file, start)), decode) ==> Raising(SplitLines(file), decode)
  {
    NothingIn(decode);
    hide SplitLines, FirstLF, Items, Text;
    var data := file[start..];
    var i := FirstLF(data);
    if start == 0 {
      assert data == file;
      front := [];
    } else if i == |data| {
      front := Items(SplitLines(file), decode);
    } else {
      var head, tail := file[..start + i + 1], data[i + 1..];
      assert file == head + tail;
      assert head[start + i] == data[i];
      SplitAtLineStart(head, tail);
      front := Items(SplitLines(head), decode);
      ItemsAppend(SplitLines(head), SplitLines(tail), decode);
      RaisingAppend(SplitLines(head), SplitLines(tail), decode);
    }
  }

  /** A window holds every line that begins behind a LF in it. */
  lemma TailBegins(file: Bytes, start: nat, k: nat) returns (from: nat)
    requires start < k <= |file| && file[k - 1] == LF
    ensures from <= k && TailFrom(file, start) == file[from..]
  {
    hide FirstLF;
    var data := file[start..];
    assert data[k - 1 - start] == LF;
    from := if start == 0 then 0 else start + FirstLF(data) + 1;
  }

  /** More lines show no fewer messages. */
  lemma MoreIsShown(a: Bytes, b: Bytes, n: nat, decode: Decoder)
    requires LineStart(a)
    ensures |LastOf(Collapse(Items(SplitLines(b), decode)), n)| <= |LastOf(Collapse(Items(SplitLines(a + b), decode)), n)|
  {
    hide SplitLines, Items;
    SplitAtLineStart(a, b);
    ItemsAppend(SplitLines(a), SplitLines(b), decode);
    var front, items := Items(SplitLines(a), decode), Items(SplitLines(b), decode);
    CollapseParts(front, items);
    if Straddles(front, items) {
      CollapseEnds(front);
    }
    hide Collapse;
  }

  /** No message of a line that begins behind a LF in the window is left out, but for the limit. */
  lemma WindowShowsWholeLines(file: Bytes, start: nat, k: nat, n: nat, decode: Decoder)
    requires start < k <= |file| && file[k - 1] == LF
    ensures |LastOf(Dialogue(file[k..], decode), n)| <= |ShownFrom(file, start, n, decode)|
  {
    hide SplitLines, Items, Collapse, FirstLF, TailFrom;
    var from := TailBegins(file, start, k);
    var front := file[from..k];
    assert file[from..] == front + file[k..];
    MoreIsShown(front, file[k..], n, decode);
  }

  lemma NothingIn(decode: Decoder)
    ensures SplitLines([]) == [] && Items([], decode) == [] && !Raising([], decode)
  {
  }

  lemma RaisingAppend(a: seq<Bytes>, b: seq<Bytes>, decode: Decoder)
    ensures Raising(b, decode) ==> Raising(a + b, decode)
  {
    hide Text;
    if Raising(b, decode) {
      var k :| 0 <= k < |b| && decode(Text(b[k])).Raises?;
      assert (a + b)[|a| + k] == b[k];
    }
  }

  lemma {:induction false} ItemsSnoc(lines: seq<Bytes>, i: nat, decode: Decoder)
    requires i < |lines|
    ensures var entry := decode(Text(lines[i]));
      Items(lines[..i + 1], decode) == Items(lines[..i], decode) + Shown(entry)
  {
    assert lines[..i + 1] == lines[..i] + [lines[i]];
    ItemsAppend(lines[..i], [lines[i]], decode);
    assert [lines[i]][1..] == [];
  }

  /** The loop over the lines of a window, with the bounded deque and the previous signature. */
  method ScanWindow(data: Bytes, limit: nat, decode: Decoder) returns (r: Result)
    requires limit >= 1
    ensures r.Raised? <==> Raising(SplitLines(data), decode)
    ensures r.Messages? ==> r.items == LastOf(Collapse(Items(SplitLines(data), decode)), limit)
  {
    hide SplitLines, Items, Text, Collapse;
    var lines := SplitLines(data);
    var messages: seq<Item> := [];
    var previous := None;
    var i := 0;
    NoItems(decode);
    assert lines[..0] == [];
    while i < |lines|
      invariant 0 <= i <= |lines|
      invariant forall j | 0 <= j < i :: !decode(Text(lines[j])).Raises?
      invariant messages == LastOf(Collapse(Items(lines[..i], decode)), limit)
      invariant previous == LastSignature(Items(lines[..i], decode))
    {
      var entry := decode(Text(lines[i]));
      ItemsSnoc(lines, i, decode);
      ghost var items := Items(lines[..i], decode);
      if entry.Raises? {
        return Raised;
      }
      if entry.Visible? {
        var item := entry.item;
        CollapseSnoc(items, item, limit);
        if previous != Some(item.Signature()) {
          previous := Some(item.Signature());
          messages := messages + [item];
          if |messages| > limit {
            messages := messages[1..];
          }
        }
      } else {
        assert items + [] == items;
      }
      i := i + 1;
    }
    assert lines[..i] == lines;
    return Messages(messages);
  }

  function LastSignature(items: seq<Item>): Option<(Role, string)> {
    if items == [] then None else Some(items[|items| - 1].Signature())
  }

  lemma NoItems(decode: Decoder)
    ensures Items([], decode) == [] && Collapse([]) == []
  {
  }

  /** One more item: it joins the run before it, or pushes the oldest out of the deque. */
  lemma CollapseSnoc(items: seq<Item>, item: Item, limit: nat)
    requires limit >= 1
    ensures var was, now := LastOf(Collapse(items), limit), LastOf(Collapse(items + [item]), limit);
      && LastSignature(items + [item]) == Some(item.Signature())
      && now == if LastSignature(items) == Some(item.Signature()) then was
                else if |was| < limit then was + [item] else (was + [item])[1..]
  {
    assert (items + [item])[..|items|] == items;
    var joined := LastSignature(items) == Some(item.Signature());
    assert Collapse(items + [item]) == Collapse(items) + if joined then [] else [item];
    hide Collapse;
    if joined {
      assert Collapse(items) + [] == Collapse(items);
    } else {
      LastOfSnoc(Collapse(items), item, limit);
    }
  }

  lemma LastOfSnoc<T>(s: seq<T>, x: T, n: nat)
    requires n >= 1
    ensures LastOf(s + [x], n) == if |LastOf(s, n)| < n then LastOf(s, n) + [x] else (LastOf(s, n) + [x])[1..]
  {
  }

  // ---------------------------------------------------------------- the doubling loop

  function Min(a: int, b: int): int { if a < b then a else b }

  function Max(a: int, b: int): int { if a < b then b else a }

  /** How many messages a caller can ask for. */
  function Limit(limit: int): (n: nat)
    ensures 1 <= n <= 50 && (limit < n ==> n == 1) && (limit > n ==> n == 50)
  {
    Min(Max(limit, 1), 50)
  }

  /** The most bytes any window may hold. */
  function Budget(maxBytes: int, maxTotalBytes: int): (n: nat)
    ensures n >= 4096 && n >= maxBytes && n >= maxTotalBytes
    ensures n == 4096 || n == maxBytes || n == maxTotalBytes
  {
    Max(Max(maxBytes, 4096), maxTotalBytes)
  }

  /** What a window that begins at `start` shows of the dialogue. */
  function ShownFrom(file: Bytes, start: nat, n: nat, decode: Decoder): seq<Item>
    requires start <= |file|
  {
    LastOf(Collapse(Items(SplitLines(TailFrom(file, start)), decode)), n)
  }

  lemma ShownIsEnd(file: Bytes, start: nat, n: nat, decode: Decoder)
    requires start <= |file|
    ensures var shown, dialogue := ShownFrom(file, start, n, decode), Dialogue(file, decode);
      && ShowsEndOf(shown, dialogue) && |shown| <= n
      && (start == 0 ==> shown == LastOf(dialogue, n))
      && (start == 0 && |shown| < n ==> |shown| == |dialogue|)
  {
    hide SplitLines, Collapse, Items, FirstLF;
    var front := WindowHoldsLastItems(file, start, decode);
    var items := Items(SplitLines(TailFrom(file, start)), decode);
    WindowShowsEnd(front, items, n);
    if start == 0 {
      assert front + items == items;
    }
  }

  /** One window: the bytes from `start` on, without the line that begins before it. */
  method ReadWindow(file: Bytes, start: nat, n: nat, decode: Decoder) returns (r: Result, read: nat)
    requires start <= |file| && n >= 1
    ensures read == |file| - start
    ensures r.Raised? <==> Raising(SplitLines(TailFrom(file, start)), decode)
    ensures r.Messages? ==> r.items == ShownFrom(file, start, n, decode)
  {
    hide SplitLines, Collapse, Items, FirstLF, Raising;
    var data := file[start..];
    read := |data|;
    if start > 0 {
      var separator := FirstLF(data);
      data := if separator == |data| then [] else data[separator + 1..];
    }
    assert data == TailFrom(file, start);
    r := ScanWindow(data, n, decode);
  }

  /** Reading windows of doubling size from the end. `bytesRead` adds up what the windows held and
      `window` is the last of them. */
  method RecentRolloutMessages(file: Option<Bytes>, limit: int, maxBytes: int, maxTotalBytes: int, decode: Decoder)
    returns (r: Result, bytesRead: nat, window: nat)
    ensures file.None? ==> r == Messages([]) && bytesRead == 0
    ensures file.Some? ==> window <= |file.value|
    ensures file.Some? ==> (r.Raised? <==> Raising(SplitLines(TailFrom(file.value, |file.value| - window)), decode))
    ensures file.Some? && r.Raised? ==> Raising(SplitLines(file.value), decode)
    ensures file.Some? && r.Messages? ==>
      var dialogue := Dialogue(file.value, decode);
      && ShowsEndOf(r.items, dialogue)
      && |r.items| <= Limit(limit)
      // it stops short of what was asked for only at the start of the file, or at the budget
      && (|r.items| < Limit(limit) && window < Budget(maxBytes, maxTotalBytes) ==> |r.items| == |dialogue|)
      && (window == |file.value| ==> r.items == LastOf(dialogue, Limit(limit)))
      // no message of a line that begins behind a LF in the last window is left out
      && (forall k | |file.value| - window < k <= |file.value| && file.value[k - 1] == LF ::
            |LastOf(Dialogue(file.value[k..], decode), Limit(limit))| <= |r.items|)
    ensures file.Some? ==>
      && window <= Min(|file.value|, Budget(maxBytes, maxTotalBytes))
      && (file.value == [] ==> bytesRead == 0)
      && (file.value != [] ==> bytesRead < 3 * window)
  {
    hide SplitLines, TailFrom, Raising, ShowsEndOf, Dialogue, ShownFrom, LastOf;
    bytesRead, window := 0, 0;
    if file.None? {
      return Messages([]), 0, 0;
    }
    var content := file.value;
    var size := |content|;
    var n := Limit(limit);
    var first := Max(maxBytes, 4096);
    var total := Max(first, maxTotalBytes);
    window := Min(size, first);
    while true
      invariant window <= size && window <= total
      invariant size > 0 ==> window >= 1
      invariant size == 0 ==> bytesRead == 0
      invariant size > 0 ==> bytesRead < window || (window == Min(size, total) && bytesRead < 2 * window)
      decreases Min(size, total) - window
    {
      var start := size - window;
      var read;
      r, read := ReadWindow(content, start, n, decode);
      bytesRead := bytesRead + read;
      if r.Raised? {
        RaisingWindow(content, start, decode);
        return;
      }
      ShownIsEnd(content, start, n, decode);
      forall k | start < k <= size && content[k - 1] == LF
        ensures |LastOf(Dialogue(content[k..], decode), n)| <= |r.items|
      {
        WindowShowsWholeLines(content, start, k, n, decode);
      }
      if |r.items| >= n || start == 0 || window >= total {
        return;
      }
      window := Min(size, Min(total, window * 2));
    }
  }

  lemma RaisingWindow(file: Bytes, start: nat, decode: Decoder)
    requires start <= |file| && Raising(SplitLines(TailFrom(file, start)), decode)
    ensures Raising(SplitLines(file), decode)
  {
    hide SplitLines, Items, FirstLF, Raising, TailFrom;
    var front := WindowHoldsLastItems(file, start, decode);
  }
}
