/** Byte strings and the line splitting that both rollout readers rest on. */
module Lines {
  import opened Common

  const LF: Byte := 10
  const CR: Byte := 13

  /** Length of the first line of `data`, its terminator included. */
  function LineLength(data: Bytes): (n: nat)
    requires data != []
    ensures 1 <= n <= |data|
  {
    if data[0] == LF then 1
    else if data[0] == CR then (if |data| > 1 && data[1] == LF then 2 else 1)
    else if |data| == 1 then 1
    else 1 + LineLength(data[1..])
  }

  /** `bytes.splitlines(keepends=True)`: LF, CR and CR LF all end a line. */
  function SplitLines(data: Bytes): seq<Bytes> {
    if data == [] then [] else
      var n := LineLength(data);
      [data[..n]] + SplitLines(data[n..])
  }

  predicate Terminated(line: Bytes) {
    line != [] && (line[|line| - 1] == LF || line[|line| - 1] == CR)
  }

  /** A line without its terminator, as `splitlines()` yields it. */
  function Text(line: Bytes): (text: Bytes)
    ensures text <= line
  {
    if |line| > 1 && line[|line| - 2] == CR && line[|line| - 1] == LF then line[..|line| - 2]
    else if Terminated(line) then line[..|line| - 1]
    else line
  }

  /** The index of the first LF, or the length of `data` when it has none. */
  function FirstLF(data: Bytes): (i: nat)
    ensures i <= |data|
    ensures i < |data| ==> data[i] == LF
    ensures forall j | 0 <= j < i :: data[j] != LF
  {
    if data == [] || data[0] == LF then 0 else 1 + FirstLF(data[1..])
  }

  predicate LineStart(prefix: Bytes) {
    prefix == [] || prefix[|prefix| - 1] == LF
  }

  predicate NoLF(data: Bytes) {
    forall i | 0 <= i < |data| :: data[i] != LF
  }

  predicate NoCR(data: Bytes) {
    forall i | 0 <= i < |data| :: data[i] != CR
  }

  /** How many bytes follow the last LF of `data`: the length of the unfinished line. */
  function Tail(data: Bytes): (n: nat)
    ensures n <= |data|
  {
    if LineStart(data) then 0 else 1 + Tail(data[..|data| - 1])
  }

  /** The finished lines of data. */
  function Head(data: Bytes): Bytes {
    data[..|data| - Tail(data)]
  }

  /** The unfinished line of data. */
  function Rest(data: Bytes): Bytes {
    data[|data| - Tail(data)..]
  }

  lemma {:induction false} HeadAndRest(data: Bytes)
    ensures data == Head(data) + Rest(data) && LineStart(Head(data)) && NoLF(Rest(data))
  {
    if !LineStart(data) {
      var init := data[..|data| - 1];
      HeadAndRest(init);
      assert Head(data) == Head(init);
      assert Rest(data) == Rest(init) + [data[|data| - 1]];
    }
  }

  lemma Assoc(a: Bytes, b: Bytes, c: Bytes)
    ensures a + b + c == a + (b + c)
  {
  }

  lemma Take(p: Bytes, data: Bytes, n: nat)
    requires n <= |data|
    ensures (p + data)[..|p| + n] == p + data[..n]
  {
  }

  lemma TakeJoin(p: Bytes, data: Bytes, k: nat, m: nat)
    requires k + m <= |data|
    ensures p + data[..k] + data[k..][..m] == p + data[..k + m]
  {
    assert data[..k] + data[k..][..m] == data[..k + m];
    Assoc(p, data[..k], data[k..][..m]);
  }

  lemma SliceOfSlice(s: Bytes, a: nat, n: nat, k: nat, e: nat)
    requires a + e <= n <= |s| && k <= e
    ensures s[a..n][k..e] == s[a + k..a + e]
  {
    assert forall j | 0 <= j < e - k :: s[a..n][k..e][j] == s[a + k..a + e][j];
  }

  lemma NoCRParts(a: Bytes, b: Bytes)
    requires NoCR(a + b)
    ensures NoCR(a) && NoCR(b)
  {
    assert forall i | 0 <= i < |a| :: a[i] == (a + b)[i];
    assert forall i | 0 <= i < |b| :: b[i] == (a + b)[|a| + i];
  }

  function Join(lines: seq<Bytes>): Bytes {
    if lines == [] then [] else lines[0] + Join(lines[1..])
  }

  /** Splitting loses nothing: the lines put back together are the data. */
  lemma {:induction false} JoinSplit(data: Bytes)
    ensures Join(SplitLines(data)) == data
  {
    if data != [] {
      JoinSplit(data[LineLength(data)..]);
    }
  }

  lemma {:induction false} LineLengthPrefix(a: Bytes, b: Bytes)
    requires a != [] && LineStart(a)
    ensures LineLength(a + b) == LineLength(a)
  {
    if a[0] != LF && a[0] != CR {
      assert (a + b)[1..] == a[1..] + b;
      LineLengthPrefix(a[1..], b);
    }
  }

  /** A file cut just after a LF splits into the lines before the cut and the lines after it. */
  lemma {:induction false} SplitAtLineStart(a: Bytes, b: Bytes)
    requires LineStart(a)
    ensures SplitLines(a + b) == SplitLines(a) + SplitLines(b)
  {
    if a == [] {
      assert a + b == b;
    } else {
      LineLengthPrefix(a, b);
      var n := LineLength(a);
      assert (a + b)[..n] == a[..n];
      assert (a + b)[n..] == a[n..] + b;
      SplitAtLineStart(a[n..], b);
    }
  }

  /** Without a CR, data that has no LF before its last byte is a single line. */
  lemma {:induction false} OneLineLength(data: Bytes)
    requires data != [] && NoCR(data) && NoLF(data[..|data| - 1])
    ensures LineLength(data) == |data|
  {
    if |data| > 1 {
      assert data[0] == data[..|data| - 1][0];
      var rest := data[1..];
      assert rest[..|rest| - 1] == data[..|data| - 1][1..];
      OneLineLength(rest);
    }
  }

  lemma OneLine(data: Bytes)
    requires data != [] && NoCR(data) && NoLF(data[..|data| - 1])
    ensures SplitLines(data) == [data]
  {
    OneLineLength(data);
    assert data[|data|..] == [] && data[..|data|] == data;
    assert SplitLines(data[|data|..]) == [];
  }

  /** Extending data by a LF-free piece lengthens its unfinished line. */
  lemma {:induction false} TailAppend(a: Bytes, b: Bytes)
    requires NoLF(b)
    ensures Tail(a + b) == Tail(a) + |b|
  {
    if b == [] {
      assert a + b == a;
    } else {
      var init := b[..|b| - 1];
      assert (a + b)[..|a + b| - 1] == a + init;
      TailAppend(a, init);
      assert (a + b)[|a + b| - 1] == b[|b| - 1];
    }
  }

  /** After a LF only what follows it counts. */
  lemma {:induction false} TailAfterLineStart(a: Bytes, b: Bytes)
    requires LineStart(a)
    ensures Tail(a + b) == Tail(b)
  {
    if b == [] {
      assert a + b == a;
    } else {
      assert (a + b)[..|a + b| - 1] == a + b[..|b| - 1];
      assert (a + b)[|a + b| - 1] == b[|b| - 1];
      if b[|b| - 1] != LF {
        TailAfterLineStart(a, b[..|b| - 1]);
      }
    }
  }

  lemma TailOfUnfinished(data: Bytes)
    requires NoLF(data)
    ensures Tail(data) == |data|
  {
    TailAppend([], data);
    assert [] + data == data;
  }
}
