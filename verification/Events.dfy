/** The logical identity of an observed event. */
module Events {
  import opened Common

  datatype Source = Feishu | Desktop | Codex | Cfr | Unknown

  datatype CfrEvent = CfrEvent(
    threadId: Option<string>,
    turnId: Option<string>,
    itemId: Option<string>,
    eventType: string,
    source: Source,
    text: Option<string>,
    rawType: Option<string>)

  function OrEmpty(id: Option<string>): string {
    if id.Some? then id.value else ""
  }

  /** How the text enters the digest: an absent text is written out. */
  function TextOf(text: Option<string>): string {
    if text.Some? then text.value else "None"
  }

  function Base(e: CfrEvent): string {
    OrEmpty(e.threadId) + "|" + (OrEmpty(e.turnId) + "|" + (OrEmpty(e.itemId) + "|" + e.eventType))
  }

  /** Some id is known, so the ids and the type name the event. */
  predicate Identified(e: CfrEvent) {
    OrEmpty(e.threadId) != "" || OrEmpty(e.turnId) != "" || OrEmpty(e.itemId) != ""
  }

  function Key(e: CfrEvent, digest: string -> string): string {
    if Identified(e) then Base(e) else digest(Input(e))
  }

  /** The identity the key is meant for: ids and type, or type and text when no id is known. The
      source, the time and the raw type play no part. */
  predicate SameEvent(a: CfrEvent, b: CfrEvent) {
    && OrEmpty(a.threadId) == OrEmpty(b.threadId)
    && OrEmpty(a.turnId) == OrEmpty(b.turnId)
    && OrEmpty(a.itemId) == OrEmpty(b.itemId)
    && a.eventType == b.eventType
    && (!Identified(a) ==> a.text == b.text)
  }

  /** Without an id, an absent text and the text "None" are written alike. */
  predicate NoneTwins(a: CfrEvent, b: CfrEvent) {
    && !Identified(a) && !Identified(b) && a.eventType == b.eventType
    && a.text != b.text && TextOf(a.text) == TextOf(b.text) == "None"
  }

  /** What goes into the digest. */
  function Input(e: CfrEvent): string {
    Base(e) + "|" + TextOf(e.text)
  }

  /** The digest keeps the two apart, if they differ. */
  predicate NoCollision(a: CfrEvent, b: CfrEvent, digest: string -> string) {
    digest(Input(a)) == digest(Input(b)) ==> Input(a) == Input(b)
  }

  predicate NoBar(s: string) {
    '|' !in s
  }

  predicate PlainNames(e: CfrEvent) {
    NoBar(OrEmpty(e.threadId)) && NoBar(OrEmpty(e.turnId)) && NoBar(OrEmpty(e.itemId)) && NoBar(e.eventType)
  }

  /** The part before the first bar and the part behind it are determined by the whole. */
  lemma {:induction false} SplitAtBar(a: string, b: string, c: string, d: string)
    requires NoBar(a) && NoBar(c) && a + "|" + b == c + "|" + d
    ensures a == c && b == d
  {
    var whole := a + "|" + b;
    assert whole == c + "|" + d;
    assert whole[|a|] == '|' == whole[|c|];
    assert forall i | 0 <= i < |a| :: whole[i] == a[i];
    assert forall i | 0 <= i < |c| :: whole[i] == c[i];
    assert |a| == |c|;
    assert a == whole[..|a|] == c;
    assert b == whole[|a| + 1..] == d;
  }

  // ---------------------------------------------------------------- counting bars

  function Bars(s: string): nat {
    if s == "" then 0 else (if s[0] == '|' then 1 else 0) + Bars(s[1..])
  }

  lemma {:induction false} BarsJoin(a: string, b: string)
    ensures Bars(a + b) == Bars(a) + Bars(b)
  {
    if a == "" {
      assert a + b == b;
    } else {
      assert (a + b)[1..] == a[1..] + b;
      BarsJoin(a[1..], b);
    }
  }

  lemma {:induction false} NoBars(s: string)
    ensures Bars(s) == 0 <==> NoBar(s)
  {
    if s != "" {
      NoBars(s[1..]);
      assert s == [s[0]] + s[1..];
    }
  }

  /** Two parts with a bar in between. */
  lemma BarsBetween(a: string, b: string)
    ensures Bars(a + "|" + b) == Bars(a) + 1 + Bars(b)
  {
    BarsJoin(a + "|", b);
    BarsJoin(a, "|");
    assert Bars("|") == 1 by { assert "|"[1..] == ""; }
  }

  lemma BarsOfBase(e: CfrEvent)
    ensures Bars(Base(e)) == 3 + Bars(OrEmpty(e.threadId)) + Bars(OrEmpty(e.turnId)) + Bars(OrEmpty(e.itemId)) + Bars(e.eventType)
  {
    hide Bars;
    var item := OrEmpty(e.itemId) + "|" + e.eventType;
    var turn := OrEmpty(e.turnId) + "|" + item;
    BarsBetween(OrEmpty(e.itemId), e.eventType);
    BarsBetween(OrEmpty(e.turnId), item);
    BarsBetween(OrEmpty(e.threadId), turn);
    assert Base(e) == OrEmpty(e.threadId) + "|" + turn;
  }

  lemma PlainByBars(e: CfrEvent)
    ensures PlainNames(e) <==> Bars(Base(e)) == 3
  {
    hide Bars;
    BarsOfBase(e);
    NoBars(OrEmpty(e.threadId));
    NoBars(OrEmpty(e.turnId));
    NoBars(OrEmpty(e.itemId));
    NoBars(e.eventType);
  }

  /** The base of an event whose names hold no bar is that of no event with other names. */
  lemma BaseDetermines(a: CfrEvent, b: CfrEvent)
    requires PlainNames(a) && Base(a) == Base(b)
    ensures PlainNames(b)
    ensures OrEmpty(a.threadId) == OrEmpty(b.threadId) && OrEmpty(a.turnId) == OrEmpty(b.turnId)
    ensures OrEmpty(a.itemId) == OrEmpty(b.itemId) && a.eventType == b.eventType
  {
    PlainByBars(a);
    PlainByBars(b);
    var a3, b3 := OrEmpty(a.itemId) + "|" + a.eventType, OrEmpty(b.itemId) + "|" + b.eventType;
    var a2, b2 := OrEmpty(a.turnId) + "|" + a3, OrEmpty(b.turnId) + "|" + b3;
    SplitAtBar(OrEmpty(a.threadId), a2, OrEmpty(b.threadId), b2);
    SplitAtBar(OrEmpty(a.turnId), a3, OrEmpty(b.turnId), b3);
    SplitAtBar(OrEmpty(a.itemId), a.eventType, OrEmpty(b.itemId), b.eventType);
  }

  lemma BehindBars(a: string, b: string)
    ensures ("|||" + a + "|" + b)[3..] == a + "|" + b
  {
  }

  /** A base and the text behind it, when no id is known. */
  lemma DigestInputDetermines(a: CfrEvent, b: CfrEvent)
    requires PlainNames(a) && PlainNames(b) && !Identified(a) && !Identified(b)
    requires Input(a) == Input(b)
    ensures a.eventType == b.eventType && TextOf(a.text) == TextOf(b.text)
  {
    var x, y := Base(a) + "|" + TextOf(a.text), Base(b) + "|" + TextOf(b.text);
    assert Base(a) == "|||" + a.eventType && Base(b) == "|||" + b.eventType;
    BehindBars(a.eventType, TextOf(a.text));
    BehindBars(b.eventType, TextOf(b.text));
    SplitAtBar(a.eventType, TextOf(a.text), b.eventType, TextOf(b.text));
  }

  lemma BaseHasBar(e: CfrEvent)
    ensures '|' in Base(e)
  {
    assert Base(e)[|OrEmpty(e.threadId)|] == '|';
  }

  /** Two events have the same key exactly when they are the same event, or differ only in a text
      that is absent from one and "None" in the other, provided that the names of one hold no bar
      (and those of the other neither, when no id of the one is known) and the digest neither
      collides on the two nor produces a bar. */
  lemma KeyIsIdentity(a: CfrEvent, b: CfrEvent, digest: string -> string)
    requires PlainNames(a) && (Identified(a) || PlainNames(b))
    requires NoBar(digest(Input(a))) && NoBar(digest(Input(b))) && NoCollision(a, b, digest)
    ensures Key(a, digest) == Key(b, digest) <==> SameEvent(a, b) || NoneTwins(a, b)
  {
    BaseHasBar(a);
    BaseHasBar(b);
    if Key(a, digest) == Key(b, digest) {
      if Identified(a) && Identified(b) {
        BaseDetermines(a, b);
      } else if !Identified(a) && !Identified(b) {
        DigestInputDetermines(a, b);
        TextsDiffer(a, b);
      }
    }
  }

  /** Texts that are written alike are equal, or one is absent and the other says so. */
  lemma TextsDiffer(a: CfrEvent, b: CfrEvent)
    requires TextOf(a.text) == TextOf(b.text)
    ensures a.text == b.text || TextOf(a.text) == "None"
  {
  }

  // ---------------------------------------------------------------- exactly when a key is unique

  /** The parts around the first bar. */
  lemma {:induction false} AtBar(s: string) returns (x: string, y: string)
    requires !NoBar(s)
    ensures s == x + "|" + y
  {
    if s[0] == '|' {
      x, y := "", s[1..];
      assert s == "" + "|" + s[1..];
    } else {
      assert s == [s[0]] + s[1..];
      x, y := AtBar(s[1..]);
      x := [s[0]] + x;
    }
  }

  lemma Regroup(a: string, b: string, c: string)
    ensures a + "|" + (b + "|" + c) == (a + "|" + b) + "|" + c
  {
  }

  /** For every event with a known id and a bar in a name, shifting the bar to a neighbour gives
      another event with the same key. */
  lemma BarsCollide(a: CfrEvent, digest: string -> string) returns (b: CfrEvent)
    requires Identified(a) && !PlainNames(a)
    ensures Key(a, digest) == Key(b, digest) && !SameEvent(a, b)
  {
    var t, u, i, e := OrEmpty(a.threadId), OrEmpty(a.turnId), OrEmpty(a.itemId), a.eventType;
    if !NoBar(t) {
      var x, y := AtBar(t);
      b := a.(threadId := Some(x), turnId := Some(y), itemId := Some(u + "|" + i));
      Regroup(x, y, u + "|" + (i + "|" + e));
      Regroup(u, i, e);
    } else if !NoBar(u) {
      var x, y := AtBar(u);
      b := a.(turnId := Some(x), itemId := Some(y + "|" + i));
      Regroup(x, y, i + "|" + e);
      Regroup(y, i, e);
    } else if !NoBar(i) {
      var x, y := AtBar(i);
      b := a.(threadId := Some(t + "|" + u), turnId := Some(x), itemId := Some(y));
      Regroup(t, u, x + "|" + (y + "|" + e));
      Regroup(x, y, e);
    } else {
      var x, y := AtBar(e);
      b := a.(threadId := Some(t + "|" + u), turnId := Some(i), itemId := Some(x), eventType := y);
      Regroup(t, u, i + "|" + (x + "|" + y));
    }
  }

  /** The key of an event with a known id is that of no other event if and only if no id and no
      type of it holds a bar. */
  lemma UniqueExactly(a: CfrEvent, digest: string -> string)
    requires Identified(a) && forall x :: NoBar(digest(x))
    ensures (forall b :: Key(a, digest) == Key(b, digest) ==> SameEvent(a, b)) <==> PlainNames(a)
  {
    if PlainNames(a) {
      forall b | Key(a, digest) == Key(b, digest)
        ensures SameEvent(a, b)
      {
        BaseHasBar(a);
        BaseDetermines(a, b) by { assert NoBar(digest(Input(b))); }
      }
    } else {
      var b := BarsCollide(a, digest);
    }
  }

  /** Without an id: another type and text that the digest cannot tell from these. */
  lemma TextBarsCollide(a: CfrEvent, digest: string -> string) returns (b: CfrEvent)
    requires !Identified(a) && !(NoBar(a.eventType) && NoBar(TextOf(a.text)))
    ensures Key(a, digest) == Key(b, digest) && Input(a) == Input(b) && !SameEvent(a, b)
  {
    var e, text := a.eventType, TextOf(a.text);
    if !NoBar(e) {
      var x, y := AtBar(e);
      b := a.(eventType := x, text := Some(y + "|" + text));
      Regroup(x, y, text);
      assert "|||" + e + "|" + text == "|||" + x + "|" + (y + "|" + text);
    } else {
      var x, y := AtBar(text);
      b := a.(eventType := e + "|" + x, text := Some(y));
      Regroup(e, x, y);
      assert "|||" + e + "|" + text == "|||" + (e + "|" + x) + "|" + y;
    }
    assert Base(a) == "|||" + e && Base(b) == "|||" + b.eventType;
  }

  /** An event without an id and without a text has the key of the same event saying "None", and
      the other way around. */
  lemma NoneCollides(a: CfrEvent, digest: string -> string) returns (b: CfrEvent)
    requires !Identified(a) && TextOf(a.text) == "None"
    ensures Key(a, digest) == Key(b, digest) && Input(a) == Input(b) && !SameEvent(a, b)
  {
    b := a.(text := if a.text.None? then Some("None") else None);
  }

  lemma DigestInputUnique(a: CfrEvent, b: CfrEvent)
    requires !Identified(a) && !Identified(b) && NoBar(a.eventType) && NoBar(TextOf(a.text))
    requires Input(a) == Input(b)
    ensures a.eventType == b.eventType && TextOf(a.text) == TextOf(b.text)
  {
    hide Bars;
    BarsBetween(Base(a), TextOf(a.text));
    BarsBetween(Base(b), TextOf(b.text));
    PlainByBars(a);
    PlainByBars(b);
    NoBars(TextOf(a.text));
    BarsOfBase(b);
    DigestInputDetermines(a, b);
  }

  /** The key of an event without any id is that of no other event, but for those on which the
      digest collides, if and only if neither its type nor its text holds a bar, and its text is
      neither absent nor "None". */
  lemma UniqueWithoutIdExactly(a: CfrEvent, digest: string -> string)
    requires !Identified(a) && forall x :: NoBar(digest(x))
    ensures (forall b | NoCollision(a, b, digest) :: Key(a, digest) == Key(b, digest) ==> SameEvent(a, b))
      <==> NoBar(a.eventType) && NoBar(TextOf(a.text)) && TextOf(a.text) != "None"
  {
    if NoBar(a.eventType) && NoBar(TextOf(a.text)) && TextOf(a.text) != "None" {
      forall b | NoCollision(a, b, digest) && Key(a, digest) == Key(b, digest)
        ensures SameEvent(a, b)
      {
        BaseHasBar(b);
        DigestInputUnique(a, b) by { assert NoBar(digest(Input(a))); }
        TextsDiffer(a, b);
      }
    } else {
      var b: CfrEvent;
      if TextOf(a.text) == "None" {
        b := NoneCollides(a, digest);
      } else {
        b := TextBarsCollide(a, digest);
      }
      assert NoCollision(a, b, digest);
    }
  }
}
