/**
 Waiting for an answer in the browser: `_wait_answer` polls the page until the answer has settled,
 the page is blocked, or nothing has changed for the query timeout. Times are clock readings.
 */
module Settle {
  import opened Common

  /** One look at the page. Texts are stripped; a length that the page does not report, or reports
      as zero, is that of the text it sends. */
  datatype Observation = Observation(
    blocked: bool, rateLimited: bool,
    text: string, textLength: Option<int>, image: string, fileKey: string,
    reasoning: string, reasoningLength: Option<int>,
    generating: bool, assistantCount: int)

  /** One turn of the loop: the readings of its guard, after a change was noticed, and of the
      settle test, with the look at the page between the first two. */
  datatype Poll = Poll(guard: real, seen: Observation, noticed: real, check: real)

  datatype Error = RateLimited | NotReady

  datatype Outcome = Answered(at: nat) | Raised(at: nat, error: Error) | TimedOut(at: nat) | StillWaiting

  function Length(reported: Option<int>, text: string): int {
    if reported.Some? && reported.value != 0 then reported.value else |text|
  }

  datatype Fingerprint = Fingerprint(textLength: int, image: string, fileKey: string, reasoningLength: int)

  function Print(o: Observation): Fingerprint {
    Fingerprint(Length(o.textLength, o.text), o.image, o.fileKey, Length(o.reasoningLength, o.reasoning))
  }

  /** The page shows something that was not there before the question. */
  predicate HasAnswer(before: Observation, o: Observation) {
    || o.assistantCount > before.assistantCount
    || (Print(o).textLength != 0 && Print(o).textLength != Print(before).textLength)
    || (o.image != "" && o.image != before.image)
  }

  // ---------------------------------------------------------------- when the loop has to stop

  /** The first look counts as a change. */
  predicate Changed(polls: seq<Poll>, i: nat)
    requires i < |polls|
  {
    i == 0 || Print(polls[i].seen) != Print(polls[i - 1].seen)
  }

  function LastChange(polls: seq<Poll>, i: nat): (j: nat)
    requires i < |polls|
    ensures j <= i && Changed(polls, j)
    ensures forall k | j < k <= i :: !Changed(polls, k)
  {
    if Changed(polls, i) then i else LastChange(polls, i - 1)
  }

  lemma ChangeCarries(polls: seq<Poll>, i: nat)
    requires i < |polls|
    ensures LastChange(polls, i) == if Changed(polls, i) then i else LastChange(polls, i - 1)
  {
  }

  datatype Limits = Limits(start: real, queryTimeout: real, settle: real)

  /** When the wait is over unless something changes. */
  function Deadline(limits: Limits, polls: seq<Poll>, i: nat): real
    requires i <= |polls|
  {
    (if i == 0 then limits.start else polls[LastChange(polls, i - 1)].noticed) + limits.queryTimeout
  }

  predicate Settled(limits: Limits, before: Observation, polls: seq<Poll>, i: nat)
    requires i < |polls|
  {
    && HasAnswer(before, polls[i].seen) && !polls[i].seen.generating
    && polls[i].check - polls[LastChange(polls, i)].noticed >= limits.settle
  }

  /** How the wait ends at the poll, if it does. */
  function Stop(limits: Limits, before: Observation, polls: seq<Poll>, i: nat): Option<Outcome>
    requires i < |polls|
  {
    if polls[i].guard >= Deadline(limits, polls, i) then Some(TimedOut(i))
    else if polls[i].seen.blocked then Some(Raised(i, if polls[i].seen.rateLimited then RateLimited else NotReady))
    else if Settled(limits, before, polls, i) then Some(Answered(i))
    else None
  }

  // ---------------------------------------------------------------- the loop

  /** The wait ends at the first poll at which it has to, in the way it has to. */
  method WaitAnswer(limits: Limits, before: Observation, polls: seq<Poll>) returns (outcome: Outcome)
    ensures outcome.StillWaiting? ==> forall i | 0 <= i < |polls| :: Stop(limits, before, polls, i).None?
    ensures !outcome.StillWaiting? ==> outcome.at < |polls| && Stop(limits, before, polls, outcome.at) == Some(outcome)
    ensures !outcome.StillWaiting? ==> forall i | 0 <= i < outcome.at :: Stop(limits, before, polls, i).None?
  {
    hide LastChange;
    var idleDeadline := limits.start + limits.queryTimeout;
    var lastTextLength: Option<int> := None;
    var lastImage := "";
    var lastFile := "";
    var lastReasoningLength: Option<int> := None;
    var stableSince := limits.start;
    var i := 0;
    while i < |polls|
      invariant i <= |polls| && idleDeadline == Deadline(limits, polls, i)
      invariant i == 0 ==> lastTextLength.None? && lastReasoningLength.None?
      invariant i > 0 ==> lastTextLength.Some? && lastReasoningLength.Some? && stableSince == polls[LastChange(polls, i - 1)].noticed
      invariant i > 0 ==>
        Fingerprint(lastTextLength.value, lastImage, lastFile, lastReasoningLength.value) == Print(polls[i - 1].seen)
      invariant forall j | 0 <= j < i :: Stop(limits, before, polls, j).None?
    {
      if polls[i].guard >= idleDeadline {
        return TimedOut(i);
      }
      var state := polls[i].seen;
      if state.blocked {
        return Raised(i, if state.rateLimited then RateLimited else NotReady);
      }
      var textLength := Length(state.textLength, state.text);
      var reasoningLength := Length(state.reasoningLength, state.reasoning);
      var changed := false;
      if Some(textLength) != lastTextLength {
        lastTextLength := Some(textLength);
        changed := true;
      }
      if state.image != lastImage {
        lastImage := state.image;
        changed := true;
      }
      if state.fileKey != lastFile {
        lastFile := state.fileKey;
        changed := true;
      }
      if Some(reasoningLength) != lastReasoningLength {
        lastReasoningLength := Some(reasoningLength);
        changed := true;
      }
      if changed {
        stableSince := polls[i].noticed;
        idleDeadline := stableSince + limits.queryTimeout;
      }
      var hasAnswer := textLength != 0
        && (state.assistantCount > before.assistantCount || textLength != Length(before.textLength, before.text));
      hasAnswer := hasAnswer || (state.image != "" && state.image != before.image);
      hasAnswer := hasAnswer || state.assistantCount > before.assistantCount;
      ChangeCarries(polls, i);
      assert changed == Changed(polls, i) && hasAnswer == HasAnswer(before, state);
      assert stableSince == polls[LastChange(polls, i)].noticed && idleDeadline == Deadline(limits, polls, i + 1);
      if hasAnswer && !state.generating && polls[i].check - stableSince >= limits.settle {
        return Answered(i);
      }
      i := i + 1;
    }
    return StillWaiting;
  }

  // ---------------------------------------------------------------- what the wait means

  /** The clock does not run backwards. */
  ghost predicate Monotone(limits: Limits, polls: seq<Poll>) {
    && (polls != [] ==> limits.start <= polls[0].guard)
    && (forall i | 0 <= i < |polls| :: polls[i].guard <= polls[i].noticed <= polls[i].check)
    && (forall i | 0 < i < |polls| :: polls[i - 1].check <= polls[i].guard)
  }

  lemma {:induction false} Ordered(limits: Limits, polls: seq<Poll>, j: nat, i: nat)
    requires Monotone(limits, polls) && j < i < |polls|
    ensures polls[j].check <= polls[i].guard
  {
    if j < i - 1 {
      Ordered(limits, polls, j, i - 1);
    }
  }

  lemma {:induction false} Unchanged(polls: seq<Poll>, j: nat, i: nat)
    requires j <= i < |polls| && forall k | j < k <= i :: !Changed(polls, k)
    ensures Print(polls[j].seen) == Print(polls[i].seen)
  {
    if j < i {
      Unchanged(polls, j, i - 1);
      assert !Changed(polls, i);
    }
  }

  /** The length a look at the page goes by: what the page reports, unless that is nothing or zero,
      and else the length of the text it sends. */
  predicate GoesBy(reported: Option<int>, text: string, length: int) {
    match reported
    case Some(n) => length == if n == 0 then |text| else n
    case None => length == |text|
  }

  /** A change is one of the image, of the file, or of one of the two lengths; so a longer text is
      noticed by the length the page reports, whatever part of the text it sends. */
  lemma ChangesNoticed(polls: seq<Poll>, i: nat, was: int, now: int, thought: int, thinks: int)
    requires 0 < i < |polls|
    requires GoesBy(polls[i - 1].seen.textLength, polls[i - 1].seen.text, was)
    requires GoesBy(polls[i].seen.textLength, polls[i].seen.text, now)
    requires GoesBy(polls[i - 1].seen.reasoningLength, polls[i - 1].seen.reasoning, thought)
    requires GoesBy(polls[i].seen.reasoningLength, polls[i].seen.reasoning, thinks)
    ensures Changed(polls, i) <==>
      || was != now || thought != thinks
      || polls[i - 1].seen.image != polls[i].seen.image || polls[i - 1].seen.fileKey != polls[i].seen.fileKey
  {
  }

  /** The three ways a wait ends. A page that is blocked in time raises, and says whether it is for
      the rate limit, even if its answer has settled. */
  lemma BlockedRaises(limits: Limits, before: Observation, polls: seq<Poll>, i: nat, error: Error)
    requires i < |polls|
    ensures Stop(limits, before, polls, i) == Some(Raised(i, error)) <==>
      && polls[i].seen.blocked && error == (if polls[i].seen.rateLimited then RateLimited else NotReady)
      && Stop(limits, before, polls, i) != Some(TimedOut(i))
  {
  }

  /** An answer is taken only from a page that is not generating and shows something new, and only
      if every look at it within the last settle seconds showed the same fingerprint. */
  lemma AnswerIsSettled(limits: Limits, before: Observation, polls: seq<Poll>, i: nat)
    requires Monotone(limits, polls) && i < |polls| && Stop(limits, before, polls, i) == Some(Answered(i))
    ensures HasAnswer(before, polls[i].seen) && !polls[i].seen.generating && !polls[i].seen.blocked
    ensures forall j | 0 <= j <= i && polls[j].check > polls[i].check - limits.settle ::
      Print(polls[j].seen) == Print(polls[i].seen)
  {
    var last := LastChange(polls, i);
    forall j | 0 <= j <= i && polls[j].check > polls[i].check - limits.settle
      ensures Print(polls[j].seen) == Print(polls[i].seen)
    {
      if j < last {
        Ordered(limits, polls, j, last);
      } else {
        Unchanged(polls, j, i);
      }
    }
  }

  /** The settle time is measured from the reading after the last change, so it is not missed
      either: a page in time, not blocked, with something new and not generating is taken as soon
      as the settle seconds since the last change that was noticed have passed. */
  lemma AnswerIsTaken(limits: Limits, before: Observation, polls: seq<Poll>, i: nat)
    requires i < |polls| && polls[i].guard < Deadline(limits, polls, i) && !polls[i].seen.blocked
    requires HasAnswer(before, polls[i].seen) && !polls[i].seen.generating
    requires forall j | 0 <= j <= i && Changed(polls, j) :: polls[j].noticed + limits.settle <= polls[i].check
    ensures Stop(limits, before, polls, i) == Some(Answered(i))
  {
    assert Changed(polls, LastChange(polls, i));
  }

  /** The wait times out exactly when no change was noticed, and the wait did not begin, within the
      query timeout. */
  lemma TimesOutExactly(limits: Limits, before: Observation, polls: seq<Poll>, i: nat)
    requires Monotone(limits, polls) && i < |polls|
    ensures Stop(limits, before, polls, i) == Some(TimedOut(i)) <==>
      && (i == 0 ==> limits.start + limits.queryTimeout <= polls[i].guard)
      && forall j | 0 <= j < i && Changed(polls, j) :: polls[j].noticed + limits.queryTimeout <= polls[i].guard
  {
    if i > 0 {
      var last := LastChange(polls, i - 1);
      assert Changed(polls, last);
      forall j | 0 <= j < i && Changed(polls, j)
        ensures polls[j].noticed <= polls[last].noticed
      {
        if j < last {
          Ordered(limits, polls, j, last);
        }
      }
    }
  }

  /** A page that keeps changing at least once in every query timeout is never given up. */
  lemma StreamingIsNotGivenUp(limits: Limits, before: Observation, polls: seq<Poll>, i: nat)
    requires Monotone(limits, polls) && 0 < i < |polls|
    requires exists j | 0 <= j < i && Changed(polls, j) :: polls[i].guard < polls[j].noticed + limits.queryTimeout
    ensures Stop(limits, before, polls, i) != Some(TimedOut(i))
  {
    TimesOutExactly(limits, before, polls, i);
  }

  /** The whole texts behind the observations, of which the page sends the visible tail, are
      reported with their true lengths, and only grow. */
  ghost predicate Growing(polls: seq<Poll>, texts: seq<string>) {
    && |texts| == |polls|
    && (forall j | 0 <= j < |polls| :: Print(polls[j].seen).textLength == |texts[j]|)
    && (forall j, k | 0 <= j < k < |polls| :: texts[j] <= texts[k])
  }

  /** A text that only grows, and whose length is reported truly, is settled itself: every look
      within the last settle seconds saw the whole text that the answer has. */
  lemma GrowingTextIsSettled(limits: Limits, before: Observation, polls: seq<Poll>, texts: seq<string>, i: nat)
    requires Monotone(limits, polls) && Growing(polls, texts)
    requires i < |polls| && Stop(limits, before, polls, i) == Some(Answered(i))
    ensures forall j | 0 <= j <= i && polls[j].check > polls[i].check - limits.settle :: texts[j] == texts[i]
  {
    hide Stop;
    AnswerIsSettled(limits, before, polls, i);
    forall j | 0 <= j <= i && polls[j].check > polls[i].check - limits.settle
      ensures texts[j] == texts[i]
    {
      assert Print(polls[j].seen) == Print(polls[i].seen);
      assert texts[j] <= texts[i];
    }
  }

  /** The same polls, except that some texts were edited without changing their length. */
  ghost predicate SameLengths(polls: seq<Poll>, edited: seq<Poll>) {
    && |polls| == |edited|
    && forall j | 0 <= j < |polls| ::
      && |polls[j].seen.text| == |edited[j].seen.text|
      && edited[j] == polls[j].(seen := polls[j].seen.(text := edited[j].seen.text))
  }

  lemma {:induction false} SameLastChange(polls: seq<Poll>, edited: seq<Poll>, i: nat)
    requires SameLengths(polls, edited) && i < |polls|
    ensures LastChange(edited, i) == LastChange(polls, i)
  {
    hide LastChange;
    ChangeCarries(polls, i);
    ChangeCarries(edited, i);
    assert Print(edited[i].seen) == Print(polls[i].seen);
    if i > 0 {
      assert Print(edited[i - 1].seen) == Print(polls[i - 1].seen);
      SameLastChange(polls, edited, i - 1);
    }
  }

  /** What the page says is compared by its length: edits that keep it, at any looks of any wait,
      change nothing about when and how the wait ends. So an answer is taken although it was edited
      within the settle time, at the last look even. */
  lemma SameLengthEditIsMissed(limits: Limits, before: Observation, polls: seq<Poll>, edited: seq<Poll>, i: nat)
    requires SameLengths(polls, edited) && i < |polls|
    ensures Stop(limits, before, edited, i) == Stop(limits, before, polls, i)
  {
    hide LastChange;
    SameLastChange(polls, edited, i);
    if i > 0 {
      SameLastChange(polls, edited, i - 1);
    }
    assert Print(edited[i].seen) == Print(polls[i].seen);
  }
}
