/** The bounded projection of changed paths, and the approval requests it enriches. */
module FileChanges {
  import opened Common

  const LIMIT: nat := 200
  const PATCH_UPDATED := "item/fileChange/patchUpdated"
  const REQUEST_APPROVAL := "item/fileChange/requestApproval"

  datatype Key = Key(threadId: string, turnId: string, itemId: string)

  /** The parameters of a message; an id that is missing or not usable is empty. A change that is
      no object, or has no path, has an empty path. */
  datatype Params = Params(threadId: string, turnId: string, itemId: string, changes: seq<string>)

  datatype Message = Message(name: string, params: Params, changedPaths: Option<seq<string>>)

  function KeyOf(params: Params): Option<Key> {
    if params.threadId == "" || params.turnId == "" || params.itemId == "" then None
    else Some(Key(params.threadId, params.turnId, params.itemId))
  }

  function Paths(changes: seq<string>): seq<string> {
    if changes == [] then [] else
      (if changes[0] == "" then [] else [changes[0]]) + Paths(changes[1..])
  }

  /** An entry of the ordered map, and an update of it. */
  datatype Entry = Entry(key: Key, paths: seq<string>)

  /** The update a notification stands for: a patch with a full key and at least one path. */
  function UpdateOf(message: Message): Option<Entry> {
    if message.name != PATCH_UPDATED then None
    else if KeyOf(message.params).None? || Paths(message.params.changes) == [] then None
    else Some(Entry(KeyOf(message.params).value, Paths(message.params.changes)))
  }

  /** The paths that are kept are the ones that are not empty, in their order: `kept` says where
      they stand among the changes. */
  ghost predicate KeptPaths(paths: seq<string>, changes: seq<string>, kept: seq<nat>) {
    && |paths| == |kept|
    && (forall k | 0 <= k < |kept| :: kept[k] < |changes| && paths[k] == changes[kept[k]] && paths[k] != "")
    && (forall k, l | 0 <= k < l < |kept| :: kept[k] < kept[l])
    && (forall i: nat | i < |changes| && changes[i] != "" :: i in kept)
  }

  lemma {:induction false} PathsAreKept(changes: seq<string>) returns (kept: seq<nat>)
    ensures KeptPaths(Paths(changes), changes, kept)
  {
    if changes == [] {
      kept := [];
    } else {
      var init, last := changes[..|changes| - 1], changes[|changes| - 1];
      var earlier := PathsAreKept(init);
      PathsSnoc(init, last);
      assert changes == init + [last];
      hide Paths;
      if last == "" {
        assert forall k | 0 <= k < |earlier| :: changes[earlier[k]] == init[earlier[k]];
        kept := earlier;
      } else {
        kept := earlier + [|init|];
        KeptSnoc(Paths(init), init, last, earlier);
      }
    }
  }

  lemma {:induction false} PathsSnoc(changes: seq<string>, last: string)
    ensures Paths(changes + [last]) == Paths(changes) + if last == "" then [] else [last]
  {
    if changes == [] {
      assert [last][1..] == [];
    } else {
      var all, end := changes + [last], if last == "" then [] else [last];
      assert all[0] == changes[0] && all[1..] == changes[1..] + [last];
      PathsSnoc(changes[1..], last);
      var first, mid := if changes[0] == "" then [] else [changes[0]], Paths(changes[1..]);
      assert Paths(all) == first + Paths(all[1..]) && Paths(changes) == first + mid;
      assert first + (mid + end) == first + mid + end;
    }
  }

  lemma KeptSnoc(paths: seq<string>, changes: seq<string>, last: string, kept: seq<nat>)
    requires KeptPaths(paths, changes, kept) && last != ""
    ensures KeptPaths(paths + [last], changes + [last], kept + [|changes|])
  {
    var now := kept + [|changes|];
    forall i: nat | i < |changes + [last]| && (changes + [last])[i] != ""
      ensures i in now
    {
      if i == |changes| {
        assert now[|kept|] == i;
      } else {
        assert changes[i] != "" && i in kept;
      }
    }
  }

  /** What a notification is recorded as: its three ids and the paths of its changes. It is recorded
      unless it is another notification, one of the ids is empty, or no change has a path. */
  lemma UpdateIs(message: Message) returns (kept: seq<nat>)
    ensures var update, params := UpdateOf(message), message.params;
      && (update.Some? <==>
            && message.name == PATCH_UPDATED && params.threadId != "" && params.turnId != "" && params.itemId != ""
            && exists i: nat :: i < |params.changes| && params.changes[i] != "")
      && (update.Some? ==>
            && update.value.key == Key(params.threadId, params.turnId, params.itemId)
            && KeptPaths(update.value.paths, params.changes, kept))
  {
    kept := PathsAreKept(message.params.changes);
    var paths := Paths(message.params.changes);
    hide Paths;
    if paths != [] {
      assert message.params.changes[kept[0]] != "";
    }
  }

  /** The key of an approval request is that of the patches it asks about, if it has one. */
  lemma KeyIs(params: Params)
    ensures KeyOf(params) ==
      if params.threadId != "" && params.turnId != "" && params.itemId != ""
      then Some(Key(params.threadId, params.turnId, params.itemId)) else None
  {
  }

  // ---------------------------------------------------------------- specification

  /** The update at `i` is the last one of its key. */
  ghost predicate IsLast(history: seq<Entry>, i: nat) {
    i < |history| && forall j | i < j < |history| :: history[j].key != history[i].key
  }

  /** `entries` are the last updates of the most recently updated keys, in the order of those
      updates: `at` says where they stand in the history. Only older keys are missing, and only
      when the projection is full. */
  ghost predicate Recent(entries: seq<Entry>, history: seq<Entry>, at: seq<nat>, limit: nat) {
    && |entries| == |at| <= limit
    && (forall k | 0 <= k < |at| :: IsLast(history, at[k]) && entries[k] == history[at[k]])
    && (forall k, l | 0 <= k < l < |at| :: at[k] < at[l])
    && (forall i: nat | IsLast(history, i) :: i in at || (|at| == limit && forall k | 0 <= k < |at| :: i < at[k]))
  }

  // ---------------------------------------------------------------- operations on the ordered map

  function Find(entries: seq<Entry>, key: Key): (i: nat)
    ensures i <= |entries|
    ensures i < |entries| ==> entries[i].key == key
    ensures forall j | 0 <= j < i :: entries[j].key != key
  {
    if entries == [] || entries[0].key == key then 0 else 1 + Find(entries[1..], key)
  }

  function Lookup(entries: seq<Entry>, key: Key): Option<seq<string>> {
    var i := Find(entries, key);
    if i == |entries| then None else Some(entries[i].paths)
  }

  function Pop<T>(s: seq<T>, i: nat): seq<T> {
    if i < |s| then s[..i] + s[i + 1..] else s
  }

  lemma PopElements<T>(s: seq<T>, i: nat)
    requires i < |s|
    ensures |Pop(s, i)| == |s| - 1
    ensures forall k | 0 <= k < |s| - 1 :: Pop(s, i)[k] == s[if k < i then k else k + 1]
  {
  }

  /** The recent entries other than that of `key`; `full` when older ones may be missing. */
  ghost predicate RecentBut(entries: seq<Entry>, history: seq<Entry>, at: seq<nat>, full: bool, key: Key) {
    && |entries| == |at|
    && (forall k | 0 <= k < |at| :: IsLast(history, at[k]) && entries[k] == history[at[k]] && entries[k].key != key)
    && (forall k, l | 0 <= k < l < |at| :: at[k] < at[l])
    && (forall i: nat | IsLast(history, i) && history[i].key != key ::
          i in at || (full && forall k | 0 <= k < |at| :: i < at[k]))
  }

  lemma PopRecent(entries: seq<Entry>, history: seq<Entry>, at: seq<nat>, limit: nat, key: Key)
    requires Recent(entries, history, at, limit)
    ensures var i := Find(entries, key);
      |Pop(at, i)| == |at| - (if i < |at| then 1 else 0)
        && RecentBut(Pop(entries, i), history, Pop(at, i), |at| == limit, key)
  {
    hide Pop;
    var i := Find(entries, key);
    hide Find;
    if i < |entries| {
      PopElements(at, i);
      PopKept(entries, history, at, limit, i);
      PopComplete(entries, history, at, limit, i);
    } else {
      PopNothing(entries, i);
      PopNothing(at, i);
    }
  }

  lemma PopNothing<T>(s: seq<T>, i: nat)
    requires i >= |s|
    ensures Pop(s, i) == s
  {
  }

  lemma PopComplete(entries: seq<Entry>, history: seq<Entry>, at: seq<nat>, limit: nat, i: nat)
    requires Recent(entries, history, at, limit) && i < |entries|
    ensures forall j: nat | IsLast(history, j) && history[j].key != entries[i].key ::
      j in Pop(at, i) || (|at| == limit && forall k | 0 <= k < |Pop(at, i)| :: j < Pop(at, i)[k])
  {
    hide Pop;
    PopElements(at, i);
    forall j: nat | IsLast(history, j) && history[j].key != entries[i].key
      ensures j in Pop(at, i) || (|at| == limit && forall k | 0 <= k < |Pop(at, i)| :: j < Pop(at, i)[k])
    {
      if j in at {
        var k :| 0 <= k < |at| && at[k] == j;
        assert entries[k] == history[j];
        assert Pop(at, i)[if k < i then k else k - 1] == j;
      }
    }
  }

  /** The other entries keep their keys and their order. */
  lemma PopKept(entries: seq<Entry>, history: seq<Entry>, at: seq<nat>, limit: nat, i: nat)
    requires Recent(entries, history, at, limit) && i < |entries|
    ensures var kept, keptAt := Pop(entries, i), Pop(at, i);
      && |kept| == |keptAt| == |at| - 1
      && (forall k | 0 <= k < |keptAt| ::
            IsLast(history, keptAt[k]) && kept[k] == history[keptAt[k]] && kept[k].key != entries[i].key)
      && (forall k, l | 0 <= k < l < |keptAt| :: keptAt[k] < keptAt[l])
  {
    hide Pop;
    PopElements(entries, i);
    PopElements(at, i);
    forall k | 0 <= k < |at| && k != i
      ensures entries[k].key != entries[i].key
    {
      assert IsLast(history, at[k]) && IsLast(history, at[i]);
    }
  }

  lemma IsLastSnoc(history: seq<Entry>, update: Entry, i: nat)
    ensures IsLast(history + [update], i)
      <==> i == |history| || (IsLast(history, i) && history[i].key != update.key)
  {
    var grown := history + [update];
    assert forall j | 0 <= j < |history| :: grown[j] == history[j];
    if i < |history| && IsLast(grown, i) {
      assert grown[|history|].key != grown[i].key;
      assert forall j | i < j < |history| :: history[j].key == grown[j].key;
    }
  }

  lemma AppendRecent(entries: seq<Entry>, history: seq<Entry>, at: seq<nat>, full: bool, limit: nat, update: Entry)
    requires RecentBut(entries, history, at, full, update.key)
    requires |entries| + 1 <= limit && (full ==> |entries| + 1 == limit)
    ensures Recent(entries + [update], history + [update], at + [|history|], limit)
  {
    hide IsLast;
    var grown, n := history + [update], |history|;
    var grownAt := at + [n];
    forall k | 0 <= k < |at|
      ensures IsLast(grown, at[k]) && at[k] < n && entries[k] == grown[at[k]]
    {
      IsLastInside(history, at[k]);
      IsLastSnoc(history, update, at[k]);
    }
    IsLastSnoc(history, update, n);
    forall j: nat | IsLast(grown, j)
      ensures j in grownAt || (|grownAt| == limit && forall k | 0 <= k < |grownAt| :: j < grownAt[k])
    {
      IsLastSnoc(history, update, j);
      IsLastInside(grown, j);
      if j == n {
        assert grownAt[|at|] == n;
      } else if j in at {
        var k :| 0 <= k < |at| && at[k] == j;
        assert grownAt[k] == j;
      }
    }
  }

  lemma IsLastInside(history: seq<Entry>, i: nat)
    requires IsLast(history, i)
    ensures i < |history|
  {
  }

  /** Re-inserting a key behind the others; the projection grows by one if the key was absent. */
  lemma InsertRecent(entries: seq<Entry>, history: seq<Entry>, at: seq<nat>, limit: nat, update: Entry)
    requires Recent(entries, history, at, limit)
    ensures var i := Find(entries, update.key);
      var now, nowAt := Pop(entries, i) + [update], Pop(at, i) + [|history|];
      if |now| <= limit then Recent(now, history + [update], nowAt, limit)
      else |now| == limit + 1 && Recent(now, history + [update], nowAt, limit + 1)
  {
    hide Recent, RecentBut, IsLast, Find;
    var i := Find(entries, update.key);
    PopRecent(entries, history, at, limit, update.key);
    assert |entries| == |at| <= limit by { RecentLength(entries, history, at, limit); }
    var kept, keptAt := Pop(entries, i), Pop(at, i);
    if |kept| + 1 <= limit && !(|at| == limit && |kept| + 1 < limit) {
      AppendRecent(kept, history, keptAt, |at| == limit, limit, update);
    } else {
      AppendRecent(kept, history, keptAt, |at| == limit, limit + 1, update);
    }
  }

  lemma RecentLength(entries: seq<Entry>, history: seq<Entry>, at: seq<nat>, limit: nat)
    requires Recent(entries, history, at, limit)
    ensures |entries| == |at| <= limit
  {
  }

  /** Dropping the oldest entry of an overfull projection. */
  lemma EvictRecent(entries: seq<Entry>, history: seq<Entry>, at: seq<nat>, limit: nat)
    requires limit >= 1 && Recent(entries, history, at, limit + 1) && |entries| == limit + 1
    ensures Recent(entries[1..], history, at[1..], limit)
  {
    forall j: nat | IsLast(history, j)
      ensures j in at[1..] || forall k | 0 <= k < |at[1..]| :: j < at[1..][k]
    {
      if j in at && j != at[0] {
        var k :| 0 <= k < |at| && at[k] == j;
        assert at[1..][k - 1] == j;
      }
    }
  }

  // ---------------------------------------------------------------- the projection

  /** The update at `k` is the latest of the key. */
  ghost predicate LatestOf(history: seq<Entry>, k: nat, key: Key) {
    IsLast(history, k) && history[k].key == key
  }

  /** The key was never updated, or as many others as the projection holds were updated since. */
  ghost predicate Forgotten(history: seq<Entry>, at: seq<nat>, key: Key) {
    forall k: nat | LatestOf(history, k, key) ::
      |at| == LIMIT && forall l | 0 <= l < |at| :: k < at[l] && IsLast(history, at[l])
  }

  /** A projection as it can be seen: the most recent keys of the updates so far. */
  ghost predicate Shows(entries: seq<Entry>, history: seq<Entry>, at: seq<nat>) {
    Recent(entries, history, at, LIMIT) && forall i | 0 <= i < |history| :: history[i].paths != []
  }

  /** A lookup gives the latest paths of the key, or nothing when the key is forgotten. */
  lemma LookupIsLatest(entries: seq<Entry>, history: seq<Entry>, at: seq<nat>, key: Key)
    requires Shows(entries, history, at)
    ensures Lookup(entries, key).None? ==> Forgotten(history, at, key)
    ensures Lookup(entries, key).Some? ==> Lookup(entries, key).value != []
    ensures Lookup(entries, key).Some? ==>
      exists k: nat :: LatestOf(history, k, key) && k < |history| && history[k].paths == Lookup(entries, key).value
  {
    var i := Find(entries, key);
    if i < |entries| {
      assert LatestOf(history, at[i], key) && history[at[i]] == entries[i];
    }
  }

  class FileChangeProjection {
    var entries: seq<Entry>
    ghost var history: seq<Entry>
    ghost var at: seq<nat>

    ghost predicate Valid()
      reads this
    {
      Shows(entries, history, at)
    }

    constructor ()
      ensures Valid() && history == [] && entries == []
    {
      entries, history, at := [], [], [];
    }

    /** After any notification the projection shows the most recent keys of the longer history; a
        notification that is no patch, lacks an id or has no path changes nothing. */
    method Record(message: Message)
      requires Valid()
      modifies this
      ensures Valid()
      ensures history == old(history) + if UpdateOf(message).Some? then [UpdateOf(message).value] else []
      ensures UpdateOf(message).None? ==> entries == old(entries)
    {
      if message.name != PATCH_UPDATED {
        return;
      }
      var key := KeyOf(message.params);
      if key.None? {
        return;
      }
      var paths := Paths(message.params.changes);
      if paths == [] {
        return;
      }
      Remember(Entry(key.value, paths));
    }

    /** The locked section: the key moves to the end, and the oldest keys are pushed out. */
    method Remember(update: Entry)
      requires Valid() && update.paths != []
      modifies this
      ensures Valid() && history == old(history) + [update]
    {
      RecentLength(entries, history, at, LIMIT);
      var i := Find(entries, update.key);
      hide Recent, IsLast, Find, Pop;
      InsertRecent(entries, history, at, LIMIT, update);
      entries := Pop(entries, i) + [update];
      at := Pop(at, i) + [|history|];
      history := history + [update];
      while |entries| > LIMIT
        invariant history == old(history) + [update] && |entries| <= LIMIT + 1
        invariant Recent(entries, history, at, if |entries| <= LIMIT then LIMIT else LIMIT + 1)
      {
        RecentLength(entries, history, at, LIMIT + 1);
        EvictRecent(entries, history, at, LIMIT);
        RecentLength(entries[1..], history, at[1..], LIMIT);
        entries, at := entries[1..], at[1..];
      }
    }

    /** A lookup gives the latest paths of the key, or nothing when the key was never updated or has
        been pushed out by LIMIT others. */
    method PathsFor(key: Key) returns (paths: Option<seq<string>>)
      requires Valid()
      ensures paths == Lookup(entries, key)
      ensures paths.Some? ==> paths.value != []
      ensures paths.Some? ==> exists k: nat :: LatestOf(history, k, key) && history[k].paths == paths.value
      ensures paths.None? ==> Forgotten(history, at, key)
    {
      LookupIsLatest(entries, history, at, key);
      var i := Find(entries, key);
      return if i == |entries| then None else Some(entries[i].paths);
    }
  }

  // ---------------------------------------------------------------- enrichment

  /** The key is unknown to the view, and forgotten in its history. */
  ghost predicate Unknown(entries: seq<Entry>, history: seq<Entry>, at: seq<nat>, key: Key) {
    Lookup(entries, key).None? && Forgotten(history, at, key)
  }

  /** The waiting lookup: `views` are the projections it sees, one per attempt, the last of them
      at the deadline, and each shows the updates in its history. `view` and `update` say where the
      paths were found. */
  method FirstKnown(key: Key, views: seq<seq<Entry>>, ghost histories: seq<seq<Entry>>, ghost ats: seq<seq<nat>>)
    returns (paths: Option<seq<string>>, ghost view: nat, ghost update: nat)
    requires |histories| == |ats| == |views|
    requires forall i | 0 <= i < |views| :: Shows(views[i], histories[i], ats[i])
    ensures paths.None? ==> view == |views|
    ensures paths.Some? ==> paths.value != [] && view < |views| && paths == Lookup(views[view], key)
    ensures paths.Some? ==>
      LatestOf(histories[view], update, key) && update < |histories[view]| && histories[view][update].paths == paths.value
    ensures forall j | 0 <= j < view :: Unknown(views[j], histories[j], ats[j], key)
  {
    hide Shows, Lookup, Forgotten, LatestOf;
    view, update := 0, 0;
    for i := 0 to |views|
      invariant view == i
      invariant forall j | 0 <= j < i :: Unknown(views[j], histories[j], ats[j], key)
    {
      LookupIsLatest(views[i], histories[i], ats[i], key);
      paths := Lookup(views[i], key);
      if paths.Some? {
        update :| LatestOf(histories[i], update, key) && update < |histories[i]| && histories[i][update].paths == paths.value;
        return;
      }
      view := view + 1;
    }
    paths := None;
  }

  /** The first view that knows the key decides, and what is attached are the latest paths of the
      key in its history; the request stays as it is only if the key is forgotten in all of them. */
  method Enrich(message: Message, views: seq<seq<Entry>>, ghost histories: seq<seq<Entry>>, ghost ats: seq<seq<nat>>)
    returns (r: Message)
    requires views != [] && |histories| == |ats| == |views|
    requires forall i | 0 <= i < |views| :: Shows(views[i], histories[i], ats[i])
    ensures message.name != REQUEST_APPROVAL || KeyOf(message.params).None? ==> r == message
    ensures message.name == REQUEST_APPROVAL && KeyOf(message.params).Some? ==>
      var key := KeyOf(message.params).value;
      || ((forall i | 0 <= i < |views| :: Unknown(views[i], histories[i], ats[i], key)) && r == message)
      || exists i, k: nat :: 0 <= i < |views| && LatestOf(histories[i], k, key)
           && (forall j | 0 <= j < i :: Unknown(views[j], histories[j], ats[j], key))
           && Lookup(views[i], key) == Some(histories[i][k].paths)
           && r == message.(changedPaths := Some(histories[i][k].paths))
  {
    if message.name != REQUEST_APPROVAL {
      return message;
    }
    var key := KeyOf(message.params);
    if key.None? {
      return message;
    }
    hide Shows, Lookup, Forgotten, Unknown, IsLast;
    var paths;
    ghost var view, update;
    paths, view, update := FirstKnown(key.value, views, histories, ats);
    if paths.None? || paths.value == [] {
      return message;
    }
    return message.(changedPaths := paths);
  }
}
