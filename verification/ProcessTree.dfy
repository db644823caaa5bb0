/** Which processes of a snapshot belong to the Codex Desktop, and are stopped on a restart. */
module ProcessTree {
  import opened Common

  datatype Image = ChatGpt | Shim | Other

  /** A row of the process table; `packaged` says that its path lies under the package root. */
  datatype Proc = Proc(pid: int, parent: int, image: Image, packaged: bool)

  type Snapshot = seq<Proc>

  function FirstWith(all: Snapshot, pid: int): (p: Option<Proc>)
    ensures p.Some? ==> p.value in all && p.value.pid == pid
    ensures p.None? ==> forall q | q in all :: q.pid != pid
    ensures forall i | 0 <= i < |all| && all[i].pid == pid && (forall j | 0 <= j < i :: all[j].pid != pid) :: p == Some(all[i])
  {
    if all == [] then None
    else if all[0].pid == pid then Some(all[0])
    else FirstWith(all[1..], pid)
  }

  // ---------------------------------------------------------------- specification

  predicate IsSeed(p: Proc) {
    p.image.ChatGpt? && p.packaged
  }

  ghost predicate SeedId(all: Snapshot, id: int) {
    exists p :: p in all && IsSeed(p) && p.pid == id
  }

  /** `y` is the id of a child of `x`, or of the parent of `x` when that is a ChatGPT process. */
  ghost predicate Edge(all: Snapshot, x: int, y: int) {
    || (exists p :: p in all && p.parent == x && p.pid == y)
    || (exists p :: p in all && p.pid == x && HasDesktopParent(all, p) && p.parent == y)
  }

  predicate HasDesktopParent(all: Snapshot, p: Proc) {
    p.parent != 0 && FirstWith(all, p.parent).Some? && FirstWith(all, p.parent).value.image.ChatGpt?
  }

  ghost predicate IsPath(all: Snapshot, path: seq<int>) {
    && path != []
    && SeedId(all, path[0])
    && forall i | 0 <= i < |path| - 1 :: Edge(all, path[i], path[i + 1])
  }

  ghost predicate Reachable(all: Snapshot, id: int) {
    exists path :: IsPath(all, path) && path[|path| - 1] == id
  }

  ghost predicate ClosedAt(all: Snapshot, p: Proc, ids: set<int>) {
    && (p.parent in ids ==> p.pid in ids)
    && (p.pid in ids && HasDesktopParent(all, p) ==> p.parent in ids)
  }

  /** Holds the seeds, the children of its members, and their ChatGPT parents. */
  ghost predicate Closed(all: Snapshot, ids: set<int>) {
    && (forall p | p in all && IsSeed(p) :: p.pid in ids)
    && (forall p | p in all :: ClosedAt(all, p, ids))
  }

  // ---------------------------------------------------------------- reachability

  lemma SeedReachable(all: Snapshot, p: Proc)
    requires p in all && IsSeed(p)
    ensures Reachable(all, p.pid)
  {
    assert IsPath(all, [p.pid]);
  }

  lemma EdgeReachable(all: Snapshot, x: int, y: int)
    requires Reachable(all, x) && Edge(all, x, y)
    ensures Reachable(all, y)
  {
    var path :| IsPath(all, path) && path[|path| - 1] == x;
    var longer := path + [y];
    assert forall i | 0 <= i < |longer| - 1 :: Edge(all, longer[i], longer[i + 1]);
    assert IsPath(all, longer);
  }

  lemma {:induction false} PathInClosed(all: Snapshot, ids: set<int>, path: seq<int>)
    requires Closed(all, ids) && IsPath(all, path)
    ensures path[|path| - 1] in ids
  {
    if |path| > 1 {
      var init := path[..|path| - 1];
      assert IsPath(all, init) by {
        forall i | 0 <= i < |init| - 1
          ensures Edge(all, init[i], init[i + 1])
        {
          assert Edge(all, path[i], path[i + 1]);
        }
      }
      PathInClosed(all, ids, init);
      assert Edge(all, path[|path| - 2], path[|path| - 1]);
    }
  }

  /** Reachable ids lie in every closed set: the reachable set is the least one. */
  lemma ReachableIsLeast(all: Snapshot, ids: set<int>, id: int)
    requires Closed(all, ids) && Reachable(all, id)
    ensures id in ids
  {
    var path :| IsPath(all, path) && path[|path| - 1] == id;
    PathInClosed(all, ids, path);
  }

  /** Entries that share an id agree on the image, as they do when ids are unique. */
  ghost predicate Consistent(all: Snapshot) {
    forall p, q | p in all && q in all && p.pid == q.pid :: p.image == q.image
  }

  lemma EdgeAnyOrder(a: Snapshot, b: Snapshot, x: int, y: int)
    requires Consistent(a) && (forall p :: p in a <==> p in b) && Edge(a, x, y)
    ensures Edge(b, x, y)
  {
    if p :| p in a && p.parent == x && p.pid == y {
      assert p in b;
    } else {
      var p :| p in a && p.pid == x && HasDesktopParent(a, p) && p.parent == y;
      var parent := FirstWith(a, y).value;
      assert parent in b && p in b;
      assert FirstWith(b, y).Some?;
      assert FirstWith(b, y).value in a;
      assert HasDesktopParent(b, p);
    }
  }

  /** The tree does not depend on the order in which the processes are listed. */
  lemma {:induction false} ReachableAnyOrder(a: Snapshot, b: Snapshot, id: int)
    requires Consistent(a) && (forall p :: p in a <==> p in b)
    ensures Reachable(a, id) <==> Reachable(b, id)
  {
    if Reachable(a, id) {
      PathAnyOrder(a, b, id);
    }
    if Reachable(b, id) {
      PathAnyOrder(b, a, id);
    }
  }

  lemma PathAnyOrder(a: Snapshot, b: Snapshot, id: int)
    requires Consistent(a) && (forall p :: p in a <==> p in b) && Reachable(a, id)
    ensures Reachable(b, id)
  {
    var path :| IsPath(a, path) && path[|path| - 1] == id;
    forall i | 0 <= i < |path| - 1
      ensures Edge(b, path[i], path[i + 1])
    {
      EdgeAnyOrder(a, b, path[i], path[i + 1]);
    }
    assert SeedId(b, path[0]);
    assert IsPath(b, path);
  }

  // ---------------------------------------------------------------- the marking loop

  function Pids(all: Snapshot): set<int> {
    set p | p in all :: p.pid
  }

  /** Marked so far: ids of the snapshot, all of them reachable. */
  ghost predicate Marked(all: Snapshot, ids: set<int>) {
    ids <= Pids(all) && forall id | id in ids :: Reachable(all, id)
  }

  lemma MarkSeed(all: Snapshot, ids: set<int>, p: Proc)
    requires Marked(all, ids) && p in all && IsSeed(p)
    ensures Marked(all, ids + {p.pid})
  {
    SeedReachable(all, p);
  }

  lemma MarkChild(all: Snapshot, ids: set<int>, p: Proc)
    requires Marked(all, ids) && p in all && p.parent in ids
    ensures Marked(all, ids + {p.pid})
  {
    EdgeReachable(all, p.parent, p.pid);
  }

  lemma MarkParent(all: Snapshot, ids: set<int>, p: Proc)
    requires Marked(all, ids) && p in all && p.pid in ids && HasDesktopParent(all, p)
    ensures Marked(all, ids + {p.parent})
  {
    EdgeReachable(all, p.pid, p.parent);
    assert FirstWith(all, p.parent).value in all;
  }

  ghost predicate SeedsIn(all: Snapshot, ids: set<int>) {
    forall p | p in all && IsSeed(p) :: p.pid in ids
  }

  /** Repeated passes over the snapshot until one changes nothing: exactly the reachable ids. */
  method DesktopTree(all: Snapshot) returns (ids: set<int>)
    ensures forall id :: id in ids <==> Reachable(all, id)
    ensures Closed(all, ids)
  {
    hide Reachable, Marked, Pids;
    ids := {};
    NothingMarked(all);
    for i := 0 to |all|
      invariant Marked(all, ids)
      invariant forall j | 0 <= j < i :: IsSeed(all[j]) ==> all[j].pid in ids
    {
      if all[i].image.ChatGpt? && all[i].packaged {
        MarkSeed(all, ids, all[i]);
        ids := ids + {all[i].pid};
      }
    }
    var changed := true;
    while changed
      invariant Marked(all, ids) && SeedsIn(all, ids)
      invariant !changed ==> Closed(all, ids)
      decreases Pids(all) - ids, changed
    {
      ghost var before := ids;
      changed := false;
      for i := 0 to |all|
        invariant Marked(all, ids) && before <= ids
        invariant changed <==> ids != before
        invariant !changed ==> forall j | 0 <= j < i :: ClosedAt(all, all[j], ids)
      {
        var p := all[i];
        if p.pid in ids && p.parent != 0 && p.parent !in ids {
          var parent := FirstWith(all, p.parent);
          if parent.Some? && parent.value.image.ChatGpt? {
            MarkParent(all, ids, p);
            ids, changed := ids + {parent.value.pid}, true;
          }
        }
        if p.parent in ids && p.pid !in ids {
          MarkChild(all, ids, p);
          ids, changed := ids + {p.pid}, true;
        }
      }
      FewerLeft(all, before, ids);
    }
    MarkedIsReachable(all, ids);
  }

  lemma NothingMarked(all: Snapshot)
    ensures Marked(all, {})
  {
  }

  lemma FewerLeft(all: Snapshot, before: set<int>, ids: set<int>)
    requires Marked(all, ids) && before <= ids
    ensures before != ids ==> Pids(all) - ids < Pids(all) - before
  {
    if before != ids {
      var added :| added in ids && added !in before;
      assert added in Pids(all) - before;
    }
  }

  lemma MarkedIsReachable(all: Snapshot, ids: set<int>)
    requires Marked(all, ids) && Closed(all, ids)
    ensures forall id :: id in ids <==> Reachable(all, id)
  {
    forall id | Reachable(all, id)
      ensures id in ids
    {
      ReachableIsLeast(all, ids, id);
    }
  }

  // ---------------------------------------------------------------- what the tree is used for

  datatype Mode = CodexHost | Stock | StoppedMode

  ghost predicate Member(all: Snapshot, ids: set<int>, image: Image, id: int) {
    id in ids && exists p :: p in all && p.pid == id && p.image == image
  }

  /** The ids of the members with a given image, in the order of the snapshot. */
  function Matching(all: Snapshot, ids: set<int>, image: Image): seq<int> {
    if all == [] then []
    else
      var last := all[|all| - 1];
      Matching(all[..|all| - 1], ids, image) + if last.pid in ids && last.image == image then [last.pid] else []
  }

  method Select(all: Snapshot, ids: set<int>, image: Image) returns (pids: seq<int>)
    ensures pids == Matching(all, ids, image)
    ensures forall id :: id in pids <==> Member(all, ids, image, id)
  {
    pids := [];
    for i := 0 to |all|
      invariant pids == Matching(all[..i], ids, image)
      invariant forall id :: id in pids <==> Member(all[..i], ids, image, id)
    {
      assert all[..i + 1] == all[..i] + [all[i]];
      assert all[..i + 1][..i] == all[..i];
      MemberSnoc(all[..i], all[i], ids, image);
      if all[i].pid in ids && all[i].image == image {
        pids := pids + [all[i].pid];
      }
    }
    assert all[..|all|] == all;
  }

  lemma MemberSnoc(all: Snapshot, p: Proc, ids: set<int>, image: Image)
    ensures forall id ::
      (Member(all + [p], ids, image, id) <==> Member(all, ids, image, id) || (id == p.pid && id in ids && p.image == image))
  {
    forall id
      ensures Member(all + [p], ids, image, id)
        <==> Member(all, ids, image, id) || (id == p.pid && id in ids && p.image == image)
    {
      if Member(all, ids, image, id) {
        var q :| q in all && q.pid == id && q.image == image;
        assert q in all + [p];
      }
      if id == p.pid && id in ids && p.image == image {
        assert p in all + [p];
      }
    }
  }

  lemma SelectedRuns(all: Snapshot, ids: set<int>, image: Image, pids: seq<int>)
    requires forall id :: id in ids <==> Reachable(all, id)
    requires forall id :: id in pids <==> Member(all, ids, image, id)
    ensures pids != [] <==> Running(all, image)
    ensures pids != [] ==> ids != {}
  {
    hide Reachable;
    if pids != [] {
      assert Member(all, ids, image, pids[0]);
    }
    if Running(all, image) {
      var p :| p in all && p.image == image && Reachable(all, p.pid);
      assert Member(all, ids, image, p.pid);
    }
  }

  ghost predicate Running(all: Snapshot, image: Image) {
    exists p :: p in all && p.image == image && Reachable(all, p.pid)
  }

  /** A process of the tree with the given image has the id. */
  ghost predicate InTree(all: Snapshot, image: Image, id: int) {
    Reachable(all, id) && exists p :: p in all && p.pid == id && p.image == image
  }

  /** The runtime snapshot lists the Desktop and shim processes of the tree: managed by CodexHost
      when a shim is in the tree, stock when only the Desktop is, stopped when neither is. */
  method RuntimeSnapshot(all: Snapshot) returns (mode: Mode, desktop: seq<int>, shims: seq<int>)
    ensures mode == CodexHost <==> Running(all, Shim)
    ensures mode == StoppedMode <==> !Running(all, Shim) && !Running(all, ChatGpt)
    ensures forall id :: id in desktop <==> InTree(all, ChatGpt, id)
    ensures forall id :: id in shims <==> InTree(all, Shim, id)
  {
    hide Reachable, Running, Closed;
    var ids := DesktopTree(all);
    desktop := Select(all, ids, ChatGpt);
    shims := Select(all, ids, Shim);
    SelectedRuns(all, ids, ChatGpt, desktop);
    SelectedRuns(all, ids, Shim, shims);
    mode := if |shims| > 0 then CodexHost else if |desktop| > 0 then Stock else StoppedMode;
  }

  ghost predicate DesktopRuns(all: Snapshot) {
    exists p :: p in all && IsSeed(p)
  }

  /** The tree is empty exactly when no packaged Desktop process runs. */
  lemma SeedsAreReachable(all: Snapshot, ids: set<int>)
    requires forall id :: id in ids <==> Reachable(all, id)
    ensures ids != {} <==> DesktopRuns(all)
  {
    if DesktopRuns(all) {
      var p :| p in all && IsSeed(p);
      SeedReachable(all, p);
      assert p.pid in ids;
    }
    forall id | id in ids
      ensures DesktopRuns(all)
    {
      HasSeed(all, id);
    }
  }

  lemma HasSeed(all: Snapshot, id: int)
    requires Reachable(all, id)
    ensures DesktopRuns(all)
  {
    var path :| IsPath(all, path) && path[|path| - 1] == id;
    assert SeedId(all, path[0]);
  }

  datatype Launcher = Auto | HostOnly | StockOnly

  datatype Handoff = HostMissing | Proceed(useHost: bool)

  /** The start of a handoff: choose the launcher, give up before touching anything when it is
      missing, and on a restart stop the whole tree that was found. */
  method BeginHandoff(all: Snapshot, launcher: Launcher, hostAvailable: bool, restart: bool)
    returns (handoff: Handoff, stopped: set<int>)
    ensures handoff.HostMissing? ==> stopped == {}
    ensures handoff.Proceed? ==> forall id :: id in stopped <==> restart && Reachable(all, id)
    ensures handoff.HostMissing? <==>
      !hostAvailable && (launcher.HostOnly? || (launcher.Auto? && Running(all, Shim)))
    ensures handoff.Proceed? ==>
      (handoff.useHost <==>
         launcher.HostOnly? || (launcher.Auto? && if DesktopRuns(all) then Running(all, Shim) else hostAvailable))
  {
    hide Reachable, Member, Running, Closed, DesktopRuns;
    var ids := DesktopTree(all);
    SeedsAreReachable(all, ids);
    var oldShim := Select(all, ids, Shim);
    SelectedRuns(all, ids, Shim, oldShim);
    var running, managed := ids != {}, |oldShim| > 0;
    var useHost :=
      match launcher
      case HostOnly => true
      case StockOnly => false
      case Auto => if running then managed else hostAvailable;
    if useHost && !hostAvailable {
      return HostMissing, {};
    }
    stopped := if restart then ids else {};
    handoff := Proceed(useHost);
  }
}
