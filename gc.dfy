/**
 * `cleanup_symlinks` and `Devenv::gc` (devenv/src/devenv.rs): the GC root
 * directory holds one symlink per environment; links whose target still
 * exists are live and their canonical targets are kept by the garbage
 * collector, links whose target is gone are dangling.
 */
module Gc {
  import opened Common

  /**
   * A directory entry. A symlink carries its canonical target when the
   * target exists, and `None` when the link dangles.
   */
  datatype Entry =
    | Symlink(path: string, target: Option<string>)
    | Other(path: string)

  datatype GcError = BackendFailed

  /** The two counts `gc` logs before collecting: the active environments and the dangling links. */
  datatype GcFound = GcFound(active: nat, dangling: nat)

  /** The canonical targets of the live links, in directory order. */
  function LiveTargets(entries: seq<Entry>): seq<string>
  {
    if entries == [] then []
    else
      var rest := LiveTargets(entries[..|entries| - 1]);
      match entries[|entries| - 1]
      case Symlink(_, Some(t)) => rest + [t]
      case _ => rest
  }

  /** The paths of the dangling links, in directory order. */
  function DanglingLinks(entries: seq<Entry>): seq<string>
  {
    if entries == [] then []
    else
      var rest := DanglingLinks(entries[..|entries| - 1]);
      match entries[|entries| - 1]
      case Symlink(p, None) => rest + [p]
      case _ => rest
  }

  /** The result of `cleanup_symlinks` on a root that exists with `Some(entries)`, or is missing. */
  function Cleanup(root: Option<seq<Entry>>): (seq<string>, seq<string>)
  {
    match root
    case None => ([], [])
    case Some(entries) => (LiveTargets(entries), DanglingLinks(entries))
  }

  /** `cleanup_symlinks`: creates a missing root, then sorts the symlinks of the root into the two lists. */
  method CleanupSymlinks(root: Option<seq<Entry>>) returns (toGc: seq<string>, removed: seq<string>, dir: seq<Entry>)
    ensures (toGc, removed) == Cleanup(root)
    ensures dir == root.GetOr([])
  {
    dir := if root.None? then [] else root.value;
    toGc := [];
    removed := [];
    for i := 0 to |dir|
      invariant toGc == LiveTargets(dir[..i])
      invariant removed == DanglingLinks(dir[..i])
    {
      assert dir[..i + 1][..i] == dir[..i];
      match dir[i]
      case Symlink(p, t) =>
        if t.None? {
          removed := removed + [p];
        } else {
          toGc := toGc + [t.value];
        }
      case Other(_) =>
    }
    assert dir[..|dir|] == dir;
  }

  /** The count `gc` prints: the `usize` difference, which underflows when the live set grew. */
  function RemovedCount(before: nat, after: nat): (r: Option<nat>)
    ensures r.Some? <==> after <= before
    ensures r.Some? ==> r.value + after == before
  {
    if after <= before then Some(before - after) else None
  }

  /**
   * `gc`: the counts logged before collection, and the outcome. The live
   * targets go to the backend, which keeps them; when it succeeds, the root
   * directory is listed again (`homeAfter`) and the number of symlinks that
   * went away is logged.
   */
  function GcSpec(home: Option<seq<Entry>>, backendOk: bool, homeAfter: seq<Entry>): (GcFound, Result<Option<nat>, GcError>)
  {
    var before := Cleanup(home);
    var found := GcFound(|before.0|, |before.1|);
    if !backendOk then (found, Failure(BackendFailed))
    else (found, Success(RemovedCount(|before.0|, |LiveTargets(homeAfter)|)))
  }

  method RunGc(home: Option<seq<Entry>>, backendOk: bool, homeAfter: seq<Entry>)
    returns (roots: seq<string>, found: GcFound, r: Result<Option<nat>, GcError>)
    ensures roots == Cleanup(home).0
    ensures (found, r) == GcSpec(home, backendOk, homeAfter)
  {
    var dangling, dir;
    roots, dangling, dir := CleanupSymlinks(home);
    found := GcFound(|roots|, |dangling|);
    if !backendOk {
      return roots, found, Failure(BackendFailed);
    }
    var after, _, _ := CleanupSymlinks(Some(homeAfter));
    r := Success(RemovedCount(|roots|, |after|));
  }

  // ---------------------------------------------------------------------
  // properties

  /** The number of symlink entries. */
  function SymlinkCount(entries: seq<Entry>): nat
  {
    if entries == [] then 0
    else SymlinkCount(entries[..|entries| - 1]) + (if entries[|entries| - 1].Symlink? then 1 else 0)
  }

  /** The lists of consecutive parts of a directory are the concatenated lists of each part. */
  lemma {:induction false} CleanupConcat(a: seq<Entry>, b: seq<Entry>)
    ensures LiveTargets(a + b) == LiveTargets(a) + LiveTargets(b)
    ensures DanglingLinks(a + b) == DanglingLinks(a) + DanglingLinks(b)
    ensures SymlinkCount(a + b) == SymlinkCount(a) + SymlinkCount(b)
    decreases |b|
  {
    if b == [] {
      assert a + b == a;
    } else {
      var init := b[..|b| - 1];
      assert (a + b)[..|a + b| - 1] == a + init;
      assert (a + b)[|a + b| - 1] == b[|b| - 1];
      CleanupConcat(a, init);
    }
  }

  /** Each entry on its own (the step the lemmas below build on): a live link yields its target, a dangling link its path, anything else nothing. */
  lemma CleanupOne(e: Entry)
    ensures LiveTargets([e]) == if e.Symlink? && e.target.Some? then [e.target.value] else []
    ensures DanglingLinks([e]) == if e.Symlink? && e.target.None? then [e.path] else []
    ensures SymlinkCount([e]) == if e.Symlink? then 1 else 0
  {
    assert [e][..0] == [];
  }

  /** Every symlink lands in exactly one of the two lists. */
  lemma {:induction false} Partition(entries: seq<Entry>)
    ensures |LiveTargets(entries)| + |DanglingLinks(entries)| == SymlinkCount(entries)
  {
    if entries != [] {
      Partition(entries[..|entries| - 1]);
    }
  }

  /** A live link contributes its canonical target, and only to the live list. */
  lemma LiveLink(a: seq<Entry>, p: string, t: string, b: seq<Entry>)
    ensures LiveTargets(a + [Symlink(p, Some(t))] + b) == LiveTargets(a) + [t] + LiveTargets(b)
    ensures DanglingLinks(a + [Symlink(p, Some(t))] + b) == DanglingLinks(a) + DanglingLinks(b)
  {
    var e := Symlink(p, Some(t));
    CleanupConcat(a, [e]);
    CleanupConcat(a + [e], b);
    CleanupOne(e);
  }

  /** A dangling link contributes its own path, and only to the dangling list. */
  lemma DanglingLink(a: seq<Entry>, p: string, b: seq<Entry>)
    ensures LiveTargets(a + [Symlink(p, None)] + b) == LiveTargets(a) + LiveTargets(b)
    ensures DanglingLinks(a + [Symlink(p, None)] + b) == DanglingLinks(a) + [p] + DanglingLinks(b)
  {
    var e := Symlink(p, None);
    CleanupConcat(a, [e]);
    CleanupConcat(a + [e], b);
    CleanupOne(e);
  }

  /** An entry that is not a symlink appears in neither list. */
  lemma OtherIgnored(a: seq<Entry>, p: string, b: seq<Entry>)
    ensures Cleanup(Some(a + [Other(p)] + b)) == Cleanup(Some(a + b))
  {
    var e := Other(p);
    CleanupConcat(a, [e]);
    CleanupConcat(a + [e], b);
    CleanupOne(e);
    CleanupConcat(a, b);
  }

  /** A directory with one live link, one dangling link and a plain file. */
  lemma OneLiveOneDangling(live: string, target: string, dead: string, file: string)
    ensures Cleanup(Some([Symlink(live, Some(target)), Symlink(dead, None), Other(file)])) == ([target], [dead])
  {
    var first := Symlink(live, Some(target));
    assert [first, Symlink(dead, None), Other(file)] == [first] + [Symlink(dead, None)] + [Other(file)];
    DanglingLink([first], dead, [Other(file)]);
    CleanupOne(first);
    CleanupOne(Other(file));
    var es := [first, Symlink(dead, None), Other(file)];
    assert LiveTargets(es) == [target];
    assert DanglingLinks(es) == [dead];
  }

  /**
   * The logged counts are the live links and the dangling links of the root;
   * when the backend succeeds and the live set did not grow, the removed
   * count is the difference.
   */
  lemma GcReportsRemoved(home: seq<Entry>, homeAfter: seq<Entry>)
    requires |LiveTargets(homeAfter)| <= |LiveTargets(home)|
    ensures GcSpec(Some(home), true, homeAfter) ==
              (GcFound(|LiveTargets(home)|, |DanglingLinks(home)|),
               Success(Some(|LiveTargets(home)| - |LiveTargets(homeAfter)|)))
  {
  }

  /** Every symlink of the root is counted once in the two logged counts. */
  lemma GcFoundCountsSymlinks(home: seq<Entry>, backendOk: bool, homeAfter: seq<Entry>)
    ensures var found := GcSpec(Some(home), backendOk, homeAfter).0;
            found.active + found.dangling == SymlinkCount(home)
  {
    Partition(home);
  }

  /** When the backend fails, `gc` fails after logging the counts. */
  lemma GcBackendFails(home: Option<seq<Entry>>, homeAfter: seq<Entry>)
    ensures GcSpec(home, false, homeAfter).1 == Failure(BackendFailed)
    ensures GcSpec(home, false, homeAfter).0 == GcSpec(home, true, homeAfter).0
  {
  }
}
