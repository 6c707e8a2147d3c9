/**
 * What a commit changed, and what diffs, streams and similarity detection may say of it
 * (src/git.rs, src/git/native_churn.rs).
 */
module CommitChanges {
  import opened Orders
  import opened Lineage
  import opened RenameOrder

  type Oid = string

  /** The paths whose two sides differ. A retyped path keeps its name but turns from a file into a link or back. */
  datatype Changes = Changes(added: set<Path>, deleted: set<Path>, modified: set<Path>, retyped: set<Path>)

  /**
   * One commit: what it changed against its first parent, the renames similarity detection finds (new path to old),
   * and what libgit2 answers when it is walked: whether a merge is still found, its diff, and the diff with renames. An
   * absent answer is a failed call.
   */
  datatype RepoCommit = RepoCommit(author: Option<string>, seconds: int, merge: bool, found: bool, changes: Changes,
                                   renames: map<Path, Path>, diff: Option<seq<Delta>>, similar: Option<seq<Delta>>)

  type Repo = map<Oid, RepoCommit>

  // ---------- What the deltas of a commit may look like ----------

  function Touched(ch: Changes): set<Path> {
    ch.added + ch.deleted + ch.modified + ch.retyped
  }

  /**
   * One delta without rename detection. The absent side may be empty or repeat the path, and a type change
   * may come as one changed path or as a deletion and an addition.
   */
  predicate PlainDelta(d: Delta, ch: Changes) {
    match d.kind
    case Added =>
      d.newPath.Some? && d.newPath.value in ch.added + ch.retyped && (d.oldPath.None? || d.oldPath == d.newPath)
    case Deleted =>
      d.oldPath.Some? && d.oldPath.value in ch.deleted + ch.retyped && (d.newPath.None? || d.newPath == d.oldPath)
    case Other => d.newPath.Some? && d.oldPath == d.newPath && d.newPath.value in ch.modified + ch.retyped
    case Renamed => false
  }

  ghost predicate Lists(ds: seq<Delta>, kind: DeltaKind, p: Path) {
    exists d :: d in ds && d.kind == kind && (if kind == Deleted then d.oldPath else d.newPath) == Some(p)
  }

  ghost predicate CoversChanges(ds: seq<Delta>, ch: Changes) {
    forall p :: p in Touched(ch) ==> TouchesName(ds, p)
  }

  /** The deltas of a diff before rename detection: each change, and nothing else. */
  ghost predicate ShowsPlain(ds: seq<Delta>, ch: Changes) {
    && (forall d :: d in ds ==> PlainDelta(d, ch))
    && CoversChanges(ds, ch)
    && (forall p :: p in ch.added ==> Lists(ds, Added, p))
    && (forall p :: p in ch.deleted ==> Lists(ds, Deleted, p))
  }

  predicate ResolvedDelta(d: Delta, ch: Changes, renames: map<Path, Path>) {
    if d.kind == Renamed
    then d.newPath.Some? && d.newPath.value in renames && d.oldPath == Some(renames[d.newPath.value])
    else PlainDelta(d, ch)
  }

  /** The deltas after rename detection: exactly the detected renames, and the changes as before. */
  ghost predicate ShowsResolved(ds: seq<Delta>, ch: Changes, renames: map<Path, Path>) {
    && (forall d :: d in ds ==> ResolvedDelta(d, ch, renames))
    && CoversChanges(ds, ch)
    && (forall p :: p in renames ==> Lists(ds, Renamed, p))
  }

  /**
   * The contract of the object database: detection pairs something that went with something that came. Both are
   * regular files, so that a retyped path, regular on one side only, is never a source and a target at once.
   */
  ghost predicate Coherent(c: RepoCommit) {
    && c.changes.added !! c.changes.deleted !! c.changes.retyped
    && c.renames.Keys <= c.changes.added + c.changes.retyped
    && c.renames.Keys !! c.renames.Values
    && (forall p :: p in c.renames ==> c.renames[p] in c.changes.deleted + c.changes.retyped)
    && (c.diff.Some? ==> ShowsPlain(c.diff.value, c.changes))
    && (c.similar.Some? ==> c.diff.Some? && ShowsResolved(c.similar.value, c.changes, c.renames))
  }

  ghost predicate CoherentRepo(repo: Repo) {
    forall oid :: oid in repo ==> Coherent(repo[oid])
  }

  /** The name behind a commit, as far as detection works. */
  function NameBehind(c: RepoCommit, name: Path): Path {
    if !c.merge && c.similar.Some? && name in c.renames then c.renames[name] else name
  }

  /** The name is that of an added path, and some path is deleted: what detection is asked for by. */
  predicate Noticed(c: RepoCommit, name: Path) {
    name in c.changes.added && c.changes.deleted != {}
  }

  /** Where the name can be followed, no type change is needed to see it: a commit that does not rename it is stable. */
  predicate Stable(c: RepoCommit, name: Path) {
    NameBehind(c, name) != name ==> Noticed(c, name)
  }

  /** The stream shows a type change as one changed path. */
  ghost predicate Streamed(ds: seq<Delta>, ch: Changes) {
    && ShowsPlain(ds, ch)
    && forall d :: d in ds ==>
         && (d.kind == Added ==> d.newPath.Some? && d.newPath.value in ch.added)
         && (d.kind == Deleted ==> d.oldPath.Some? && d.oldPath.value in ch.deleted)
  }

  // ---------- The renames of one commit ----------

  lemma RenamedIsOther(c: RepoCommit, name: Path)
    requires Coherent(c) && name in c.renames
    ensures c.renames[name] != name && c.renames[name] !in c.renames
  {
    assert c.renames[name] in c.renames.Values;
  }

  /** No path is both a source and a target: there is no chain, in whatever order the renames come. */
  lemma ResolvedMakesNoChain(c: RepoCommit, ds: seq<Delta>)
    requires Coherent(c) && ShowsResolved(ds, c.changes, c.renames)
    ensures NoChain(RenamesOf(ds))
    ensures forall r, s :: r in RenamesOf(ds) && s in RenamesOf(ds) ==> r.oldPath != s.newPath
  {
    forall r | r in RenamesOf(ds)
      ensures r.newPath in c.renames && r.oldPath == c.renames[r.newPath]
    {
      RenameFromDelta(ds, r);
    }
    forall r, s | r in RenamesOf(ds) && s in RenamesOf(ds)
      ensures r.oldPath != s.newPath
    {
      RenamedIsOther(c, r.newPath);
    }
  }

  lemma {:induction false} RenameFromDelta(ds: seq<Delta>, r: Rename)
    requires r in RenamesOf(ds)
    ensures exists d :: d in ds && d.kind == Renamed && d.oldPath == Some(r.oldPath) && d.newPath == Some(r.newPath)
  {
    var d := ds[|ds| - 1];
    assert d in ds;
    if r in RenamesOf(ds[..|ds| - 1]) {
      RenameFromDelta(ds[..|ds| - 1], r);
      var e :| e in ds[..|ds| - 1] && e.kind == Renamed && e.oldPath == Some(r.oldPath) && e.newPath == Some(r.newPath);
      assert e in ds;
    }
  }

  lemma {:induction false} DeltaMakesRename(ds: seq<Delta>, d: Delta)
    requires d in ds && d.kind == Renamed && d.oldPath.Some? && d.newPath.Some?
    ensures Rename(d.oldPath.value, d.newPath.value) in RenamesOf(ds)
  {
    var last := ds[|ds| - 1];
    if d != last {
      assert ds == ds[..|ds| - 1] + [last];
      DeltaMakesRename(ds[..|ds| - 1], d);
    }
  }

  /** Of renames that agree on their targets, all at once means: follow the one that names the target. */
  lemma {:induction false} SimultaneousFollows(rs: seq<Rename>, renames: map<Path, Path>, name: Path)
    requires forall r :: r in rs ==> r.newPath in renames && r.oldPath == renames[r.newPath]
    ensures Simultaneous(rs, name) == if exists r :: r in rs && r.newPath == name then renames[name] else name
  {
    if rs != [] {
      assert rs[0] in rs && forall r :: r in rs[1..] ==> r in rs;
      assert rs == [rs[0]] + rs[1..];
      SimultaneousFollows(rs[1..], renames, name);
    }
  }

  /** Walking back through rename-resolved deltas takes a name to the path it was detected to come from. */
  lemma ResolvedStep(c: RepoCommit, ds: seq<Delta>, name: Path)
    requires Coherent(c) && ShowsResolved(ds, c.changes, c.renames)
    ensures NameAfterDeltas(ds, name) == if name in c.renames then c.renames[name] else name
  {
    ResolvedMakesNoChain(c, ds);
    DeltasAreSequential(ds, name);
    SequentialIsSimultaneous(RenamesOf(ds), name);
    forall r | r in RenamesOf(ds)
      ensures r.newPath in c.renames && r.oldPath == c.renames[r.newPath]
    {
      RenameFromDelta(ds, r);
    }
    SimultaneousFollows(RenamesOf(ds), c.renames, name);
    if name in c.renames {
      assert Lists(ds, Renamed, name);
      var d :| d in ds && d.kind == Renamed && d.newPath == Some(name);
      DeltaMakesRename(ds, d);
    }
  }

  lemma {:induction false} PlainStep(ds: seq<Delta>, ch: Changes, name: Path)
    requires forall d :: d in ds ==> PlainDelta(d, ch)
    ensures NameAfterDeltas(ds, name) == name
  {
    if ds != [] {
      var last := ds[|ds| - 1];
      assert last in ds && PlainDelta(last, ch);
      PlainStep(ds[..|ds| - 1], ch, name);
    }
  }

  /** Detection moves names but never changes which names a commit touches. */
  lemma TouchedNames(c: RepoCommit, ds: seq<Delta>, name: Path)
    requires Coherent(c) && (ShowsPlain(ds, c.changes) || ShowsResolved(ds, c.changes, c.renames))
    ensures TouchesName(ds, name) <==> name in Touched(c.changes)
  {
    if TouchesName(ds, name) {
      var i :| 0 <= i < |ds| && (ds[i].newPath == Some(name) || ds[i].oldPath == Some(name));
      assert ds[i] in ds;
    }
  }

  // ---------- Events ----------

  /** The event carries its commit's author and time and every one of its changes; a merge carries none. */
  ghost predicate Intact(repo: Repo, oid: Oid, e: CommitEvent) {
    && oid in repo && e.oid == oid && e.author == repo[oid].author && e.seconds == repo[oid].seconds
    && if repo[oid].merge then e.deltas == []
       else if e.renamesResolved
       then repo[oid].similar.Some? && ShowsResolved(e.deltas, repo[oid].changes, repo[oid].renames)
       else ShowsPlain(e.deltas, repo[oid].changes)
  }

  /** Events are filed under their own commit, whether or not they are intact. */
  predicate Filed(events: map<Oid, CommitEvent>) {
    forall oid :: oid in events ==> events[oid].oid == oid
  }

  ghost predicate AllIntact(repo: Repo, events: map<Oid, CommitEvent>) {
    forall oid :: oid in events ==> Intact(repo, oid, events[oid])
  }

  /** Renames are resolved wherever the current name of an owned path may come from a rename, if detection works. */
  predicate Settled(repo: Repo, oid: Oid, e: CommitEvent, names: set<Path>) {
    oid in repo && !repo[oid].merge && !e.renamesResolved && NameAppears(e.deltas, names) ==> repo[oid].similar.None?
  }

  lemma {:induction false} PlainHasNoRenames(ds: seq<Delta>, ch: Changes)
    requires forall d :: d in ds ==> PlainDelta(d, ch)
    ensures RenamesOf(ds) == []
  {
    if ds != [] {
      var last := ds[|ds| - 1];
      assert last in ds && PlainDelta(last, ch);
      PlainHasNoRenames(ds[..|ds| - 1], ch);
    }
  }

  /** So the order of the renames of a delivered event never shows: a swap of two paths is not among them. */
  lemma DeliveredOrderNeverShows(repo: Repo, oid: Oid, e: CommitEvent, name: Path)
    requires Intact(repo, oid, e) && Coherent(repo[oid])
    ensures Sequential(RenamesOf(e.deltas), name) == Simultaneous(RenamesOf(e.deltas), name)
    ensures forall r, s :: r in RenamesOf(e.deltas) && s in RenamesOf(e.deltas) ==> r.oldPath != s.newPath
  {
    if !repo[oid].merge && e.renamesResolved {
      ResolvedMakesNoChain(repo[oid], e.deltas);
      SequentialIsSimultaneous(RenamesOf(e.deltas), name);
    } else if !repo[oid].merge {
      PlainHasNoRenames(e.deltas, repo[oid].changes);
    }
  }

  predicate TouchedBy(c: RepoCommit, name: Path) {
    !c.merge && name in Touched(c.changes)
  }

  /**
   * Resolving lazily does not show: whether an intact, settled event was resolved or not, an owned name
   * is touched and renamed as the commit says.
   */
  lemma LazyResolutionIsInvisible(repo: Repo, oid: Oid, e: CommitEvent, names: set<Path>, name: Path)
    requires Intact(repo, oid, e) && Settled(repo, oid, e, names) && name in names
    requires Coherent(repo[oid]) && Stable(repo[oid], name)
    ensures TouchesName(e.deltas, name) <==> TouchedBy(repo[oid], name)
    ensures NameAfterDeltas(e.deltas, name) == NameBehind(repo[oid], name)
  {
    var c := repo[oid];
    if !c.merge {
      TouchedNames(c, e.deltas, name);
      if e.renamesResolved {
        ResolvedStep(c, e.deltas, name);
      } else {
        PlainStep(e.deltas, c.changes, name);
        if c.similar.Some? && name in c.renames {
          RenamedIsOther(c, name);
          NoticedAppears(c, e.deltas, names, name);
        }
      }
    }
  }

  lemma NoticedAppears(c: RepoCommit, ds: seq<Delta>, names: set<Path>, name: Path)
    requires ShowsPlain(ds, c.changes) && Noticed(c, name) && name in names
    ensures NameAppears(ds, names)
  {
    var gone :| gone in c.changes.deleted;
    assert Lists(ds, Added, name) && Lists(ds, Deleted, gone);
    var a :| a in ds && a.kind == Added && a.newPath == Some(name);
    var d :| d in ds && d.kind == Deleted && d.oldPath == Some(gone);
    var i :| 0 <= i < |ds| && ds[i] == a;
    var j :| 0 <= j < |ds| && ds[j] == d;
  }

  /**
   * The condition is exact: a streamed event asks for detection at a name if and only if the commit lets it be
   * noticed, and as it stands leaves every name what it was. So it can be followed for this name's sake alone
   * exactly where the commit is stable for it.
   */
  lemma StreamAsksIffStable(c: RepoCommit, ds: seq<Delta>, name: Path)
    requires Coherent(c) && Streamed(ds, c.changes)
    ensures NameAppears(ds, {name}) <==> Noticed(c, name)
    ensures Stable(c, name) <==> (NameAppears(ds, {name}) || NameAfterDeltas(ds, name) == NameBehind(c, name))
  {
    if Noticed(c, name) {
      NoticedAppears(c, ds, {name}, name);
    }
    if NameAppears(ds, {name}) {
      var i :| 0 <= i < |ds| && ds[i].kind == Deleted;
      var j :| 0 <= j < |ds| && ds[j].kind == Added && ds[j].newPath.Some? && ds[j].newPath.value in {name};
      assert ds[i] in ds && ds[j] in ds;
    }
    PlainStep(ds, c.changes, name);
  }
}
