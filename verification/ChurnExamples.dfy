/** Small repositories on which a churn walk counts less than there is, or sources divide (src/git.rs). */
module ChurnExamples {
  import opened Orders
  import opened Lineage
  import opened CommitChanges
  import opened EventLimits
  import opened WalkEvents
  import opened WalkLimits
  import opened ChurnReference

  function Creation(path: Path): RepoCommit {
    RepoCommit(None, 0, false, true, Changes({path}, {}, {}, {}), map[],
               Some([Delta(Added, None, Some(path))]), Some([Delta(Added, None, Some(path))]))
  }

  function Renaming(older: Path, newer: Path, similar: Option<seq<Delta>>): RepoCommit {
    RepoCommit(None, 0, false, true, Changes({newer}, {older}, {}, {}), map[newer := older],
               Some([Delta(Deleted, Some(older), None), Delta(Added, None, Some(newer))]), similar)
  }

  lemma PairOfCommits(repo: Repo, wanted: set<Path>, events: seq<CommitEvent>)
    requires |events| == 2
    requires FaithfulAt(repo, wanted, "b", events, 0) && FaithfulAt(repo, wanted, "a", events, 1)
    ensures Faithful(repo, wanted, ["b", "a"], events)
  {
  }

  lemma TouchesTwo(events: seq<CommitEvent>, path: Path)
    requires |events| == 2
    ensures |Touching(events, path)| == (if TouchesName(events[0].deltas, path) then 1 else 0)
                                      + if TouchesName(events[1].deltas, NameAfterDeltas(events[0].deltas, path))
                                        then 1 else 0
  {
    var one := events[..1];
    assert one[..0] == [] && one[0] == events[0];
    assert Touching(one[..0], path) == [] && NameAfter(one[..0], path) == path;
    assert |Touching(one, path)| == if TouchesName(events[0].deltas, path) then 1 else 0;
  }

  const AMPLE := Limits(0, 0, 0, 0, 0, 0, false)

  /**
   * A file created and later renamed, where detection fails at the rename: every faithful walk counts one commit of
   * the two, and within limits large enough a walk without cache or stream ends complete and unmarked.
   */
  lemma FailedDetectionUnderCounts(older: Path, newer: Path) returns (repo: Repo, limits: Limits)
    requires older != newer
    ensures CoherentRepo(repo) && Known(repo, ["b", "a"])
    ensures TouchedBy(repo["b"], newer) && TrulyBehind(repo, ["b"], newer) == older && TouchedBy(repo["a"], older)
    ensures forall events :: Faithful(repo, {newer}, ["b", "a"], events) ==> |Touching(events, newer)| == 1
    ensures CanFinish(Sources(repo, limits, false, {newer}, map[], map[]), _ => false, ["b", "a"])
  {
    repo := map["a" := Creation(older), "b" := Renaming(older, newer, None)];
    CreationIsCoherent(older);
    RenameIsCoherent(older, newer, None);
    var oids := ["b", "a"];
    OneCommitOfTwo(repo, older, newer);
    forall events | Faithful(repo, {newer}, oids, events)
      ensures |Touching(events, newer)| == 1
    {
      FaithfulFollows(repo, {newer}, oids, events, newer);
    }
    assert TrulyBehind(repo, ["b"][..0], newer) == newer;
    var src := Sources(repo, AMPLE, false, {newer}, map[], map[]);
    var events;
    limits, events := AmpleLimits(src, oids);
  }

  lemma OneCommitOfTwo(repo: Repo, older: Path, newer: Path)
    requires older != newer && repo == map["a" := Creation(older), "b" := Renaming(older, newer, None)]
    ensures Known(repo, ["b", "a"]) && StableAlong(repo, ["b", "a"], newer)
    ensures |CommitsOf(repo, ["b", "a"], newer)| == 1
  {
    var oids := ["b", "a"];
    var one := oids[..1];
    assert one == ["b"] && one[..0] == [];
    assert Behind(repo, one[..0], newer) == newer && CommitsOf(repo, one[..0], newer) == [];
    assert Behind(repo, one, newer) == newer && |CommitsOf(repo, one, newer)| == 1;
    assert oids[..0] == [];
    assert StableAt(repo, oids, newer, 0) && StableAt(repo, oids, newer, 1);
  }

  lemma CreationIsCoherent(path: Path)
    ensures Coherent(Creation(path)) && ShowsPlain([Delta(Added, None, Some(path))], Creation(path).changes)
  {
    var d := Delta(Added, None, Some(path));
    assert [d][0] == d && d in [d];
  }

  lemma PlainRename(older: Path, newer: Path)
    requires older != newer
    ensures ShowsPlain([Delta(Deleted, Some(older), None), Delta(Added, None, Some(newer))],
                       Changes({newer}, {older}, {}, {}))
  {
    var ds := [Delta(Deleted, Some(older), None), Delta(Added, None, Some(newer))];
    assert ds[0] in ds && ds[1] in ds;
  }

  lemma RenameIsCoherent(older: Path, newer: Path, similar: Option<seq<Delta>>)
    requires older != newer && (similar.Some? ==> similar.value == [Delta(DeltaKind.Renamed, Some(older), Some(newer))])
    ensures Coherent(Renaming(older, newer, similar))
  {
    PlainRename(older, newer);
    if similar.Some? {
      assert similar.value[0] in similar.value;
    }
  }

  /**
   * A file moves to a new path while its old path becomes a link: detection pairs the new path with the retyped one.
   */
  function Retyping(older: Path, newer: Path): RepoCommit {
    RepoCommit(None, 0, false, true, Changes({newer}, {}, {}, {older}), map[newer := older],
               Some([Delta(Deleted, Some(older), None), Delta(Added, None, Some(older)),
                     Delta(Added, None, Some(newer))]),
               Some([Delta(DeltaKind.Renamed, Some(older), Some(newer)), Delta(Added, None, Some(older))]))
  }

  lemma RetypingIsCoherent(older: Path, newer: Path)
    requires older != newer
    ensures Coherent(Retyping(older, newer)) && !Stable(Retyping(older, newer), newer)
    ensures ShowsPlain([Delta(Other, Some(older), Some(older)), Delta(Added, None, Some(newer))],
                       Retyping(older, newer).changes)
  {
    var c := Retyping(older, newer);
    var stream := [Delta(Other, Some(older), Some(older)), Delta(Added, None, Some(newer))];
    assert stream[0] in stream && stream[1] in stream;
    assert c.diff.value[0] in c.diff.value && c.diff.value[1] in c.diff.value && c.diff.value[2] in c.diff.value;
    assert c.similar.value[0] in c.similar.value && c.similar.value[1] in c.similar.value;
    assert newer in c.renames;
  }

  /**
   * Where a rename starts at a path that changed its type the sources do divide: the stream shows one changed path
   * and asks for no detection, libgit2 shows a deletion and follows the rename. Both walks are faithful.
   */
  lemma TypeChangeDividesSources(older: Path, newer: Path)
    returns (repo: Repo, streamed: seq<CommitEvent>, analyzed: seq<CommitEvent>)
    requires older != newer
    ensures CoherentRepo(repo)
    ensures Faithful(repo, {newer}, ["b", "a"], streamed) && Faithful(repo, {newer}, ["b", "a"], analyzed)
    ensures |Touching(streamed, newer)| == 1 && |Touching(analyzed, newer)| == 2
  {
    hide Coherent, Faithful, Touching, ShowsPlain, ShowsResolved, NameAfterDeltas;
    repo := map["a" := Creation(older), "b" := Retyping(older, newer)];
    CreationIsCoherent(older);
    RetypingIsCoherent(older, newer);
    var a := CommitEvent("a", None, 0, [Delta(Added, None, Some(older))], false);
    var b1 := CommitEvent("b", None, 0, [Delta(Other, Some(older), Some(older)), Delta(Added, None, Some(newer))],
                          false);
    var b2 := CommitEvent("b", None, 0, repo["b"].similar.value, true);
    streamed, analyzed := [b1, a], [b2, a];
    assert Intact(repo, "a", a) && Intact(repo, "b", b1) && Intact(repo, "b", b2);
    assert Settled(repo, "b", b1, CurrentNames({newer}, streamed[..0]))
           && Settled(repo, "a", a, CurrentNames({newer}, streamed[..1]));
    assert Settled(repo, "b", b2, CurrentNames({newer}, analyzed[..0]))
           && Settled(repo, "a", a, CurrentNames({newer}, analyzed[..1]));
    PairOfCommits(repo, {newer}, streamed);
    PairOfCommits(repo, {newer}, analyzed);
    TouchesTwo(streamed, newer);
    TouchesTwo(analyzed, newer);
    StepsOfRetyping(older, newer);
  }

  lemma StepsOfRetyping(older: Path, newer: Path)
    requires older != newer
    ensures var stream := [Delta(Other, Some(older), Some(older)), Delta(Added, None, Some(newer))];
            TouchesName(stream, newer) && NameAfterDeltas(stream, newer) == newer
    ensures var resolved := Retyping(older, newer).similar.value;
            TouchesName(resolved, newer) && NameAfterDeltas(resolved, newer) == older
    ensures TouchesName([Delta(Added, None, Some(older))], older)
            && !TouchesName([Delta(Added, None, Some(older))], newer)
  {
    var stream := [Delta(Other, Some(older), Some(older)), Delta(Added, None, Some(newer))];
    var resolved := Retyping(older, newer).similar.value;
    assert stream[1].newPath == Some(newer) && resolved[0].newPath == Some(newer);
    assert [Delta(Added, None, Some(older))][0].newPath == Some(older);
    assert stream[..1][..0] == [] && resolved[..1][..0] == [];
    var first := resolved[..1];
    assert first[0] == resolved[0] && NameAfterDeltas(first[..0], newer) == newer;
    assert NameAfterDeltas(first, newer) == StepName(resolved[0], newer) == older;
    assert NameAfterDeltas(resolved, newer) == StepName(resolved[1], older);
    assert NameAfterDeltas(stream[..1], newer) == newer;
  }
}
