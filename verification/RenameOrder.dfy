/** The renames of one event: one after the other, or all at once (src/git.rs, the last loop of apply_event). */
module RenameOrder {
  import opened Orders
  import opened Lineage

  datatype Rename = Rename(oldPath: Path, newPath: Path)

  /** The renames of a commit in delta order; incomplete deltas and other kinds do not move anything. */
  function RenamesOf(ds: seq<Delta>): seq<Rename> {
    if ds == [] then []
    else
      var earlier, d := RenamesOf(ds[..|ds| - 1]), ds[|ds| - 1];
      if d.kind == Renamed && d.oldPath.Some? && d.newPath.Some?
      then earlier + [Rename(d.oldPath.value, d.newPath.value)]
      else earlier
  }

  function Sequential(rs: seq<Rename>, name: Path): Path {
    if rs == [] then name
    else
      var earlier, r := Sequential(rs[..|rs| - 1], name), rs[|rs| - 1];
      if earlier == r.newPath then r.oldPath else earlier
  }

  /** All renames read the same tree: the first rename whose target is the name decides. */
  function Simultaneous(rs: seq<Rename>, name: Path): Path {
    if rs == [] then name
    else if rs[0].newPath == name then rs[0].oldPath
    else Simultaneous(rs[1..], name)
  }

  lemma {:induction false} DeltasAreSequential(ds: seq<Delta>, name: Path)
    ensures NameAfterDeltas(ds, name) == Sequential(RenamesOf(ds), name)
  {
    if ds != [] {
      DeltasAreSequential(ds[..|ds| - 1], name);
      var d := ds[|ds| - 1];
      if d.kind == Renamed && d.oldPath.Some? && d.newPath.Some? {
        var rs := RenamesOf(ds);
        assert rs[..|rs| - 1] == RenamesOf(ds[..|ds| - 1]);
      }
    }
  }

  /** No rename takes its source from the target of a later one. */
  predicate NoChain(rs: seq<Rename>) {
    forall i, j :: 0 <= i < j < |rs| ==> rs[i].oldPath != rs[j].newPath
  }

  lemma {:induction false} SequentialFromFront(rs: seq<Rename>, name: Path)
    requires rs != []
    ensures Sequential(rs, name) == Sequential(rs[1..], if rs[0].newPath == name then rs[0].oldPath else name)
  {
    var last := rs[|rs| - 1];
    if |rs| == 1 {
      assert rs[..0] == [] && rs[1..] == [];
    } else {
      SequentialFromFront(rs[..|rs| - 1], name);
      assert rs[..|rs| - 1][1..] == rs[1..][..|rs[1..]| - 1];
      assert rs[1..][|rs[1..]| - 1] == last;
    }
  }

  lemma {:induction false} UntouchedStays(rs: seq<Rename>, name: Path)
    requires forall r :: r in rs ==> r.newPath != name
    ensures Sequential(rs, name) == name
  {
    if rs != [] {
      SequentialFromFront(rs, name);
      UntouchedStays(rs[1..], name);
    }
  }

  /** Without chains the order of application does not show, for any name whatever. */
  lemma {:induction false} SequentialIsSimultaneous(rs: seq<Rename>, name: Path)
    requires NoChain(rs)
    ensures Sequential(rs, name) == Simultaneous(rs, name)
  {
    if rs != [] {
      SequentialFromFront(rs, name);
      if rs[0].newPath == name {
        forall r | r in rs[1..]
          ensures r.newPath != rs[0].oldPath
        {
          var j :| 0 <= j < |rs[1..]| && rs[1..][j] == r;
          assert rs[j + 1] == r;
        }
        UntouchedStays(rs[1..], rs[0].oldPath);
      } else {
        SequentialIsSimultaneous(rs[1..], name);
      }
    }
  }

  /** Sources and targets are each distinct and no file is renamed to itself. */
  predicate WellFormed(rs: seq<Rename>) {
    && (forall i, j :: 0 <= i < j < |rs| ==> rs[i].oldPath != rs[j].oldPath && rs[i].newPath != rs[j].newPath)
    && (forall i :: 0 <= i < |rs| ==> rs[i].oldPath != rs[i].newPath)
  }

  lemma {:induction false} NeverBecomes(rs: seq<Rename>, name: Path, target: Path)
    requires name != target && forall r :: r in rs ==> r.oldPath != target
    ensures Sequential(rs, name) != target
  {
    if rs != [] {
      SequentialFromFront(rs, name);
      NeverBecomes(rs[1..], if rs[0].newPath == name then rs[0].oldPath else name, target);
    }
  }

  /** A chain moves the target of its first rename away from the source a simultaneous reading gives it. */
  lemma {:induction false} ChainMisleads(rs: seq<Rename>, i: nat, j: nat)
    requires WellFormed(rs) && i < j < |rs| && rs[i].oldPath == rs[j].newPath
    ensures Simultaneous(rs, rs[i].newPath) == rs[i].oldPath != Sequential(rs, rs[i].newPath)
  {
    SequentialFromFront(rs, rs[i].newPath);
    var tail := rs[1..];
    if i > 0 {
      assert tail[i - 1] == rs[i] && tail[j - 1] == rs[j];
      ChainMisleads(tail, i - 1, j - 1);
    } else {
      assert tail[j - 1] == rs[j];
      LeavesAndNeverReturns(tail, rs[0].oldPath, j - 1);
    }
  }

  lemma {:induction false} LeavesAndNeverReturns(rs: seq<Rename>, name: Path, j: nat)
    requires j < |rs| && rs[j].newPath == name && forall k :: 0 <= k < |rs| ==> rs[k].oldPath != name
    ensures Sequential(rs, name) != name
  {
    SequentialFromFront(rs, name);
    var tail := rs[1..];
    assert forall r :: r in rs ==> r.oldPath != name;
    if rs[0].newPath == name {
      assert rs[0] in rs;
      NeverBecomes(tail, rs[0].oldPath, name);
    } else {
      assert tail[j - 1] == rs[j];
      LeavesAndNeverReturns(tail, name, j - 1);
    }
  }

  /** For well-formed renames, applying them in order is right for every name exactly when there is no chain. */
  lemma OrderIsInvisibleIffNoChain(rs: seq<Rename>)
    requires WellFormed(rs)
    ensures (forall name :: Sequential(rs, name) == Simultaneous(rs, name)) <==> NoChain(rs)
  {
    if NoChain(rs) {
      forall name
        ensures Sequential(rs, name) == Simultaneous(rs, name)
      {
        SequentialIsSimultaneous(rs, name);
      }
    } else {
      var i, j :| 0 <= i < j < |rs| && rs[i].oldPath == rs[j].newPath;
      ChainMisleads(rs, i, j);
    }
  }

  /** The smallest chain, a swap read in order: both lineages would end under the same name. */
  lemma SwapMergesLineages(a: Path, b: Path)
    requires a != b
    ensures var rs := [Rename(b, a), Rename(a, b)];
            Sequential(rs, a) == a && Sequential(rs, b) == a && Simultaneous(rs, a) == b && Simultaneous(rs, b) == a
  {
    var rs := [Rename(b, a), Rename(a, b)];
    var tail := [Rename(a, b)];
    assert rs[1..] == tail && tail[1..] == [];
    SequentialFromFront(rs, a);
    SequentialFromFront(rs, b);
    SequentialFromFront(tail, b);
  }

  /** The alias map after an event without chains regroups every owned path at once. */
  lemma AliasesRemappedAtOnce(aliases: Aliases, names: map<Path, Path>, ds: seq<Delta>)
    requires Owns(aliases, Moved(ds, names)) && NoChain(RenamesOf(ds))
    ensures Owns(aliases, map p | p in names :: Simultaneous(RenamesOf(ds), names[p]))
  {
    forall p | p in names
      ensures NameAfterDeltas(ds, names[p]) == Simultaneous(RenamesOf(ds), names[p])
    {
      DeltasAreSequential(ds, names[p]);
      SequentialIsSimultaneous(RenamesOf(ds), names[p]);
    }
    assert Moved(ds, names) == map p | p in names :: Simultaneous(RenamesOf(ds), names[p]);
  }
}
