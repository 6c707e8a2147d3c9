/** Churn over renames: who owns which historical name, and what each path accumulates (src/git.rs). */
module Lineage {
  import opened Orders

  datatype DeltaKind = Added | Deleted | Renamed | Other

  datatype Delta = Delta(kind: DeltaKind, oldPath: Option<Path>, newPath: Option<Path>)

  datatype CommitEvent = CommitEvent(oid: string, author: Option<string>, seconds: int, deltas: seq<Delta>,
                                     renamesResolved: bool)

  datatype Acc = Acc(commits: nat, authors: set<string>, first: Option<int>, last: Option<int>)

  const FRESH := Acc(0, {}, None, None)

  type Aliases = map<Path, set<Path>>

  // ---------- The lineage of one path ----------

  /** Walking backwards through one delta: a rename target becomes its source. */
  function StepName(d: Delta, name: Path): Path {
    if d.kind == Renamed && d.oldPath.Some? && d.newPath == Some(name) then d.oldPath.value else name
  }

  function NameAfterDeltas(ds: seq<Delta>, name: Path): Path {
    if ds == [] then name else StepName(ds[|ds| - 1], NameAfterDeltas(ds[..|ds| - 1], name))
  }

  /** The historical name of a path after the events walked so far, newest first. */
  function NameAfter(events: seq<CommitEvent>, path: Path): Path {
    if events == [] then path else NameAfterDeltas(events[|events| - 1].deltas, NameAfter(events[..|events| - 1], path))
  }

  predicate TouchesName(ds: seq<Delta>, name: Path) {
    exists i :: 0 <= i < |ds| && (ds[i].newPath == Some(name) || ds[i].oldPath == Some(name))
  }

  /** The events that touch the path under the name it has at that point. */
  function Touching(events: seq<CommitEvent>, path: Path): seq<CommitEvent> {
    if events == [] then []
    else
      var front, last := events[..|events| - 1], events[|events| - 1];
      if TouchesName(last.deltas, NameAfter(front, path)) then Touching(front, path) + [last] else Touching(front, path)
  }

  // ---------- What a path accumulates ----------

  function Touch(acc: Acc, e: CommitEvent): Acc {
    Acc(acc.commits + 1,
        if e.author.Some? then acc.authors + {e.author.value} else acc.authors,
        Some(if acc.first.Some? && acc.first.value < e.seconds then acc.first.value else e.seconds),
        Some(if acc.last.Some? && acc.last.value > e.seconds then acc.last.value else e.seconds))
  }

  function Accumulated(events: seq<CommitEvent>): Acc {
    if events == [] then FRESH else Touch(Accumulated(events[..|events| - 1]), events[|events| - 1])
  }

  /** The accumulator is the number of events, their authors, and their earliest and latest time. */
  lemma {:induction false} AccumulatedMeans(events: seq<CommitEvent>)
    ensures Accumulated(events).commits == |events|
    ensures Accumulated(events).authors == set e | e in events && e.author.Some? :: e.author.value
    ensures events != [] ==>
              && Accumulated(events).first.Some? && Accumulated(events).last.Some?
              && (exists e :: e in events && e.seconds == Accumulated(events).first.value)
              && (exists e :: e in events && e.seconds == Accumulated(events).last.value)
              && (forall e :: e in events ==>
                    Accumulated(events).first.value <= e.seconds <= Accumulated(events).last.value)
  {
    if events != [] {
      var front, last := events[..|events| - 1], events[|events| - 1];
      AccumulatedMeans(front);
      assert events == front + [last];
      assert forall e :: e in events <==> e in front || e == last;
    }
  }

  /** The result map: exactly the wanted paths that some event touched, each with its accumulator. */
  ghost predicate Accounts(acc: map<Path, Acc>, wanted: set<Path>, events: seq<CommitEvent>) {
    && (forall p :: p in acc <==> p in wanted && Touching(events, p) != [])
    && (forall p :: p in acc ==> acc[p] == Accumulated(Touching(events, p)))
  }

  // ---------- Ownership ----------

  function NamesAfter(wanted: set<Path>, events: seq<CommitEvent>): map<Path, Path> {
    map p | p in wanted :: NameAfter(events, p)
  }

  /** The alias map groups the wanted paths by current name. */
  ghost predicate Owns(aliases: Aliases, names: map<Path, Path>) {
    && (forall p :: p in names ==> names[p] in aliases && p in aliases[names[p]])
    && (forall h, p :: h in aliases && p in aliases[h] ==> p in names && names[p] == h)
    && (forall h :: h in aliases ==> aliases[h] != {})
  }

  lemma OwnerIff(aliases: Aliases, names: map<Path, Path>, h: Path, p: Path)
    requires Owns(aliases, names)
    ensures h in aliases && p in aliases[h] <==> p in names && names[p] == h
  {
  }

  lemma SomeOwner(aliases: Aliases, names: map<Path, Path>, h: Path) returns (p: Path)
    requires Owns(aliases, names) && h in aliases
    ensures p in aliases[h] && p in names && names[p] == h
  {
    p :| p in aliases[h];
  }

  /** Everything owned under some name. */
  function Owned(aliases: Aliases): set<Path> {
    set h, p | h in aliases && p in aliases[h] :: p
  }

  lemma OwnedAreNamed(aliases: Aliases, names: map<Path, Path>)
    requires Owns(aliases, names)
    ensures Owned(aliases) == names.Keys
  {
    hide Owns;
    forall p
      ensures p in Owned(aliases) <==> p in names
    {
      if p in names {
        OwnerIff(aliases, names, names[p], p);
      }
      if h :| h in aliases && p in aliases[h] {
        OwnerIff(aliases, names, h, p);
      }
    }
  }

  /** Ownership conserves the wanted paths: the alias sets are pairwise disjoint and their union is all of them. */
  lemma OwnershipConserved(aliases: Aliases, wanted: set<Path>, events: seq<CommitEvent>)
    requires Owns(aliases, NamesAfter(wanted, events))
    ensures forall h, k, p :: h in aliases && k in aliases && p in aliases[h] && p in aliases[k] ==> h == k
    ensures Owned(aliases) == wanted
    ensures forall h, p :: h in aliases && p in aliases[h] ==> NameAfter(events, p) == h
  {
    hide Owns, NameAfter, Owned;
    var names := NamesAfter(wanted, events);
    OwnedAreNamed(aliases, names);
    forall h, p | h in aliases && p in aliases[h]
      ensures NameAfter(events, p) == h
    {
      OwnerIff(aliases, names, h, p);
    }
    forall h, k, p | h in aliases && k in aliases && p in aliases[h] && p in aliases[k]
      ensures h == k
    {
      assert NameAfter(events, p) == h && NameAfter(events, p) == k;
    }
  }

  /** The alias map is determined by the names. */
  lemma OwnsDetermined(a: Aliases, b: Aliases, names: map<Path, Path>)
    requires Owns(a, names) && Owns(b, names)
    ensures a == b
  {
    hide Owns;
    forall h
      ensures h in a <==> h in b
      ensures h in a && h in b ==> a[h] == b[h]
    {
      if h in a {
        var p := SomeOwner(a, names, h);
        OwnerIff(b, names, h, p);
      }
      if h in b {
        var p := SomeOwner(b, names, h);
        OwnerIff(a, names, h, p);
      }
      if h in a && h in b {
        forall p
          ensures p in a[h] <==> p in b[h]
        {
          OwnerIff(a, names, h, p);
          OwnerIff(b, names, h, p);
        }
      }
    }
  }

  // ---------- Applying one event ----------

  function OwnersOf(aliases: Aliases, path: Option<Path>): set<Path> {
    if path.Some? && path.value in aliases then aliases[path.value] else {}
  }

  method TouchedPaths(deltas: seq<Delta>, aliases: Aliases, ghost names: map<Path, Path>) returns (touched: set<Path>)
    requires Owns(aliases, names)
    ensures touched == set p | p in names && TouchesName(deltas, names[p])
  {
    touched := {};
    for k := 0 to |deltas|
      invariant touched == set p | p in names && TouchesName(deltas[..k], names[p])
    {
      var delta := deltas[k];
      ghost var before := touched;
      touched := touched + OwnersOf(aliases, delta.newPath);
      touched := touched + OwnersOf(aliases, delta.oldPath);
      TouchStep(deltas, k);
      OwnersNamed(aliases, names, delta.newPath);
      OwnersNamed(aliases, names, delta.oldPath);
    }
    assert deltas[..|deltas|] == deltas;
  }

  lemma TouchStep(deltas: seq<Delta>, k: nat)
    requires k < |deltas|
    ensures forall name :: TouchesName(deltas[..k + 1], name)
              <==> TouchesName(deltas[..k], name) || deltas[k].newPath == Some(name) || deltas[k].oldPath == Some(name)
  {
    forall name
      ensures TouchesName(deltas[..k + 1], name)
              <==> TouchesName(deltas[..k], name) || deltas[k].newPath == Some(name) || deltas[k].oldPath == Some(name)
    {
      assert deltas[..k + 1][k] == deltas[k];
      if TouchesName(deltas[..k], name) {
        var i :| 0 <= i < k && (deltas[..k][i].newPath == Some(name) || deltas[..k][i].oldPath == Some(name));
        assert deltas[..k + 1][i] == deltas[..k][i];
      }
      if TouchesName(deltas[..k + 1], name) {
        var i :| 0 <= i < k + 1 && (deltas[..k + 1][i].newPath == Some(name)
                                    || deltas[..k + 1][i].oldPath == Some(name));
        assert i < k ==> deltas[..k][i] == deltas[..k + 1][i];
      }
    }
  }

  lemma OwnersNamed(aliases: Aliases, names: map<Path, Path>, path: Option<Path>)
    requires Owns(aliases, names)
    ensures forall p :: p in OwnersOf(aliases, path) <==> p in names && path == Some(names[p])
  {
  }

  /** The touched paths come out of a hash set: any order gives the same accumulators. */
  method TouchAll(event: CommitEvent, touched: set<Path>, acc: map<Path, Acc>) returns (acc': map<Path, Acc>)
    ensures acc'.Keys == acc.Keys + touched
    ensures forall p :: p in acc' ==>
              acc'[p] == if p in touched then Touch(if p in acc then acc[p] else FRESH, event) else acc[p]
  {
    var order := Iterate(touched);
    acc' := acc;
    for k := 0 to |order|
      invariant forall p :: p in acc' <==> p in acc || p in order[..k]
      invariant forall p :: p in acc' ==>
                  acc'[p] == if p in order[..k] then Touch(if p in acc then acc[p] else FRESH, event) else acc[p]
    {
      var path := order[k];
      assert path !in order[..k];
      var entry := if path in acc' then acc'[path] else FRESH;
      entry := entry.(commits := entry.commits + 1);
      if event.author.Some? {
        entry := entry.(authors := entry.authors + {event.author.value});
      }
      var first := if entry.first.Some? && entry.first.value < event.seconds then entry.first.value else event.seconds;
      var last := if entry.last.Some? && entry.last.value > event.seconds then entry.last.value else event.seconds;
      acc' := acc'[path := entry.(first := Some(first), last := Some(last))];
      assert order[..k + 1] == order[..k] + [path];
    }
    assert order[..|order|] == order;
  }

  /** Moving the owners of the new path to the old path is one step of every lineage. */
  method MoveOwners(delta: Delta, aliases: Aliases, ghost names: map<Path, Path>) returns (aliases': Aliases)
    requires Owns(aliases, names)
    ensures Owns(aliases', map p | p in names :: StepName(delta, names[p]))
  {
    aliases' := aliases;
    if delta.kind != Renamed || delta.oldPath.None? || delta.newPath.None? {
      return;
    }
    var oldPath, newPath := delta.oldPath.value, delta.newPath.value;
    if newPath !in aliases' {
      return;
    }
    var currentPaths := aliases'[newPath];
    aliases' := aliases' - {newPath};
    var entry := if oldPath in aliases' then aliases'[oldPath] else {};
    aliases' := aliases'[oldPath := entry + currentPaths];
  }

  function Moved(deltas: seq<Delta>, names: map<Path, Path>): map<Path, Path> {
    map p | p in names :: NameAfterDeltas(deltas, names[p])
  }

  lemma MovedStep(deltas: seq<Delta>, k: nat, names: map<Path, Path>)
    requires k < |deltas|
    ensures (map p | p in Moved(deltas[..k], names) :: StepName(deltas[k], Moved(deltas[..k], names)[p]))
         == Moved(deltas[..k + 1], names)
  {
    assert deltas[..k + 1][..k] == deltas[..k];
  }

  method MoveAll(deltas: seq<Delta>, aliases: Aliases, ghost names: map<Path, Path>) returns (aliases': Aliases)
    requires Owns(aliases, names)
    ensures Owns(aliases', Moved(deltas, names))
  {
    hide Owns;
    aliases' := aliases;
    assert Moved(deltas[..0], names) == names;
    for k := 0 to |deltas|
      invariant Owns(aliases', Moved(deltas[..k], names))
    {
      MovedStep(deltas, k, names);
      aliases' := MoveOwners(deltas[k], aliases', Moved(deltas[..k], names));
    }
    assert deltas[..|deltas|] == deltas;
  }

  lemma NamesStep(wanted: set<Path>, events: seq<CommitEvent>, event: CommitEvent)
    ensures NamesAfter(wanted, events + [event]) == Moved(event.deltas, NamesAfter(wanted, events))
  {
    assert (events + [event])[..|events|] == events;
  }

  lemma AccountsStep(acc: map<Path, Acc>, acc': map<Path, Acc>, wanted: set<Path>, events: seq<CommitEvent>,
                     event: CommitEvent, touched: set<Path>)
    requires Accounts(acc, wanted, events)
    requires touched == set p | p in wanted && TouchesName(event.deltas, NameAfter(events, p))
    requires acc'.Keys == acc.Keys + touched
    requires forall p :: p in acc' ==>
               acc'[p] == if p in touched then Touch(if p in acc then acc[p] else FRESH, event) else acc[p]
    ensures Accounts(acc', wanted, events + [event])
  {
    assert (events + [event])[..|events|] == events;
    forall p | p in wanted
      ensures Touching(events + [event], p) == Touching(events, p) + if p in touched then [event] else []
    {
    }
  }

  /** One event: every path owning a touched name is counted once, then the renames move ownership. */
  method ApplyEvent(event: CommitEvent, aliases: Aliases, acc: map<Path, Acc>,
                    ghost wanted: set<Path>, ghost events: seq<CommitEvent>)
    returns (aliases': Aliases, acc': map<Path, Acc>)
    requires Owns(aliases, NamesAfter(wanted, events)) && Accounts(acc, wanted, events)
    ensures Owns(aliases', NamesAfter(wanted, events + [event]))
    ensures Accounts(acc', wanted, events + [event])
  {
    hide Owns, Accounts, TouchesName;
    ghost var names := NamesAfter(wanted, events);
    var touched := TouchedPaths(event.deltas, aliases, names);
    assert touched == set p | p in wanted && TouchesName(event.deltas, NameAfter(events, p));
    acc' := TouchAll(event, touched, acc);
    AccountsStep(acc, acc', wanted, events, event, touched);
    aliases' := MoveAll(event.deltas, aliases, names);
    NamesStep(wanted, events, event);
  }

  lemma StartsOwned(wanted: set<Path>)
    ensures Owns(map p | p in wanted :: {p}, NamesAfter(wanted, []))
    ensures Accounts(map[], wanted, [])
  {
  }

  // ---------- Rename probing ----------

  predicate NameAppears(deltas: seq<Delta>, names: set<Path>) {
    && (exists i :: 0 <= i < |deltas| && deltas[i].kind == Deleted)
    && exists i ::
         0 <= i < |deltas| && deltas[i].kind == Added && deltas[i].newPath.Some? && deltas[i].newPath.value in names
  }

  predicate NeedsRenameResolution(deltas: seq<Delta>, aliases: Aliases) {
    NameAppears(deltas, aliases.Keys)
  }

  /** The names the wanted paths have after the events. */
  function CurrentNames(wanted: set<Path>, events: seq<CommitEvent>): set<Path> {
    set p | p in wanted :: NameAfter(events, p)
  }

  lemma AliasesAreCurrent(aliases: Aliases, wanted: set<Path>, events: seq<CommitEvent>)
    requires Owns(aliases, NamesAfter(wanted, events))
    ensures aliases.Keys == CurrentNames(wanted, events)
  {
    var names := NamesAfter(wanted, events);
    forall h | h in aliases
      ensures h in CurrentNames(wanted, events)
    {
      var p := SomeOwner(aliases, names, h);
    }
    forall p | p in wanted
      ensures NameAfter(events, p) in aliases
    {
      assert names[p] in aliases;
    }
  }

  /** Similarity detection is needed exactly when something disappears and the current name of a wanted path appears. */
  lemma ResolutionNeededIffWantedAppears(deltas: seq<Delta>, aliases: Aliases, wanted: set<Path>,
                                         events: seq<CommitEvent>)
    requires Owns(aliases, NamesAfter(wanted, events))
    ensures NeedsRenameResolution(deltas, aliases)
            <==> && (exists d :: d in deltas && d.kind == Deleted)
                 && exists d, p ::
                      d in deltas && d.kind == Added && p in wanted && d.newPath == Some(NameAfter(events, p))
  {
    hide Owns, NameAfter;
    var names := NamesAfter(wanted, events);
    if NeedsRenameResolution(deltas, aliases) {
      var i :| 0 <= i < |deltas| && deltas[i].kind == Added && deltas[i].newPath.Some?
               && deltas[i].newPath.value in aliases;
      var p := SomeOwner(aliases, names, deltas[i].newPath.value);
      assert deltas[i] in deltas && deltas[i].newPath == Some(NameAfter(events, p));
    }
    if d, p :| d in deltas && d.kind == Added && p in wanted && d.newPath == Some(NameAfter(events, p)) {
      OwnerIff(aliases, names, names[p], p);
      var i :| 0 <= i < |deltas| && deltas[i] == d;
    }
  }
}
