/** Swaps of directory contents by renames. Every operation may fail, in any pattern; whatever
    fails, the swap happened completely or not at all, provided that undoing succeeds. */
module Snapshots {
  import opened Options

  datatype Node = File(bytes: seq<int>) | Link(to: string) | Directory(children: map<string, Node>)

  type Entries = map<string, Node>

  /** Decides for every operation in turn whether it fails. */
  class Faults {
    const fails: nat -> bool
    var step: nat

    constructor (fails: nat -> bool)
      ensures this.fails == fails && step == 0
    {
      this.fails, step := fails, 0;
    }

    method Next() returns (failed: bool)
      modifies this
      ensures step == old(step) + 1 && failed == fails(old(step))
    {
      failed := fails(step);
      step := step + 1;
    }
  }

  /** No operation from one step to another fails. */
  ghost predicate Smooth(f: Faults, from: nat, to: nat) {
    forall k :: from <= k < to ==> !f.fails(k)
  }

  class Folder {
    var entries: Entries

    constructor (entries: Entries)
      ensures this.entries == entries
    {
      this.entries := entries;
    }

    /** The names, in no particular order. */
    method List() returns (names: seq<string>)
      ensures IsListing(names, entries)
    {
      names := [];
      var left := entries.Keys;
      while left != {}
        invariant left <= entries.Keys
        invariant forall n :: n in names <==> n in entries && n !in left
        invariant Distinct(names)
        invariant |names| + |left| == |entries|
        decreases |left|
      {
        var n :| n in left;
        names, left := names + [n], left - {n};
      }
    }

    method Remove(name: string)
      modifies this
      ensures entries == old(entries) - {name}
    {
      entries := entries - {name};
    }
  }

  predicate Distinct(names: seq<string>) {
    forall i, j :: 0 <= i < j < |names| ==> names[i] != names[j]
  }

  ghost predicate IsListing(names: seq<string>, entries: Entries) {
    (forall n :: n in names <==> n in entries) && Distinct(names) && |names| == |entries|
  }

  /** `rename` to a name that is free. */
  method Rename(source: Folder, name: string, target: Folder, as_: string)
    requires source != target && name in source.entries && as_ !in target.entries
    modifies source, target
    ensures source.entries == old(source.entries) - {name}
    ensures target.entries == old(target.entries)[as_ := old(source.entries)[name]]
  {
    target.entries := target.entries[as_ := source.entries[name]];
    source.entries := source.entries - {name};
  }

  /** The entries under some names. */
  function Only(entries: Entries, names: seq<string>): Entries {
    map n | n in entries && n in names :: entries[n]
  }

  function Without(entries: Entries, names: seq<string>): Entries {
    map n | n in entries && n !in names :: entries[n]
  }

  // ------------------------------------------------------------ the Workspace

  lemma OneMore(entries: Entries, names: seq<string>, n: string)
    requires n in entries && n !in names
    ensures Without(entries, names + [n]) == Without(entries, names) - {n}
    ensures Without(entries, [n] + names) == Without(entries, names) - {n}
    ensures n in Without(entries, names) && Without(entries, names)[n] == entries[n]
    ensures Only(entries, names + [n]) == Only(entries, names)[n := entries[n]]
    ensures Only(entries, [n] + names) == Only(entries, names)[n := entries[n]]
  {
  }

  lemma NoneYet(entries: Entries)
    ensures Without(entries, []) == entries && Only(entries, []) == map[]
  {
  }

  lemma Prefix(names: seq<string>, k: nat)
    requires Distinct(names) && k < |names|
    ensures names[..k + 1] == names[..k] + [names[k]] && names[k] !in names[..k] && names[k] in names
  {
  }

  lemma PlusOne(to: Entries, m: Entries, n: string, x: Node)
    ensures to + m[n := x] == (to + m)[n := x]
  {
  }

  lemma MoveStep(from: Entries, to: Entries, names: seq<string>, k: nat)
    requires Distinct(names) && k < |names|
    requires forall n :: n in names ==> n in from && n !in to
    ensures var n, gone, come := names[k], Without(from, names[..k]), to + Only(from, names[..k]);
      && n in gone && gone[n] == from[n] && n !in come
      && Without(from, names[..k + 1]) == gone - {n}
      && to + Only(from, names[..k + 1]) == come[n := from[n]]
  {
    Prefix(names, k);
    OneMore(from, names[..k], names[k]);
    PlusOne(to, Only(from, names[..k]), names[k], from[names[k]]);
  }

  lemma BackStep(from: Entries, to: Entries, names: seq<string>, k: nat, moved: nat)
    requires Distinct(names) && k < moved <= |names|
    requires forall n :: n in names[..moved] ==> n in from && n !in to
    ensures var n, gone, come := names[k], Without(from, names[k + 1..moved]), to + Only(from, names[k + 1..moved]);
      && n in gone && gone[n] == from[n] && n !in come
      && Without(from, names[k..moved]) == gone - {n}
      && to + Only(from, names[k..moved]) == come[n := from[n]]
  {
    Suffix(names, k, moved);
    OneMore(from, names[k + 1..moved], names[k]);
    PlusOne(to, Only(from, names[k + 1..moved]), names[k], from[names[k]]);
  }

  /** Moves the named children one by one, and reports how many were moved. */
  method MoveAll(source: Folder, names: seq<string>, target: Folder, faults: Faults) returns (moved: nat)
    requires source != target && Distinct(names)
    requires forall n :: n in names ==> n in source.entries && n !in target.entries
    modifies source, target, faults
    ensures moved <= |names|
    ensures source.entries == Without(old(source.entries), names[..moved])
    ensures target.entries == old(target.entries) + Only(old(source.entries), names[..moved])
    ensures moved == |names| <==> Smooth(faults, old(faults.step), old(faults.step) + |names|)
    ensures moved == |names| ==> faults.step == old(faults.step) + |names|
  {
    moved := 0;
    ghost var from, to := source.entries, target.entries;
    NoneYet(from);
    while moved < |names|
      invariant moved <= |names| && faults.step == old(faults.step) + moved
      invariant source.entries == Without(from, names[..moved])
      invariant target.entries == to + Only(from, names[..moved])
      invariant Smooth(faults, old(faults.step), old(faults.step) + moved)
    {
      var failed := faults.Next();
      if failed { return; }
      var n := names[moved];
      MoveStep(from, to, names, moved);
      Rename(source, n, target, n);
      moved := moved + 1;
    }
  }

  lemma Suffix(names: seq<string>, k: nat, moved: nat)
    requires Distinct(names) && k < moved <= |names|
    ensures names[k..moved] == [names[k]] + names[k + 1..moved]
    ensures names[k] !in names[k + 1..moved] && names[k] in names[..moved]
  {
    assert names[..moved][k] == names[k];
  }

  /** The undo of `MoveAll`: the last moved comes back first. */
  method MoveBack(source: Folder, names: seq<string>, moved: nat, target: Folder)
    requires source != target && Distinct(names) && moved <= |names|
    requires forall n :: n in names[..moved] ==> n in target.entries && n !in source.entries
    modifies source, target
    ensures source.entries == old(source.entries) + Only(old(target.entries), names[..moved])
  {
    var k := moved;
    ghost var to, from := source.entries, target.entries;
    NoneYet(from);
    assert names[moved..moved] == [];
    while k > 0
      invariant 0 <= k <= moved
      invariant source.entries == to + Only(from, names[k..moved])
      invariant target.entries == Without(from, names[k..moved])
    {
      k := k - 1;
      var n := names[k];
      BackStep(from, to, names, k, moved);
      Rename(target, n, source, n);
    }
    assert names[0..moved] == names[..moved];
  }

  method RemoveAll(target: Folder, names: seq<string>, installed: nat)
    requires installed <= |names|
    modifies target
    ensures target.entries == Without(old(target.entries), names[..installed])
  {
    var k := installed;
    NoneYet(target.entries);
    assert names[installed..installed] == [];
    while k > 0
      invariant 0 <= k <= installed
      invariant target.entries == Without(old(target.entries), names[k..installed])
    {
      k := k - 1;
      assert names[k..installed] == [names[k]] + names[k + 1..installed];
      target.Remove(names[k]);
    }
    assert names[0..installed] == names[..installed];
  }

  /** What a Workspace shows: everything but the directory of the transaction. */
  function Visible(entries: Entries, transaction: string): Entries {
    entries - {transaction}
  }

  /** How many operations a complete replacement takes: two listings of what is staged, the backup
      directory, a listing of the Workspace, and a rename for every child on either side. */
  function Operations(destination: Entries, staged: Entries, transaction: string): nat {
    4 + |Visible(destination, transaction)| + |staged|
  }

  /** The first loop: every visible child moves into the backup. */
  method SetAside(destination: Folder, backup: Folder, transaction: string, faults: Faults)
    returns (done: bool, names: seq<string>)
    requires destination != backup && transaction in destination.entries && backup.entries == map[]
    modifies destination, backup, faults
    ensures done ==> destination.entries == Only(old(destination.entries), [transaction])
                     && backup.entries == Visible(old(destination.entries), transaction)
                     && IsListing(names, backup.entries)
                     && faults.step == old(faults.step) + 1 + |backup.entries|
    ensures !done ==> destination.entries == old(destination.entries)
    ensures done
         <==> Smooth(faults, old(faults.step), old(faults.step) + 1 + |Visible(old(destination.entries), transaction)|)
  {
    ghost var before, visible := destination.entries, Visible(destination.entries, transaction);
    var failed := faults.Next();
    if failed { return false, []; }
    var listed := destination.List();
    names := Except(listed, transaction);
    ExceptListing(listed, before, transaction);
    SmoothParts(faults, old(faults.step), 1, |visible|);
    assert Smooth(faults, old(faults.step), old(faults.step) + 1);
    done := MoveOrUndo(destination, names, backup, faults);
    SetAsideAll(names, before, transaction);
  }

  /** Moves all of the named children into an empty directory, or none. */
  method MoveOrUndo(destination: Folder, names: seq<string>, backup: Folder, faults: Faults) returns (done: bool)
    requires destination != backup && Distinct(names) && backup.entries == map[]
    requires forall n :: n in names ==> n in destination.entries
    modifies destination, backup, faults
    ensures done ==> destination.entries == Without(old(destination.entries), names)
                     && backup.entries == Only(old(destination.entries), names)
                     && faults.step == old(faults.step) + |names|
    ensures !done ==> destination.entries == old(destination.entries)
    ensures done <==> Smooth(faults, old(faults.step), old(faults.step) + |names|)
  {
    ghost var before := destination.entries;
    var moved := MoveAll(destination, names, backup, faults);
    EmptyPlus(Only(before, names[..moved]));
    done := moved == |names|;
    if done {
      assert names[..moved] == names;
    } else {
      Undo(destination, backup, names, moved, before);
    }
  }

  lemma EmptyPlus(m: Entries)
    ensures map[] + m == m
  {
  }

  lemma SetAsideAll(names: seq<string>, before: Entries, transaction: string)
    requires transaction in before && IsListing(names, Visible(before, transaction))
    ensures Without(before, names) == Only(before, [transaction])
    ensures Only(before, names) == Visible(before, transaction)
  {
  }

  /** The second loop: every staged child moves in; what was moved goes again if one cannot. */
  method Install(destination: Folder, staged: Folder, faults: Faults) returns (done: bool)
    requires destination != staged && destination.entries.Keys !! staged.entries.Keys
    modifies destination, staged, faults
    ensures done ==> destination.entries == old(destination.entries) + old(staged.entries) && staged.entries == map[]
    ensures !done ==> destination.entries == old(destination.entries)
    ensures done <==> Smooth(faults, old(faults.step), old(faults.step) + 1 + |old(staged.entries)|)
  {
    var failed := faults.Next();
    if failed { return false; }
    ghost var before, children' := destination.entries, staged.entries;
    var children := staged.List();
    SmoothParts(faults, old(faults.step), 1, |children|);
    assert Smooth(faults, old(faults.step), old(faults.step) + 1);
    var installed := MoveAll(staged, children, destination, faults);
    if installed < |children| {
      assert forall n :: n in children[..installed] ==> n in children;
      RemoveAll(destination, children, installed);
      assert destination.entries == before;
      return false;
    }
    assert children[..installed] == children;
    OnlyAll(children, children');
    done := true;
  }

  /** Both loops, with the rollback of the first when the second cannot finish. */
  method Swap(destination: Folder, staged: Folder, backup: Folder, transaction: string, faults: Faults)
    returns (replaced: bool)
    requires destination != staged && destination != backup && staged != backup
    requires transaction in destination.entries && backup.entries == map[] && transaction !in staged.entries
    modifies destination, staged, backup, faults
    ensures replaced ==>
      destination.entries == Only(old(destination.entries), [transaction]) + old(staged.entries)
      && backup.entries == Visible(old(destination.entries), transaction) && staged.entries == map[]
    ensures !replaced ==> destination.entries == old(destination.entries)
    ensures replaced <==>
      Smooth(faults, old(faults.step),
             old(faults.step) + 2 + |Visible(old(destination.entries), transaction)| + |old(staged.entries)|)
  {
    ghost var before, visible := destination.entries, Visible(destination.entries, transaction);
    SmoothParts(faults, faults.step, 1 + |visible|, 1 + |staged.entries|);
    var names;
    replaced, names := SetAside(destination, backup, transaction, faults);
    if !replaced { return; }
    replaced := Install(destination, staged, faults);
    if !replaced {
      assert names[..|names|] == names;
      SetAsideAll(names, before, transaction);
      Undo(destination, backup, names, |names|, before);
    }
  }

  /** `_replace_workspace_contents`: `backup` is the directory made inside the transaction. */
  method ReplaceWorkspaceContents(destination: Folder, staged: Folder, backup: Folder, transaction: string,
                                  faults: Faults)
    returns (replaced: bool)
    requires destination != staged && destination != backup && staged != backup
    requires transaction in destination.entries && backup.entries == map[]
    modifies destination, staged, backup, faults
    ensures transaction in destination.entries
         && destination.entries[transaction] == old(destination.entries)[transaction]
    ensures replaced ==> Visible(destination.entries, transaction) == old(staged.entries)
    ensures replaced ==> backup.entries == Visible(old(destination.entries), transaction) && staged.entries == map[]
    ensures !replaced ==> destination.entries == old(destination.entries)
    ensures replaced <==>
      transaction !in old(staged.entries)
      && Smooth(faults, old(faults.step),
                old(faults.step) + Operations(old(destination.entries), old(staged.entries), transaction))
  {
    var failed := faults.Next();
    if failed { return false; }
    if transaction in staged.entries { return false; }
    failed := faults.Next();
    if failed { return false; }
    replaced := Swap(destination, staged, backup, transaction, faults);
    if replaced { NowVisible(old(destination.entries), old(staged.entries), transaction); }
  }

  lemma SmoothParts(f: Faults, first: nat, a: nat, b: nat)
    ensures Smooth(f, first, first + a + b) <==> Smooth(f, first, first + a) && Smooth(f, first + a, first + a + b)
  {
  }

  lemma NowVisible(before: Entries, staged: Entries, transaction: string)
    requires transaction in before && transaction !in staged
    ensures var now := Only(before, [transaction]) + staged;
      Visible(now, transaction) == staged && transaction in now && now[transaction] == before[transaction]
  {
  }

  /** Puts the moved children back into what is left of the directory. */
  method Undo(destination: Folder, backup: Folder, names: seq<string>, moved: nat, ghost before: Entries)
    requires destination != backup && Distinct(names) && moved <= |names|
    requires forall n :: n in names ==> n in before
    requires destination.entries == Without(before, names[..moved]) && backup.entries == Only(before, names[..moved])
    modifies destination, backup
    ensures destination.entries == before
  {
    assert forall n :: n in names[..moved] ==> n in names;
    MoveBack(destination, names, moved, backup);
  }

  function Except(names: seq<string>, name: string): (r: seq<string>)
    ensures forall n :: n in r <==> n in names && n != name
  {
    if names == [] then [] else (if names[0] == name then [] else [names[0]]) + Except(names[1..], name)
  }

  lemma {:induction false} ExceptDistinct(names: seq<string>, name: string)
    requires Distinct(names)
    ensures Distinct(Except(names, name))
    ensures |Except(names, name)| == |names| - if name in names then 1 else 0
  {
    if names != [] {
      ExceptDistinct(names[1..], name);
      assert names[0] !in names[1..];
      assert names == [names[0]] + names[1..];
    }
  }

  lemma ExceptListing(names: seq<string>, entries: Entries, name: string)
    requires IsListing(names, entries) && name in entries
    ensures IsListing(Except(names, name), Visible(entries, name))
  {
    ExceptDistinct(names, name);
    assert |Visible(entries, name)| == |entries| - 1 by {
      assert entries == Visible(entries, name)[name := entries[name]];
    }
  }

  lemma OnlyAll(names: seq<string>, entries: Entries)
    requires IsListing(names, entries)
    ensures Only(entries, names) == entries && Without(entries, names) == map[]
  {
  }

  // ------------------------------------------------------------ the handoff target

  /** What a removal that fails leaves of a directory, as `rmtree` ignores its errors. */
  type Remnants = map<string, Node> -> map<string, Node>

  /** `_remove_path`: only a file or a link that cannot be removed is an error. A directory never is
      one, and a part of it may stay behind unnoticed. */
  method RemovePath(root: Folder, name: string, remnants: Remnants, faults: Faults) returns (raised: bool)
    requires name in root.entries
    modifies root, faults
    ensures faults.step == old(faults.step) + 1
    ensures raised <==> faults.fails(old(faults.step)) && !old(root.entries)[name].Directory?
    ensures raised ==> root.entries == old(root.entries)
    ensures !faults.fails(old(faults.step)) ==> root.entries == old(root.entries) - {name}
    ensures faults.fails(old(faults.step)) && !raised ==>
      root.entries == old(root.entries)[name := Directory(remnants(old(root.entries)[name].children))]
  {
    var failed := faults.Next();
    var node := root.entries[name];
    if !failed {
      root.Remove(name);
      return false;
    }
    if node.Directory? { root.entries := root.entries[name := Directory(remnants(node.children))]; }
    return !node.Directory?;
  }

  /** `_replace_path` at one directory level. The last operation removes the previous content, after
      the swap. */
  method ReplacePath(root: Folder, staged: Folder, source: string, target: string, previous: string,
                     remnants: Remnants, faults: Faults)
    returns (swapped: bool, raised: bool)
    requires root != staged && source in staged.entries && target != previous && previous !in root.entries
    modifies root, staged, faults
    ensures swapped ==> target in root.entries && root.entries[target] == old(staged.entries)[source]
    ensures forall n :: n != target && n != previous ==> AsIn(root.entries, old(root.entries), n)
    ensures !swapped ==> root.entries == old(root.entries) && staged.entries == old(staged.entries) && raised
    ensures swapped <==>
      Smooth(faults, old(faults.step), old(faults.step) + if target in old(root.entries) then 3 else 2)
    ensures swapped && raised ==>
      target in old(root.entries) && previous in root.entries && root.entries[previous] == old(root.entries)[target]
    ensures swapped ==>
      var aside := target in old(root.entries) && faults.fails(old(faults.step) + 3);
      && (raised <==> aside && !old(root.entries)[target].Directory?)
      && (previous in root.entries <==> aside)
      && (aside && !raised ==> root.entries[previous] == Directory(remnants(old(root.entries)[target].children)))
  {
    var failed := faults.Next();
    if failed { return false, true; }
    if target in root.entries {
      failed := faults.Next();
      if failed { return false, true; }
      Move(root, target, previous);
    }
    failed := faults.Next();
    if failed {
      if previous in root.entries { Move(root, previous, target); }
      return false, true;
    }
    Rename(staged, source, root, target);
    raised := false;
    if previous in root.entries { raised := RemovePath(root, previous, remnants, faults); }
    return true, raised;
  }

  /** `rename` within one directory, to a name that is free. */
  method Move(root: Folder, name: string, as_: string)
    requires name in root.entries && as_ !in root.entries
    modifies root
    ensures root.entries == (old(root.entries) - {name})[as_ := old(root.entries)[name]]
  {
    root.entries := (root.entries - {name})[as_ := root.entries[name]];
  }

  /** `install_restored_home`: the old HOME is kept under `previous` for the caller to delete, or to
      rename back. */
  method InstallRestoredHome(root: Folder, staged: Folder, source: string, home: string, previous: string,
                             faults: Faults)
    returns (installed: bool)
    requires root != staged && source in staged.entries && home != previous && previous !in root.entries
    modifies root, staged, faults
    ensures installed ==>
      root.entries == (if home in old(root.entries)
                       then (old(root.entries) - {home})[previous := old(root.entries)[home]] else old(root.entries))
                      [home := old(staged.entries)[source]]
    ensures !installed ==> root.entries == old(root.entries) && staged.entries == old(staged.entries)
    ensures installed <==>
      Smooth(faults, old(faults.step), old(faults.step) + if home in old(root.entries) then 2 else 1)
  {
    var failed;
    if home in root.entries {
      failed := faults.Next();
      if failed { return false; }
      Move(root, home, previous);
    }
    failed := faults.Next();
    if failed {
      if previous in root.entries { Move(root, previous, home); }
      return false;
    }
    Rename(staged, source, root, home);
    return true;
  }

  // ------------------------------------------------------------ the managed directories
  const KINDS := ["skills", "prompts", "artifacts"]

  /** What is staged for one kind: a copy of what is there, else an empty directory. */
  function Staged(staged: Entries, copy: Node -> Option<Node>, kind: string): Node {
    if kind in staged && copy(staged[kind]).Some? then copy(staged[kind]).value else Directory(map[])
  }

  /** One name is as it was. */
  predicate AsIn(now: Entries, before: Entries, n: string) {
    if n in before then n in now && now[n] == before[n] else n !in now
  }

  /** Everything but the changed names is in place, and these are kept aside. */
  ghost predicate Undoable(public: Entries, previous: Entries, before: Entries, changed: seq<string>) {
    && (forall n :: n !in changed ==> AsIn(public, before, n))
    && (forall n :: n in changed ==> AsIn(previous, before, n))
  }

  lemma InMore(names: seq<string>, last: string)
    ensures forall n :: n in names + [last] <==> n in names || n == last
  {
  }

  /** Undoes the changed kinds, the last first. */
  method Rollback(public: Folder, previous: Folder, changed: seq<string>, ghost before: Entries)
    requires public != previous && Distinct(changed) && Undoable(public.entries, previous.entries, before, changed)
    modifies public, previous
    ensures public.entries == before
  {
    var j := |changed|;
    assert changed[..j] == changed;
    while j > 0
      invariant 0 <= j <= |changed|
      invariant Undoable(public.entries, previous.entries, before, changed[..j])
    {
      j := j - 1;
      var kind := changed[j];
      Prefix(changed, j);
      InMore(changed[..j], kind);
      if kind in public.entries { public.Remove(kind); }
      if kind in previous.entries { Rename(previous, kind, public, kind); }
    }
    SameEverywhere(public.entries, before);
  }

  lemma SameEverywhere(now: Entries, before: Entries)
    requires forall n :: AsIn(now, before, n)
    ensures now == before
  {
    assert forall n :: n in now <==> n in before by {
      forall n ensures n in now <==> n in before { assert AsIn(now, before, n); }
    }
    forall n | n in before ensures now[n] == before[n] { assert AsIn(now, before, n); }
  }

  /** How many of the kinds are there already. */
  function Occupied(public: Entries, kinds: seq<string>): nat {
    if kinds == [] then 0 else Occupied(public, kinds[..|kinds| - 1]) + if kinds[|kinds| - 1] in public then 1 else 0
  }

  /** The first loop: a copy of every kind, beside the directories it will replace. */
  method CopyKinds(staged: Entries, copy: Node -> Option<Node>, copies: Folder, faults: Faults) returns (done: bool)
    requires copies.entries == map[]
    modifies copies, faults
    ensures done ==> forall i :: 0 <= i < |KINDS| ==>
        KINDS[i] in copies.entries && copies.entries[KINDS[i]] == Staged(staged, copy, KINDS[i])
    ensures done <==> Smooth(faults, old(faults.step), old(faults.step) + |KINDS|)
    ensures done ==> faults.step == old(faults.step) + |KINDS|
  {
    var k := 0;
    while k < |KINDS|
      invariant 0 <= k <= |KINDS| && faults.step == old(faults.step) + k
      invariant Smooth(faults, old(faults.step), old(faults.step) + k)
      invariant forall i :: 0 <= i < k ==>
          KINDS[i] in copies.entries && copies.entries[KINDS[i]] == Staged(staged, copy, KINDS[i])
    {
      var failed := faults.Next();
      if failed { return false; }
      copies.entries := copies.entries[KINDS[k] := Staged(staged, copy, KINDS[k])];
      k := k + 1;
    }
    return true;
  }

  /** One kind of the second loop: what is there moves aside, the copy moves in. `touched`: the kind
      must be rolled back. */
  method InstallKind(public: Folder, copies: Folder, previous: Folder, kind: string, faults: Faults)
    returns (done: bool, touched: bool)
    requires public != copies && public != previous && copies != previous
    requires kind in copies.entries && kind !in previous.entries
    modifies public, copies, previous, faults
    ensures done ==> touched && public.entries == old(public.entries)[kind := old(copies.entries)[kind]]
                     && copies.entries == old(copies.entries) - {kind}
    ensures touched ==> AsIn(previous.entries, old(public.entries), kind)
    ensures forall n :: n != kind ==> AsIn(previous.entries, old(previous.entries), n)
    ensures forall n :: n != kind || !touched ==> AsIn(public.entries, old(public.entries), n)
    ensures done <==> Smooth(faults, old(faults.step), old(faults.step) + if kind in old(public.entries) then 2 else 1)
    ensures done ==> faults.step == old(faults.step) + if kind in old(public.entries) then 2 else 1
  {
    touched := false;
    var failed;
    if kind in public.entries {
      failed := faults.Next();
      if failed { return false, false; }
      Rename(public, kind, previous, kind);
      touched := true;
    }
    failed := faults.Next();
    if failed { return false, touched; }
    Rename(copies, kind, public, kind);
    return true, true;
  }

  /** The changed kinds are installed, and what was there is kept aside. */
  ghost predicate Upto(public: Entries, previous: Entries, before: Entries, fresh': Entries, changed: seq<string>) {
    && Undoable(public, previous, before, changed)
    && (forall n :: n in changed ==> n in public && n in fresh' && public[n] == fresh'[n])
    && (forall n :: n in previous ==> n in changed)
  }

  lemma OneKindMore(public: Entries, previous: Entries, public': Entries, previous': Entries,
                    before: Entries, fresh': Entries, changed: seq<string>, kind: string)
    requires Upto(public, previous, before, fresh', changed) && kind !in changed && kind in fresh'
    requires public' == public[kind := fresh'[kind]] && AsIn(previous', public, kind)
    requires forall n :: n != kind ==> AsIn(previous', previous, n)
    ensures Upto(public', previous', before, fresh', changed + [kind])
  {
    InMore(changed, kind);
    assert AsIn(public, before, kind);
    forall n | n !in changed + [kind] ensures AsIn(public', before, n) { assert AsIn(public, before, n); }
    forall n | n in changed + [kind] ensures AsIn(previous', before, n) {
      if n != kind { assert AsIn(previous, before, n) && AsIn(previous', previous, n); }
    }
    forall n | n in previous' ensures n in changed + [kind] { assert n != kind ==> AsIn(previous', previous, n); }
  }

  lemma OneKindFailed(public: Entries, previous: Entries, public': Entries, previous': Entries,
                      before: Entries, fresh': Entries, changed: seq<string>, kind: string, touched: bool)
    requires Upto(public, previous, before, fresh', changed) && kind !in changed
    requires touched ==> AsIn(previous', public, kind)
    requires forall n :: n != kind ==> AsIn(previous', previous, n)
    requires forall n :: n != kind || !touched ==> AsIn(public', public, n)
    ensures Undoable(public', previous', before, if touched then changed + [kind] else changed)
  {
    InMore(changed, kind);
    assert AsIn(public, before, kind);
    var changed' := if touched then changed + [kind] else changed;
    forall n | n !in changed' ensures AsIn(public', before, n) {
      assert AsIn(public, before, n) && AsIn(public', public, n);
    }
    forall n | n in changed' ensures AsIn(previous', before, n) {
      if n != kind { assert AsIn(previous, before, n) && AsIn(previous', previous, n); }
    }
  }

  /** The second loop. */
  method InstallKinds(public: Folder, copies: Folder, previous: Folder, faults: Faults) returns (done: bool)
    requires public != copies && public != previous && copies != previous && previous.entries == map[]
    requires forall i :: 0 <= i < |KINDS| ==> KINDS[i] in copies.entries
    modifies public, copies, previous, faults
    ensures done ==> forall n :: if n in KINDS then n in public.entries && n in old(copies.entries)
                                                    && public.entries[n] == old(copies.entries)[n]
                                 else AsIn(public.entries, old(public.entries), n)
    ensures !done ==> public.entries == old(public.entries)
    ensures done
         <==> Smooth(faults, old(faults.step), old(faults.step) + |KINDS| + Occupied(old(public.entries), KINDS))
  {
    ghost var before, fresh' := public.entries, copies.entries;
    var changed: seq<string>, k := [], 0;
    while k < |KINDS|
      invariant 0 <= k <= |KINDS| && changed == KINDS[..k]
      invariant Upto(public.entries, previous.entries, before, fresh', changed)
      invariant forall i :: k <= i < |KINDS| ==>
          KINDS[i] in copies.entries && copies.entries[KINDS[i]] == fresh'[KINDS[i]]
      invariant faults.step == old(faults.step) + k + Occupied(before, KINDS[..k])
      invariant Smooth(faults, old(faults.step), faults.step)
    {
      var kind := KINDS[k];
      KindsDistinct(k);
      OccupiedGrows(before, k);
      ghost var pub, prev := public.entries, previous.entries;
      assert AsIn(pub, before, kind);
      var touched;
      done, touched := InstallKind(public, copies, previous, kind, faults);
      if !done {
        OneKindFailed(pub, prev, public.entries, previous.entries, before, fresh', changed, kind, touched);
        if touched { changed := changed + [kind]; }
        Rollback(public, previous, changed, before);
        return;
      }
      OneKindMore(pub, prev, public.entries, previous.entries, before, fresh', changed, kind);
      changed := changed + [kind];
      k := k + 1;
    }
    assert KINDS[..k] == KINDS;
    return true;
  }

  lemma KindsDistinct(k: nat)
    requires k < |KINDS|
    ensures Distinct(KINDS[..k]) && Distinct(KINDS[..k + 1])
    ensures KINDS[..k + 1] == KINDS[..k] + [KINDS[k]] && KINDS[k] !in KINDS[..k]
    ensures forall i :: k < i < |KINDS| ==> KINDS[i] != KINDS[k]
  {
    assert Distinct(KINDS);
    Prefix(KINDS, k);
  }

  lemma OccupiedGrows(public: Entries, k: nat)
    requires k < |KINDS|
    ensures Occupied(public, KINDS[..k + 1]) == Occupied(public, KINDS[..k]) + if KINDS[k] in public then 1 else 0
    ensures k + 1 + Occupied(public, KINDS[..k + 1]) <= |KINDS| + Occupied(public, KINDS)
  {
    assert KINDS[..k + 1][..k] == KINDS[..k];
    OccupiedBelow(public, k + 1);
  }

  lemma {:induction false} OccupiedBelow(public: Entries, k: nat)
    requires k <= |KINDS|
    ensures Occupied(public, KINDS[..k]) <= Occupied(public, KINDS)
    decreases |KINDS| - k
  {
    if k < |KINDS| {
      OccupiedBelow(public, k + 1);
      assert KINDS[..k + 1][..k] == KINDS[..k];
    } else {
      assert KINDS[..k] == KINDS;
    }
  }

  /** `_install_managed_batch`: the three managed directories are replaced together or not at all,
      and nothing beside them changes. */
  method InstallManagedBatch(staged: Entries, copy: Node -> Option<Node>, public: Folder, faults: Faults)
    returns (installed: bool)
    modifies public, faults
    ensures installed ==>
        forall n :: if n in KINDS then n in public.entries && public.entries[n] == Staged(staged, copy, n)
                                      else AsIn(public.entries, old(public.entries), n)
    ensures !installed ==> public.entries == old(public.entries)
    ensures installed <==>
      Smooth(faults, old(faults.step), old(faults.step) + 2 + |KINDS| + |KINDS| + Occupied(old(public.entries), KINDS))
  {
    var failed := faults.Next();
    if failed { return false; }
    failed := faults.Next();
    if failed { return false; }
    var copies := new Folder(map[]);
    var previous := new Folder(map[]);
    SmoothParts(faults, old(faults.step), 2, |KINDS| + |KINDS| + Occupied(public.entries, KINDS));
    SmoothParts(faults, faults.step, |KINDS|, |KINDS| + Occupied(public.entries, KINDS));
    assert Smooth(faults, old(faults.step), old(faults.step) + 2);
    installed := CopyKinds(staged, copy, copies, faults);
    if !installed { return; }
    installed := InstallKinds(public, copies, previous, faults);
  }
}
