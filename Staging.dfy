/** Input staging in predict.py: the module-level `copy_files` and
    `Predictor.handle_input_file`.

    `copy_files(src, dest)` creates `dest` when missing and, when `src`
    exists, copies its tree into `dest`: subdirectories keep their names,
    and every other entry is copied to `dest/<n>` for the smallest n >= 1
    whose path does not exist yet, so the original file name is dropped.
    The filesystem is the set of paths that exist. */
module Staging {
  import opened Results
  import opened Strings
  import opened FileTree

  const OutputDir: string := "/tmp/outputs"
  const InputDir: string := "/tmp/inputs"
  const ComfyUIInputs: string := "/src/input"
  const ComfyUIOutputs: string := "/src/output"
  const ComfyUITempOutputDir: string := "ComfyUI/temp"

  /** `os.path.join(dest_folder, str(n))`. */
  function NumberedPath(folder: string, n: nat): string {
    Join(folder, NatToString(n))
  }

  /** `n` is the number the collision loop stops at: the smallest n >= 1
      whose numbered path is free. */
  ghost predicate IsLeastFree(fs: set<string>, folder: string, n: nat) {
    && n >= 1
    && NumberedPath(folder, n) !in fs
    && forall m :: 1 <= m < n ==> NumberedPath(folder, m) in fs
  }

  lemma NumberedPathInjective(folder: string, m: nat, n: nat)
    requires NumberedPath(folder, m) == NumberedPath(folder, n)
    ensures m == n
  {
    var a, b := NatToString(m), NatToString(n);
    assert !StartsWith(a, "/") by { assert '0' <= a[0] <= '9'; }
    assert !StartsWith(b, "/") by { assert '0' <= b[0] <= '9'; }
    JoinInjective(folder, a, b);
    NatToStringInjective(m, n);
  }

  /** The strings `f` gives to 1 .. k. */
  ghost function NatImage(k: nat, f: nat -> string): set<string> {
    set m: nat | 1 <= m <= k :: f(m)
  }

  /** An injective `f` gives k distinct strings to 1 .. k. */
  lemma {:induction false} NatImageSize(k: nat, f: nat -> string)
    requires forall a: nat, b: nat :: f(a) == f(b) ==> a == b
    ensures |NatImage(k, f)| == k
  {
    if k > 0 {
      NatImageSize(k - 1, f);
      assert NatImage(k, f) == NatImage(k - 1, f) + {f(k)};
      assert f(k) !in NatImage(k - 1, f);
    }
  }

  ghost function NumberedSet(folder: string, k: nat): set<string> {
    NatImage(k, (m: nat) => NumberedPath(folder, m))
  }

  lemma NumberedSetSize(folder: string, k: nat)
    ensures |NumberedSet(folder, k)| == k
  {
    var f := (m: nat) => NumberedPath(folder, m);
    forall a: nat, b: nat | f(a) == f(b) ensures a == b {
      NumberedPathInjective(folder, a, b);
    }
    NatImageSize(k, f);
  }

  lemma {:induction false} SubsetSize(a: set<string>, b: set<string>)
    requires a <= b
    ensures |a| <= |b|
    decreases |a|
  {
    if a != {} {
      var x :| x in a;
      SubsetSize(a - {x}, b - {x});
    }
  }

  /** Among 1 .. |fs| + 1 some numbered path is free. */
  lemma SomeFree(fs: set<string>, folder: string) returns (n: nat)
    ensures 1 <= n <= |fs| + 1 && NumberedPath(folder, n) !in fs
  {
    var k := |fs| + 1;
    NumberedSetSize(folder, k);
    if forall m :: 1 <= m <= k ==> NumberedPath(folder, m) in fs {
      SubsetSize(NumberedSet(folder, k), fs);
      assert false;
    }
    n :| 1 <= n <= k && NumberedPath(folder, n) !in fs;
  }

  lemma {:induction false} LeastFreeBelow(fs: set<string>, folder: string, n: nat)
    requires n >= 1 && NumberedPath(folder, n) !in fs
    ensures exists l: nat :: l <= n && IsLeastFree(fs, folder, l)
    decreases n
  {
    if !IsLeastFree(fs, folder, n) {
      var m :| 1 <= m < n && NumberedPath(folder, m) !in fs;
      LeastFreeBelow(fs, folder, m);
    }
  }

  /** The collision loop always stops, at a number at most |fs| + 1. */
  lemma LeastFreeExists(fs: set<string>, folder: string)
    ensures exists n: nat :: n <= |fs| + 1 && IsLeastFree(fs, folder, n)
  {
    var n := SomeFree(fs, folder);
    LeastFreeBelow(fs, folder, n);
  }

  ghost function LeastFree(fs: set<string>, folder: string): (n: nat)
    ensures IsLeastFree(fs, folder, n)
  {
    LeastFreeExists(fs, folder);
    var n :| IsLeastFree(fs, folder, n);
    n
  }

  lemma LeastFreeUnique(fs: set<string>, folder: string, m: nat, n: nat)
    requires IsLeastFree(fs, folder, m) && IsLeastFree(fs, folder, n)
    ensures m == n
  {
  }

  /** The collision loop of `copy_files`. */
  method NextFreePath(fs: set<string>, folder: string) returns (n: nat, path: string)
    ensures IsLeastFree(fs, folder, n)
    ensures path == NumberedPath(folder, n)
  {
    ghost var least := LeastFree(fs, folder);
    n := 1;
    path := NumberedPath(folder, n);
    while path in fs
      invariant 1 <= n <= least
      invariant path == NumberedPath(folder, n)
      invariant forall m :: 1 <= m < n ==> NumberedPath(folder, m) in fs
      decreases least - n
    {
      n := n + 1;
      path := NumberedPath(folder, n);
    }
  }

  /** One `shutil.copy2(source, target)`. */
  datatype Copy = Copy(source: string, target: string)

  /** The filesystem as `copy_files` sees it: the paths that exist, those
      of them that are folders, and the copies made so far, in order. */
  datatype CopyState = CopyState(fs: set<string>, dirs: set<string>, copies: seq<Copy>)

  /** A stretch of `copy_files`: the state it leaves and, when it raised
      `NotADirectoryError`, the path it failed on. */
  datatype Copied = Copied(state: CopyState, raised: Option<string>)

  /** The loop of `copy_files(src, dest)` over the entries of `src`,
      starting from state `st`. `copy_files` makes `dest` before the loop,
      so the loop only meets a `dest` that exists; when that `dest` is a
      file, copying into it raises, and so does `os.makedirs` of a missing
      subfolder under it. A subfolder whose destination path already
      exists is not made again, even when that path is a file. */
  ghost function CopyEntries(src: string, dest: string, entries: seq<Entry>, st: CopyState): Copied
    decreases entries
  {
    if entries == [] then Copied(st, None)
    else
      var e := entries[|entries| - 1];
      var before := CopyEntries(src, dest, entries[..|entries| - 1], st);
      var b := before.state;
      if before.raised.Some? then before
      else
        match e
        case Dir(name, sub) =>
          var d := Join(dest, name);
          if d in b.fs then CopyEntries(Join(src, name), d, sub, b)
          else if dest !in b.dirs then Copied(b, Some(d))
          else CopyEntries(Join(src, name), d, sub, b.(fs := b.fs + {d}, dirs := b.dirs + {d}))
        case _ =>
          var target := NumberedPath(dest, LeastFree(b.fs, dest));
          if dest !in b.dirs then Copied(b, Some(target))
          else Copied(CopyState(b.fs + {target}, b.dirs, b.copies + [Copy(Join(src, e.name), target)]), None)
  }

  /** The state after `if not os.path.exists(dest): os.makedirs(dest)`. */
  function Made(dest: string, st: CopyState): CopyState {
    if dest in st.fs then st else st.(fs := st.fs + {dest}, dirs := st.dirs + {dest})
  }

  /** `copy_files(src, dest)`, where `listing` is what `os.listdir(src)`
      gives, or None when `src` does not exist. */
  ghost function CopyFolder(src: string, dest: string, listing: Option<seq<Entry>>, st: CopyState): Copied {
    if listing.None? then Copied(Made(dest, st), None) else CopyEntries(src, dest, listing.value, Made(dest, st))
  }

  method CopyFiles(src: string, dest: string, listing: Option<seq<Entry>>, st: CopyState)
    returns (r: Copied)
    ensures r == CopyFolder(src, dest, listing, st)
    decreases if listing.Some? then listing.value else [], 1
  {
    var made := st;
    if dest !in made.fs {
      made := made.(fs := made.fs + {dest}, dirs := made.dirs + {dest});
    }
    if listing.Some? {
      r := CopyListing(src, dest, listing.value, made);
    } else {
      r := Copied(made, None);
    }
  }

  /** The `for item in os.listdir(src_folder)` loop; an exception ends it. */
  method CopyListing(src: string, dest: string, entries: seq<Entry>, st: CopyState)
    returns (r: Copied)
    ensures r == CopyEntries(src, dest, entries, st)
    decreases entries, 0
  {
    var cur := st;
    var k := 0;
    while k < |entries|
      invariant 0 <= k <= |entries|
      invariant CopyEntries(src, dest, entries[..k], st) == Copied(cur, None)
    {
      var e := entries[k];
      assert entries[..k + 1][..k] == entries[..k];
      var srcPath := Join(src, e.name);
      var destPath := Join(dest, e.name);
      if e.Dir? {
        if destPath !in cur.fs && dest !in cur.dirs {
          // os.makedirs(dest_path) under a file raises.
          RaisedStays(src, dest, entries, st, k + 1);
          return Copied(cur, Some(destPath));
        }
        r := CopyFiles(srcPath, destPath, Some(e.entries), cur);
        if r.raised.Some? {
          RaisedStays(src, dest, entries, st, k + 1);
          return;
        }
        cur := r.state;
      } else {
        var n, newDestPath := NextFreePath(cur.fs, dest);
        LeastFreeUnique(cur.fs, dest, n, LeastFree(cur.fs, dest));
        if dest !in cur.dirs {
          // shutil.copy2 into a path below a file raises.
          RaisedStays(src, dest, entries, st, k + 1);
          return Copied(cur, Some(newDestPath));
        }
        cur := CopyState(cur.fs + {newDestPath}, cur.dirs, cur.copies + [Copy(srcPath, newDestPath)]);
      }
      k := k + 1;
    }
    assert entries[..|entries|] == entries;
    r := Copied(cur, None);
  }

  /** Once the loop has raised, the later entries change nothing. */
  lemma {:induction false} RaisedStays(src: string, dest: string, entries: seq<Entry>, st: CopyState, k: nat)
    requires k <= |entries|
    requires CopyEntries(src, dest, entries[..k], st).raised.Some?
    ensures CopyEntries(src, dest, entries, st) == CopyEntries(src, dest, entries[..k], st)
    decreases |entries| - k
  {
    if k < |entries| {
      var n := |entries| - 1;
      assert entries[..n][..k] == entries[..k];
      RaisedStays(src, dest, entries[..n], st, k);
      CopyEntriesLastRaised(src, dest, entries, st);
    } else {
      assert entries[..k] == entries;
    }
  }

  lemma CopyEntriesLastRaised(src: string, dest: string, entries: seq<Entry>, st: CopyState)
    requires entries != []
    requires CopyEntries(src, dest, entries[..|entries| - 1], st).raised.Some?
    ensures CopyEntries(src, dest, entries, st) == CopyEntries(src, dest, entries[..|entries| - 1], st)
  {
  }

  /** Where `copy_files(src, dest)` puts each entry that is not a
      directory: its source path and the folder it is numbered into, in
      listing order, depth first. */
  function Placement(src: string, dest: string, entries: seq<Entry>): seq<(string, string)>
    decreases entries
  {
    if entries == [] then []
    else
      var e := entries[|entries| - 1];
      Placement(src, dest, entries[..|entries| - 1])
        + match e
          case Dir(name, sub) => Placement(Join(src, name), Join(dest, name), sub)
          case _ => [(Join(src, e.name), dest)]
  }

  /** `target` is `folder/<n>` for some n >= 1. */
  ghost predicate NumberedIn(target: string, folder: string) {
    exists n: nat :: n >= 1 && target == NumberedPath(folder, n)
  }

  /** The copies follow the placement one for one. */
  ghost predicate Placed(copies: seq<Copy>, placement: seq<(string, string)>) {
    && |copies| == |placement|
    && forall i :: 0 <= i < |copies| ==>
         copies[i].source == placement[i].0 && NumberedIn(copies[i].target, placement[i].1)
  }

  /** Every folder of the placement is a folder in `dirs`. */
  ghost predicate IntoFolders(placement: seq<(string, string)>, dirs: set<string>) {
    forall i :: 0 <= i < |placement| ==> placement[i].1 in dirs
  }

  /** From `st` to `st'` nothing is removed, folders are made only at paths
      that did not exist, copies are only appended, and every appended copy
      went to a path that did not exist before it, exists after, and was
      not made a folder. */
  ghost predicate SafeExtension(st: CopyState, st': CopyState) {
    && st.fs <= st'.fs
    && st.dirs <= st'.dirs
    && st'.dirs - st.dirs <= st'.fs - st.fs
    && |st.copies| <= |st'.copies|
    && st'.copies[..|st.copies|] == st.copies
    && (forall i :: |st.copies| <= i < |st'.copies| ==>
          && st'.copies[i].target in st'.fs
          && st'.copies[i].target !in st.fs
          && st'.copies[i].target !in st'.dirs - st.dirs)
    && (forall i, j :: |st.copies| <= i < j < |st'.copies| ==>
          st'.copies[i].target != st'.copies[j].target)
  }

  lemma SafeExtensionTransitive(a: CopyState, b: CopyState, c: CopyState)
    requires SafeExtension(a, b) && SafeExtension(b, c)
    ensures SafeExtension(a, c)
  {
    assert c.copies[..|a.copies|] == c.copies[..|b.copies|][..|a.copies|];
    forall x | x in c.dirs - a.dirs ensures x in c.fs - a.fs {
      if x in b.dirs {
        assert x in b.dirs - a.dirs;
        assert x in b.fs - a.fs;
      } else {
        assert x in c.dirs - b.dirs;
        assert x in c.fs - b.fs;
      }
    }
    forall i | |a.copies| <= i < |c.copies|
      ensures c.copies[i].target !in a.fs && c.copies[i].target !in c.dirs - a.dirs
    {
      var t := c.copies[i].target;
      if i < |b.copies| {
        assert c.copies[i] == b.copies[i];
        assert t in b.fs && t !in b.dirs - a.dirs;
        assert t !in c.fs - b.fs;
      } else {
        assert t !in b.fs && t !in c.dirs - b.dirs;
        assert t !in b.fs - a.fs;
      }
    }
    forall i, j | |a.copies| <= i < j < |c.copies| ensures c.copies[i].target != c.copies[j].target {
      if j < |b.copies| {
        assert c.copies[i] == b.copies[i] && c.copies[j] == b.copies[j];
      } else if i < |b.copies| {
        assert c.copies[i] == b.copies[i];
      }
    }
  }

  lemma SafeExtensionRefl(st: CopyState)
    ensures SafeExtension(st, st)
  {
    assert st.copies[..|st.copies|] == st.copies;
  }

  lemma PlacedAppend(a: seq<Copy>, b: seq<Copy>, p: seq<(string, string)>, q: seq<(string, string)>)
    requires Placed(a, p) && Placed(b, q)
    ensures Placed(a + b, p + q)
  {
    forall i | 0 <= i < |a + b|
      ensures (a + b)[i].source == (p + q)[i].0 && NumberedIn((a + b)[i].target, (p + q)[i].1)
    {
      if i >= |a| {
        assert (a + b)[i] == b[i - |a|] && (p + q)[i] == q[i - |a|];
      }
    }
  }

  lemma IntoFoldersAppend(p: seq<(string, string)>, q: seq<(string, string)>, dirs: set<string>, dirs': set<string>)
    requires IntoFolders(p, dirs) && dirs <= dirs' && IntoFolders(q, dirs')
    ensures IntoFolders(p + q, dirs')
  {
    forall i | 0 <= i < |p + q| ensures (p + q)[i].1 in dirs' {
      if i >= |p| {
        assert (p + q)[i] == q[i - |p|];
      } else {
        assert (p + q)[i] == p[i];
      }
    }
  }

  /** The guarantees of the loop of `copy_files` over `entries` from `st`:
      the copies it made follow the placement as far as they go, and when
      nothing raised they cover it, all into folders, with every
      subfolder's destination in place. */
  ghost predicate CopyEntriesGood(src: string, dest: string, entries: seq<Entry>, st: CopyState) {
    var r := CopyEntries(src, dest, entries, st);
    var p := Placement(src, dest, entries);
    && SafeExtension(st, r.state)
    && (var made := r.state.copies[|st.copies|..];
        && |made| <= |p|
        && Placed(made, p[..|made|])
        && (r.raised.None? ==>
              && |made| == |p|
              && IntoFolders(p, r.state.dirs)
              && forall k :: 0 <= k < |entries| && entries[k].Dir? ==> Join(dest, entries[k].name) in r.state.fs))
  }

  /** What the loop of `copy_files` does, whatever state it starts from:
      it never overwrites an existing path or turns a file into a folder,
      gives successive files distinct targets, and copies the
      non-directory entries in listing order, depth first, each to a
      numbered path of its destination folder, as far as it gets; when
      nothing raises, it copies every one of them, each into a folder, and
      every subfolder's destination exists. */
  lemma {:induction false} CopyEntriesSpec(src: string, dest: string, entries: seq<Entry>, st: CopyState)
    ensures CopyEntriesGood(src, dest, entries, st)
    decreases entries
  {
    if entries == [] {
      var r := CopyEntries(src, dest, entries, st);
      SafeExtensionRefl(st);
      assert r.state.copies[|st.copies|..] == [];
    } else {
      var n := |entries| - 1;
      var before := CopyEntries(src, dest, entries[..n], st);
      var b := before.state;
      CopyEntriesSpec(src, dest, entries[..n], st);
      if before.raised.Some? {
        CopyEntriesLastRaised(src, dest, entries, st);
        CopyEntriesStopped(src, dest, entries, st);
      } else {
        match entries[n] {
          case Dir(name, sub) =>
            var d := Join(dest, name);
            if d in b.fs {
              CopyEntriesSpec(Join(src, name), d, sub, b);
              CopyEntriesStepDir(src, dest, entries, st, b);
            } else if dest !in b.dirs {
              CopyEntriesLastDirRaises(src, dest, entries, st);
              CopyEntriesStopped(src, dest, entries, st);
            } else {
              var mid := b.(fs := b.fs + {d}, dirs := b.dirs + {d});
              CopyEntriesSpec(Join(src, name), d, sub, mid);
              CopyEntriesStepDir(src, dest, entries, st, mid);
            }
          case _ =>
            if dest !in b.dirs {
              CopyEntriesLastFileRaises(src, dest, entries, st);
              CopyEntriesStopped(src, dest, entries, st);
            } else {
              CopyEntriesStepFile(src, dest, entries, st);
            }
        }
      }
    }
  }

  /** The guarantees extend over a last entry at which the loop stops
      without copying, ... */
  lemma CopyEntriesStopped(src: string, dest: string, entries: seq<Entry>, st: CopyState)
    requires entries != []
    requires CopyEntriesGood(src, dest, entries[..|entries| - 1], st)
    requires var r := CopyEntries(src, dest, entries, st);
      r.raised.Some? && r.state == CopyEntries(src, dest, entries[..|entries| - 1], st).state
    ensures CopyEntriesGood(src, dest, entries, st)
  {
    var r := CopyEntries(src, dest, entries, st);
    var made := r.state.copies[|st.copies|..];
    var p, q := Placement(src, dest, entries[..|entries| - 1]), Placement(src, dest, entries);
    PlacementPrefix(src, dest, entries);
    assert q[..|made|] == p[..|made|];
  }

  /** ... a last entry that is a directory, whose destination `mid` has
      made ready, ... */
  lemma CopyEntriesStepDir(src: string, dest: string, entries: seq<Entry>, st: CopyState, mid: CopyState)
    requires entries != [] && entries[|entries| - 1].Dir?
    requires MidReady(src, dest, entries, st, mid)
    requires CopyEntriesGood(src, dest, entries[..|entries| - 1], st)
    requires var e := entries[|entries| - 1];
      CopyEntriesGood(Join(src, e.name), Join(dest, e.name), e.entries, mid)
    ensures CopyEntriesGood(src, dest, entries, st)
  {
    var n := |entries| - 1;
    var front, name, sub := entries[..n], entries[n].name, entries[n].entries;
    var b := CopyEntries(src, dest, front, st).state;
    var d := Join(dest, name);
    var r := CopyEntries(src, dest, entries, st);
    CopyEntriesLastDir(src, dest, entries, st, mid);
    PlacementLastDir(src, dest, entries);
    MakeDirSafe(b, mid, d);
    ComposeSteps(st, b, mid, r.state, Placement(src, dest, front), Placement(Join(src, name), d, sub));
    if r.raised.None? {
      IntoFoldersAppend(Placement(src, dest, front), Placement(Join(src, name), d, sub), b.dirs, r.state.dirs);
      DirsCreated(dest, entries, b.fs, r.state.fs);
    }
  }

  /** ... or anything else, which is copied into the folder `dest`. */
  lemma CopyEntriesStepFile(src: string, dest: string, entries: seq<Entry>, st: CopyState)
    requires entries != [] && !entries[|entries| - 1].Dir?
    requires var before := CopyEntries(src, dest, entries[..|entries| - 1], st);
      before.raised.None? && dest in before.state.dirs
    requires CopyEntriesGood(src, dest, entries[..|entries| - 1], st)
    ensures CopyEntriesGood(src, dest, entries, st)
  {
    var n := |entries| - 1;
    var front, name := entries[..n], entries[n].name;
    var b := CopyEntries(src, dest, front, st).state;
    var r := CopyEntries(src, dest, entries, st);
    CopyEntriesLastFile(src, dest, entries, st);
    PlacementLastFile(src, dest, entries);
    CopyFileStep(src, dest, name, b);
    SafeExtensionRefl(b);
    ComposeSteps(st, b, b, r.state, Placement(src, dest, front), [(Join(src, name), dest)]);
    IntoFoldersAppend(Placement(src, dest, front), [(Join(src, name), dest)], b.dirs, r.state.dirs);
    DirsCreated(dest, entries, b.fs, r.state.fs);
  }

  /** One copied file: it goes to the least free number in `dest`. */
  lemma CopyFileStep(src: string, dest: string, name: string, before: CopyState)
    requires dest in before.dirs
    ensures var target := NumberedPath(dest, LeastFree(before.fs, dest));
      var after := CopyState(before.fs + {target}, before.dirs, before.copies + [Copy(Join(src, name), target)]);
      && SafeExtension(before, after)
      && Placed(after.copies[|before.copies|..], [(Join(src, name), dest)])
  {
    var target := NumberedPath(dest, LeastFree(before.fs, dest));
    var after := CopyState(before.fs + {target}, before.dirs, before.copies + [Copy(Join(src, name), target)]);
    assert after.copies[|before.copies|..] == [Copy(Join(src, name), target)];
    assert after.copies[..|before.copies|] == before.copies;
    assert NumberedIn(target, dest);
  }

  /** Making a folder at a fresh path, or nothing, is a safe extension. */
  lemma MakeDirSafe(b: CopyState, mid: CopyState, d: string)
    requires (d in b.fs && mid == b) || (d !in b.fs && mid == b.(fs := b.fs + {d}, dirs := b.dirs + {d}))
    ensures SafeExtension(b, mid) && mid.copies == b.copies && d in mid.fs && b.dirs <= mid.dirs
  {
    if mid == b {
      SafeExtensionRefl(b);
    } else {
      assert mid.copies[..|b.copies|] == b.copies;
      assert mid.dirs - b.dirs <= {d} && d in mid.fs - b.fs;
    }
  }

  /** The state `copy_files` recurses into for a last entry that is a
      directory: the one before it, with the subfolder made when missing. */
  ghost predicate MidReady(src: string, dest: string, entries: seq<Entry>, st: CopyState, mid: CopyState)
    requires entries != []
  {
    var before := CopyEntries(src, dest, entries[..|entries| - 1], st);
    var b, d := before.state, Join(dest, entries[|entries| - 1].name);
    && before.raised.None?
    && (d in b.fs ==> mid == b)
    && (d !in b.fs ==> dest in b.dirs && mid == b.(fs := b.fs + {d}, dirs := b.dirs + {d}))
  }

  lemma CopyEntriesLastDir(src: string, dest: string, entries: seq<Entry>, st: CopyState, mid: CopyState)
    requires entries != [] && entries[|entries| - 1].Dir?
    requires MidReady(src, dest, entries, st, mid)
    ensures var e := entries[|entries| - 1];
      CopyEntries(src, dest, entries, st) == CopyEntries(Join(src, e.name), Join(dest, e.name), e.entries, mid)
  {
  }

  lemma CopyEntriesLastDirRaises(src: string, dest: string, entries: seq<Entry>, st: CopyState)
    requires entries != [] && entries[|entries| - 1].Dir?
    requires var before := CopyEntries(src, dest, entries[..|entries| - 1], st);
      && before.raised.None?
      && Join(dest, entries[|entries| - 1].name) !in before.state.fs
      && dest !in before.state.dirs
    ensures var r := CopyEntries(src, dest, entries, st);
      r.raised == Some(Join(dest, entries[|entries| - 1].name))
      && r.state == CopyEntries(src, dest, entries[..|entries| - 1], st).state
  {
  }

  lemma CopyEntriesLastFile(src: string, dest: string, entries: seq<Entry>, st: CopyState)
    requires entries != [] && !entries[|entries| - 1].Dir?
    requires var before := CopyEntries(src, dest, entries[..|entries| - 1], st);
      before.raised.None? && dest in before.state.dirs
    ensures var e, b := entries[|entries| - 1], CopyEntries(src, dest, entries[..|entries| - 1], st).state;
      var target := NumberedPath(dest, LeastFree(b.fs, dest));
      CopyEntries(src, dest, entries, st)
        == Copied(CopyState(b.fs + {target}, b.dirs, b.copies + [Copy(Join(src, e.name), target)]), None)
  {
  }

  lemma CopyEntriesLastFileRaises(src: string, dest: string, entries: seq<Entry>, st: CopyState)
    requires entries != [] && !entries[|entries| - 1].Dir?
    requires var before := CopyEntries(src, dest, entries[..|entries| - 1], st);
      before.raised.None? && dest !in before.state.dirs
    ensures var r := CopyEntries(src, dest, entries, st);
      r.raised.Some? && r.state == CopyEntries(src, dest, entries[..|entries| - 1], st).state
  {
  }

  lemma PlacementLastDir(src: string, dest: string, entries: seq<Entry>)
    requires entries != [] && entries[|entries| - 1].Dir?
    ensures var e := entries[|entries| - 1];
      Placement(src, dest, entries)
        == Placement(src, dest, entries[..|entries| - 1]) + Placement(Join(src, e.name), Join(dest, e.name), e.entries)
  {
  }

  lemma PlacementLastFile(src: string, dest: string, entries: seq<Entry>)
    requires entries != [] && !entries[|entries| - 1].Dir?
    ensures var e := entries[|entries| - 1];
      Placement(src, dest, entries) == Placement(src, dest, entries[..|entries| - 1]) + [(Join(src, e.name), dest)]
  {
  }

  /** The placement of a listing extends that of the listing without its
      last entry. */
  lemma PlacementPrefix(src: string, dest: string, entries: seq<Entry>)
    requires entries != []
    ensures var p, q := Placement(src, dest, entries[..|entries| - 1]), Placement(src, dest, entries);
      |p| <= |q| && q[..|p|] == p
  {
    if entries[|entries| - 1].Dir? {
      PlacementLastDir(src, dest, entries);
    } else {
      PlacementLastFile(src, dest, entries);
    }
  }

  /** The folders made for the earlier directory entries survive, and the
      last one, when a directory, is made too. */
  lemma DirsCreated(dest: string, entries: seq<Entry>, fs: set<string>, fs': set<string>)
    requires entries != []
    requires var front := entries[..|entries| - 1];
      forall k :: 0 <= k < |front| && front[k].Dir? ==> Join(dest, front[k].name) in fs
    requires fs <= fs'
    requires entries[|entries| - 1].Dir? ==> Join(dest, entries[|entries| - 1].name) in fs'
    ensures forall k :: 0 <= k < |entries| && entries[k].Dir? ==> Join(dest, entries[k].name) in fs'
  {
    var front := entries[..|entries| - 1];
    forall k | 0 <= k < |entries| && entries[k].Dir? ensures Join(dest, entries[k].name) in fs' {
      if k < |front| {
        assert front[k] == entries[k];
      }
    }
  }

  /** A finished stretch of copying followed by one that went as far as it
      got make one stretch that goes as far as the second. */
  lemma ComposeSteps(st: CopyState, b: CopyState, mid: CopyState, r: CopyState, p: seq<(string, string)>, q: seq<(string, string)>)
    requires SafeExtension(st, b) && |b.copies| - |st.copies| == |p| && Placed(b.copies[|st.copies|..], p)
    requires SafeExtension(b, mid) && mid.copies == b.copies
    requires SafeExtension(mid, r) && |r.copies| - |mid.copies| <= |q| && Placed(r.copies[|mid.copies|..], q[..|r.copies| - |mid.copies|])
    ensures SafeExtension(st, r)
    ensures var k := |r.copies| - |st.copies|; k <= |p + q| && Placed(r.copies[|st.copies|..], (p + q)[..k])
  {
    SafeExtensionTransitive(st, b, mid);
    SafeExtensionTransitive(st, mid, r);
    var k := |r.copies| - |st.copies|;
    assert r.copies[|st.copies|..] == b.copies[|st.copies|..] + r.copies[|mid.copies|..];
    assert (p + q)[..k] == p + q[..k - |p|];
    PlacedAppend(b.copies[|st.copies|..], r.copies[|mid.copies|..], p, q[..k - |p|]);
  }

  /** `copy_files(src, dest)` as a whole: `dest` exists afterwards and is
      made as a folder when it was missing; when `src` is absent nothing is
      copied and nothing raises; otherwise the loop's guarantees hold. */
  lemma CopyFolderSpec(src: string, dest: string, listing: Option<seq<Entry>>, st: CopyState)
    ensures var r := CopyFolder(src, dest, listing, st);
      && dest in r.state.fs
      && (dest !in st.fs ==> dest in r.state.dirs)
      && SafeExtension(st, r.state)
      && (listing.None? ==> r.raised.None? && r.state.copies == st.copies)
      && (listing.Some? ==>
            var made, p := r.state.copies[|st.copies|..], Placement(src, dest, listing.value);
            && |made| <= |p|
            && Placed(made, p[..|made|])
            && (r.raised.None? ==> |made| == |p| && IntoFolders(p, r.state.dirs)))
  {
    var made := Made(dest, st);
    MakeDirSafe(st, made, dest);
    if listing.Some? {
      CopyEntriesSpec(src, dest, listing.value, made);
      CopyEntriesGrow(src, dest, listing.value, made);
      SafeExtensionTransitive(st, made, CopyFolder(src, dest, listing, st).state);
    }
  }

  /** The loop keeps every path and folder of its starting state. */
  lemma CopyEntriesGrow(src: string, dest: string, entries: seq<Entry>, st: CopyState)
    ensures var r := CopyEntries(src, dest, entries, st);
      && st.fs <= r.state.fs && st.dirs <= r.state.dirs
      && |st.copies| <= |r.state.copies| && r.state.copies[..|st.copies|] == st.copies
  {
    CopyEntriesSpec(src, dest, entries, st);
  }

  /** In a destination that is a file, the first entry that is not a
      directory makes the loop raise, if nothing raised before. */
  lemma {:induction false} FileDestinationRaises(src: string, dest: string, entries: seq<Entry>, st: CopyState, k: nat)
    requires dest in st.fs && dest !in st.dirs
    requires k < |entries| && !entries[k].Dir?
    ensures CopyEntries(src, dest, entries, st).raised.Some?
    decreases |entries|
  {
    var n := |entries| - 1;
    var before := CopyEntries(src, dest, entries[..n], st);
    if k < n {
      assert entries[..n][k] == entries[k];
      FileDestinationRaises(src, dest, entries[..n], st, k);
      CopyEntriesLastRaised(src, dest, entries, st);
    } else if before.raised.None? {
      CopyEntriesSpec(src, dest, entries[..n], st);
      assert dest !in before.state.dirs;
      CopyEntriesLastFileRaises(src, dest, entries, st);
    } else {
      CopyEntriesLastRaised(src, dest, entries, st);
    }
  }

  /** A subfolder whose destination path is a file raises as soon as it
      holds anything that is not a directory: the file is not replaced by
      a folder, and nothing can be copied below it. */
  lemma FolderOverFileRaises(src: string, dest: string, name: string, sub: seq<Entry>, st: CopyState, k: nat)
    requires Join(dest, name) in st.fs && Join(dest, name) !in st.dirs
    requires k < |sub| && !sub[k].Dir?
    ensures CopyEntries(src, dest, [Dir(name, sub)], st).raised.Some?
  {
    var entries := [Dir(name, sub)];
    assert entries[..0] == [];
    CopyEntriesLastDir(src, dest, entries, st, st);
    FileDestinationRaises(Join(src, name), Join(dest, name), sub, st, k);
  }

  /** A folder named like a number clashes with a file numbered earlier in
      the same listing: copying file `a` and then folder `1` holding file
      `x` into an empty `/d` puts `a` at `/d/1` and then raises on
      `/d/1/1`. */
  lemma NumberedFolderClash()
    ensures var st := CopyState({"/d"}, {"/d"}, []);
      var r := CopyEntries("/s", "/d", [File("a"), Dir("1", [File("x")])], st);
      && r.raised.Some?
      && r.state.copies == [Copy("/s/a", "/d/1")]
  {
    var st := CopyState({"/d"}, {"/d"}, []);
    var entries := [File("a"), Dir("1", [File("x")])];
    assert NatToString(1) == "1";
    assert !StartsWith("1", "/") && !EndsWith("/d", "/") && !StartsWith("a", "/");
    assert NumberedPath("/d", 1) == "/d/1";
    assert IsLeastFree(st.fs, "/d", 1);
    LeastFreeUnique(st.fs, "/d", 1, LeastFree(st.fs, "/d"));
    assert Join("/d", "1") == "/d/1";
    assert Join("/s", "a") == "/s/a";
    assert entries[..1] == [File("a")];
    assert entries[..1][..0] == [];
    assert CopyEntries("/s", "/d", [], st) == Copied(st, None);
    CopyEntriesLastFile("/s", "/d", entries[..1], st);
    var after := CopyState({"/d", "/d/1"}, {"/d"}, [Copy("/s/a", "/d/1")]);
    assert CopyEntries("/s", "/d", entries[..1], st) == Copied(after, None);
    CopyEntriesLastDir("/s", "/d", entries, st, after);
    FileDestinationRaises("/s/1", "/d/1", [File("x")], after, 0);
    RaisedStateSame("/s/1", "/d/1", [File("x")], after);
  }

  /** A loop that raises on its first entry leaves the state as it was. */
  lemma RaisedStateSame(src: string, dest: string, entries: seq<Entry>, st: CopyState)
    requires |entries| == 1 && !entries[0].Dir? && dest !in st.dirs
    ensures CopyEntries(src, dest, entries, st).state == st
  {
    assert entries[..0] == [];
  }

  /** What `handle_input_file` does with the uploaded file. */
  datatype Staged =
    | ExtractTar                // tarfile extractall into the input directory
    | ExtractZip                // zipfile extractall into the input directory
    | CopyImage(target: string) // shutil.copy to input<index><ext>

  const ImageExtensions: seq<string> := [".jpg", ".jpeg", ".png", ".webp"]

  /** `f"input{index}{file_extension}"`. */
  function ImageName(index: nat, ext: string): string {
    "input" + NatToString(index) + ext
  }

  /** The dispatch of `handle_input_file(input_file, index)` on the
      lower-cased `os.path.splitext` extension. */
  function InputFileAction(path: string, index: nat): Result<Staged> {
    var ext := Lower(SplitExt(path));
    if ext == ".tar" then Success(ExtractTar)
    else if ext == ".zip" then Success(ExtractZip)
    else if ext in ImageExtensions then Success(CopyImage(Join(InputDir, ImageName(index, ext))))
    else Failure(UnsupportedFileType(ext))
  }

  /** The listing of the input directory holds the image just copied
      there, when the file is an image. */
  predicate ImageListed(path: string, index: nat, staged: seq<Entry>) {
    var ext := Lower(SplitExt(path));
    ext in ImageExtensions ==> File(ImageName(index, ext)) in staged
  }

  /** `handle_input_file(input_file, index)`. `staged` is the listing of
      the input directory once the file is in place (what an archive held
      is not modelled, an image is in it); on success it is synchronised
      into the engine's input folder by `copy_files`, which can raise. */
  method HandleInputFile(path: string, index: nat, staged: seq<Entry>, st: CopyState)
    returns (r: Result<Staged>, st': CopyState)
    requires ImageListed(path, index, staged)
    ensures InputFileAction(path, index).Failure? ==> r == InputFileAction(path, index) && st' == st
    ensures InputFileAction(path, index).Success? ==>
      var c := CopyFolder(InputDir, ComfyUIInputs, Some(staged), st);
      && st' == c.state
      && r == if c.raised.Some? then Failure(NotADirectory(c.raised.value)) else InputFileAction(path, index)
  {
    var ext := Lower(SplitExt(path));
    if ext == ".tar" {
      r := Success(ExtractTar);
    } else if ext == ".zip" {
      r := Success(ExtractZip);
    } else if ext in ImageExtensions {
      r := Success(CopyImage(Join(InputDir, ImageName(index, ext))));
    } else {
      return Failure(UnsupportedFileType(ext)), st;
    }
    var c := CopyFiles(InputDir, ComfyUIInputs, Some(staged), st);
    st' := c.state;
    if c.raised.Some? {
      r := Failure(NotADirectory(c.raised.value));
    }
  }

  lemma {:induction false} LastIndexLower(p: string, c: char)
    requires c == '/' || c == '.'
    ensures LastIndex(Lower(p), c) == LastIndex(p, c)
    decreases |p|
  {
    if p != [] {
      var n := |p| - 1;
      assert Lower(p)[..n] == Lower(p[..n]);
      LastIndexLower(p[..n], c);
    }
  }

  /** Lower-casing the path first gives the same extension: letter case
      never moves a separator or a dot. */
  lemma SplitExtLower(p: string)
    ensures SplitExt(Lower(p)) == Lower(SplitExt(p))
  {
    LastIndexLower(p, '/');
    LastIndexLower(p, '.');
    var q := Lower(p);
    var sep, dot := LastIndex(p, '/'), LastIndex(p, '.');
    if dot > sep && (exists k :: sep < k < dot && p[k] != '.') {
      var k :| sep < k < dot && p[k] != '.';
      assert q[k] != '.';
      assert q[dot..] == Lower(p[dot..]);
    }
    if dot > sep && (exists k :: sep < k < dot && q[k] != '.') {
      var k :| sep < k < dot && q[k] != '.';
      assert p[k] != '.';
    }
  }

  /** The dispatch ignores letter case: "photo.PNG" is staged like
      "photo.png". */
  lemma InputFileActionIgnoresCase(path: string, index: nat)
    ensures InputFileAction(Lower(path), index) == InputFileAction(path, index)
  {
    SplitExtLower(path);
    LowerIdempotent(SplitExt(path));
  }

  /** Tar and zip archives are extracted, the four image types copied, and
      every other extension is refused with that (lower-cased) extension. */
  lemma InputFileActionSpec(path: string, index: nat)
    ensures var ext := Lower(SplitExt(path));
      && (InputFileAction(path, index).Success? <==> ext in [".tar", ".zip"] + ImageExtensions)
      && (InputFileAction(path, index).Failure? ==> InputFileAction(path, index).error == UnsupportedFileType(ext))
      && (InputFileAction(path, index) == Success(ExtractTar) <==> ext == ".tar")
      && (InputFileAction(path, index) == Success(ExtractZip) <==> ext == ".zip")
  {
  }

  lemma DotAfterDigits(a: string, x: string)
    requires forall i :: 0 <= i < |a| ==> '0' <= a[i] <= '9'
    requires x != [] && x[0] == '.'
    ensures FirstIndex(a + x, '.') == |a|
  {
    FirstIndexSpec(a + x, '.');
    assert (a + x)[|a|] == '.';
    assert forall k :: 0 <= k < |a| ==> (a + x)[k] == a[k];
  }

  lemma DigitsBeforeDot(a: string, b: string, x: string, y: string)
    requires forall i :: 0 <= i < |a| ==> '0' <= a[i] <= '9'
    requires forall i :: 0 <= i < |b| ==> '0' <= b[i] <= '9'
    requires x != [] && x[0] == '.' && y != [] && y[0] == '.'
    requires a + x == b + y
    ensures a == b
  {
    DotAfterDigits(a, x);
    DotAfterDigits(b, y);
    assert a == (a + x)[..|a|] && b == (b + y)[..|b|];
  }

  /** The digits of an `input<digits><ext>` name are recovered from the path. */
  lemma InputNameDigits(a: string, x: string, b: string, y: string)
    requires forall i :: 0 <= i < |a| ==> '0' <= a[i] <= '9'
    requires forall i :: 0 <= i < |b| ==> '0' <= b[i] <= '9'
    requires x != [] && x[0] == '.' && y != [] && y[0] == '.'
    requires Join(InputDir, "input" + a + x) == Join(InputDir, "input" + b + y)
    ensures a == b
  {
    var n1, n2 := "input" + a + x, "input" + b + y;
    assert !StartsWith(n1, "/") by { assert n1[0] == 'i'; }
    assert !StartsWith(n2, "/") by { assert n2[0] == 'i'; }
    JoinInjective(InputDir, n1, n2);
    assert a + x == n1[5..] && b + y == n2[5..];
    DigitsBeforeDot(a, b, x, y);
  }

  lemma ImageNamesDistinct(i: nat, e1: string, j: nat, e2: string)
    requires e1 != [] && e1[0] == '.' && e2 != [] && e2[0] == '.'
    requires i != j
    ensures Join(InputDir, "input" + NatToString(i) + e1) != Join(InputDir, "input" + NatToString(j) + e2)
  {
    var a, b := NatToString(i), NatToString(j);
    if Join(InputDir, "input" + a + e1) == Join(InputDir, "input" + b + e2) {
      InputNameDigits(a, e1, b, e2);
      NatToStringInjective(i, j);
    }
  }

  /** Images staged under different indices never collide. */
  lemma ImageTargetsDistinct(p1: string, i: nat, p2: string, j: nat)
    requires InputFileAction(p1, i).Success? && InputFileAction(p1, i).value.CopyImage?
    requires InputFileAction(p2, j).Success? && InputFileAction(p2, j).value.CopyImage?
    requires i != j
    ensures InputFileAction(p1, i).value.target != InputFileAction(p2, j).value.target
  {
    var e1, e2 := Lower(SplitExt(p1)), Lower(SplitExt(p2));
    assert e1 in ImageExtensions && e2 in ImageExtensions;
    ImageNamesDistinct(i, e1, j, e2);
  }
}
