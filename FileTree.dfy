/** File listing: `ComfyUI.get_files` in comfyui.py.

    A directory is given by what `os.listdir` returns for it, each entry
    already classified by `os.path.isfile` / `os.path.isdir`. The walk skips
    every entry named `__MACOSX`, collects regular files as
    `os.path.join(directory, name)` and descends into directories; the
    result is filtered by extension when extensions are given, and sorted
    in the order of `pathlib.Path`. */
module FileTree {
  import opened Strings

  const MacOsMetadata: string := "__MACOSX"

  /** One entry of a directory listing: a regular file, a directory with
      its own listing, or anything else (a socket, a broken link). */
  datatype Entry =
    | File(name: string)
    | Dir(name: string, entries: seq<Entry>)
    | Other(name: string)

  /** A directory passed to `get_files`, with its listing. */
  datatype Listing = Listing(path: string, entries: seq<Entry>)

  /** `os.path.join(dir, c[0], c[1], ...)`. */
  function JoinPath(dir: string, components: seq<string>): string
    decreases |components|
  {
    if components == [] then dir else JoinPath(Join(dir, components[0]), components[1..])
  }

  function Prefixed(name: string, files: seq<seq<string>>): (r: seq<seq<string>>)
    ensures |r| == |files|
    ensures forall i :: 0 <= i < |files| ==> r[i] == [name] + files[i]
  {
    seq(|files|, i requires 0 <= i < |files| => [name] + files[i])
  }

  /** The regular files under a listing, as component lists relative to
      it, in listing order, depth first. */
  function RelWalk(entries: seq<Entry>): seq<seq<string>>
    decreases entries
  {
    if entries == [] then []
    else
      var e := entries[|entries| - 1];
      RelWalk(entries[..|entries| - 1])
        + if e.name == MacOsMetadata then []
          else match e
            case File(n) => [[n]]
            case Dir(n, sub) => Prefixed(n, RelWalk(sub))
            case Other(_) => []
  }

  /** The component list `c` leads through directories of the listing to a
      regular file. */
  ghost predicate FileAt(entries: seq<Entry>, c: seq<string>)
    decreases entries
  {
    exists k :: 0 <= k < |entries| && c != [] && entries[k].name == c[0] &&
      match entries[k]
      case File(_) => |c| == 1
      case Dir(_, sub) => FileAt(sub, c[1..])
      case Other(_) => false
  }

  function Paths(dir: string, files: seq<seq<string>>): (r: seq<string>)
    ensures |r| == |files|
    ensures forall i :: 0 <= i < |files| ==> r[i] == JoinPath(dir, files[i])
  {
    seq(|files|, i requires 0 <= i < |files| => JoinPath(dir, files[i]))
  }

  /** The paths the walk of a listing collects. */
  function Walk(dir: string, entries: seq<Entry>): seq<string> {
    Paths(dir, RelWalk(entries))
  }

  /** The walk of several directories, one after the other. */
  function WalkAll(directories: seq<Listing>): seq<string>
    decreases |directories|
  {
    if directories == [] then []
    else
      var d := directories[|directories| - 1];
      WalkAll(directories[..|directories| - 1]) + Walk(d.path, d.entries)
  }

  /** `f.name.split(".")[-1]`. */
  function Extension(path: string): string {
    AfterLast(Basename(path), '.')
  }

  /** `[f for f in files if f.name.split(".")[-1] in file_extensions]`. */
  function Filtered(files: seq<string>, extensions: seq<string>): seq<string>
    decreases |files|
  {
    if files == [] then []
    else
      var f := files[|files| - 1];
      Filtered(files[..|files| - 1], extensions) + if Extension(f) in extensions then [f] else []
  }

  /** `if file_extensions:` — an empty or absent list keeps every file. */
  function Selected(files: seq<string>, extensions: seq<string>): seq<string> {
    if extensions == [] then files else Filtered(files, extensions)
  }

  // The order of `pathlib.Path`: component lists compared lexicographically.
  // For paths without empty components that is the character order of the
  // strings with '/' ranked below every other character.

  function Rank(c: char): int {
    if c == '/' then -1 else c as int
  }

  predicate PathLeq(a: string, b: string)
    decreases |a|
  {
    a == [] || (b != [] && (Rank(a[0]) < Rank(b[0]) || (a[0] == b[0] && PathLeq(a[1..], b[1..]))))
  }

  lemma {:induction false} PathLeqTotal(a: string, b: string)
    ensures PathLeq(a, b) || PathLeq(b, a)
    decreases |a|
  {
    if a != [] && b != [] && a[0] == b[0] {
      PathLeqTotal(a[1..], b[1..]);
    }
  }

  lemma {:induction false} PathLeqTransitive(a: string, b: string, c: string)
    requires PathLeq(a, b) && PathLeq(b, c)
    ensures PathLeq(a, c)
    decreases |a|
  {
    if a != [] && a[0] == b[0] && b[0] == c[0] {
      PathLeqTransitive(a[1..], b[1..], c[1..]);
    }
  }

  lemma {:induction false} PathLeqAntisymmetric(a: string, b: string)
    requires PathLeq(a, b) && PathLeq(b, a)
    ensures a == b
    decreases |a|
  {
    if a != [] {
      PathLeqAntisymmetric(a[1..], b[1..]);
      assert a == [a[0]] + a[1..] && b == [b[0]] + b[1..];
    }
  }

  predicate Sorted(files: seq<string>) {
    forall i, j :: 0 <= i < j < |files| ==> PathLeq(files[i], files[j])
  }

  function Insert(f: string, files: seq<string>): (r: seq<string>)
    ensures multiset(r) == multiset(files) + multiset{f}
    decreases |files|
  {
    if files == [] then [f]
    else if PathLeq(f, files[0]) then [f] + files
    else
      assert files == [files[0]] + files[1..];
      [files[0]] + Insert(f, files[1..])
  }

  lemma SortedTail(files: seq<string>)
    requires Sorted(files) && files != []
    ensures Sorted(files[1..])
  {
    var tail := files[1..];
    forall i, j | 0 <= i < j < |tail| ensures PathLeq(tail[i], tail[j]) {
      assert tail[i] == files[i + 1] && tail[j] == files[j + 1];
    }
  }

  lemma SortedCons(f: string, files: seq<string>)
    requires Sorted(files)
    requires forall k :: 0 <= k < |files| ==> PathLeq(f, files[k])
    ensures Sorted([f] + files)
  {
    var r := [f] + files;
    forall i, j | 0 <= i < j < |r| ensures PathLeq(r[i], r[j]) {
      assert r[j] == files[j - 1];
      if i > 0 { assert r[i] == files[i - 1]; }
    }
  }

  lemma InsertMember(f: string, files: seq<string>, x: string)
    requires x in Insert(f, files)
    ensures x == f || x in files
  {
    assert x in multiset(Insert(f, files));
  }

  lemma {:induction false} InsertSorted(f: string, files: seq<string>)
    requires Sorted(files)
    ensures Sorted(Insert(f, files))
    decreases |files|
  {
    if files == [] {
    } else if PathLeq(f, files[0]) {
      forall k | 0 <= k < |files| ensures PathLeq(f, files[k]) {
        if k > 0 { PathLeqTransitive(f, files[0], files[k]); }
      }
      SortedCons(f, files);
    } else {
      var tail := files[1..];
      SortedTail(files);
      var rest := Insert(f, tail);
      InsertSorted(f, tail);
      PathLeqTotal(f, files[0]);
      forall k | 0 <= k < |rest| ensures PathLeq(files[0], rest[k]) {
        InsertMember(f, tail, rest[k]);
        if rest[k] != f {
          var m :| 0 <= m < |tail| && tail[m] == rest[k];
          assert files[m + 1] == rest[k];
        }
      }
      SortedCons(files[0], rest);
    }
  }

  /** `sorted(files)`. */
  function Sort(files: seq<string>): (r: seq<string>)
    ensures multiset(r) == multiset(files)
    decreases |files|
  {
    if files == [] then []
    else
      assert files == [files[0]] + files[1..];
      Insert(files[0], Sort(files[1..]))
  }

  lemma {:induction false} SortSorted(files: seq<string>)
    ensures Sorted(Sort(files))
    decreases |files|
  {
    if files != [] {
      SortSorted(files[1..]);
      InsertSorted(files[0], Sort(files[1..]));
    }
  }

  lemma SortedHeads(a: seq<string>, b: seq<string>)
    requires Sorted(a) && Sorted(b) && multiset(a) == multiset(b) && a != []
    ensures b != [] && a[0] == b[0]
  {
    assert a[0] in multiset(b) && b != [];
    assert b[0] in multiset(a);
    if a[0] != b[0] {
      var i :| 0 <= i < |b| && b[i] == a[0];
      var j :| 0 <= j < |a| && a[j] == b[0];
      assert PathLeq(b[0], b[i]) && PathLeq(a[0], a[j]);
      PathLeqAntisymmetric(a[0], b[0]);
    }
  }

  lemma MultisetTails(a: seq<string>, b: seq<string>)
    requires multiset(a) == multiset(b) && a != [] && b != [] && a[0] == b[0]
    ensures multiset(a[1..]) == multiset(b[1..])
  {
    assert a == [a[0]] + a[1..] && b == [b[0]] + b[1..];
    assert multiset(a) == multiset{a[0]} + multiset(a[1..]);
    assert multiset(b) == multiset{b[0]} + multiset(b[1..]);
    assert multiset(a[1..]) == multiset(a) - multiset{a[0]};
    assert multiset(b[1..]) == multiset(b) - multiset{b[0]};
  }

  /** Two sorted lists with the same elements are the same list, so the
      result of `sorted` does not depend on the listing order. */
  lemma {:induction false} SortedUnique(a: seq<string>, b: seq<string>)
    requires Sorted(a) && Sorted(b) && multiset(a) == multiset(b)
    ensures a == b
    decreases |a|
  {
    if a == [] {
      assert |b| == |multiset(b)| == 0;
    } else {
      SortedHeads(a, b);
      MultisetTails(a, b);
      SortedTail(a);
      SortedTail(b);
      SortedUnique(a[1..], b[1..]);
      assert a == [a[0]] + a[1..] && b == [b[0]] + b[1..];
    }
  }

  /** `[f for f in files if ...]` keeps every copy of a wanted path and no
      copy of any other. */
  lemma {:induction false} FilteredCount(files: seq<string>, extensions: seq<string>, p: string)
    ensures multiset(Filtered(files, extensions))[p]
         == if Extension(p) in extensions then multiset(files)[p] else 0
    decreases |files|
  {
    if files != [] {
      var n := |files| - 1;
      FilteredCount(files[..n], extensions, p);
      assert files == files[..n] + [files[n]];
    }
  }

  /** The extension filter keeps exactly the files whose extension is
      listed. */
  lemma FilteredIff(files: seq<string>, extensions: seq<string>, p: string)
    ensures p in Filtered(files, extensions) <==> p in files && Extension(p) in extensions
  {
    FilteredCount(files, extensions, p);
    assert p in Filtered(files, extensions) <==> p in multiset(Filtered(files, extensions));
    assert p in files <==> p in multiset(files);
  }

  lemma FilteredPermutation(a: seq<string>, b: seq<string>, extensions: seq<string>)
    requires multiset(a) == multiset(b)
    ensures multiset(Filtered(a, extensions)) == multiset(Filtered(b, extensions))
  {
    forall p ensures multiset(Filtered(a, extensions))[p] == multiset(Filtered(b, extensions))[p] {
      FilteredCount(a, extensions, p);
      FilteredCount(b, extensions, p);
    }
  }

  lemma PathsAppend(dir: string, a: seq<seq<string>>, b: seq<seq<string>>)
    ensures Paths(dir, a + b) == Paths(dir, a) + Paths(dir, b)
  {
  }

  lemma PathsPrefixed(dir: string, name: string, files: seq<seq<string>>)
    ensures Paths(dir, Prefixed(name, files)) == Paths(Join(dir, name), files)
  {
    var l, r := Paths(dir, Prefixed(name, files)), Paths(Join(dir, name), files);
    forall i | 0 <= i < |files| ensures l[i] == r[i] {
      assert ([name] + files[i])[1..] == files[i];
    }
  }

  /** What listing entry `e` adds to the walk of `dir`. */
  function EntryFiles(dir: string, e: Entry): seq<string> {
    if e.name == MacOsMetadata then []
    else match e
      case File(n) => [Join(dir, n)]
      case Dir(n, sub) => Walk(Join(dir, n), sub)
      case Other(_) => []
  }

  lemma WalkSnoc(dir: string, entries: seq<Entry>, k: nat)
    requires k < |entries|
    ensures Walk(dir, entries[..k + 1]) == Walk(dir, entries[..k]) + EntryFiles(dir, entries[k])
  {
    var e := entries[k];
    if e.name == MacOsMetadata || e.Other? {
      WalkSnocSkipped(dir, entries, k);
    } else if e.File? {
      WalkSnocFile(dir, entries, k);
    } else {
      WalkSnocDir(dir, entries, k);
    }
  }

  lemma WalkSnocSkipped(dir: string, entries: seq<Entry>, k: nat)
    requires k < |entries| && (entries[k].name == MacOsMetadata || entries[k].Other?)
    ensures Walk(dir, entries[..k + 1]) == Walk(dir, entries[..k])
  {
    assert entries[..k + 1][..k] == entries[..k];
    assert RelWalk(entries[..k + 1]) == RelWalk(entries[..k]) + [];
  }

  lemma WalkSnocFile(dir: string, entries: seq<Entry>, k: nat)
    requires k < |entries| && entries[k].name != MacOsMetadata && entries[k].File?
    ensures Walk(dir, entries[..k + 1]) == Walk(dir, entries[..k]) + [Join(dir, entries[k].name)]
  {
    var n := entries[k].name;
    assert entries[..k + 1][..k] == entries[..k];
    assert RelWalk(entries[..k + 1]) == RelWalk(entries[..k]) + [[n]];
    PathsAppend(dir, RelWalk(entries[..k]), [[n]]);
    assert [n][1..] == [];
    assert JoinPath(dir, [n]) == Join(dir, n);
    assert Paths(dir, [[n]]) == [Join(dir, n)];
  }

  lemma WalkSnocDir(dir: string, entries: seq<Entry>, k: nat)
    requires k < |entries| && entries[k].name != MacOsMetadata && entries[k].Dir?
    ensures Walk(dir, entries[..k + 1]) == Walk(dir, entries[..k]) + Walk(Join(dir, entries[k].name), entries[k].entries)
  {
    var n, sub := entries[k].name, entries[k].entries;
    assert entries[..k + 1][..k] == entries[..k];
    assert RelWalk(entries[..k + 1]) == RelWalk(entries[..k]) + Prefixed(n, RelWalk(sub));
    PathsAppend(dir, RelWalk(entries[..k]), Prefixed(n, RelWalk(sub)));
    PathsPrefixed(dir, n, RelWalk(sub));
  }

  lemma CollectStep(dir: string, entries: seq<Entry>, k: nat, collected: seq<string>, added: seq<string>)
    requires k < |entries|
    requires multiset(collected) == multiset(Walk(dir, entries[..k]))
    requires multiset(added) == multiset(EntryFiles(dir, entries[k]))
    ensures multiset(collected + added) == multiset(Walk(dir, entries[..k + 1]))
  {
    WalkSnoc(dir, entries, k);
  }

  /** The loop of `get_files` over one directory's entries, before the
      filter and the sort. */
  method Collect(dir: string, entries: seq<Entry>) returns (collected: seq<string>)
    ensures multiset(collected) == multiset(Walk(dir, entries))
    decreases entries, 0
  {
    collected := [];
    var k := 0;
    while k < |entries|
      invariant 0 <= k <= |entries|
      invariant multiset(collected) == multiset(Walk(dir, entries[..k]))
    {
      var e := entries[k];
      var added: seq<string> := [];
      if e.name != MacOsMetadata {
        var path := Join(dir, e.name);
        match e
        case File(_) =>
          added := [path];
        case Dir(_, sub) =>
          added := ListDirectory(path, sub);
        case Other(_) =>
      }
      assert multiset(added) == multiset(EntryFiles(dir, e));
      CollectStep(dir, entries, k, collected, added);
      collected := collected + added;
      k := k + 1;
    }
    assert entries[..|entries|] == entries;
  }

  /** The recursive call `get_files(path)` on a subdirectory: no filter,
      sorted. */
  method ListDirectory(dir: string, entries: seq<Entry>) returns (files: seq<string>)
    ensures Sorted(files)
    ensures multiset(files) == multiset(Walk(dir, entries))
    decreases entries, 1
  {
    var collected := Collect(dir, entries);
    files := Sort(collected);
    SortSorted(collected);
  }

  lemma WalkAllSnoc(directories: seq<Listing>, d: nat)
    requires d < |directories|
    ensures WalkAll(directories[..d + 1])
         == WalkAll(directories[..d]) + Walk(directories[d].path, directories[d].entries)
  {
    assert directories[..d + 1][..d] == directories[..d];
  }

  /** `get_files(directories, file_extensions=extensions)`: the files of the
      walk, filtered, in sorted order. Since a sorted list is determined by
      its elements, this is the one answer whatever order `os.listdir`
      gives. */
  method GetFiles(directories: seq<Listing>, extensions: seq<string>) returns (files: seq<string>)
    ensures Sorted(files)
    ensures multiset(files) == multiset(Selected(WalkAll(directories), extensions))
    ensures files == Sort(Selected(WalkAll(directories), extensions))
  {
    var collected: seq<string> := [];
    var d := 0;
    while d < |directories|
      invariant 0 <= d <= |directories|
      invariant multiset(collected) == multiset(WalkAll(directories[..d]))
    {
      var listed := Collect(directories[d].path, directories[d].entries);
      WalkAllSnoc(directories, d);
      collected := collected + listed;
      d := d + 1;
    }
    assert directories[..|directories|] == directories;
    if extensions != [] {
      FilteredPermutation(collected, WalkAll(directories), extensions);
      collected := Filtered(collected, extensions);
    }
    files := Sort(collected);
    SortSorted(collected);
    SortSorted(Selected(WalkAll(directories), extensions));
    SortedUnique(files, Sort(Selected(WalkAll(directories), extensions)));
  }

  lemma PrefixedIff(name: string, files: seq<seq<string>>, c: seq<string>)
    ensures c in Prefixed(name, files) <==> c != [] && c[0] == name && c[1..] in files
  {
    if c != [] && c[0] == name && c[1..] in files {
      var i :| 0 <= i < |files| && files[i] == c[1..];
      assert Prefixed(name, files)[i] == c;
    }
  }

  lemma FileAtSnoc(entries: seq<Entry>, c: seq<string>)
    requires entries != []
    ensures var n := |entries| - 1;
      var e := entries[n];
      FileAt(entries, c) <==>
        || FileAt(entries[..n], c)
        || (c != [] && e.name == c[0] &&
            match e
            case File(_) => |c| == 1
            case Dir(_, sub) => FileAt(sub, c[1..])
            case Other(_) => false)
  {
    var n := |entries| - 1;
    var front := entries[..n];
    if FileAt(entries, c) {
      var k :| 0 <= k < |entries| && c != [] && entries[k].name == c[0] &&
        match entries[k]
        case File(_) => |c| == 1
        case Dir(_, sub) => FileAt(sub, c[1..])
        case Other(_) => false;
      if k < n { assert front[k] == entries[k]; }
    }
    if FileAt(front, c) {
      var k :| 0 <= k < |front| && c != [] && front[k].name == c[0] &&
        match front[k]
        case File(_) => |c| == 1
        case Dir(_, sub) => FileAt(sub, c[1..])
        case Other(_) => false;
      assert entries[k] == front[k];
    }
  }

  lemma FileAtSnocDir(entries: seq<Entry>, c: seq<string>)
    requires entries != [] && entries[|entries| - 1].Dir?
    ensures var e := entries[|entries| - 1];
      FileAt(entries, c) <==>
        FileAt(entries[..|entries| - 1], c) || (c != [] && e.name == c[0] && FileAt(e.entries, c[1..]))
  {
    FileAtSnoc(entries, c);
  }

  lemma FileAtSnocFile(entries: seq<Entry>, c: seq<string>)
    requires entries != [] && entries[|entries| - 1].File?
    ensures FileAt(entries, c) <==>
      FileAt(entries[..|entries| - 1], c) || (c != [] && entries[|entries| - 1].name == c[0] && |c| == 1)
  {
    FileAtSnoc(entries, c);
  }

  lemma FileAtSnocOther(entries: seq<Entry>, c: seq<string>)
    requires entries != [] && entries[|entries| - 1].Other?
    ensures FileAt(entries, c) <==> FileAt(entries[..|entries| - 1], c)
  {
    FileAtSnoc(entries, c);
  }

  /** The walk finds exactly the regular files reachable through the
      listing without passing anything named `__MACOSX`: nothing of that
      name, and nothing beneath a directory of that name, at any depth. */
  lemma {:induction false} RelWalkIff(entries: seq<Entry>, c: seq<string>)
    ensures c in RelWalk(entries) <==> FileAt(entries, c) && MacOsMetadata !in c
    decreases entries
  {
    if entries != [] {
      var n := |entries| - 1;
      RelWalkIff(entries[..n], c);
      match entries[n]
      case Dir(name, sub) =>
        if c != [] {
          RelWalkIff(sub, c[1..]);
        }
        RelWalkStepDir(entries, c);
      case File(name) =>
        RelWalkStepFile(entries, c);
      case Other(_) =>
        RelWalkStepOther(entries, c);
    }
  }

  /** The walk's characterisation extends over a last entry that is a directory, ... */
  lemma RelWalkStepDir(entries: seq<Entry>, c: seq<string>)
    requires entries != [] && entries[|entries| - 1].Dir?
    requires var front := entries[..|entries| - 1];
      c in RelWalk(front) <==> FileAt(front, c) && MacOsMetadata !in c
    requires var sub := entries[|entries| - 1].entries;
      c != [] ==> (c[1..] in RelWalk(sub) <==> FileAt(sub, c[1..]) && MacOsMetadata !in c[1..])
    ensures c in RelWalk(entries) <==> FileAt(entries, c) && MacOsMetadata !in c
  {
    FileAtSnocDir(entries, c);
    RelWalkLastDir(entries, c);
    if c != [] {
      HeadTailMember(c, MacOsMetadata);
    }
  }

  lemma HeadTailMember(c: seq<string>, x: string)
    requires c != []
    ensures x in c <==> c[0] == x || x in c[1..]
  {
    assert c == [c[0]] + c[1..];
  }

  /** ... a regular file, ... */
  lemma RelWalkStepFile(entries: seq<Entry>, c: seq<string>)
    requires entries != [] && entries[|entries| - 1].File?
    requires var front := entries[..|entries| - 1];
      c in RelWalk(front) <==> FileAt(front, c) && MacOsMetadata !in c
    ensures c in RelWalk(entries) <==> FileAt(entries, c) && MacOsMetadata !in c
  {
    FileAtSnocFile(entries, c);
    RelWalkLastFile(entries, c);
    if c != [] && |c| == 1 {
      assert c == [c[0]];
    }
  }

  /** ... or anything else. */
  lemma RelWalkStepOther(entries: seq<Entry>, c: seq<string>)
    requires entries != [] && entries[|entries| - 1].Other?
    requires var front := entries[..|entries| - 1];
      c in RelWalk(front) <==> FileAt(front, c) && MacOsMetadata !in c
    ensures c in RelWalk(entries) <==> FileAt(entries, c) && MacOsMetadata !in c
  {
    FileAtSnocOther(entries, c);
    RelWalkLastOther(entries, c);
  }

  lemma RelWalkLastDir(entries: seq<Entry>, c: seq<string>)
    requires entries != [] && entries[|entries| - 1].Dir?
    ensures var e := entries[|entries| - 1];
      c in RelWalk(entries) <==>
        || c in RelWalk(entries[..|entries| - 1])
        || (e.name != MacOsMetadata && c != [] && c[0] == e.name && c[1..] in RelWalk(e.entries))
  {
    var e := entries[|entries| - 1];
    if e.name != MacOsMetadata {
      assert RelWalk(entries) == RelWalk(entries[..|entries| - 1]) + Prefixed(e.name, RelWalk(e.entries));
      PrefixedIff(e.name, RelWalk(e.entries), c);
    } else {
      assert RelWalk(entries) == RelWalk(entries[..|entries| - 1]) + [];
    }
  }

  lemma RelWalkLastFile(entries: seq<Entry>, c: seq<string>)
    requires entries != [] && entries[|entries| - 1].File?
    ensures var e := entries[|entries| - 1];
      c in RelWalk(entries) <==>
        c in RelWalk(entries[..|entries| - 1]) || (e.name != MacOsMetadata && c == [e.name])
  {
    var e := entries[|entries| - 1];
    if e.name != MacOsMetadata {
      assert RelWalk(entries) == RelWalk(entries[..|entries| - 1]) + [[e.name]];
    } else {
      assert RelWalk(entries) == RelWalk(entries[..|entries| - 1]) + [];
    }
  }

  lemma RelWalkLastOther(entries: seq<Entry>, c: seq<string>)
    requires entries != [] && entries[|entries| - 1].Other?
    ensures c in RelWalk(entries) <==> c in RelWalk(entries[..|entries| - 1])
  {
    assert RelWalk(entries) == RelWalk(entries[..|entries| - 1]) + [];
  }
}
