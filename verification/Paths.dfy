// Absolute paths as the segments below the root, and the arithmetic the move
// script does on them: resolving a relative specifier, and spelling one
// (frontend/scripts/move-modules.ts, through node's path functions).
module Paths {
  import opened Texts

  type Path = seq<string>

  // A name a directory can hold.
  predicate IsName(s: string) {
    s != "" && s != "." && s != ".." && '/' !in s
  }

  predicate Proper(p: Path) {
    forall i :: 0 <= i < |p| ==> IsName(p[i])
  }

  function Enter(dir: Path, part: string): Path {
    if part == "" || part == "." then dir
    else if part == ".." then if dir == [] then [] else dir[..|dir| - 1]
    else dir + [part]
  }

  function Resolve(dir: Path, parts: seq<string>): Path {
    if parts == [] then dir else Enter(Resolve(dir, parts[..|parts| - 1]), parts[|parts| - 1])
  }

  function Shared(a: Path, b: Path): (n: nat)
    ensures n <= |a| && n <= |b| && a[..n] == b[..n]
  {
    if a == [] || b == [] || a[0] != b[0] then 0
    else
      assert a == [a[0]] + a[1..] && b == [b[0]] + b[1..];
      1 + Shared(a[1..], b[1..])
  }

  function Ups(k: nat): seq<string> {
    if k == 0 then [] else Ups(k - 1) + [".."]
  }

  function Relative(from: Path, to: Path): seq<string> {
    var n := Shared(from, to);
    Ups(|from| - n) + to[n..]
  }

  // A spelling that does not start with a dot gets one.
  function Dotted(joined: string): string {
    if joined != "" && joined[0] == '.' then joined else "./" + joined
  }

  function Spelled(dir: Path, path: Path): string {
    Dotted(Join(Relative(dir, path), '/'))
  }

  function ResolveFrom(dir: Path, specifier: string): Path {
    Resolve(dir, Split(specifier, '/'))
  }

  lemma {:induction false} ResolveInTwo(dir: Path, first: seq<string>, second: seq<string>)
    ensures Resolve(dir, first + second) == Resolve(Resolve(dir, first), second)
    decreases |second|
  {
    if second == [] {
      assert first + second == first;
    } else {
      assert (first + second)[..|first + second| - 1] == first + second[..|second| - 1];
      ResolveInTwo(dir, first, second[..|second| - 1]);
    }
  }

  lemma {:induction false} NamesAppend(dir: Path, names: Path)
    requires Proper(names)
    ensures Resolve(dir, names) == dir + names
  {
    if names != [] {
      NamesAppend(dir, names[..|names| - 1]);
      assert names == names[..|names| - 1] + [names[|names| - 1]];
    }
  }

  lemma {:induction false} UpsClimb(dir: Path, k: nat)
    requires k <= |dir|
    ensures Resolve(dir, Ups(k)) == dir[..|dir| - k]
    ensures |Ups(k)| == k && forall i :: 0 <= i < k ==> Ups(k)[i] == ".."
  {
    if k > 0 {
      UpsClimb(dir, k - 1);
      assert Ups(k)[..k - 1] == Ups(k - 1);
    }
  }

  lemma RelativeResolves(from: Path, to: Path)
    requires Proper(to)
    ensures Resolve(from, Relative(from, to)) == to
  {
    var n := Shared(from, to);
    var back, down := Ups(|from| - n), to[n..];
    UpThere(from, to);
    DownAgain(to, n);
    ResolveInTwo(from, back, down);
    assert Resolve(from, back + down) == Resolve(to[..n], down) == to;
  }

  lemma UpThere(from: Path, to: Path)
    ensures Resolve(from, Ups(|from| - Shared(from, to))) == to[..Shared(from, to)]
  {
    UpsClimb(from, |from| - Shared(from, to));
    assert from[..|from| - (|from| - Shared(from, to))] == from[..Shared(from, to)];
  }

  lemma DownAgain(to: Path, n: nat)
    requires Proper(to) && n <= |to|
    ensures Resolve(to[..n], to[n..]) == to
  {
    NamesAppend(to[..n], to[n..]);
    assert to == to[..n] + to[n..];
  }

  lemma UpsAreFree(k: nat)
    ensures Free(Ups(k), '/')
  {
    var dir := seq(k, i => "");
    UpsClimb(dir, k);
    forall i | 0 <= i < |Ups(k)| ensures '/' !in Ups(k)[i] {
      assert Ups(k)[i] == "..";
    }
  }

  lemma FreeInTwo(first: seq<string>, second: seq<string>, sep: char)
    requires Free(first, sep) && Free(second, sep)
    ensures Free(first + second, sep)
  {
  }

  lemma NamesAreFree(p: Path, n: nat)
    requires Proper(p) && n <= |p|
    ensures Free(p[n..], '/')
  {
    forall i | 0 <= i < |p[n..]| ensures '/' !in p[n..][i] {
      assert IsName(p[n + i]);
    }
  }

  lemma RelativeIsFree(from: Path, to: Path)
    requires Proper(to)
    ensures Free(Relative(from, to), '/')
  {
    var n := Shared(from, to);
    UpsAreFree(|from| - n);
    NamesAreFree(to, n);
    FreeInTwo(Ups(|from| - n), to[n..], '/');
  }

  lemma RelativeStarts(from: Path, to: Path)
    ensures |Relative(from, to)| == |from| + |to| - 2 * Shared(from, to)
    ensures Relative(from, to) != [] ==>
              Relative(from, to)[0] == if Shared(from, to) < |from| then ".." else to[Shared(from, to)]
  {
    UpsClimb(from, |from| - Shared(from, to));
  }

  // A leading dot, or a dot and a slash, goes nowhere.
  lemma DotStays(dir: Path, joined: string)
    ensures Split("./" + joined, '/') == ["."] + Split(joined, '/')
    ensures ResolveFrom(dir, "./" + joined) == ResolveFrom(dir, joined)
  {
    SplitAtFirst(".", joined, '/');
    assert "./" + joined == "." + ['/'] + joined;
    var dot := ["."];
    assert dot[..0] == [] && Resolve(dir, dot) == dir;
    ResolveInTwo(dir, dot, Split(joined, '/'));
  }

  lemma JoinedResolves(dir: Path, parts: seq<string>)
    requires Free(parts, '/')
    ensures ResolveFrom(dir, Join(parts, '/')) == Resolve(dir, parts)
  {
    if parts == [] {
      var blank := [""];
      assert blank[..0] == [] && Resolve(dir, blank) == dir;
    } else {
      SplitUndoesJoin(parts, '/');
    }
  }

  lemma DottedGoesTheSame(dir: Path, joined: string)
    ensures ResolveFrom(dir, Dotted(joined)) == ResolveFrom(dir, joined)
    ensures Dotted(joined) != "" && Dotted(joined)[0] == '.'
  {
    DotStays(dir, joined);
  }

  // What is spelled for a path resolves to that path, and is read back as a
  // relative specifier.
  lemma SpelledResolves(dir: Path, path: Path)
    requires Proper(path)
    ensures ResolveFrom(dir, Spelled(dir, path)) == path
    ensures Spelled(dir, path)[0] == '.'
  {
    RelativeResolves(dir, path);
    RelativeIsFree(dir, path);
    JoinedResolves(dir, Relative(dir, path));
    DottedGoesTheSame(dir, Join(Relative(dir, path), '/'));
  }

  lemma {:induction false} SharedAtLeast(a: Path, b: Path, n: nat)
    requires n <= |a| && n <= |b| && a[..n] == b[..n]
    ensures Shared(a, b) >= n
  {
    if n > 0 {
      assert a[0] == a[..n][0] == b[..n][0] == b[0];
      assert a[1..][..n - 1] == a[..n][1..] == b[..n][1..] == b[1..][..n - 1];
      SharedAtLeast(a[1..], b[1..], n - 1);
    }
  }

  // Steps between two directories: up to the one they share, and down.
  function Distance(a: Path, b: Path): nat {
    |a| + |b| - 2 * Shared(a, b)
  }

  lemma OnePartIsOneStep(dir: Path, at: Path, part: string)
    ensures Distance(dir, Enter(at, part)) <= Distance(dir, at) + 1
  {
    var n := Shared(dir, at);
    if Enter(at, part) == at + [part] {
      assert (at + [part])[..n] == at[..n];
      SharedAtLeast(dir, at + [part], n);
    } else if at != [] && Enter(at, part) == at[..|at| - 1] && n > 0 {
      assert at[..|at| - 1][..n - 1] == at[..n][..n - 1] == dir[..n][..n - 1] == dir[..n - 1];
      SharedAtLeast(dir, at[..|at| - 1], n - 1);
    }
  }

  lemma {:induction false} PartsAreSteps(dir: Path, parts: seq<string>)
    ensures Distance(dir, Resolve(dir, parts)) <= |parts|
  {
    if parts == [] {
      SharedAtLeast(dir, dir, |dir|);
    } else {
      PartsAreSteps(dir, parts[..|parts| - 1]);
      OnePartIsOneStep(dir, Resolve(dir, parts[..|parts| - 1]), parts[|parts| - 1]);
    }
  }

  // No spelling of a path from a directory has fewer parts, names and climbs
  // counted, than the one the script gives it.
  lemma NoSpellingIsShorter(dir: Path, path: Path, parts: seq<string>)
    requires Resolve(dir, parts) == path
    ensures |Relative(dir, path)| <= |parts|
  {
    UpsClimb(dir, |dir| - Shared(dir, path));
    PartsAreSteps(dir, parts);
  }

  // A bundler reads a specifier as relative when it is a dot or two, alone or
  // before a slash.
  predicate BundlerRelative(specifier: string) {
    Split(specifier, '/')[0] == "." || Split(specifier, '/')[0] == ".."
  }

  // The dot test is not that test: a path below a directory whose own name
  // starts with a dot is spelled bare, and every other path is not.
  lemma BareExactlyBelowADotDirectory(dir: Path, path: Path)
    requires Proper(path)
    ensures BundlerRelative(Spelled(dir, path)) <==>
              !(Shared(dir, path) == |dir| < |path| && path[|dir|][0] == '.')
  {
    var parts := Relative(dir, path);
    RelativeIsFree(dir, path);
    RelativeStarts(dir, path);
    DotStays(dir, Join(parts, '/'));
    if parts != [] {
      SplitUndoesJoin(parts, '/');
      assert Join(parts, '/')[0] == parts[0][0];
    }
  }
}
