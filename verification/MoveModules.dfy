// Moving modules and rewriting the imports that name them
// (frontend/scripts/move-modules.ts, and the resolver it shares in
// lib/source-tree.ts). A tree is the set of its files; a source file is its
// text and the places in it that name a module.
module MoveModules {
  import opened Basics
  import opened Texts
  import opened Paths

  type Moves = map<Path, Path>

  function Moved(moves: Moves, file: Path): Path {
    if file in moves then moves[file] else file
  }

  // The tree once every file is at its new place.
  function TreeAfter(files: set<Path>, moves: Moves): set<Path> {
    set f | f in files :: Moved(moves, f)
  }

  /* ----- resolving ----- */

  const EXTENSIONS: seq<string> := [".mjs", ".js", ".mts", ".ts", ".jsx", ".tsx"]

  function Last(p: Path): string {
    if p == [] then "" else p[|p| - 1]
  }

  function Dirname(p: Path): Path {
    if p == [] then [] else p[..|p| - 1]
  }

  function WithExtension(base: Path, extension: string): Path {
    Dirname(base) + [Last(base) + extension]
  }

  // What a relative specifier may name, first match first: the path itself, a
  // module with an extension the bundler tries, that directory's index, and
  // then a file named in full or a declaration.
  function Candidate(base: Path, k: nat): Path
    requires k < 15
  {
    if 1 <= k < 7 then WithExtension(base, EXTENSIONS[k - 1])
    else if 7 <= k < 13 then base + ["index" + EXTENSIONS[k - 7]]
    else if k == 14 then WithExtension(base, ".d.ts")
    else base
  }

  function Candidates(base: Path): seq<Path> {
    seq(15, k requires 0 <= k < 15 => Candidate(base, k))
  }

  function First(candidates: seq<Path>, files: set<Path>): Option<Path> {
    if candidates == [] then None
    else if candidates[0] in files then Some(candidates[0])
    else First(candidates[1..], files)
  }

  function TargetAt(base: Path, files: set<Path>): Option<Path> {
    First(Candidates(base), files)
  }

  function TargetOf(fromFile: Path, specifier: string, files: set<Path>): Option<Path> {
    TargetAt(ResolveFrom(Dirname(fromFile), specifier), files)
  }

  // None of the first n candidates is a file.
  predicate Unrivalled(base: Path, n: nat, files: set<Path>)
    requires n <= 15
  {
    forall i :: 0 <= i < n ==> Candidate(base, i) !in files
  }

  lemma {:induction false} FirstIsTheOneUnrivalled(candidates: seq<Path>, files: set<Path>, target: Path)
    ensures First(candidates, files) == Some(target) <==>
              exists k :: 0 <= k < |candidates| && candidates[k] == target && target in files
                          && forall i :: 0 <= i < k ==> candidates[i] !in files
  {
    if candidates != [] {
      FirstIsTheOneUnrivalled(candidates[1..], files, target);
      if k :| 0 <= k < |candidates| && candidates[k] == target && target in files
              && forall i :: 0 <= i < k ==> candidates[i] !in files {
        if k > 0 {
          assert candidates[1..][k - 1] == target;
          forall i | 0 <= i < k - 1 ensures candidates[1..][i] !in files {
            assert candidates[1..][i] == candidates[i + 1];
          }
        }
      }
      if candidates[0] !in files && First(candidates, files) == Some(target) {
        var k :| 0 <= k < |candidates[1..]| && candidates[1..][k] == target
                 && forall i :: 0 <= i < k ==> candidates[1..][i] !in files;
        forall i | 0 <= i < k + 1 ensures candidates[i] !in files {
          if i > 0 { assert candidates[i] == candidates[1..][i - 1]; }
        }
        assert candidates[k + 1] == target;
      }
    }
  }

  lemma TargetIsTheOneUnrivalled(base: Path, files: set<Path>, target: Path)
    ensures TargetAt(base, files) == Some(target) <==>
              target in files && exists k :: 0 <= k < 15 && Candidate(base, k) == target && Unrivalled(base, k, files)
  {
    FirstIsTheOneUnrivalled(Candidates(base), files, target);
    assert forall k :: 0 <= k < 15 ==> Candidates(base)[k] == Candidate(base, k);
    if k :| 0 <= k < 15 && Candidate(base, k) == target && Unrivalled(base, k, files) {
      assert Candidates(base)[k] == target;
    }
    if k :| 0 <= k < 15 && Candidates(base)[k] == target && forall i :: 0 <= i < k ==> Candidates(base)[i] !in files {
      forall i | 0 <= i < k ensures Candidate(base, i) !in files {
        assert Candidates(base)[i] == Candidate(base, i);
      }
    }
  }

  /* ----- spelling ----- */

  function LastDot(name: string): (k: int)
    ensures -1 <= k < |name| && (k >= 0 ==> name[k] == '.')
    ensures forall i :: k < i < |name| ==> name[i] != '.'
  {
    if name == "" then -1
    else if name[|name| - 1] == '.' then |name| - 1
    else LastDot(name[..|name| - 1])
  }

  // The text from the last dot on, and nothing for a name that starts with its
  // only dot.
  function ExtName(name: string): (extension: string)
    ensures |extension| <= |name| && name[|name| - |extension|..] == extension
  {
    if name == ".." || LastDot(name) <= 0 then "" else name[LastDot(name)..]
  }

  predicate EndsWith(name: string, tail: string) {
    |tail| <= |name| && name[|name| - |tail|..] == tail
  }

  predicate Lower(s: string) {
    s != "" && forall i :: 0 <= i < |s| ==> 'a' <= s[i] <= 'z'
  }

  // index and an extension of lower-case letters.
  predicate IsIndexName(name: string) {
    |name| > 6 && name[..6] == "index." && Lower(name[6..])
  }

  // The last part that is not empty: what extname and basename look at.
  function LastPart(parts: seq<string>): string {
    if parts == [] then ""
    else if parts[|parts| - 1] != "" then parts[|parts| - 1]
    else LastPart(parts[..|parts| - 1])
  }

  // How a specifier names its file: with the extension, through a directory's
  // index, or without the extension.
  datatype Spelling = InFull | ThroughIndex | ByStem

  function SpellingOf(original: string, oldTarget: Path): Spelling {
    var parts := Split(original, '/');
    var tail, extension := parts[|parts| - 1], ExtName(LastPart(parts));
    if IsIndexName(Last(oldTarget)) && !(|parts| > 1 && (tail == "index" || IsIndexName(tail))) then ThroughIndex
    else if extension != "" && extension == ExtName(Last(oldTarget)) then InFull
    else ByStem
  }

  function Extension(name: string): (extension: string)
    ensures |extension| <= |name| && name[|name| - |extension|..] == extension
  {
    if EndsWith(name, ".d.ts") then ".d.ts" else ExtName(name)
  }

  // The path the new spelling is for. Taking the last zero characters off a
  // name takes all of it off, so a target without an extension leaves the
  // empty path, which is the working directory.
  function NamedPath(target: Path, spelling: Spelling, cwd: Path): Path {
    match spelling
    case InFull => target
    case ThroughIndex => Dirname(target)
    case ByStem =>
      var name := Last(target);
      var extension := Extension(name);
      if extension == "" then cwd else Enter(Dirname(target), name[..|name| - |extension|])
  }

  function SpecifierFor(fromFile: Path, target: Path, original: string, oldTarget: Path, cwd: Path): string {
    Spelled(Dirname(fromFile), NamedPath(target, SpellingOf(original, oldTarget), cwd))
  }

  // The specifier a file holds once everything has moved.
  function Rewritten(file: Path, original: string, moves: Moves, files: set<Path>, cwd: Path): string {
    var oldTarget := TargetOf(file, original, files);
    if original == "" || original[0] != '.' || oldTarget == None then original
    else if Moved(moves, oldTarget.value) == oldTarget.value && Moved(moves, file) == file then original
    else SpecifierFor(Moved(moves, file), Moved(moves, oldTarget.value), original, oldTarget.value, cwd)
  }

  /* ----- when a moved import still names its file ----- */

  predicate IsModuleIndex(target: Path, i: nat)
    requires i < 6
  {
    Last(target) == "index" + EXTENSIONS[i]
  }

  function Stem(target: Path): string {
    Last(target)[..|Last(target)| - |Extension(Last(target))|]
  }

  // Read off the tree after the move: a target spelled in full is always
  // found; one spelled through its index needs to be a module's index still;
  // one spelled by its stem needs a stem and an extension the resolver tries;
  // and neither of these may be preceded by another file.
  predicate StillNames(target: Path, spelling: Spelling, files: set<Path>) {
    match spelling
    case InFull => true
    case ThroughIndex => exists i :: 0 <= i < 6 && IsModuleIndex(target, i) && Unrivalled(Dirname(target), 7 + i, files)
    case ByStem =>
      var base := Dirname(target) + [Stem(target)];
      IsName(Stem(target))
      && ((exists i :: 0 <= i < 6 && Extension(Last(target)) == EXTENSIONS[i] && Unrivalled(base, 1 + i, files))
          || (Extension(Last(target)) == ".d.ts" && Unrivalled(base, 14, files)))
  }

  lemma ExtensionsAreLong(i: nat)
    requires i < 6
    ensures |EXTENSIONS[i]| > 2 && EXTENSIONS[i][0] == '.' && EXTENSIONS[i] != ".d.ts"
    ensures forall j :: 0 < j < |EXTENSIONS[i]| ==> EXTENSIONS[i][j] != '.'
  {
  }

  lemma AnExtensionIsSeen(name: string, i: nat)
    requires name != "" && i < 6
    ensures Extension(name + EXTENSIONS[i]) != "" && Extension(name + ".d.ts") != ""
  {
    ExtensionsAreLong(i);
    var whole := name + EXTENSIONS[i];
    assert whole[|name|] == '.' && |whole| > 2;
  }

  lemma AnExtensionStartsWithItsDot(name: string)
    ensures Extension(name) != "" ==> Extension(name)[0] == '.'
    ensures name == name[..|name| - |Extension(name)|] + Extension(name)
  {
  }

  lemma InFullNamesIt(target: Path, files: set<Path>)
    requires target in files
    ensures TargetAt(target, files) == Some(target)
  {
    TargetIsTheOneUnrivalled(target, files, target);
    assert Candidate(target, 0) == target;
  }

  lemma ThroughIndexNamesItExactlyWhen(target: Path, files: set<Path>)
    requires target in files && |target| > 1
    ensures TargetAt(Dirname(target), files) == Some(target) <==> StillNames(target, ThroughIndex, files)
  {
    var base := Dirname(target);
    TargetIsTheOneUnrivalled(base, files, target);
    assert target == base + [Last(target)];
    if i :| 0 <= i < 6 && IsModuleIndex(target, i) && Unrivalled(base, 7 + i, files) {
      assert Candidate(base, 7 + i) == target;
    }
    if k :| 0 <= k < 15 && Candidate(base, k) == target && Unrivalled(base, k, files) {
      assert 7 <= k < 13 by {
        assert |Candidate(base, k)| == |base| + 1;
      }
      assert IsModuleIndex(target, k - 7) && Unrivalled(base, 7 + (k - 7), files);
    }
  }

  lemma SameStem(stem: string, one: string, other: string)
    ensures stem + one == stem + other <==> one == other
  {
    assert (stem + one)[|stem|..] == one && (stem + other)[|stem|..] == other;
  }

  predicate TriedAt(extension: string, k: nat) {
    (1 <= k < 7 && extension == EXTENSIONS[k - 1]) || (k == 14 && extension == ".d.ts")
  }

  lemma WhereAStemIsTried(dir: Path, stem: string, extension: string, k: nat)
    requires k < 15 && extension != ""
    ensures Candidate(dir + [stem], k) == dir + [stem + extension] <==> TriedAt(extension, k)
  {
    var base, target := dir + [stem], dir + [stem + extension];
    assert Dirname(base) == dir && Last(base) == stem;
    if 1 <= k < 7 {
      SameStem(stem, EXTENSIONS[k - 1], extension);
      assert Candidate(base, k) == dir + [stem + EXTENSIONS[k - 1]];
      assert Candidate(base, k) == target ==> Last(Candidate(base, k)) == Last(target);
    } else if k == 14 {
      SameStem(stem, ".d.ts", extension);
      assert Candidate(base, k) == dir + [stem + ".d.ts"];
      assert Candidate(base, k) == target ==> Last(Candidate(base, k)) == Last(target);
    } else if k == 0 || k == 13 {
      SameStem(stem, "", extension);
      assert Candidate(base, k) == base && stem + "" == stem;
      assert base == target ==> Last(base) == Last(target);
    } else {
      assert |Candidate(base, k)| == |base| + 1;
    }
  }

  // Some candidate of this base is the target, and none before it is a file.
  predicate FoundAt(base: Path, extension: string, k: nat, files: set<Path>) {
    k < 15 && TriedAt(extension, k) && Unrivalled(base, k, files)
  }

  lemma AStemIsFoundExactlyWhen(dir: Path, stem: string, extension: string, files: set<Path>)
    requires extension != "" && dir + [stem + extension] in files
    ensures TargetAt(dir + [stem], files) == Some(dir + [stem + extension])
            <==> exists k: nat :: FoundAt(dir + [stem], extension, k, files)
  {
    var base, target := dir + [stem], dir + [stem + extension];
    TargetIsTheOneUnrivalled(base, files, target);
    forall k | 0 <= k < 15 ensures Candidate(base, k) == target <==> TriedAt(extension, k) {
      WhereAStemIsTried(dir, stem, extension, k);
    }
    if k: nat :| FoundAt(base, extension, k, files) {
      assert Candidate(base, k) == target;
    }
    if k :| 0 <= k < 15 && Candidate(base, k) == target && Unrivalled(base, k, files) {
      assert FoundAt(base, extension, k, files);
    }
  }

  lemma FoundAtMeans(base: Path, extension: string, files: set<Path>)
    ensures (exists k: nat :: FoundAt(base, extension, k, files))
            <==> (exists i :: 0 <= i < 6 && extension == EXTENSIONS[i] && Unrivalled(base, 1 + i, files))
                 || (extension == ".d.ts" && Unrivalled(base, 14, files))
  {
    if k: nat :| FoundAt(base, extension, k, files) {
      assert k < 7 ==> extension == EXTENSIONS[k - 1] && Unrivalled(base, 1 + (k - 1), files);
    }
    if i :| 0 <= i < 6 && extension == EXTENSIONS[i] && Unrivalled(base, 1 + i, files) {
      assert FoundAt(base, extension, 1 + i, files);
    }
    if extension == ".d.ts" && Unrivalled(base, 14, files) {
      assert FoundAt(base, extension, 14, files);
    }
  }

  lemma SplitBeforeTail(name: string, tail: string)
    requires |tail| <= |name| && name[|name| - |tail|..] == tail
    ensures name == name[..|name| - |tail|] + tail
  {
  }

  lemma DirnameAndLast(p: Path)
    requires p != []
    ensures p == Dirname(p) + [Last(p)]
  {
  }

  lemma NamedByItsStem(target: Path, cwd: Path)
    requires target != [] && IsName(Stem(target)) && Extension(Last(target)) != ""
    ensures NamedPath(target, ByStem, cwd) == Dirname(target) + [Stem(target)]
    ensures target == Dirname(target) + [Stem(target) + Extension(Last(target))]
  {
    DirnameAndLast(target);
    SplitBeforeTail(Last(target), Extension(Last(target)));
  }

  lemma ByStemNamesItExactlyWhen(target: Path, files: set<Path>, cwd: Path)
    requires target in files && |target| > 1 && IsName(Stem(target)) && Extension(Last(target)) != ""
    ensures TargetAt(NamedPath(target, ByStem, cwd), files) == Some(target) <==> StillNames(target, ByStem, files)
  {
    NamedByItsStem(target, cwd);
    AStemIsFoundExactlyWhen(Dirname(target), Stem(target), Extension(Last(target)), files);
    FoundAtMeans(Dirname(target) + [Stem(target)], Extension(Last(target)), files);
  }

  // A name whose stem is no name starts with a dot.
  lemma NoStemStartsWithADot(name: string)
    requires IsName(name) && Extension(name) != ""
    requires !IsName(name[..|name| - |Extension(name)|])
    ensures name[0] == '.'
  {
    AnExtensionStartsWithItsDot(name);
    var stem := name[..|name| - |Extension(name)|];
    assert '/' !in stem;
  }

  lemma AShorterBaseHoldsNoDottedFile(base: Path, target: Path, k: nat)
    requires |base| < |target| && |target| > 1 && Last(target) != "" && Last(target)[0] == '.' && k < 15
    ensures Candidate(base, k) != target
  {
    if 7 <= k < 13 {
      assert Last(Candidate(base, k))[0] == 'i';
    }
  }

  // A target left without a stem, or without an extension, is not found.
  lemma WithoutAStemItIsLost(target: Path, files: set<Path>, cwd: Path)
    requires target in files && |target| > 1 && Proper(target) && !IsName(Stem(target)) && Extension(Last(target)) != ""
    ensures |NamedPath(target, ByStem, cwd)| < |target|
    ensures TargetAt(NamedPath(target, ByStem, cwd), files) != Some(target)
  {
    NoStemStartsWithADot(Last(target));
    var base := NamedPath(target, ByStem, cwd);
    assert '/' !in Stem(target);
    TargetIsTheOneUnrivalled(base, files, target);
    forall k | 0 <= k < 15 ensures Candidate(base, k) != target {
      AShorterBaseHoldsNoDottedFile(base, target, k);
    }
  }

  lemma CandidatesHaveExtensions(base: Path, k: nat)
    requires Proper(base) && base != [] && k < 15 && k != 0 && k != 13
    ensures Extension(Last(Candidate(base, k))) != ""
  {
    if k < 7 { AnExtensionIsSeen(Last(base), k - 1); }
    else if k < 13 { AnExtensionIsSeen("index", k - 7); }
    else { AnExtensionIsSeen(Last(base), 0); }
  }

  lemma WithoutAnExtensionItIsLost(target: Path, files: set<Path>, cwd: Path)
    requires target in files && Extension(Last(target)) == ""
    requires Proper(cwd) && cwd != [] && cwd !in files
    ensures TargetAt(NamedPath(target, ByStem, cwd), files) != Some(target)
  {
    TargetIsTheOneUnrivalled(cwd, files, target);
    forall k | 0 <= k < 15 ensures Candidate(cwd, k) != target {
      if k != 0 && k != 13 { CandidatesHaveExtensions(cwd, k); }
    }
  }

  lemma ANamedPathIsProper(target: Path, spelling: Spelling, cwd: Path)
    requires Proper(target) && Proper(cwd) && target != []
    ensures Proper(NamedPath(target, spelling, cwd))
  {
    assert IsName(Last(target)) && '/' !in Stem(target);
  }

  // The path a rewritten specifier is spelled for leads to the moved file
  // exactly when the moved file can still be named that way.
  lemma ANamedPathLeadsToItsTargetExactlyWhen(target: Path, spelling: Spelling, files: set<Path>, cwd: Path)
    requires target in files && |target| > 1 && Proper(target)
    requires Proper(cwd) && cwd != [] && cwd !in files
    ensures Proper(NamedPath(target, spelling, cwd))
    ensures TargetAt(NamedPath(target, spelling, cwd), files) == Some(target) <==> StillNames(target, spelling, files)
  {
    ANamedPathIsProper(target, spelling, cwd);
    match spelling {
      case InFull => InFullNamesIt(target, files);
      case ThroughIndex => ThroughIndexNamesItExactlyWhen(target, files);
      case ByStem =>
        if Extension(Last(target)) == "" { WithoutAnExtensionItIsLost(target, files, cwd); }
        else if IsName(Stem(target)) { ByStemNamesItExactlyWhen(target, files, cwd); }
        else { WithoutAStemItIsLost(target, files, cwd); }
    }
  }

  // Whether anything about this import moved.
  predicate Follows(file: Path, target: Path, moves: Moves) {
    Moved(moves, target) != target || Moved(moves, file) != file
  }

  // The tree is one of proper paths below the working directory's parent, and
  // every move keeps it so.
  predicate WellPlaced(files: set<Path>, moves: Moves, cwd: Path) {
    && Proper(cwd) && cwd != [] && cwd !in TreeAfter(files, moves)
    && (forall f :: f in files ==> |f| > 1 && Proper(f))
    && (forall f :: f in moves ==> |moves[f]| > 1 && Proper(moves[f]))
  }

  lemma CandidatesHoldTheTarget(base: Path, files: set<Path>, target: Path)
    requires TargetAt(base, files) == Some(target)
    ensures target in files
  {
    TargetIsTheOneUnrivalled(base, files, target);
  }

  // For every relative specifier that named a file: if the importer or the
  // file moved, the specifier names the file at its new place, from the
  // importer's new place, exactly when the file can still be named that way.
  lemma AMovedImportNamesItsFileExactlyWhen(file: Path, original: string, target: Path, moves: Moves, files: set<Path>,
                                            cwd: Path)
    requires WellPlaced(files, moves, cwd) && file in files
    requires original != "" && original[0] == '.' && TargetOf(file, original, files) == Some(target)
    requires Follows(file, target, moves)
    ensures TargetOf(Moved(moves, file), Rewritten(file, original, moves, files, cwd), TreeAfter(files, moves))
            == Some(Moved(moves, target))
            <==> StillNames(Moved(moves, target), SpellingOf(original, target), TreeAfter(files, moves))
    ensures Rewritten(file, original, moves, files, cwd)[0] == '.'
  {
    CandidatesHoldTheTarget(ResolveFrom(Dirname(file), original), files, target);
    var target', after := Moved(moves, target), TreeAfter(files, moves);
    var spelling := SpellingOf(original, target);
    assert target' in after;
    ANamedPathLeadsToItsTargetExactlyWhen(target', spelling, after, cwd);
    SpelledResolves(Dirname(Moved(moves, file)), NamedPath(target', spelling, cwd));
  }

  // An import neither side of which moved keeps its text, and keeps naming its
  // file exactly when no file moved onto an earlier candidate.
  lemma AnUntouchedImportNamesItsFileExactlyWhen(file: Path, original: string, target: Path, moves: Moves,
                                                 files: set<Path>, cwd: Path)
    requires TargetOf(file, original, files) == Some(target) && !Follows(file, target, moves)
    ensures Rewritten(file, original, moves, files, cwd) == original
    ensures var base, after := ResolveFrom(Dirname(file), original), TreeAfter(files, moves);
            TargetOf(file, original, after) == Some(target)
            <==> exists k :: 0 <= k < 15 && Candidate(base, k) == target && Unrivalled(base, k, after)
  {
    var base, after := ResolveFrom(Dirname(file), original), TreeAfter(files, moves);
    CandidatesHoldTheTarget(base, files, target);
    assert Moved(moves, target) in after;
    TargetIsTheOneUnrivalled(base, after, target);
    if k :| 0 <= k < 15 && Candidate(base, k) == target && Unrivalled(base, k, after) {
      assert forall i :: 0 <= i < k ==> Candidate(base, i) !in after;
    }
  }

  // No path resolves to two files.
  ghost predicate NoStemIsAmbiguous(files: set<Path>) {
    forall base: Path, i, j :: 0 <= i < 15 && 0 <= j < 15
                               && Candidate(base, i) in files && Candidate(base, j) in files ==>
                                 Candidate(base, i) == Candidate(base, j)
  }

  // What a moved file has to keep: an index imported through its directory
  // stays a module's index, and a file imported by its stem keeps a stem and
  // an extension the resolver tries.
  predicate KeepsItsRole(target: Path, spelling: Spelling) {
    match spelling
    case InFull => true
    case ThroughIndex => exists i :: 0 <= i < 6 && IsModuleIndex(target, i)
    case ByStem => IsName(Stem(target))
                   && ((exists i :: 0 <= i < 6 && Extension(Last(target)) == EXTENSIONS[i])
                       || Extension(Last(target)) == ".d.ts")
  }

  lemma CandidatesDiffer(base: Path, i: nat, k: nat)
    requires base != [] && i < k < 15 && k != 13
    ensures Candidate(base, i) != Candidate(base, k)
  {
    var dir, stem := Dirname(base), Last(base);
    assert base == dir + [stem];
    if k < 7 || k == 14 {
      var extension := if k < 7 then EXTENSIONS[k - 1] else ".d.ts";
      WhereAStemIsTried(dir, stem, extension, k);
      WhereAStemIsTried(dir, stem, extension, i);
    } else if i >= 7 {
      assert Last(Candidate(base, i)) == "index" + EXTENSIONS[i - 7];
      assert Last(Candidate(base, k)) == "index" + EXTENSIONS[k - 7];
      SameStem("index", EXTENSIONS[i - 7], EXTENSIONS[k - 7]);
    } else {
      assert |Candidate(base, i)| == |base| && |Candidate(base, k)| == |base| + 1;
    }
  }

  lemma OnlyOneOfItsCandidates(base: Path, k: nat, files: set<Path>)
    requires base != [] && k < 15 && k != 13 && Candidate(base, k) in files && NoStemIsAmbiguous(files)
    ensures Unrivalled(base, k, files)
  {
    forall i | 0 <= i < k ensures Candidate(base, i) !in files {
      CandidatesDiffer(base, i, k);
    }
  }

  lemma AnIndexIsUnrivalled(target: Path, i: nat, files: set<Path>)
    requires target in files && |target| > 1 && NoStemIsAmbiguous(files) && i < 6 && IsModuleIndex(target, i)
    ensures Unrivalled(Dirname(target), 7 + i, files)
  {
    DirnameAndLast(target);
    assert Candidate(Dirname(target), 7 + i) == target;
    OnlyOneOfItsCandidates(Dirname(target), 7 + i, files);
  }

  lemma AStemIsUnrivalled(dir: Path, stem: string, extension: string, k: nat, files: set<Path>)
    requires dir + [stem + extension] in files && NoStemIsAmbiguous(files)
    requires k < 15 && extension != "" && TriedAt(extension, k)
    ensures Unrivalled(dir + [stem], k, files)
  {
    WhereAStemIsTried(dir, stem, extension, k);
    OnlyOneOfItsCandidates(dir + [stem], k, files);
  }

  lemma AStemsRoleIsEnough(target: Path, files: set<Path>)
    requires target in files && |target| > 1 && NoStemIsAmbiguous(files) && KeepsItsRole(target, ByStem)
    ensures StillNames(target, ByStem, files)
  {
    var dir, stem, extension := Dirname(target), Stem(target), Extension(Last(target));
    DirnameAndLast(target);
    SplitBeforeTail(Last(target), extension);
    if i :| 0 <= i < 6 && extension == EXTENSIONS[i] {
      ExtensionsAreLong(i);
      AStemIsUnrivalled(dir, stem, extension, 1 + i, files);
    } else {
      AStemIsUnrivalled(dir, stem, extension, 14, files);
    }
  }

  lemma WithoutAmbiguityTheRoleIsEnough(target: Path, spelling: Spelling, files: set<Path>)
    requires target in files && |target| > 1 && NoStemIsAmbiguous(files)
    ensures StillNames(target, spelling, files) <==> KeepsItsRole(target, spelling)
  {
    if spelling == ThroughIndex && KeepsItsRole(target, spelling) {
      var i :| 0 <= i < 6 && IsModuleIndex(target, i);
      AnIndexIsUnrivalled(target, i, files);
    } else if spelling == ByStem && KeepsItsRole(target, spelling) {
      AStemsRoleIsEnough(target, files);
    }
  }

  // Over a tree with no ambiguous stem after the move, every relative
  // specifier that named a file names it at its new place, exactly when its
  // file keeps its role; where neither side moved, always.
  lemma EveryImportFollowsItsFile(file: Path, original: string, target: Path, moves: Moves, files: set<Path>, cwd: Path)
    requires WellPlaced(files, moves, cwd) && file in files && NoStemIsAmbiguous(TreeAfter(files, moves))
    requires original != "" && original[0] == '.' && TargetOf(file, original, files) == Some(target)
    ensures TargetOf(Moved(moves, file), Rewritten(file, original, moves, files, cwd), TreeAfter(files, moves))
            == Some(Moved(moves, target))
            <==> !Follows(file, target, moves) || KeepsItsRole(Moved(moves, target), SpellingOf(original, target))
  {
    var base, after := ResolveFrom(Dirname(file), original), TreeAfter(files, moves);
    CandidatesHoldTheTarget(base, files, target);
    assert Moved(moves, target) in after;
    if Follows(file, target, moves) {
      AMovedImportNamesItsFileExactlyWhen(file, original, target, moves, files, cwd);
      WithoutAmbiguityTheRoleIsEnough(Moved(moves, target), SpellingOf(original, target), after);
    } else {
      TargetIsTheOneUnrivalled(base, files, target);
      TargetIsTheOneUnrivalled(base, after, target);
      var k :| 0 <= k < 15 && Candidate(base, k) == target && Unrivalled(base, k, files);
      AnUnmovedTargetIsStillFirst(base, after, target, k);
    }
  }

  // Where no path resolves to two files, whichever candidate is found is the
  // one it was.
  lemma AnUnmovedTargetIsStillFirst(base: Path, files: set<Path>, target: Path, k: nat)
    requires NoStemIsAmbiguous(files) && k < 15 && Candidate(base, k) == target && target in files
    ensures TargetAt(base, files) == Some(target)
  {
    FirstFinds(Candidates(base), files, k);
    var found := TargetAt(base, files).value;
    TargetIsTheOneUnrivalled(base, files, found);
  }

  lemma {:induction false} FirstFinds(candidates: seq<Path>, files: set<Path>, k: nat)
    requires k < |candidates| && candidates[k] in files
    ensures First(candidates, files).Some?
  {
    if candidates[0] !in files {
      assert candidates[1..][k - 1] == candidates[k];
      FirstFinds(candidates[1..], files, k - 1);
    }
  }

  // The role is lost without any ambiguity, and with no index about, by a file
  // that moves to a name with no extension and was not spelled with one:
  // its specifier is rewritten to one for the working directory.
  lemma AFileWithoutAnExtensionIsLost(fromFile: Path, target: Path, original: string, oldTarget: Path, cwd: Path)
    requires Proper(cwd) && Extension(Last(target)) == "" && SpellingOf(original, oldTarget) == ByStem
    ensures ResolveFrom(Dirname(fromFile), SpecifierFor(fromFile, target, original, oldTarget, cwd)) == cwd
    ensures !KeepsItsRole(target, ByStem)
  {
    SpelledResolves(Dirname(fromFile), cwd);
    forall i | 0 <= i < 6 ensures EXTENSIONS[i] != "" {
      ExtensionsAreLong(i);
    }
  }

  // One such import: ./a of a file named a.
  lemma ABareNameIsSpelledByItsStem()
    ensures TargetOf(["f", "b"], "./a", {["f", "a"]}) == Some(["f", "a"])
    ensures SpellingOf("./a", ["f", "a"]) == ByStem
  {
    var file: Path, target: Path, dir: Path := ["f", "b"], ["f", "a"], ["f"];
    var parts := ["a"];
    assert Dirname(file) == dir && dir + parts == target;
    SplitWithout("a", '/');
    DotStays(dir, "a");
    assert "./" + "a" == "./a";
    NamesAppend(dir, parts);
    InFullNamesIt(target, {target});
  }
}
