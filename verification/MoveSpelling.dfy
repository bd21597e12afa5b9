// What a rewritten specifier is spelled for, read off the old specifier and the
// two files alone: the moved file in full, its directory, or the file without
// its extension (frontend/scripts/move-modules.ts:131-151).
module MoveSpelling {
  import opened Basics
  import opened Texts
  import opened Paths
  import opened MoveModules

  /* ----- node's extname and the last part of a specifier ----- */

  lemma TheLastDotIsLast(name: string, at: nat)
    requires at < |name| && name[at] == '.' && forall i :: at < i < |name| ==> name[i] != '.'
    ensures LastDot(name) == at
  {
    var k := LastDot(name);
    assert k >= at;
  }

  lemma NoDotIsLast(name: string)
    requires '.' !in name
    ensures LastDot(name) == -1
  {
    var k := LastDot(name);
    if k >= 0 {
      assert name[k] == '.';
    }
  }

  lemma NoDotAfter(front: string, tail: string, i: nat)
    requires '.' !in tail && |front| < i < |front + "." + tail|
    ensures (front + "." + tail)[i] != '.'
  {
    assert (front + "." + tail)[i] == tail[i - |front| - 1];
  }

  lemma TheLastDotIs(front: string, tail: string)
    requires '.' !in tail
    ensures LastDot(front + "." + tail) == |front| && LastDot(tail) == -1
  {
    var whole := front + "." + tail;
    forall i: nat | |front| < i < |whole| ensures whole[i] != '.' {
      NoDotAfter(front, tail, i);
    }
    TheLastDotIsLast(whole, |front|);
    NoDotIsLast(tail);
  }

  // An extension runs from the last dot of a name; a name with no other dot
  // than its first character has none.
  lemma AnExtensionRunsFromTheLastDot(stem: string, letters: string)
    requires '.' !in letters
    ensures stem != "" && stem + "." + letters != ".." ==> ExtName(stem + "." + letters) == "." + letters
    ensures ExtName("." + letters) == "" == ExtName(letters)
    ensures Extension(stem + ".d.ts") == ".d.ts"
  {
    TheLastDotIs(stem, letters);
    TheLastDotIs("", letters);
    assert "" + "." + letters == "." + letters;
    assert (stem + "." + letters)[|stem|..] == "." + letters;
    assert (stem + ".d.ts")[|stem|..] == ".d.ts";
  }

  lemma {:induction false} SplitAtLast(front: string, tail: string, sep: char)
    requires sep !in tail
    ensures Split(front + [sep] + tail, sep) == Split(front, sep) + [tail]
  {
    var text := front + [sep] + tail;
    SplitWithout(tail, sep);
    if front == "" {
      assert text[1..] == tail;
    } else {
      assert text[1..] == front[1..] + [sep] + tail;
      SplitAtLast(front[1..], tail, sep);
    }
  }

  // The last part of a specifier that does not end in a slash.
  lemma TheLastPartIs(front: string, tail: string)
    requires '/' !in tail && tail != ""
    ensures var parts := Split(front + "/" + tail, '/');
            |parts| > 1 && parts[|parts| - 1] == tail == LastPart(parts)
  {
    SplitAtLast(front, tail, '/');
  }

  // A slash at the end is passed over.
  lemma ATrailingSlashIsPassedOver(specifier: string)
    ensures LastPart(Split(specifier + "/", '/')) == LastPart(Split(specifier, '/'))
  {
    SplitAtLast(specifier, "", '/');
    assert specifier + "/" + "" == specifier + "/";
  }

  /* ----- what the new specifier is spelled for ----- */

  // The specifier goes through a directory's index without saying so.
  predicate LeavesIndexUnsaid(original: string, oldTarget: Path) {
    var parts := Split(original, '/');
    var tail := parts[|parts| - 1];
    IsIndexName(Last(oldTarget)) && tail != "index" && !IsIndexName(tail)
  }

  // It says the extension its file has.
  predicate SaysTheExtension(original: string, oldTarget: Path) {
    var extension := ExtName(LastPart(Split(original, '/')));
    extension != "" && extension == ExtName(Last(oldTarget))
  }

  // An index is index, a dot, and small letters.
  lemma TheIndexNamesAre(name: string)
    ensures IsIndexName(name) <==>
              |name| > 6 && name[..6] == "index." && forall i :: 6 <= i < |name| ==> 0x61 <= name[i] as int <= 0x7A
  {
    if |name| > 6 {
      assert forall i :: 6 <= i < |name| ==> name[i] == name[6..][i - 6];
      assert forall i :: 0 <= i < |name| - 6 ==> name[6..][i] == name[i + 6];
    }
  }

  lemma AnIndexIsNamedIndex(name: string)
    requires IsIndexName(name)
    ensures name == "index" + "." + name[6..] && '.' !in name[6..] && name[0] == 'i'
  {
    assert name == name[..6] + name[6..];
  }

  lemma ADottedPartIsNoIndex(original: string)
    requires original != "" && original[0] == '.' && '/' !in original
    ensures Split(original, '/') == [original] && original != "index" && !IsIndexName(original)
  {
    SplitWithout(original, '/');
    if IsIndexName(original) {
      AnIndexIsNamedIndex(original);
    }
  }

  lemma {:induction false} OnePartHasNoSlash(original: string)
    ensures |Split(original, '/')| == 1 ==> '/' !in original
  {
    if original != "" {
      OnePartHasNoSlash(original[1..]);
      assert original == [original[0]] + original[1..];
    }
  }

  lemma WhichSpellingItIs(original: string, oldTarget: Path)
    requires original != "" && original[0] == '.'
    ensures SpellingOf(original, oldTarget)
         == if LeavesIndexUnsaid(original, oldTarget) then ThroughIndex
            else if SaysTheExtension(original, oldTarget) then InFull else ByStem
  {
    OnePartHasNoSlash(original);
    if |Split(original, '/')| == 1 {
      ADottedPartIsNoIndex(original);
    }
  }

  lemma ItsNamedPathIsWhereItLeads(file: Path, original: string, target: Path, moves: Moves, files: set<Path>,
                                   cwd: Path)
    requires WellPlaced(files, moves, cwd) && file in files
    requires original != "" && original[0] == '.' && TargetOf(file, original, files) == Some(target)
    requires Follows(file, target, moves)
    ensures Moved(moves, target) in TreeAfter(files, moves)
    ensures ResolveFrom(Dirname(Moved(moves, file)), Rewritten(file, original, moves, files, cwd))
         == NamedPath(Moved(moves, target), SpellingOf(original, target), cwd)
  {
    CandidatesHoldTheTarget(ResolveFrom(Dirname(file), original), files, target);
    ANamedPathIsProper(Moved(moves, target), SpellingOf(original, target), cwd);
    SpelledResolves(Dirname(Moved(moves, file)), NamedPath(Moved(moves, target), SpellingOf(original, target), cwd));
  }

  // A path without its extension, and the working directory for one that has
  // none.
  ghost predicate IsWithoutExtension(path: Path, target: Path, cwd: Path) {
    if Extension(Last(target)) == "" then path == cwd
    else exists stem :: Last(target) == stem + Extension(Last(target)) && path == Enter(Dirname(target), stem)
  }

  lemma ByStemIsWithoutExtension(target: Path, cwd: Path)
    ensures IsWithoutExtension(NamedPath(target, ByStem, cwd), target, cwd)
  {
    if Extension(Last(target)) != "" {
      AnExtensionStartsWithItsDot(Last(target));
    }
  }

  // A relative import one side of which moved, in its three families. Said in
  // full, it is spelled for the moved file itself and finds it whatever else
  // is about; with an index left unsaid, for the moved file's directory; and
  // otherwise for the moved file's path without its extension.
  lemma WhatAMovedImportIsSpelledFor(file: Path, original: string, target: Path, moves: Moves, files: set<Path>,
                                     cwd: Path)
    requires WellPlaced(files, moves, cwd) && file in files
    requires original != "" && original[0] == '.' && TargetOf(file, original, files) == Some(target)
    requires Follows(file, target, moves)
    ensures var file', target' := Moved(moves, file), Moved(moves, target);
            var specifier := Rewritten(file, original, moves, files, cwd);
            var path := ResolveFrom(Dirname(file'), specifier);
            if LeavesIndexUnsaid(original, target) then path == Dirname(target')
            else if SaysTheExtension(original, target) then
              path == target' && TargetOf(file', specifier, TreeAfter(files, moves)) == Some(target')
            else IsWithoutExtension(path, target', cwd)
  {
    ItsNamedPathIsWhereItLeads(file, original, target, moves, files, cwd);
    WhichSpellingItIs(original, target);
    InFullNamesIt(Moved(moves, target), TreeAfter(files, moves));
    ByStemIsWithoutExtension(Moved(moves, target), cwd);
  }

  // A stylesheet, say: an import that ends in its file's own extension goes on
  // naming that file, in full.
  lemma AnImportSaidInFullFollowsItsFile(file: Path, front: string, stem: string, name: string, letters: string,
                                         target: Path, moves: Moves, files: set<Path>, cwd: Path)
    requires WellPlaced(files, moves, cwd) && file in files
    requires '.' !in letters && '/' !in letters && letters != "" && '/' !in stem && stem != ""
    requires name != "" && name != "index" && target != [] && Last(target) == name + "." + letters
    requires front != "" && front[0] == '.'
    requires TargetOf(file, front + "/" + (stem + "." + letters), files) == Some(target) && Follows(file, target, moves)
    ensures var specifier := Rewritten(file, front + "/" + (stem + "." + letters), moves, files, cwd);
            && ResolveFrom(Dirname(Moved(moves, file)), specifier) == Moved(moves, target)
            && TargetOf(Moved(moves, file), specifier, TreeAfter(files, moves)) == Some(Moved(moves, target))
  {
    var original := front + "/" + (stem + "." + letters);
    TheLastPartIs(front, stem + "." + letters);
    AnExtensionRunsFromTheLastDot(stem, letters);
    AnExtensionRunsFromTheLastDot(name, letters);
    OnlyAnIndexIsNamedIndex(name, letters);
    WhatAMovedImportIsSpelledFor(file, original, target, moves, files, cwd);
  }

  lemma OnlyAnIndexIsNamedIndex(name: string, letters: string)
    requires '.' !in letters
    ensures IsIndexName(name + "." + letters) ==> name == "index"
  {
    var whole := name + "." + letters;
    if IsIndexName(whole) {
      AnIndexIsNamedIndex(whole);
      TheLastDotIs(name, letters);
      TheLastDotIs("index", whole[6..]);
      assert name == whole[..5];
    }
  }

  // What is no relative specifier, or names no file, is left alone.
  lemma OnlyRelativeImportsOfFilesChange(file: Path, original: string, moves: Moves, files: set<Path>, cwd: Path)
    ensures original == "" || original[0] != '.' || TargetOf(file, original, files) == None ==>
              Rewritten(file, original, moves, files, cwd) == original
  {
  }

  // What the resolver tries for a path, in order: the path as it stands, with
  // an extension, as a directory with an index, in full, and as a declaration.
  lemma TheResolverTries(dir: Path, name: string)
    ensures var base := dir + [name];
            && Candidate(base, 0) == base
            && Candidate(base, 1) == dir + [name + ".mjs"] && Candidate(base, 2) == dir + [name + ".js"]
            && Candidate(base, 3) == dir + [name + ".mts"] && Candidate(base, 4) == dir + [name + ".ts"]
            && Candidate(base, 5) == dir + [name + ".jsx"] && Candidate(base, 6) == dir + [name + ".tsx"]
            && Candidate(base, 7) == base + ["index.mjs"] && Candidate(base, 8) == base + ["index.js"]
            && Candidate(base, 9) == base + ["index.mts"] && Candidate(base, 10) == base + ["index.ts"]
            && Candidate(base, 11) == base + ["index.jsx"] && Candidate(base, 12) == base + ["index.tsx"]
            && Candidate(base, 13) == base && Candidate(base, 14) == dir + [name + ".d.ts"]
  {
    var base := dir + [name];
    assert Dirname(base) == dir && Last(base) == name;
    assert "index" + ".mjs" == "index.mjs" && "index" + ".js" == "index.js" && "index" + ".mts" == "index.mts";
    assert "index" + ".ts" == "index.ts" && "index" + ".jsx" == "index.jsx" && "index" + ".tsx" == "index.tsx";
  }
}
