// The two loops of the move script: planning the moves, and splicing the new
// specifiers into a file's text (frontend/scripts/move-modules.ts).
module MoveRewriter {
  import opened Basics
  import opened Texts
  import opened Paths
  import opened MoveModules

  /* ----- planning ----- */

  datatype PlanError = MovedTwice(file: Path) | TwoFilesMoveTo(target: Path)

  datatype Disk = Disk(filesIn: Path -> seq<Path>, isDirectory: Path -> bool)

  // A directory keeps the layout under it; a file moved onto a directory lands
  // inside it.
  function TargetFor(disk: Disk, from: Path, to: Path, file: Path): Path {
    if disk.isDirectory(from) then Resolve(to, Relative(from, file))
    else if disk.isDirectory(to) then to + [Last(file)]
    else to
  }

  function FilesOf(disk: Disk, from: Path): seq<Path> {
    if disk.isDirectory(from) then disk.filesIn(from) else [from]
  }

  type Step = (Path, Path)

  function PairMoves(disk: Disk, from: Path, to: Path): seq<Step> {
    var files := FilesOf(disk, from);
    seq(|files|, i requires 0 <= i < |files| => (files[i], TargetFor(disk, from, to, files[i])))
  }

  function AllMoves(disk: Disk, pairs: seq<(Path, Path)>): seq<Step> {
    if pairs == [] then []
    else AllMoves(disk, pairs[..|pairs| - 1]) + PairMoves(disk, pairs[|pairs| - 1].0, pairs[|pairs| - 1].1)
  }

  predicate FilesDiffer(steps: seq<Step>) {
    forall i, j :: 0 <= i < j < |steps| ==> steps[i].0 != steps[j].0
  }

  predicate TargetsDiffer(steps: seq<Step>) {
    forall i, j :: 0 <= i < j < |steps| ==> steps[i].1 != steps[j].1
  }

  predicate Names(steps: seq<Step>, file: Path) {
    exists i :: 0 <= i < |steps| && steps[i].0 == file
  }

  // The map that these moves are, one entry per file.
  predicate Holds(moves: Moves, steps: seq<Step>) {
    && (forall i :: 0 <= i < |steps| ==> steps[i].0 in moves && moves[steps[i].0] == steps[i].1)
    && (forall f :: f in moves ==> Names(steps, f))
  }

  lemma OneMoreMove(moves: Moves, steps: seq<Step>, file: Path, target: Path)
    requires Holds(moves, steps) && FilesDiffer(steps) && file !in moves
    ensures Holds(moves[file := target], steps + [(file, target)]) && FilesDiffer(steps + [(file, target)])
  {
    var longer := steps + [(file, target)];
    assert longer[|steps|].0 == file;
    forall f | f in moves ensures Names(longer, f) {
      var i :| 0 <= i < |steps| && steps[i].0 == f;
      assert longer[i].0 == f;
    }
  }

  lemma AllMovesGrow(disk: Disk, pairs: seq<(Path, Path)>, i: nat)
    requires i < |pairs|
    ensures AllMoves(disk, pairs[..i + 1]) == AllMoves(disk, pairs[..i]) + PairMoves(disk, pairs[i].0, pairs[i].1)
    ensures AllMoves(disk, pairs[..i + 1]) <= AllMoves(disk, pairs)
    decreases |pairs|
  {
    assert pairs[..i + 1][..i] == pairs[..i];
    if i + 1 < |pairs| {
      AllMovesGrow(disk, pairs[..|pairs| - 1], i);
      assert pairs[..|pairs| - 1][..i + 1] == pairs[..i + 1] && pairs[..|pairs| - 1][..i] == pairs[..i];
    } else {
      assert pairs[..i + 1] == pairs;
    }
  }

  predicate FileTwice(steps: seq<Step>, file: Path) {
    exists i, j :: 0 <= i < j < |steps| && steps[i].0 == file && steps[j].0 == file
  }

  predicate TargetTwice(steps: seq<Step>, target: Path) {
    exists i, j :: 0 <= i < j < |steps| && steps[i].1 == target && steps[j].1 == target
  }

  lemma SeenBefore(steps: seq<Step>, file: Path, target: Path, all: seq<Step>)
    requires Names(steps, file) && steps + [(file, target)] <= all
    ensures FileTwice(all, file)
  {
    var i :| 0 <= i < |steps| && steps[i].0 == file;
    assert all[i].0 == file && all[|steps|].0 == file;
  }

  // One pair's files, added to the moves already planned.
  method PlanPair(disk: Disk, from: Path, to: Path, moves: Moves, targets: seq<Path>, ghost steps: seq<Step>)
    returns (moves': Moves, targets': seq<Path>, twice: Option<Path>)
    requires Holds(moves, steps) && FilesDiffer(steps)
    requires |targets| == |steps| && forall k :: 0 <= k < |steps| ==> targets[k] == steps[k].1
    ensures var longer := steps + PairMoves(disk, from, to);
            match twice
            case None => Holds(moves', longer) && FilesDiffer(longer)
                         && |targets'| == |longer| && forall k :: 0 <= k < |longer| ==> targets'[k] == longer[k].1
            case Some(file) => FileTwice(longer, file)
  {
    moves', targets', twice := moves, targets, None;
    var files := FilesOf(disk, from);
    ghost var pair, planned := PairMoves(disk, from, to), steps;
    for i := 0 to |files|
      invariant planned == steps + pair[..i] && |targets'| == |planned|
      invariant Holds(moves', planned) && FilesDiffer(planned)
      invariant forall k :: 0 <= k < |planned| ==> targets'[k] == planned[k].1
    {
      var file, target := files[i], TargetFor(disk, from, to, files[i]);
      assert pair[..i + 1] == pair[..i] + [(file, target)];
      assert steps + pair[..i + 1] == planned + [(file, target)];
      if file in moves' {
        assert planned + [(file, target)] <= steps + pair;
        SeenBefore(planned, file, target, steps + pair);
        return moves', targets', Some(file);
      }
      OneMoreMove(moves', planned, file, target);
      moves' := moves'[file := target];
      targets' := targets' + [target];
      planned := planned + [(file, target)];
    }
    assert pair[..|files|] == pair;
  }

  method FirstRepeated(targets: seq<Path>) returns (doubled: Option<Path>)
    ensures doubled == None ==> forall i, j :: 0 <= i < j < |targets| ==> targets[i] != targets[j]
    ensures doubled.Some? ==> exists i, j :: 0 <= i < j < |targets| && targets[i] == doubled.value == targets[j]
  {
    for i := 0 to |targets|
      invariant forall a, b :: 0 <= a < b < i ==> targets[a] != targets[b]
    {
      for k := 0 to i
        invariant forall a :: 0 <= a < k ==> targets[a] != targets[i]
      {
        if targets[k] == targets[i] {
          return Some(targets[i]);
        }
      }
    }
    return None;
  }

  // A plan is refused exactly when one file is moved twice or two files would
  // move to one place; otherwise it maps every file once, no two alike.
  method PlanMoves(disk: Disk, pairs: seq<(Path, Path)>) returns (plan: Result<Moves, PlanError>)
    ensures var steps := AllMoves(disk, pairs);
            match plan
            case Ok(moves) => Holds(moves, steps) && FilesDiffer(steps) && TargetsDiffer(steps)
            case Err(MovedTwice(file)) => FileTwice(steps, file)
            case Err(TwoFilesMoveTo(target)) => FilesDiffer(steps) && TargetTwice(steps, target)
  {
    var moves: Moves := map[];
    var targets: seq<Path> := [];
    ghost var steps: seq<Step> := [];
    for i := 0 to |pairs|
      invariant steps == AllMoves(disk, pairs[..i]) && |targets| == |steps|
      invariant Holds(moves, steps) && FilesDiffer(steps)
      invariant forall k :: 0 <= k < |steps| ==> targets[k] == steps[k].1
    {
      var (from, to) := pairs[i];
      AllMovesGrow(disk, pairs, i);
      var twice: Option<Path>;
      moves, targets, twice := PlanPair(disk, from, to, moves, targets, steps);
      steps := steps + PairMoves(disk, from, to);
      if twice.Some? {
        assert FileTwice(AllMoves(disk, pairs), twice.value);
        return Err(MovedTwice(twice.value));
      }
    }
    assert pairs[..|pairs|] == pairs;
    var doubled := FirstRepeated(targets);
    return if doubled.Some? then Err(TwoFilesMoveTo(doubled.value)) else Ok(moves);
  }

  // A file under a moved directory keeps its path below it.
  lemma ADirectoryKeepsItsLayout(disk: Disk, from: Path, to: Path, below: Path)
    requires disk.isDirectory(from) && Proper(below)
    ensures TargetFor(disk, from, to, from + below) == to + below
  {
    SharedPrefix(from, below);
    assert (from + below)[|from|..] == below;
    assert Relative(from, from + below) == below;
    NamesAppend(to, below);
  }

  // A file given to a directory lands in it under its own name, and anywhere
  // else at the very place named; it is the only file of its pair.
  lemma AFileLandsWhereItIsSent(disk: Disk, from: Path, to: Path)
    requires from != [] && !disk.isDirectory(from)
    ensures PairMoves(disk, from, to)
         == [(from, if disk.isDirectory(to) then to + [from[|from| - 1]] else to)]
  {
  }

  // Every file below a directory is one of its pair's.
  lemma ADirectorySendsItsFiles(disk: Disk, from: Path, to: Path)
    requires disk.isDirectory(from)
    ensures |PairMoves(disk, from, to)| == |disk.filesIn(from)|
    ensures forall i, below :: 0 <= i < |disk.filesIn(from)|
                               && disk.filesIn(from)[i] == from + below && Proper(below) ==>
              PairMoves(disk, from, to)[i] == (from + below, to + below)
  {
    forall i, below | 0 <= i < |disk.filesIn(from)| && disk.filesIn(from)[i] == from + below && Proper(below)
      ensures PairMoves(disk, from, to)[i] == (from + below, to + below)
    {
      ADirectoryKeepsItsLayout(disk, from, to, below);
    }
  }

  lemma {:induction false} SharedPrefix(from: Path, below: Path)
    ensures Shared(from, from + below) == |from|
  {
    if from != [] {
      assert (from + below)[1..] == from[1..] + below;
      SharedPrefix(from[1..], below);
    }
  }

  /* ----- splicing ----- */

  // A place in the text that names a module: what stands between its quotes,
  // and the specifier that reads as.
  datatype Node = Node(start: nat, end: nat, specifier: string)

  datatype Edit = Edit(start: nat, end: nat, value: string)

  predicate Fits(edits: seq<Edit>, length: nat) {
    forall i :: 0 <= i < |edits| ==> edits[i].start < edits[i].end <= length
  }

  predicate Apart(a: Edit, b: Edit) {
    a.end <= b.start || b.end <= a.start
  }

  predicate Disjoint(edits: seq<Edit>) {
    forall i, j :: 0 <= i < j < |edits| ==> Apart(edits[i], edits[j])
  }

  function EditAt(edits: seq<Edit>, pos: nat): Option<Edit> {
    if edits == [] then None
    else if edits[|edits| - 1].start == pos then Some(edits[|edits| - 1])
    else EditAt(edits[..|edits| - 1], pos)
  }

  // The text from pos on, every edit replaced at once: wherever an edit begins
  // its value stands for its span, and every other character is kept.
  function Substituted(text: string, edits: seq<Edit>, pos: nat): string
    requires Fits(edits, |text|) && pos <= |text|
    decreases |text| - pos
  {
    if pos == |text| then ""
    else
      match EditAt(edits, pos)
      case None => [text[pos]] + Substituted(text, edits, pos + 1)
      case Some(e) => EditAtFinds(edits, pos); e.value + Substituted(text, edits, e.end)
  }

  lemma {:induction false} EditAtFinds(edits: seq<Edit>, pos: nat)
    ensures match EditAt(edits, pos)
            case Some(e) => e in edits && e.start == pos
            case None => forall e :: e in edits ==> e.start != pos
  {
    if edits != [] {
      EditAtFinds(edits[..|edits| - 1], pos);
      assert edits == edits[..|edits| - 1] + [edits[|edits| - 1]];
    }
  }

  function Splice(out: string, e: Edit): string
    requires e.start <= e.end <= |out|
  {
    out[..e.start] + e.value + out[e.end..]
  }

  predicate Descending(edits: seq<Edit>) {
    forall i, j :: 0 <= i < j < |edits| ==> edits[j].start <= edits[i].start
  }

  function Inserted(sorted: seq<Edit>, e: Edit): seq<Edit> {
    if sorted == [] || e.start > sorted[0].start then [e] + sorted
    else [sorted[0]] + Inserted(sorted[1..], e)
  }

  // What a stable sort by start, last first, gives.
  function Sorted(edits: seq<Edit>): seq<Edit> {
    if edits == [] then [] else Inserted(Sorted(edits[..|edits| - 1]), edits[|edits| - 1])
  }

  lemma {:induction false} InsertedHolds(sorted: seq<Edit>, e: Edit)
    ensures multiset(Inserted(sorted, e)) == multiset(sorted) + multiset{e}
  {
    if sorted != [] && e.start <= sorted[0].start {
      InsertedHolds(sorted[1..], e);
      assert sorted == [sorted[0]] + sorted[1..];
    }
  }

  lemma {:induction false} InsertedSorts(sorted: seq<Edit>, e: Edit)
    requires Descending(sorted)
    ensures Descending(Inserted(sorted, e))
    ensures Inserted(sorted, e)[0] == e || (sorted != [] && Inserted(sorted, e)[0] == sorted[0])
  {
    if sorted != [] && e.start <= sorted[0].start {
      InsertedSorts(sorted[1..], e);
      AtTheFront(sorted[0], Inserted(sorted[1..], e));
    }
  }

  lemma AtTheFront(e: Edit, rest: seq<Edit>)
    requires Descending(rest) && rest != [] && rest[0].start <= e.start
    ensures Descending([e] + rest)
  {
  }

  lemma {:induction false} SortedIsDescending(edits: seq<Edit>)
    ensures Descending(Sorted(edits))
  {
    if edits != [] {
      SortedIsDescending(edits[..|edits| - 1]);
      InsertedSorts(Sorted(edits[..|edits| - 1]), edits[|edits| - 1]);
    }
  }

  lemma MultisetOfInit(edits: seq<Edit>)
    requires edits != []
    ensures multiset(edits) == multiset(edits[..|edits| - 1]) + multiset{edits[|edits| - 1]}
  {
    assert edits == edits[..|edits| - 1] + [edits[|edits| - 1]];
  }

  lemma {:induction false} SortedHolds(edits: seq<Edit>)
    ensures multiset(Sorted(edits)) == multiset(edits)
  {
    if edits != [] {
      SortedHolds(edits[..|edits| - 1]);
      InsertedHolds(Sorted(edits[..|edits| - 1]), edits[|edits| - 1]);
      MultisetOfInit(edits);
    }
  }

  lemma KeptAt(text: string, edits: seq<Edit>, pos: nat)
    requires Fits(edits, |text|) && pos < |text|
    requires forall e :: e in edits ==> e.start != pos
    ensures Substituted(text, edits, pos) == [text[pos]] + Substituted(text, edits, pos + 1)
  {
    EditAtFinds(edits, pos);
  }

  lemma FirstThenRest(text: string, pos: nat, next: nat, tail: string)
    requires pos < next <= |text|
    ensures [text[pos]] + (text[pos + 1..next] + tail) == text[pos..next] + tail
  {
  }

  // With no edit starting in between, the text is kept up to the next one.
  lemma {:induction false} KeptBetween(text: string, edits: seq<Edit>, pos: nat, next: nat)
    requires Fits(edits, |text|) && pos <= next <= |text|
    requires forall e :: e in edits ==> !(pos <= e.start < next)
    ensures Substituted(text, edits, pos) == text[pos..next] + Substituted(text, edits, next)
    decreases next - pos
  {
    if pos < next {
      KeptAt(text, edits, pos);
      KeptBetween(text, edits, pos + 1, next);
      FirstThenRest(text, pos, next, Substituted(text, edits, next));
    }
  }

  lemma ApartUnlessSame(edits: seq<Edit>, i: nat, j: nat)
    requires Disjoint(edits) && i < |edits| && j < |edits|
    ensures i == j || Apart(edits[i], edits[j])
  {
  }

  // Two edits of a disjoint list that start together are one.
  lemma StartsAlike(edits: seq<Edit>, e: Edit, f: Edit, length: nat)
    requires Fits(edits, length) && Disjoint(edits) && e in edits && f in edits && e.start == f.start
    ensures e == f
  {
    var i :| 0 <= i < |edits| && edits[i] == e;
    var j :| 0 <= j < |edits| && edits[j] == f;
    ApartUnlessSame(edits, i, j);
  }

  lemma SubstitutedAt(text: string, edits: seq<Edit>, e: Edit)
    requires Fits(edits, |text|) && Disjoint(edits) && e in edits
    ensures Substituted(text, edits, e.start) == e.value + Substituted(text, edits, e.end)
  {
    EditAtFinds(edits, e.start);
    StartsAlike(edits, e, EditAt(edits, e.start).value, |text|);
  }

  predicate Whole(text: string, edits: seq<Edit>, out: string, upTo: nat)
    requires Fits(edits, |text|) && upTo <= |text|
  {
    out == text[..upTo] + Substituted(text, edits, upTo)
  }

  // One splice of the descending pass: what stands right of it is already
  // substituted, and what stands left of it is untouched.
  lemma OneSplice(text: string, edits: seq<Edit>, e: Edit, out: string, upTo: nat)
    requires Fits(edits, |text|) && Disjoint(edits) && e in edits
    requires e.end <= upTo <= |text| && Whole(text, edits, out, upTo)
    requires forall f :: f in edits ==> !(e.end <= f.start < upTo)
    ensures e.end <= |out| && Whole(text, edits, Splice(out, e), e.start)
  {
    KeptBetween(text, edits, e.end, upTo);
    SubstitutedAt(text, edits, e);
    assert out[..e.start] == text[..e.start];
    assert out[e.end..] == text[e.end..upTo] + Substituted(text, edits, upTo);
  }

  // What the pass has done once the first i edits, last ones first, are in.
  predicate SplicedTo(text: string, edits: seq<Edit>, ordered: seq<Edit>, i: nat, out: string)
    requires Fits(edits, |text|) && i <= |ordered|
  {
    var upTo := if i == 0 then |text| else ordered[i - 1].start;
    upTo <= |text| && Whole(text, edits, out, upTo)
  }

  lemma OneMoreSplice(text: string, edits: seq<Edit>, ordered: seq<Edit>, i: nat, out: string)
    requires Fits(edits, |text|) && Disjoint(edits) && multiset(ordered) == multiset(edits) && Descending(ordered)
    requires i < |ordered| && SplicedTo(text, edits, ordered, i, out)
    ensures ordered[i].start <= ordered[i].end <= |out|
    ensures SplicedTo(text, edits, ordered, i + 1, Splice(out, ordered[i]))
  {
    var upTo := if i == 0 then |text| else ordered[i - 1].start;
    NextIsLeft(edits, ordered, i, |text|, upTo);
    OneSplice(text, edits, ordered[i], out, upTo);
  }

  lemma AllSpliced(text: string, edits: seq<Edit>, ordered: seq<Edit>, out: string)
    requires Fits(edits, |text|) && multiset(ordered) == multiset(edits) && Descending(ordered)
    requires SplicedTo(text, edits, ordered, |ordered|, out)
    ensures out == Substituted(text, edits, 0)
  {
    NoneBefore(edits, ordered);
    KeptBetween(text, edits, 0, if ordered == [] then |text| else ordered[|ordered| - 1].start);
  }

  method SpliceAll(text: string, edits: seq<Edit>) returns (out: string)
    requires Fits(edits, |text|) && Disjoint(edits)
    ensures out == Substituted(text, edits, 0)
  {
    var ordered := Sorted(edits);
    SortedIsDescending(edits);
    SortedHolds(edits);
    out := text;
    assert text[..|text|] == text;
    for i := 0 to |ordered|
      invariant SplicedTo(text, edits, ordered, i, out)
    {
      OneMoreSplice(text, edits, ordered, i, out);
      out := Splice(out, ordered[i]);
    }
    AllSpliced(text, edits, ordered, out);
  }

  lemma InBoth(edits: seq<Edit>, ordered: seq<Edit>, e: Edit)
    requires multiset(ordered) == multiset(edits)
    ensures e in edits <==> e in ordered
  {
    assert e in multiset(edits) <==> e in multiset(ordered);
  }

  lemma DisjointEitherWay(edits: seq<Edit>, ordered: seq<Edit>, length: nat)
    requires multiset(ordered) == multiset(edits) && Fits(edits, length) && Disjoint(edits)
    ensures Fits(ordered, length) && forall i, j :: 0 <= i < j < |ordered| ==> ordered[i] != ordered[j]
  {
    forall i | 0 <= i < |ordered| ensures ordered[i].start < ordered[i].end <= length {
      InBoth(edits, ordered, ordered[i]);
    }
    forall i, j | 0 <= i < j < |edits| ensures edits[i] != edits[j] {
      assert Apart(edits[i], edits[j]);
    }
    if i, j :| 0 <= i < j < |ordered| && ordered[i] == ordered[j] {
      TwiceCounts(ordered, i, j);
      OnceCounts(edits, ordered[i]);
    }
  }

  lemma TwiceCounts(s: seq<Edit>, i: nat, j: nat)
    requires i < j < |s| && s[i] == s[j]
    ensures multiset(s)[s[i]] >= 2
  {
    assert s == s[..j] + [s[j]] + s[j + 1..];
    assert s[i] in s[..j];
    assert multiset(s[..j])[s[i]] >= 1;
  }

  lemma {:induction false} OnceCounts(s: seq<Edit>, e: Edit)
    requires forall i, j :: 0 <= i < j < |s| ==> s[i] != s[j]
    ensures multiset(s)[e] <= 1
  {
    if s != [] {
      var init, last := s[..|s| - 1], s[|s| - 1];
      assert s == init + [last];
      OnceCounts(init, e);
      assert last !in init;
    }
  }

  lemma NextIsLeft(edits: seq<Edit>, ordered: seq<Edit>, i: nat, length: nat, upTo: nat)
    requires multiset(ordered) == multiset(edits) && Descending(ordered) && Fits(edits, length) && Disjoint(edits)
    requires i < |ordered| && upTo == if i == 0 then length else ordered[i - 1].start
    ensures ordered[i] in edits && ordered[i].end <= upTo
    ensures forall f :: f in edits ==> !(ordered[i].end <= f.start < upTo)
  {
    DisjointEitherWay(edits, ordered, length);
    InBoth(edits, ordered, ordered[i]);
    if i > 0 {
      InBoth(edits, ordered, ordered[i - 1]);
      ApartIn(edits, ordered[i], ordered[i - 1]);
    }
    forall f | f in edits ensures !(ordered[i].end <= f.start < upTo) {
      InBoth(edits, ordered, f);
      var j :| 0 <= j < |ordered| && ordered[j] == f;
    }
  }

  lemma ApartIn(edits: seq<Edit>, a: Edit, b: Edit)
    requires Disjoint(edits) && a in edits && b in edits && a != b
    ensures Apart(a, b)
  {
    var i :| 0 <= i < |edits| && edits[i] == a;
    var j :| 0 <= j < |edits| && edits[j] == b;
    ApartUnlessSame(edits, i, j);
  }

  lemma NoneBefore(edits: seq<Edit>, ordered: seq<Edit>)
    requires multiset(ordered) == multiset(edits) && Descending(ordered)
    ensures forall e :: e in edits ==> ordered != [] && ordered[|ordered| - 1].start <= e.start
  {
    forall e | e in edits ensures ordered != [] && ordered[|ordered| - 1].start <= e.start {
      InBoth(edits, ordered, e);
      var j :| 0 <= j < |ordered| && ordered[j] == e;
    }
  }

  /* ----- rewriting one file ----- */

  // The edit one place needs, or none. to is what a specifier becomes.
  function EditFor(node: Node, to: string -> string): seq<Edit> {
    if to(node.specifier) == node.specifier then [] else [Edit(node.start, node.end, to(node.specifier))]
  }

  function EditsFor(nodes: seq<Node>, to: string -> string): seq<Edit> {
    if nodes == [] then [] else EditsFor(nodes[..|nodes| - 1], to) + EditFor(nodes[|nodes| - 1], to)
  }

  // What each specifier of one file becomes; the empty one stays.
  function Follow(file: Path, moves: Moves, files: set<Path>, cwd: Path): (to: string -> string)
    ensures to("") == ""
  {
    specifier => Rewritten(file, specifier, moves, files, cwd)
  }

  // The places hold one specifier each and do not overlap. Only one that reads
  // as the empty specifier may be empty.
  predicate Readable(nodes: seq<Node>, length: nat) {
    && (forall i :: 0 <= i < |nodes| ==> nodes[i].start <= nodes[i].end <= length)
    && (forall i :: 0 <= i < |nodes| && nodes[i].specifier != "" ==> nodes[i].start < nodes[i].end)
    && (forall i, j :: 0 <= i < j < |nodes| ==> NodesApart(nodes[i], nodes[j]))
  }

  predicate NodesApart(a: Node, b: Node) {
    a.end <= b.start || b.end <= a.start
  }

  predicate ForSome(nodes: seq<Node>, to: string -> string, e: Edit) {
    exists k :: 0 <= k < |nodes| && EditFor(nodes[k], to) == [e]
  }

  predicate Placed(nodes: seq<Node>, to: string -> string, edits: seq<Edit>, length: nat) {
    Fits(edits, length) && Disjoint(edits) && forall i :: 0 <= i < |edits| ==> ForSome(nodes, to, edits[i])
  }

  lemma {:induction false} OneMorePlace(nodes: seq<Node>, to: string -> string, edits: seq<Edit>, last: Node,
                                        length: nat)
    requires Placed(nodes, to, edits, length)
    ensures Placed(nodes + [last], to, edits, length)
  {
    forall i | 0 <= i < |edits| ensures ForSome(nodes + [last], to, edits[i]) {
      var k :| 0 <= k < |nodes| && EditFor(nodes[k], to) == [edits[i]];
      assert (nodes + [last])[k] == nodes[k];
    }
  }

  lemma {:induction false} OneMoreEdit(nodes: seq<Node>, to: string -> string, edits: seq<Edit>, last: Node,
                                       length: nat)
    requires Readable(nodes + [last], length) && Placed(nodes, to, edits, length)
    requires to("") == "" && to(last.specifier) != last.specifier
    ensures Placed(nodes + [last], to, edits + EditFor(last, to), length)
  {
    var longer, e := nodes + [last], EditFor(last, to)[0];
    OneMorePlace(nodes, to, edits, last, length);
    assert longer[|nodes|] == last && EditFor(last, to) == [e];
    assert ForSome(longer, to, e);
    forall i | 0 <= i < |edits| ensures Apart(edits[i], e) {
      var k :| 0 <= k < |nodes| && EditFor(nodes[k], to) == [edits[i]];
      assert longer[k] == nodes[k] && NodesApart(longer[k], longer[|nodes|]);
    }
  }

  lemma {:induction false} EditsFit(nodes: seq<Node>, to: string -> string, length: nat)
    requires Readable(nodes, length) && to("") == ""
    ensures Placed(nodes, to, EditsFor(nodes, to), length)
  {
    if nodes != [] {
      var init, last := nodes[..|nodes| - 1], nodes[|nodes| - 1];
      assert nodes == init + [last];
      EditsFit(init, to, length);
      if to(last.specifier) == last.specifier {
        OneMorePlace(init, to, EditsFor(init, to), last, length);
        assert EditsFor(init, to) + [] == EditsFor(init, to);
      } else {
        OneMoreEdit(init, to, EditsFor(init, to), last, length);
      }
    }
  }

  lemma {:induction false} EveryChangeIsAnEdit(nodes: seq<Node>, to: string -> string, k: nat)
    requires k < |nodes| && to(nodes[k].specifier) != nodes[k].specifier
    ensures EditFor(nodes[k], to)[0] in EditsFor(nodes, to)
  {
    if k < |nodes| - 1 {
      EveryChangeIsAnEdit(nodes[..|nodes| - 1], to, k);
    }
  }

  // The file's text with every specifier that follows a move replaced at once.
  method RewriteImports(file: Path, text: string, nodes: seq<Node>, moves: Moves, files: set<Path>, cwd: Path)
    returns (out: string)
    requires Readable(nodes, |text|)
    ensures var edits := EditsFor(nodes, Follow(file, moves, files, cwd));
            Fits(edits, |text|) && out == Substituted(text, edits, 0)
  {
    ghost var to := Follow(file, moves, files, cwd);
    EditsFit(nodes, to, |text|);
    var edits: seq<Edit> := [];
    for i := 0 to |nodes|
      invariant edits == EditsFor(nodes[..i], to)
    {
      assert nodes[..i + 1][..i] == nodes[..i];
      var value := Rewritten(file, nodes[i].specifier, moves, files, cwd);
      if value != nodes[i].specifier {
        edits := edits + [Edit(nodes[i].start, nodes[i].end, value)];
      }
    }
    assert nodes[..|nodes|] == nodes;
    out := SpliceAll(text, edits);
  }

  /* ----- what stands at each place afterwards ----- */

  // The edits that end by pos.
  function Before(edits: seq<Edit>, pos: nat): seq<Edit> {
    if edits == [] then []
    else Before(edits[..|edits| - 1], pos) + if edits[|edits| - 1].end <= pos then edits[|edits| - 1..] else []
  }

  lemma {:induction false} BeforeHolds(edits: seq<Edit>, pos: nat)
    ensures forall e :: e in Before(edits, pos) <==> e in edits && e.end <= pos
  {
    if edits != [] {
      BeforeHolds(edits[..|edits| - 1], pos);
      assert edits == edits[..|edits| - 1] + edits[|edits| - 1..];
    }
  }

  predicate Between(edits: seq<Edit>, pos: nat) {
    forall e :: e in edits ==> e.end <= pos || pos <= e.start
  }

  lemma BeforeFits(edits: seq<Edit>, length: nat, pos: nat)
    requires Fits(edits, length)
    ensures Fits(Before(edits, pos), pos)
  {
    BeforeHolds(edits, pos);
    var before := Before(edits, pos);
    forall i | 0 <= i < |before| ensures before[i].start < before[i].end <= pos {
      assert before[i] in before;
    }
  }

  // Cut between two edits, the substitution of a text is that of its front by
  // the edits there, and then the rest.
  lemma {:induction false} SubstitutionSplits(text: string, edits: seq<Edit>, at: nat, pos: nat)
    requires Fits(edits, |text|) && Disjoint(edits) && at <= pos <= |text|
    requires Between(edits, pos)
    ensures Fits(Before(edits, pos), pos)
    ensures Substituted(text, edits, at)
         == Substituted(text[..pos], Before(edits, pos), at) + Substituted(text, edits, pos)
    decreases pos - at
  {
    BeforeFits(edits, |text|, pos);
    BeforeHolds(edits, pos);
    if at < pos {
      EditAtFinds(edits, at);
      EditAtFinds(Before(edits, pos), at);
      match EditAt(edits, at) {
        case None => SubstitutionSplits(text, edits, at + 1, pos);
        case Some(e) =>
          assert e in Before(edits, pos);
          StartsAlike(edits, e, EditAt(Before(edits, pos), at).value, |text|);
          SubstitutionSplits(text, edits, e.end, pos);
      }
    }
  }

  // Where a position of the old text, between its edits, is in the new one.
  function Shifted(text: string, edits: seq<Edit>, pos: nat): nat
    requires Fits(edits, |text|) && pos <= |text|
  {
    BeforeFits(edits, |text|, pos);
    |Substituted(text[..pos], Before(edits, pos), 0)|
  }

  predicate StandsAt(text: string, at: nat, value: string) {
    at + |value| <= |text| && text[at..at + |value|] == value
  }

  lemma {:induction false} NoEditCutsIn(nodes: seq<Node>, to: string -> string, i: nat, length: nat)
    requires Readable(nodes, length) && to("") == "" && i < |nodes|
    ensures Between(EditsFor(nodes, to), nodes[i].start)
    ensures to(nodes[i].specifier) == nodes[i].specifier ==>
              forall e :: e in EditsFor(nodes, to) ==> !(nodes[i].start <= e.start < nodes[i].end)
  {
    EditsFit(nodes, to, length);
    var edits := EditsFor(nodes, to);
    forall e | e in edits
      ensures e.end <= nodes[i].start || nodes[i].start <= e.start
      ensures to(nodes[i].specifier) == nodes[i].specifier ==> !(nodes[i].start <= e.start < nodes[i].end)
    {
      var m :| 0 <= m < |edits| && edits[m] == e;
      assert ForSome(nodes, to, edits[m]);
      var k :| 0 <= k < |nodes| && EditFor(nodes[k], to) == [e];
      assert k < i ==> NodesApart(nodes[k], nodes[i]);
      assert i < k ==> NodesApart(nodes[i], nodes[k]);
    }
  }

  // What a place holds afterwards: the new specifier where it changed, and the
  // text it held where it did not.
  function Standing(text: string, node: Node, to: string -> string): string
    requires node.start <= node.end <= |text|
  {
    if to(node.specifier) == node.specifier then text[node.start..node.end] else to(node.specifier)
  }

  lemma SliceOfThree(a: string, b: string, c: string)
    ensures StandsAt(a + b + c, |a|, b)
  {
  }

  lemma {:induction false} APlaceIsReplaced(text: string, nodes: seq<Node>, to: string -> string, i: nat)
    requires Readable(nodes, |text|) && to("") == "" && i < |nodes| && Fits(EditsFor(nodes, to), |text|)
    ensures Substituted(text, EditsFor(nodes, to), nodes[i].start)
         == Standing(text, nodes[i], to) + Substituted(text, EditsFor(nodes, to), nodes[i].end)
  {
    EditsFit(nodes, to, |text|);
    if to(nodes[i].specifier) == nodes[i].specifier {
      NoEditCutsIn(nodes, to, i, |text|);
      KeptBetween(text, EditsFor(nodes, to), nodes[i].start, nodes[i].end);
    } else {
      EveryChangeIsAnEdit(nodes, to, i);
      SubstitutedAt(text, EditsFor(nodes, to), EditFor(nodes[i], to)[0]);
    }
  }

  lemma StandsBetween(whole: string, front: string, value: string, rest: string)
    requires whole == front + (value + rest)
    ensures StandsAt(whole, |front|, value)
  {
    Regroup(front, value, rest);
    SliceOfThree(front, value, rest);
  }

  // After the splices every place, changed or not, is where the edits before
  // it shifted it to, and holds what its specifier became.
  lemma {:induction false} EachPlaceHoldsItsValue(text: string, nodes: seq<Node>, to: string -> string, i: nat)
    requires Readable(nodes, |text|) && to("") == "" && i < |nodes|
    ensures Fits(EditsFor(nodes, to), |text|)
    ensures StandsAt(Substituted(text, EditsFor(nodes, to), 0), Shifted(text, EditsFor(nodes, to), nodes[i].start),
                     Standing(text, nodes[i], to))
  {
    var edits, start := EditsFor(nodes, to), nodes[i].start;
    EditsFit(nodes, to, |text|);
    NoEditCutsIn(nodes, to, i, |text|);
    SubstitutionSplits(text, edits, 0, start);
    APlaceIsReplaced(text, nodes, to, i);
    StandsBetween(Substituted(text, edits, 0), Substituted(text[..start], Before(edits, start), 0),
                  Standing(text, nodes[i], to), Substituted(text, edits, nodes[i].end));
  }

  // The two halves joined: in the text RewriteImports leaves, each place whose
  // specifier named a file holds one that names that file at its new place,
  // from the new place of the file it stands in, exactly when neither moved or
  // the file keeps its role. Each place's text is its specifier as written.
  lemma TheRewrittenTextNamesItsFiles(file: Path, text: string, nodes: seq<Node>, moves: Moves, files: set<Path>,
                                      cwd: Path, i: nat, target: Path)
    requires Readable(nodes, |text|) && i < |nodes| && text[nodes[i].start..nodes[i].end] == nodes[i].specifier
    requires WellPlaced(files, moves, cwd) && file in files && NoStemIsAmbiguous(TreeAfter(files, moves))
    requires nodes[i].specifier != "" && nodes[i].specifier[0] == '.'
    requires TargetOf(file, nodes[i].specifier, files) == Some(target)
    ensures var edits := EditsFor(nodes, Follow(file, moves, files, cwd));
            var found := Rewritten(file, nodes[i].specifier, moves, files, cwd);
            && Fits(edits, |text|)
            && StandsAt(Substituted(text, edits, 0), Shifted(text, edits, nodes[i].start), found)
            && (TargetOf(Moved(moves, file), found, TreeAfter(files, moves)) == Some(Moved(moves, target))
                <==> !Follows(file, target, moves)
                     || KeepsItsRole(Moved(moves, target), SpellingOf(nodes[i].specifier, target)))
  {
    EachPlaceHoldsItsValue(text, nodes, Follow(file, moves, files, cwd), i);
    EveryImportFollowsItsFile(file, nodes[i].specifier, target, moves, files, cwd);
  }
}
