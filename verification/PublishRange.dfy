/** What `publish` checks about the commits it is asked to push, and what those checks mean
    for the graph of commits: the range is one chain and every commit on it stays inside the
    paths the caller allowed. */
module PublishRange {

  import opened Wrappers

  type Sha = string
  type Path = string

  // ---- The repository: commits, parents, trees ----

  datatype Entry = Entry(mode: string, object: string)

  type Tree = map<Path, Entry>

  /** `generation` is lower for every parent than for its child: there are no cycles. */
  datatype Graph = Graph(parents: map<Sha, seq<Sha>>, trees: map<Sha, Tree>, generation: map<Sha, nat>)

  ghost predicate WellFormed(g: Graph) {
    g.parents.Keys == g.trees.Keys == g.generation.Keys
    && forall c, i :: c in g.parents && 0 <= i < |g.parents[c]| ==>
         g.parents[c][i] in g.parents && g.generation[g.parents[c][i]] < g.generation[c]
  }

  ghost predicate Reaches(g: Graph, from: Sha, to: Sha)
    requires WellFormed(g) && from in g.parents
    decreases g.generation[from]
  {
    from == to || exists i :: 0 <= i < |g.parents[from]| && Reaches(g, g.parents[from][i], to)
  }

  /** `base..head`. */
  ghost function Range(g: Graph, base: Sha, head: Sha): set<Sha>
    requires WellFormed(g) && base in g.parents && head in g.parents
  {
    set c | c in g.parents && Reaches(g, head, c) && !Reaches(g, base, c)
  }

  function Look(t: Tree, p: Path): Option<Entry> {
    if p in t then Some(t[p]) else None
  }

  const NO_MODE := "000000"

  function ModeOf(e: Option<Entry>): string {
    if e.None? then NO_MODE else e.value.mode
  }

  // ---- The lists a caller gives, and the paths nobody may touch ----

  predicate StartsWith(s: string, prefix: string) {
    |prefix| <= |s| && s[..|prefix|] == prefix
  }

  predicate EndsWithSlash(s: string) {
    s != "" && s[|s| - 1] == '/'
  }

  predicate Allowed(file: Path, allow: seq<string>) {
    exists i :: 0 <= i < |allow| && if EndsWithSlash(allow[i]) then StartsWith(file, allow[i]) else file == allow[i]
  }

  predicate IsWorkflow(file: Path) {
    StartsWith(file, ".github/workflows/") || StartsWith(file, ".github/actions/")
  }

  lemma StartsWithMeans(s: string, prefix: string)
    ensures StartsWith(s, prefix) <==> exists rest :: s == prefix + rest
  {
    if StartsWith(s, prefix) {
      assert s == prefix + s[|prefix|..];
    }
  }

  /** An entry that ends in a slash allows every path below it, any other entry itself alone, and
      a list what one of its entries allows. */
  lemma AllowedMeans(file: Path, allow: seq<string>, entry: string)
    ensures Allowed(file, [entry + "/"]) <==> exists rest :: file == entry + "/" + rest
    ensures entry == "" || entry[|entry| - 1] != '/' ==> (Allowed(file, [entry]) <==> file == entry)
    ensures Allowed(file, allow) <==> exists i :: 0 <= i < |allow| && Allowed(file, [allow[i]])
    ensures IsWorkflow(file) <==>
            exists rest :: file == ".github/workflows/" + rest || file == ".github/actions/" + rest
  {
    StartsWithMeans(file, entry + "/");
    StartsWithMeans(file, ".github/workflows/");
    StartsWithMeans(file, ".github/actions/");
    assert Allowed(file, [entry + "/"]) <==> StartsWith(file, [entry + "/"][0]);
    assert Allowed(file, [entry]) <==> if EndsWithSlash([entry][0]) then StartsWith(file, entry) else file == entry;
    if i :| 0 <= i < |allow| && Allowed(file, [allow[i]]) {
      var one := [allow[i]];
      var j :| 0 <= j < |one| && if EndsWithSlash(one[j]) then StartsWith(file, one[j]) else file == one[j];
      assert one[j] == allow[i];
    }
    if Allowed(file, allow) {
      var i :| 0 <= i < |allow| && if EndsWithSlash(allow[i]) then StartsWith(file, allow[i]) else file == allow[i];
      assert [allow[i]][0] == allow[i];
    }
  }

  /** A symbolic link or a submodule. */
  predicate IsSpecial(mode: string) {
    mode == "120000" || mode == "160000"
  }

  /** No file, executable or not, is special, nor is a path that is not there. */
  lemma SpecialModes()
    ensures IsSpecial("120000") && IsSpecial("160000")
    ensures !IsSpecial("100644") && !IsSpecial("100755") && !IsSpecial(NO_MODE)
  {
  }

  // ---- `git diff --raw -z` as text ----

  /** One changed path, as git writes it. */
  datatype Line = Line(path: Path, oldMode: string, newMode: string, oldObject: string, newObject: string, status: string)

  datatype Raw = Raw(path: Path, oldMode: string, newMode: string)

  function RawOf(l: Line): Raw {
    Raw(l.path, l.oldMode, l.newMode)
  }

  predicate Plain(s: string) {
    ' ' !in s && '\0' !in s
  }

  predicate Printable(l: Line) {
    l.path != "" && '\0' !in l.path
    && Plain(l.oldMode) && Plain(l.newMode) && Plain(l.oldObject) && Plain(l.newObject) && Plain(l.status)
  }

  function Head(l: Line): string {
    ":" + l.oldMode + " " + (l.newMode + " " + (l.oldObject + " " + (l.newObject + " " + l.status)))
  }

  function Print(l: Line): string {
    Head(l) + "\0" + (l.path + "\0")
  }

  function PrintAll(ls: seq<Line>): string {
    if ls == [] then "" else Print(ls[0]) + PrintAll(ls[1..])
  }

  function Split(s: string, sep: char): (parts: seq<string>)
    decreases |s|
  {
    var cut := IndexOf(s, sep);
    if cut == |s| then [s] else [s[..cut]] + Split(s[cut + 1..], sep)
  }

  /** The first place of `c`, or the length. */
  function IndexOf(s: string, c: char): (i: nat)
    ensures i <= |s| && c !in s[..i] && (i < |s| ==> s[i] == c)
  {
    if s == "" || s[0] == c then 0 else 1 + IndexOf(s[1..], c)
  }

  function NonEmpty(parts: seq<string>): seq<string> {
    if parts == [] then []
    else if parts[0] == "" then NonEmpty(parts[1..])
    else [parts[0]] + NonEmpty(parts[1..])
  }

  datatype Parsed<T> = Read(value: T) | Unreadable

  predicate IsHead(fields: seq<string>) {
    |fields| >= 5 && fields[0] != "" && fields[0][0] == ':'
  }

  function ParseParts(parts: seq<string>): Parsed<seq<Raw>> {
    if parts == [] then Read([])
    else if |parts| == 1 || !IsHead(Split(parts[0], ' ')) then Unreadable
    else
      var fields := Split(parts[0], ' ');
      After([Raw(parts[1], fields[0][1..], fields[1])], ParseParts(parts[2..]))
  }

  function After(read: seq<Raw>, p: Parsed<seq<Raw>>): Parsed<seq<Raw>> {
    if p.Read? then Read(read + p.value) else p
  }

  lemma AfterTwice(a: seq<Raw>, b: seq<Raw>, p: Parsed<seq<Raw>>)
    ensures After(a, After(b, p)) == After(a + b, p)
    ensures After([], p) == p
    ensures After(a, Read([])) == Read(a)
  {
    if p.Read? {
      assert a + (b + p.value) == a + b + p.value;
      assert [] + p.value == p.value;
    }
    assert a + [] == a;
  }

  function ParseText(out: string): Parsed<seq<Raw>> {
    ParseParts(NonEmpty(Split(out, '\0')))
  }

  method ParseRaw(out: string) returns (raw: Parsed<seq<Raw>>)
    ensures raw == ParseText(out)
  {
    var parts := NonEmpty(Split(out, '\0'));
    if |parts| % 2 != 0 {
      OddIsUnreadable(parts);
      return Unreadable;
    }
    var res: seq<Raw> := [];
    var i := 0;
    AfterTwice([], [], ParseParts(parts));
    while i < |parts|
      invariant 0 <= i <= |parts| && i % 2 == 0
      invariant ParseParts(parts) == After(res, ParseParts(parts[i..]))
    {
      var fields := Split(parts[i], ' ');
      assert parts[i..][0] == parts[i] && parts[i..][1] == parts[i + 1] && parts[i..][2..] == parts[i + 2..];
      if |fields| < 5 || fields[0] == "" || fields[0][0] != ':' {
        return Unreadable;
      }
      AfterTwice(res, [Raw(parts[i + 1], fields[0][1..], fields[1])], ParseParts(parts[i + 2..]));
      res := res + [Raw(parts[i + 1], fields[0][1..], fields[1])];
      i := i + 2;
    }
    AfterTwice(res, [], Read([]));
    return Read(res);
  }

  lemma {:induction false} OddIsUnreadable(parts: seq<string>)
    requires |parts| % 2 != 0
    ensures ParseParts(parts) == Unreadable
  {
    if |parts| > 1 {
      OddIsUnreadable(parts[2..]);
    }
  }

  // ---- Reading back what git wrote ----

  function PartsOf(ls: seq<Line>): seq<string> {
    if ls == [] then [] else [Head(ls[0]), ls[0].path] + PartsOf(ls[1..])
  }

  function RawsOf(ls: seq<Line>): (rs: seq<Raw>)
    ensures |rs| == |ls| && forall i :: 0 <= i < |ls| ==> rs[i] == RawOf(ls[i])
  {
    if ls == [] then [] else [RawOf(ls[0])] + RawsOf(ls[1..])
  }

  lemma {:induction false} IndexFound(a: string, c: char, rest: string)
    requires c !in a
    ensures IndexOf(a + [c] + rest, c) == |a|
    ensures IndexOf(a, c) == |a|
  {
    if a != "" {
      assert (a + [c] + rest)[1..] == a[1..] + [c] + rest;
      IndexFound(a[1..], c, rest);
    }
  }

  lemma SplitFirst(a: string, sep: char, rest: string)
    requires sep !in a
    ensures Split(a + [sep] + rest, sep) == [a] + Split(rest, sep)
    ensures Split(a, sep) == [a]
  {
    IndexFound(a, sep, rest);
    var s := a + [sep] + rest;
    assert s[..|a|] == a && s[|a| + 1..] == rest;
  }

  lemma HeadSplits(l: Line)
    requires Printable(l)
    ensures Split(Head(l), ' ') == [":" + l.oldMode, l.newMode, l.oldObject, l.newObject, l.status]
    ensures '\0' !in Head(l)
  {
    var r1 := l.newObject + " " + l.status;
    var r2 := l.oldObject + " " + r1;
    var r3 := l.newMode + " " + r2;
    hide Split;
    SplitFirst(":" + l.oldMode, ' ', r3);
    SplitFirst(l.newMode, ' ', r2);
    SplitFirst(l.oldObject, ' ', r1);
    SplitFirst(l.newObject, ' ', l.status);
    SplitFirst(l.status, ' ', "");
  }

  lemma {:induction false} PrintedSplits(ls: seq<Line>)
    requires forall i :: 0 <= i < |ls| ==> Printable(ls[i])
    ensures NonEmpty(Split(PrintAll(ls), '\0')) == PartsOf(ls)
  {
    if ls == [] {
      SplitFirst("", '\0', "");
      assert NonEmpty([""]) == NonEmpty([""][1..]);
    } else {
      PrintedSplits(ls[1..]);
      PrintedOne(ls[0], PrintAll(ls[1..]));
    }
  }

  lemma PrintedOne(l: Line, tail: string)
    requires Printable(l)
    ensures NonEmpty(Split(Print(l) + tail, '\0')) == [Head(l), l.path] + NonEmpty(Split(tail, '\0'))
  {
    HeadSplits(l);
    hide Split, Head;
    assert Print(l) + tail == Head(l) + ['\0'] + (l.path + ['\0'] + tail);
    SplitFirst(Head(l), '\0', l.path + ['\0'] + tail);
    SplitFirst(l.path, '\0', tail);
    var rest := Split(tail, '\0');
    assert ([Head(l)] + ([l.path] + rest))[1..] == [l.path] + rest;
    assert ([l.path] + rest)[1..] == rest;
  }

  lemma {:induction false} ParsesParts(ls: seq<Line>)
    requires forall i :: 0 <= i < |ls| ==> Printable(ls[i])
    ensures ParseParts(PartsOf(ls)) == Read(RawsOf(ls))
  {
    if ls != [] {
      ParsesParts(ls[1..]);
      PartsStep(ls[0], PartsOf(ls[1..]));
    }
  }

  lemma PartsStep(l: Line, rest: seq<string>)
    requires Printable(l)
    ensures ParseParts([Head(l), l.path] + rest) == After([RawOf(l)], ParseParts(rest))
  {
    HeadSplits(l);
    hide Split, Head, Printable;
    var parts, first := [Head(l), l.path] + rest, ":" + l.oldMode;
    assert parts[2..] == rest;
    assert first[1..] == l.oldMode && first[0] == ':';
  }

  /** Every listing git can print is read back entry by entry. */
  lemma ParsesPrinted(ls: seq<Line>)
    requires forall i :: 0 <= i < |ls| ==> Printable(ls[i])
    ensures ParseText(PrintAll(ls)) == Read(RawsOf(ls))
  {
    PrintedSplits(ls);
    ParsesParts(ls);
  }

  // ---- What git answers ----

  /** The answers `publish` collects; a missing one is a git command that failed. `steps`
      holds the listing of each commit against its first parent. */
  datatype Answers = Answers(
    ancestor: Option<bool>,
    merges: Option<seq<Sha>>,
    whole: Option<string>,
    commits: Option<seq<Sha>>,
    steps: map<Sha, string>)

  /** The listing names each path at which the trees differ once, with the modes there. */
  ghost predicate Lists(ls: seq<Line>, a: Tree, b: Tree) {
    (forall i :: 0 <= i < |ls| ==>
       Printable(ls[i]) && Look(a, ls[i].path) != Look(b, ls[i].path)
       && ls[i].oldMode == ModeOf(Look(a, ls[i].path)) && ls[i].newMode == ModeOf(Look(b, ls[i].path)))
    && (forall p :: Look(a, p) != Look(b, p) ==> exists i :: 0 <= i < |ls| && ls[i].path == p)
    && (forall i, j :: 0 <= i < j < |ls| ==> ls[i].path != ls[j].path)
  }

  ghost predicate Listing(text: string, a: Tree, b: Tree) {
    exists ls :: Lists(ls, a, b) && text == PrintAll(ls)
  }

  ghost predicate HasTree(g: Graph, c: Sha) {
    c in g.parents && c in g.trees
  }

  ghost predicate HasParent(g: Graph, c: Sha) {
    HasTree(g, c) && g.parents[c] != [] && HasTree(g, g.parents[c][0])
  }

  /** The answers given are true of the graph. */
  ghost predicate Truthful(g: Graph, base: Sha, head: Sha, git: Answers)
    requires WellFormed(g) && base in g.parents && head in g.parents
  {
    (git.ancestor.Some? ==> git.ancestor.value == Reaches(g, head, base))
    && (git.commits.Some? ==> forall c :: c in git.commits.value <==> c in Range(g, base, head))
    && (git.merges.Some? ==>
          forall c :: c in git.merges.value <==> c in Range(g, base, head) && |g.parents[c]| >= 2)
    && (git.whole.Some? ==> Listing(git.whole.value, g.trees[base], g.trees[head]))
    && (forall c :: c in git.steps ==> HasParent(g, c) && Listing(git.steps[c], g.trees[g.parents[c][0]], g.trees[c]))
  }

  /** No command failed. */
  predicate Answered(git: Answers) {
    git.ancestor.Some? && git.merges.Some? && git.whole.Some? && git.commits.Some?
    && forall c :: c in git.commits.value ==> c in git.steps
  }

  // ---- What must hold before anything is pushed ----

  ghost function Changed(a: Tree, b: Tree): set<Path> {
    set p | p in a.Keys + b.Keys && Look(a, p) != Look(b, p)
  }

  ghost predicate CleanPath(a: Tree, b: Tree, p: Path, allow: seq<string>) {
    Allowed(p, allow) && !IsWorkflow(p) && !IsSpecial(ModeOf(Look(a, p))) && !IsSpecial(ModeOf(Look(b, p)))
  }

  ghost predicate CleanStep(g: Graph, c: Sha, allow: seq<string>) {
    HasParent(g, c)
    && forall p :: p in Changed(g.trees[g.parents[c][0]], g.trees[c]) ==>
         CleanPath(g.trees[g.parents[c][0]], g.trees[c], p, allow)
  }

  function SetOf<T>(s: seq<T>): set<T> {
    set x | x in s
  }

  ghost predicate Publishable(g: Graph, base: Sha, head: Sha, claimed: seq<Path>, allow: seq<string>)
    requires WellFormed(g) && base in g.parents && head in g.parents
  {
    Reaches(g, head, base)
    && (forall c :: c in Range(g, base, head) ==> |g.parents[c]| < 2)
    && Changed(g.trees[base], g.trees[head]) != {}
    && Changed(g.trees[base], g.trees[head]) == SetOf(claimed)
    && forall c :: c in Range(g, base, head) ==> CleanStep(g, c, allow)
  }

  datatype Code =
    HeadNotOnBase | MergeCommit | NoChanges | FilesMismatch | OutsideAllowedFiles | WorkflowChange | SpecialFile

  datatype Verdict = Push | Refused(code: Code) | Unread

  /** The reason given is a fact of the graph. */
  ghost predicate Justified(g: Graph, base: Sha, head: Sha, claimed: seq<Path>, allow: seq<string>, code: Code)
    requires WellFormed(g) && base in g.parents && head in g.parents
  {
    match code
    case HeadNotOnBase => !Reaches(g, head, base)
    case MergeCommit => exists c :: c in Range(g, base, head) && |g.parents[c]| >= 2
    case NoChanges => g.trees[base] == g.trees[head]
    case FilesMismatch => Changed(g.trees[base], g.trees[head]) != SetOf(claimed)
    case OutsideAllowedFiles => exists c, p :: TouchedAt(g, base, head, c, p) && !Allowed(p, allow)
    case WorkflowChange => exists c, p :: TouchedAt(g, base, head, c, p) && IsWorkflow(p)
    case SpecialFile =>
      exists c, p :: TouchedAt(g, base, head, c, p)
                     && (IsSpecial(ModeOf(Look(g.trees[c], p))) || IsSpecial(ModeOf(Look(g.trees[g.parents[c][0]], p))))
  }

  ghost predicate TouchedAt(g: Graph, base: Sha, head: Sha, c: Sha, p: Path)
    requires WellFormed(g) && base in g.parents && head in g.parents
  {
    c in Range(g, base, head) && HasParent(g, c) && p in Changed(g.trees[g.parents[c][0]], g.trees[c])
  }

  // ---- What a listing says once it is read ----

  function RawAt(a: Tree, b: Tree, p: Path): Raw {
    Raw(p, ModeOf(Look(a, p)), ModeOf(Look(b, p)))
  }

  /** The entries are those of the paths that changed, each with its modes, and each once. */
  ghost predicate Faithful(rs: seq<Raw>, a: Tree, b: Tree) {
    (forall r :: r in rs <==> r.path in Changed(a, b) && r == RawAt(a, b, r.path))
    && forall i, j :: 0 <= i < j < |rs| ==> rs[i].path != rs[j].path
  }

  lemma ListingReads(text: string, a: Tree, b: Tree)
    requires Listing(text, a, b)
    ensures ParseText(text).Read? && Faithful(ParseText(text).value, a, b)
  {
    var ls :| Lists(ls, a, b) && text == PrintAll(ls);
    ParsesPrinted(ls);
    RawsFaithful(ls, a, b);
  }

  lemma RawsFaithful(ls: seq<Line>, a: Tree, b: Tree)
    requires Lists(ls, a, b)
    ensures Faithful(RawsOf(ls), a, b)
  {
    var rs := RawsOf(ls);
    forall r: Raw | r.path in Changed(a, b) && r == RawAt(a, b, r.path)
      ensures r in rs
    {
      var i :| 0 <= i < |ls| && ls[i].path == r.path;
      assert rs[i] == r;
    }
  }

  function Paths(rs: seq<Raw>): (ps: seq<Path>)
  {
    seq(|rs|, i requires 0 <= i < |rs| => rs[i].path)
  }

  lemma {:induction false} DistinctCounts(ps: seq<Path>)
    requires forall i, j :: 0 <= i < j < |ps| ==> ps[i] != ps[j]
    ensures multiset(ps) == multiset(SetOf(ps))
  {
    if ps != [] {
      var last := |ps| - 1;
      var init := ps[..last];
      DistinctCounts(init);
      assert ps == init + [ps[last]];
      assert SetOf(ps) == SetOf(init) + {ps[last]};
      assert ps[last] !in SetOf(init);
    }
  }

  /** The claimed files, repetitions dropped, are the listed paths exactly when they are the
      paths that changed. */
  lemma ClaimMatches(rs: seq<Raw>, a: Tree, b: Tree, claimed: seq<Path>)
    requires Faithful(rs, a, b)
    ensures multiset(Paths(rs)) == multiset(SetOf(claimed)) <==> Changed(a, b) == SetOf(claimed)
    ensures rs == [] <==> Changed(a, b) == {}
  {
    var ps := Paths(rs);
    DistinctCounts(ps);
    forall p: Path
      ensures p in SetOf(ps) <==> p in Changed(a, b)
    {
      if p in ps {
        var i :| 0 <= i < |ps| && ps[i] == p;
        assert rs[i] in rs;
      }
      if p in Changed(a, b) {
        assert RawAt(a, b, p) in rs;
        var i :| 0 <= i < |rs| && rs[i] == RawAt(a, b, p);
        assert ps[i] == p;
      }
    }
    assert SetOf(ps) == Changed(a, b);
    if multiset(ps) == multiset(SetOf(claimed)) {
      forall p: Path
        ensures p in SetOf(ps) <==> p in SetOf(claimed)
      {
        assert multiset(SetOf(claimed))[p] == multiset(SetOf(ps))[p];
      }
      assert SetOf(ps) == SetOf(claimed);
    }
    if rs != [] {
      assert rs[0] in rs;
    }
    if Changed(a, b) != {} {
      var p :| p in Changed(a, b);
      assert RawAt(a, b, p) in rs;
    }
  }

  // ---- The checks ----

  ghost predicate FromStep(git: Answers, c: Sha, r: Raw) {
    c in git.steps && ParseText(git.steps[c]).Read? && r in ParseText(git.steps[c]).value
  }

  /** Everything any commit of the range touches. */
  method TouchedPaths(git: Answers) returns (touched: Parsed<seq<Raw>>)
    requires git.commits.Some?
    ensures touched.Read? ==> forall c :: c in git.commits.value ==> c in git.steps
    ensures touched.Read? ==>
              forall r :: r in touched.value <==> exists c :: c in git.commits.value && FromStep(git, c, r)
    ensures touched.Unreadable? ==>
              exists c :: c in git.commits.value && (c !in git.steps || ParseText(git.steps[c]).Unreadable?)
  {
    var commits := git.commits.value;
    var all: seq<Raw> := [];
    var i := 0;
    while i < |commits|
      invariant 0 <= i <= |commits|
      invariant forall c :: c in commits[..i] ==> c in git.steps
      invariant forall r :: r in all ==> exists c :: c in commits[..i] && FromStep(git, c, r)
      invariant forall r: Raw, c: Sha :: c in commits[..i] && FromStep(git, c, r) ==> r in all
    {
      var c := commits[i];
      assert c in commits;
      assert commits[..i + 1] == commits[..i] + [c];
      if c !in git.steps {
        return Unreadable;
      }
      var raw := ParseRaw(git.steps[c]);
      if raw.Unreadable? {
        return Unreadable;
      }
      forall r | r in all + raw.value
        ensures exists c :: c in commits[..i + 1] && FromStep(git, c, r)
      {
        if r in raw.value {
          assert c in commits[..i + 1] && FromStep(git, c, r);
        } else {
          var d :| d in commits[..i] && FromStep(git, d, r);
          assert d in commits[..i + 1];
        }
      }
      all := all + raw.value;
      i := i + 1;
    }
    assert commits[..i] == commits;
    return Read(all);
  }

  predicate SpecialRaw(r: Raw) {
    IsSpecial(r.newMode) || IsSpecial(r.oldMode)
  }

  predicate CleanRaw(r: Raw, allow: seq<string>) {
    Allowed(r.path, allow) && !IsWorkflow(r.path) && !SpecialRaw(r)
  }

  /** The entry is what this refusal is about. */
  predicate Blames(r: Raw, allow: seq<string>, code: Code) {
    match code
    case OutsideAllowedFiles => !Allowed(r.path, allow)
    case WorkflowChange => IsWorkflow(r.path)
    case SpecialFile => SpecialRaw(r)
    case _ => false
  }

  /** Everything between `is-ancestor` and the push. Of truthful answers: what it lets through is
      publishable, and everything publishable goes through when every command answered; it gives
      up only when a command failed; and the reason it gives for a refusal is a fact exactly when
      `is-ancestor` answered or would have said no. Without that answer it refuses everything. */
  method CheckRange(ghost g: Graph, ghost base: Sha, ghost head: Sha, claimed: seq<Path>, allow: seq<string>, git: Answers)
    returns (v: Verdict)
    requires WellFormed(g) && base in g.parents && head in g.parents && Truthful(g, base, head, git)
    ensures v == Push ==> Publishable(g, base, head, claimed, allow) && Answered(git)
    ensures Answered(git) && Publishable(g, base, head, claimed, allow) ==> v == Push
    ensures v.Refused? ==>
              (Justified(g, base, head, claimed, allow, v.code) <==> git.ancestor.Some? || !Reaches(g, head, base))
    ensures v.Refused? && git.ancestor.Some? ==> !Publishable(g, base, head, claimed, allow)
    ensures git.ancestor.None? ==> v == Refused(HeadNotOnBase)
    ensures v == Unread ==> !Answered(git)
  {
    hide Reaches, Listing, ParseText, Changed, CleanStep, Means, Faithful, Look, IsSpecial, HasParent;
    if git.ancestor != Some(true) {
      return Refused(HeadNotOnBase);
    } else if git.merges.None? {
      return Unread;
    } else if git.merges.value != [] {
      assert git.merges.value[0] in git.merges.value;
      return Refused(MergeCommit);
    } else if git.whole.None? {
      return Unread;
    }
    assert forall c :: c in Range(g, base, head) && |g.parents[c]| >= 2 ==> c in git.merges.value;
    ghost var before, after := g.trees[base], g.trees[head];
    ListingReads(git.whole.value, before, after);
    var raw := ParseRaw(git.whole.value);
    ClaimMatches(raw.value, before, after, claimed);
    if raw.value == [] {
      SameTrees(before, after);
      return Refused(NoChanges);
    } else if multiset(Paths(raw.value)) != multiset(SetOf(claimed)) {
      return Refused(FilesMismatch);
    } else if git.commits.None? {
      return Unread;
    }
    var touched := TouchedPaths(git);
    StepsRead(g, base, head, git);
    if touched.Unreadable? {
      return Unread;
    }
    TouchedMeans(g, base, head, git, touched.value);
    v := CheckTouched(touched.value, allow);
    VerdictHolds(g, base, head, claimed, allow, touched.value, v);
  }

  /** One commit on the base that adds an allowed file. */
  lemma OneGoodCommit() returns (g: Graph)
    ensures WellFormed(g) && "base" in g.parents && "head" in g.parents
    ensures Publishable(g, "base", "head", ["notes"], ["notes"])
    ensures Truthful(g, "base", "head", Answers(None, None, None, None, map[]))
  {
    var added := map["notes" := Entry("100644", "blob")];
    g := Graph(map["base" := [], "head" := ["base"]], map["base" := map[], "head" := added], map["base" := 0, "head" := 1]);
    assert Reaches(g, g.parents["head"][0], "base");
    assert !Reaches(g, "base", "head");
    assert Range(g, "base", "head") == {"head"};
    assert Look(g.trees["base"], "notes") != Look(g.trees["head"], "notes");
    assert Changed(g.trees["base"], g.trees["head"]) == {"notes"};
    assert ["notes"][0] in SetOf(["notes"]);
    assert SetOf(["notes"]) == {"notes"};
    assert ["notes"][0] == "notes" && !IsWorkflow("notes");
    assert Allowed("notes", ["notes"]);
    assert CleanStep(g, "head", ["notes"]);
  }

  /** A publishable range, refused as one whose head is not on its base: `is-ancestor` was killed
      or ran into the time limit, and every exit code but zero counts as "no". */
  method UnansweredAncestor() returns (ghost g: Graph, v: Verdict)
    ensures WellFormed(g) && "base" in g.parents && "head" in g.parents
    ensures Publishable(g, "base", "head", ["notes"], ["notes"]) && Reaches(g, "head", "base")
    ensures v == Refused(HeadNotOnBase)
  {
    g := OneGoodCommit();
    v := CheckRange(g, "base", "head", ["notes"], ["notes"], Answers(None, None, None, None, map[]));
  }

  method CheckTouched(touched: seq<Raw>, allow: seq<string>) returns (v: Verdict)
    ensures v != Unread
    ensures v == Push ==> forall r :: r in touched ==> CleanRaw(r, allow)
    ensures v.Refused? ==> exists r :: r in touched && Blames(r, allow, v.code)
  {
    if exists r :: r in touched && !Allowed(r.path, allow) {
      return Refused(OutsideAllowedFiles);
    } else if exists r :: r in touched && IsWorkflow(r.path) {
      return Refused(WorkflowChange);
    } else if exists r :: r in touched && SpecialRaw(r) {
      return Refused(SpecialFile);
    }
    return Push;
  }

  lemma SameTrees(a: Tree, b: Tree)
    requires Changed(a, b) == {}
    ensures a == b
  {
    forall p ensures Look(a, p) == Look(b, p) {
      assert p !in Changed(a, b);
    }
    assert forall p :: p in a <==> p in b by {
      forall p ensures p in a <==> p in b {
        assert Look(a, p) == Look(b, p);
      }
    }
    forall p | p in a ensures a[p] == b[p] {
      assert Look(a, p) == Look(b, p);
    }
  }

  lemma StepsRead(g: Graph, base: Sha, head: Sha, git: Answers)
    requires WellFormed(g) && base in g.parents && head in g.parents && Truthful(g, base, head, git)
    ensures forall c :: c in git.steps ==>
              ParseText(git.steps[c]).Read?
              && Faithful(ParseText(git.steps[c]).value, g.trees[g.parents[c][0]], g.trees[c])
  {
    forall c | c in git.steps
      ensures ParseText(git.steps[c]).Read?
      ensures Faithful(ParseText(git.steps[c]).value, g.trees[g.parents[c][0]], g.trees[c])
    {
      ListingReads(git.steps[c], g.trees[g.parents[c][0]], g.trees[c]);
    }
  }

  /** An entry collected is a path some commit of the range changed, and the other way round. */
  ghost predicate Means(g: Graph, base: Sha, head: Sha, touched: seq<Raw>)
    requires WellFormed(g) && base in g.parents && head in g.parents
  {
    (forall c :: c in Range(g, base, head) ==> HasParent(g, c))
    && (forall r :: r in touched ==>
          exists c :: TouchedAt(g, base, head, c, r.path) && r == RawAt(g.trees[g.parents[c][0]], g.trees[c], r.path))
    && (forall c, p :: TouchedAt(g, base, head, c, p) ==> RawAt(g.trees[g.parents[c][0]], g.trees[c], p) in touched)
  }

  lemma TouchedMeans(g: Graph, base: Sha, head: Sha, git: Answers, touched: seq<Raw>)
    requires WellFormed(g) && base in g.parents && head in g.parents && Truthful(g, base, head, git)
    requires git.commits.Some?
    requires forall c :: c in git.commits.value ==> c in git.steps
    requires forall c :: c in git.steps ==>
               ParseText(git.steps[c]).Read?
               && Faithful(ParseText(git.steps[c]).value, g.trees[g.parents[c][0]], g.trees[c])
    requires forall r :: r in touched <==> exists c :: c in git.commits.value && FromStep(git, c, r)
    ensures Means(g, base, head, touched)
  {
    hide ParseText, Changed, Range, Look, ModeOf;
    forall r | r in touched
      ensures exists c :: TouchedAt(g, base, head, c, r.path) && r == RawAt(g.trees[g.parents[c][0]], g.trees[c], r.path)
    {
      var c :| c in git.commits.value && FromStep(git, c, r);
      assert TouchedAt(g, base, head, c, r.path);
    }
    forall c, p | TouchedAt(g, base, head, c, p)
      ensures RawAt(g.trees[g.parents[c][0]], g.trees[c], p) in touched
    {
      assert FromStep(git, c, RawAt(g.trees[g.parents[c][0]], g.trees[c], p));
    }
  }

  lemma VerdictHolds(g: Graph, base: Sha, head: Sha, claimed: seq<Path>, allow: seq<string>, touched: seq<Raw>, v: Verdict)
    requires WellFormed(g) && base in g.parents && head in g.parents && Means(g, base, head, touched)
    requires v == Push ==> forall r :: r in touched ==> CleanRaw(r, allow)
    requires v.Refused? ==> exists r :: r in touched && Blames(r, allow, v.code)
    ensures v == Push ==> forall c :: c in Range(g, base, head) ==> CleanStep(g, c, allow)
    ensures v.Refused? ==> Justified(g, base, head, claimed, allow, v.code)
    ensures v.Refused? ==> exists c :: c in Range(g, base, head) && !CleanStep(g, c, allow)
  {
    hide Means, Changed, Look, CleanStep, Allowed, IsWorkflow, IsSpecial, Reaches;
    if v.Refused? {
      var r :| r in touched && Blames(r, allow, v.code);
      var c := Origin(g, base, head, touched, r);
      assert TouchedAt(g, base, head, c, r.path);
      BadStep(g, base, head, allow, r, c);
    } else if v == Push {
      forall c | c in Range(g, base, head)
        ensures CleanStep(g, c, allow)
      {
        PushedStep(g, base, head, allow, touched, c);
      }
    }
  }

  lemma Origin(g: Graph, base: Sha, head: Sha, touched: seq<Raw>, r: Raw) returns (c: Sha)
    requires WellFormed(g) && base in g.parents && head in g.parents && Means(g, base, head, touched) && r in touched
    ensures TouchedAt(g, base, head, c, r.path) && r == RawAt(g.trees[g.parents[c][0]], g.trees[c], r.path)
  {
    c :| TouchedAt(g, base, head, c, r.path) && r == RawAt(g.trees[g.parents[c][0]], g.trees[c], r.path);
  }

  lemma BadStep(g: Graph, base: Sha, head: Sha, allow: seq<string>, r: Raw, c: Sha)
    requires WellFormed(g) && base in g.parents && head in g.parents && TouchedAt(g, base, head, c, r.path)
    requires r == RawAt(g.trees[g.parents[c][0]], g.trees[c], r.path)
    requires !CleanRaw(r, allow)
    ensures !CleanStep(g, c, allow)
  {
  }

  lemma PushedStep(g: Graph, base: Sha, head: Sha, allow: seq<string>, touched: seq<Raw>, c: Sha)
    requires WellFormed(g) && base in g.parents && head in g.parents && Means(g, base, head, touched)
    requires forall r :: r in touched ==> CleanRaw(r, allow)
    requires c in Range(g, base, head)
    ensures CleanStep(g, c, allow)
  {
    forall p | p in Changed(g.trees[g.parents[c][0]], g.trees[c])
      ensures CleanPath(g.trees[g.parents[c][0]], g.trees[c], p, allow)
    {
      assert TouchedAt(g, base, head, c, p);
    }
  }

  // ---- What a publishable range is ----

  lemma {:induction false} ReachesDown(g: Graph, a: Sha, b: Sha)
    requires WellFormed(g) && a in g.parents && Reaches(g, a, b)
    ensures b in g.parents && (a == b || g.generation[b] < g.generation[a])
    decreases g.generation[a]
  {
    if a != b {
      var i :| 0 <= i < |g.parents[a]| && Reaches(g, g.parents[a][i], b);
      ReachesDown(g, g.parents[a][i], b);
    }
  }

  /** First parents from head down to base, both included. */
  ghost predicate IsChain(g: Graph, head: Sha, base: Sha, chain: seq<Sha>)
    requires WellFormed(g)
  {
    chain != [] && chain[0] == head && chain[|chain| - 1] == base
    && (forall i :: 0 <= i < |chain| ==> chain[i] in g.parents)
    && forall i :: 0 <= i < |chain| - 1 ==> g.parents[chain[i]] == [chain[i + 1]]
  }

  ghost predicate NoMerge(g: Graph, base: Sha, head: Sha)
    requires WellFormed(g) && base in g.parents && head in g.parents
  {
    Reaches(g, head, base) && forall c :: c in Range(g, base, head) ==> |g.parents[c]| < 2
  }

  /** In a range without merges the head, if it is not the base, has one parent, and the range
      below that parent is the rest. */
  lemma HeadStep(g: Graph, base: Sha, head: Sha) returns (next: Sha)
    requires WellFormed(g) && base in g.parents && head in g.parents && NoMerge(g, base, head) && head != base
    ensures next in g.parents && g.parents[head] == [next] && g.generation[next] < g.generation[head]
    ensures NoMerge(g, base, next)
    ensures Range(g, base, head) == {head} + Range(g, base, next)
  {
    ReachesDown(g, head, base);
    if Reaches(g, base, head) {
      ReachesDown(g, base, head);
      assert false;
    }
    assert head in Range(g, base, head);
    var i :| 0 <= i < |g.parents[head]| && Reaches(g, g.parents[head][i], base);
    next := g.parents[head][i];
    assert g.parents[head] == [next];
    forall c | c in g.parents
      ensures Reaches(g, head, c) <==> c == head || Reaches(g, next, c)
    {
      if Reaches(g, next, c) {
        assert Reaches(g, g.parents[head][0], c);
      }
    }
  }

  ghost function Chain(g: Graph, base: Sha, head: Sha): seq<Sha>
    requires WellFormed(g) && base in g.parents && head in g.parents && NoMerge(g, base, head)
    decreases g.generation[head]
  {
    if head == base then [base]
    else
      assert |g.parents[head]| == 1 && g.parents[head][0] in g.parents && g.generation[g.parents[head][0]] < g.generation[head]
             && NoMerge(g, base, g.parents[head][0]) by {
        var next := HeadStep(g, base, head);
      }
      [head] + Chain(g, base, g.parents[head][0])
  }

  /** The commits pushed are exactly one line of first parents from the head down to the base. */
  lemma {:induction false} RangeIsOneChain(g: Graph, base: Sha, head: Sha)
    requires WellFormed(g) && base in g.parents && head in g.parents && NoMerge(g, base, head)
    ensures var chain := Chain(g, base, head);
            IsChain(g, head, base, chain) && Range(g, base, head) == SetOf(chain[..|chain| - 1])
    decreases g.generation[head]
  {
    if head != base {
      var next := HeadStep(g, base, head);
      RangeIsOneChain(g, base, next);
      ChainSteps(g, base, head);
      hide Reaches, Range, Chain;
      ChainGrows(g, head, next, base, Chain(g, base, next));
    }
  }

  lemma ChainSteps(g: Graph, base: Sha, head: Sha)
    requires WellFormed(g) && base in g.parents && head in g.parents && NoMerge(g, base, head) && head != base
    ensures g.parents[head] != [] && g.parents[head][0] in g.parents && NoMerge(g, base, g.parents[head][0])
    ensures Chain(g, base, head) == [head] + Chain(g, base, g.parents[head][0])
  {
    var next := HeadStep(g, base, head);
  }

  lemma ChainGrows(g: Graph, head: Sha, next: Sha, base: Sha, rest: seq<Sha>)
    requires WellFormed(g) && IsChain(g, next, base, rest) && head in g.parents && g.parents[head] == [next]
    ensures IsChain(g, head, base, [head] + rest)
    ensures SetOf(([head] + rest)[..|rest|]) == {head} + SetOf(rest[..|rest| - 1])
  {
    assert ([head] + rest)[..|rest|] == [head] + rest[..|rest| - 1];
  }

  /** Every path a commit of the range may not touch is what it was at the base: outside the
      allowed list, under the workflow directories, or a link or submodule on either side. */
  ghost predicate Agrees(g: Graph, base: Sha, c: Sha, allow: seq<string>)
    requires WellFormed(g) && base in g.parents && c in g.parents
  {
    forall p ::
      !Allowed(p, allow) || IsWorkflow(p)
      || IsSpecial(ModeOf(Look(g.trees[base], p))) || IsSpecial(ModeOf(Look(g.trees[c], p)))
      ==> Look(g.trees[c], p) == Look(g.trees[base], p)
  }

  lemma Untouched(a: Tree, b: Tree, p: Path, allow: seq<string>)
    requires forall q :: q in Changed(a, b) ==> CleanPath(a, b, q, allow)
    ensures !Allowed(p, allow) || IsWorkflow(p) || IsSpecial(ModeOf(Look(a, p))) || IsSpecial(ModeOf(Look(b, p)))
            ==> Look(a, p) == Look(b, p)
  {
    assert p in Changed(a, b) ==> CleanPath(a, b, p, allow);
    assert Look(a, p) != Look(b, p) ==> p in Changed(a, b);
  }

  lemma AgreesOneStep(g: Graph, base: Sha, c: Sha, next: Sha, allow: seq<string>)
    requires WellFormed(g) && base in g.parents && c in g.parents && g.parents[c] == [next]
    requires CleanStep(g, c, allow) && Agrees(g, base, next, allow)
    ensures Agrees(g, base, c, allow)
  {
    forall p |
      !Allowed(p, allow) || IsWorkflow(p)
      || IsSpecial(ModeOf(Look(g.trees[base], p))) || IsSpecial(ModeOf(Look(g.trees[c], p)))
      ensures Look(g.trees[c], p) == Look(g.trees[base], p)
    {
      Untouched(g.trees[next], g.trees[c], p, allow);
    }
  }

  lemma {:induction false} ChainAgrees(g: Graph, base: Sha, head: Sha, allow: seq<string>)
    requires WellFormed(g) && base in g.parents && head in g.parents && NoMerge(g, base, head)
    requires forall c :: c in Range(g, base, head) ==> CleanStep(g, c, allow)
    ensures forall i :: 0 <= i < |Chain(g, base, head)| ==>
              Chain(g, base, head)[i] in g.parents && Agrees(g, base, Chain(g, base, head)[i], allow)
    decreases g.generation[head]
  {
    if head != base {
      var next := HeadStep(g, base, head);
      ChainAgrees(g, base, next, allow);
      assert Chain(g, base, head) == [head] + Chain(g, base, next);
      assert Chain(g, base, next)[0] == next;
      AgreesOneStep(g, base, head, next, allow);
    }
  }

  /** What is pushed: one chain, no commit on it differing from the base anywhere it may not. */
  lemma PublishedRange(g: Graph, base: Sha, head: Sha, claimed: seq<Path>, allow: seq<string>)
    requires WellFormed(g) && base in g.parents && head in g.parents && Publishable(g, base, head, claimed, allow)
    ensures NoMerge(g, base, head)
    ensures var chain := Chain(g, base, head);
            && |chain| > 1 && IsChain(g, head, base, chain)
            && Range(g, base, head) == SetOf(chain[..|chain| - 1])
            && (forall i :: 0 <= i < |chain| ==> Agrees(g, base, chain[i], allow))
    ensures forall f :: f in claimed ==> Allowed(f, allow) && !IsWorkflow(f)
    ensures Look(g.trees[base], claimed[0]) != Look(g.trees[head], claimed[0])
  {
    RangeIsOneChain(g, base, head);
    ChainAgrees(g, base, head, allow);
    assert Chain(g, base, head)[0] == head;
    forall f | f in claimed
      ensures Allowed(f, allow) && !IsWorkflow(f)
    {
      assert f in SetOf(claimed);
      assert Look(g.trees[base], f) != Look(g.trees[head], f);
    }
    assert claimed != [];
    assert claimed[0] in SetOf(claimed);
  }

  /** `c^` exists for every commit of such a range, so no listing can fail for want of one. */
  lemma RangeHasParents(g: Graph, base: Sha, head: Sha, c: Sha)
    requires WellFormed(g) && base in g.parents && head in g.parents && NoMerge(g, base, head) && c in Range(g, base, head)
    ensures HasParent(g, c)
  {
    RangeIsOneChain(g, base, head);
    var chain := Chain(g, base, head);
    var i :| 0 <= i < |chain| - 1 && chain[..|chain| - 1][i] == c;
    assert g.parents[c] == [chain[i + 1]];
  }
}
