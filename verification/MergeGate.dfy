/** Everything `merge` demands of a head: what the gate lets through, and that dropping
    superseded runs never hides a failure. An absent text field is any text not compared with. */
module MergeGate {

  import opened Wrappers

  const REVIEW_BOT := "claude[bot]"
  const PASSING := {"success", "neutral", "skipped"}

  // ---- Check runs ----

  /** `app` and `name` as they are rendered into the key. */
  datatype Run = Run(id: Option<int>, app: string, name: string, status: string, conclusion: string)

  function Key(r: Run): string {
    r.app + "/" + r.name
  }

  predicate Passed(r: Run) {
    r.status == "completed" && r.conclusion in PASSING
  }

  predicate AllNumbered(runs: seq<Run>) {
    forall i :: 0 <= i < |runs| ==> runs[i].id.Some?
  }

  function Max(a: int, b: int): int {
    if a < b then b else a
  }

  function Newest(runs: seq<Run>, key: string): int
    requires AllNumbered(runs)
  {
    if runs == [] then 0
    else
      var last := runs[|runs| - 1];
      var before := Newest(runs[..|runs| - 1], key);
      if Key(last) == key then Max(before, last.id.value) else before
  }

  predicate Superseded(runs: seq<Run>, r: Run)
    requires AllNumbered(runs) && r.id.Some?
  {
    r.conclusion == "cancelled" && r.id.value < Newest(runs, Key(r))
  }

  function Kept(all: seq<Run>, runs: seq<Run>): seq<Run>
    requires AllNumbered(all) && AllNumbered(runs)
  {
    if runs == [] then []
    else
      var last := runs[|runs| - 1];
      Kept(all, runs[..|runs| - 1]) + (if Superseded(all, last) then [] else [last])
  }

  lemma {:induction false} KeptMember(all: seq<Run>, runs: seq<Run>, r: Run)
    requires AllNumbered(all) && AllNumbered(runs)
    ensures r in Kept(all, runs) <==> r in runs && r.id.Some? && !Superseded(all, r)
  {
    if runs != [] {
      var init, last := runs[..|runs| - 1], runs[|runs| - 1];
      assert runs == init + [last];
      KeptMember(all, init, r);
    }
  }

  /** The largest id of the key's runs, or zero. */
  lemma {:induction false} NewestIsMax(runs: seq<Run>, key: string)
    requires AllNumbered(runs)
    ensures Newest(runs, key) >= 0
    ensures forall r :: r in runs && Key(r) == key ==> r.id.Some? && r.id.value <= Newest(runs, key)
    ensures Newest(runs, key) > 0 ==> exists r :: r in runs && Key(r) == key && r.id == Some(Newest(runs, key))
  {
    if runs != [] {
      var init, last := runs[..|runs| - 1], runs[|runs| - 1];
      assert runs == init + [last];
      NewestIsMax(init, key);
      if Newest(runs, key) > 0 {
        if Newest(runs, key) == Newest(init, key) {
          var r :| r in init && Key(r) == key && r.id == Some(Newest(init, key));
          assert r in runs;
        } else {
          assert last in runs;
        }
      }
    }
  }

  /** A run is dropped exactly when it was cancelled and a run of its key has a higher id (or
      its own id is negative, which no run's is). */
  lemma SupersededMeans(runs: seq<Run>, r: Run)
    requires AllNumbered(runs) && r.id.Some?
    ensures Superseded(runs, r) <==>
            r.conclusion == "cancelled"
            && (r.id.value < 0 || exists d :: d in runs && Key(d) == Key(r) && d.id.Some? && d.id.value > r.id.value)
  {
    NewestIsMax(runs, Key(r));
  }

  /** A cancelled run with a negative id is dropped although nothing is newer than it. */
  lemma LoneNegativeDropped(r: Run)
    requires r.conclusion == "cancelled" && r.id.Some? && r.id.value < 0
    ensures AllNumbered([r]) && Superseded([r], r)
    ensures !exists d :: d in [r] && Key(d) == Key(r) && d.id.Some? && d.id.value > r.id.value
  {
    SupersededMeans([r], r);
  }

  method WithoutSuperseded(runs: seq<Run>) returns (kept: Option<seq<Run>>)
    ensures kept.Some? <==> AllNumbered(runs)
    ensures kept.Some? ==> kept.value == Kept(runs, runs)
  {
    var newest: map<string, int> := map[];
    var i := 0;
    while i < |runs|
      invariant 0 <= i <= |runs| && AllNumbered(runs[..i])
      invariant forall key :: (if key in newest then newest[key] else 0) == Newest(runs[..i], key)
      invariant forall k :: 0 <= k < i ==> Key(runs[k]) in newest
    {
      var c := runs[i];
      if c.id.None? {
        return None;
      }
      assert runs[..i + 1] == runs[..i] + [c];
      assert runs[..i + 1][..i] == runs[..i];
      var before := if Key(c) in newest then newest[Key(c)] else 0;
      newest := newest[Key(c) := Max(before, c.id.value)];
      i := i + 1;
    }
    assert runs[..i] == runs;
    var left: seq<Run> := [];
    i := 0;
    while i < |runs|
      invariant 0 <= i <= |runs|
      invariant left == Kept(runs, runs[..i])
    {
      var c := runs[i];
      assert runs[..i + 1][..i] == runs[..i];
      if !(c.conclusion == "cancelled" && c.id.value < newest[Key(c)]) {
        left := left + [c];
      }
      i := i + 1;
    }
    assert runs[..i] == runs;
    return Some(left);
  }

  // ---- Reviews ----

  datatype Review = Review(state: string, login: Option<string>, commit: string)

  predicate Counts(r: Review) {
    r.state != "COMMENTED" && r.state != "PENDING"
  }

  predicate AllAuthored(reviews: seq<Review>) {
    forall i :: 0 <= i < |reviews| && Counts(reviews[i]) ==> reviews[i].login.Some?
  }

  /** The last verdict of an author. */
  function Latest(reviews: seq<Review>, who: string): Option<Review> {
    if reviews == [] then None
    else
      var last := reviews[|reviews| - 1];
      if Counts(last) && last.login == Some(who) then Some(last) else Latest(reviews[..|reviews| - 1], who)
  }

  /** A verdict of this author: neither a comment nor a draft. */
  predicate VerdictOf(r: Review, who: string) {
    r.login == Some(who) && r.state != "COMMENTED" && r.state != "PENDING"
  }

  /** No later verdict takes the place of this one. */
  predicate LastVerdict(reviews: seq<Review>, who: string, i: nat) {
    i < |reviews| && VerdictOf(reviews[i], who) && forall j :: i < j < |reviews| ==> !VerdictOf(reviews[j], who)
  }

  /** An author has a latest verdict exactly when there is any, and then it is the one behind which
      there is no other. */
  lemma {:induction false} LatestIsLast(reviews: seq<Review>, who: string)
    ensures Latest(reviews, who).Some? <==> exists i :: 0 <= i < |reviews| && VerdictOf(reviews[i], who)
    ensures Latest(reviews, who).Some? ==>
              exists i: nat :: LastVerdict(reviews, who, i) && Latest(reviews, who).value == reviews[i]
  {
    if reviews != [] {
      var init, last := reviews[..|reviews| - 1], |reviews| - 1;
      LatestIsLast(init, who);
      if VerdictOf(reviews[last], who) {
        assert LastVerdict(reviews, who, last);
      } else {
        assert forall i :: 0 <= i < last ==> init[i] == reviews[i];
        if Latest(init, who).Some? {
          var i: nat :| LastVerdict(init, who, i) && Latest(init, who).value == init[i];
          assert LastVerdict(reviews, who, i);
        }
      }
    }
  }

  method LatestVerdicts(reviews: seq<Review>) returns (latest: Option<map<string, Review>>)
    ensures latest.Some? <==> AllAuthored(reviews)
    ensures latest.Some? ==>
              forall who :: Latest(reviews, who) == if who in latest.value then Some(latest.value[who]) else None
    ensures latest.Some? ==>
              forall who :: who in latest.value <==> exists i :: 0 <= i < |reviews| && VerdictOf(reviews[i], who)
    ensures latest.Some? ==>
              forall who :: who in latest.value ==>
                exists i: nat :: LastVerdict(reviews, who, i) && latest.value[who] == reviews[i]
  {
    var found: map<string, Review> := map[];
    var i := 0;
    while i < |reviews|
      invariant 0 <= i <= |reviews| && AllAuthored(reviews[..i])
      invariant forall who :: Latest(reviews[..i], who) == if who in found then Some(found[who]) else None
    {
      var r := reviews[i];
      assert reviews[..i + 1][..i] == reviews[..i];
      if Counts(r) {
        if r.login.None? {
          return None;
        }
        found := found[r.login.value := r];
      }
      i := i + 1;
    }
    assert reviews[..i] == reviews;
    forall who
      ensures who in found <==> exists i :: 0 <= i < |reviews| && VerdictOf(reviews[i], who)
      ensures who in found ==> exists i: nat :: LastVerdict(reviews, who, i) && found[who] == reviews[i]
    {
      LatestIsLast(reviews, who);
    }
    return Some(found);
  }

  // ---- The checks the repository demands ----

  datatype Rule = Rule(kind: string, checks: Option<seq<Option<string>>>)

  datatype Branch = Branch(
    protected: Option<bool>,
    enabled: Option<bool>,
    enforcement: Option<string>,
    contexts: Option<seq<Option<string>>>)

  predicate Named(names: seq<Option<string>>) {
    forall i :: 0 <= i < |names| ==> names[i].Some? && names[i].value != ""
  }

  predicate IsRequired(rule: Rule) {
    rule.kind == "required_status_checks"
  }

  /** Classic protection is on and enforces something. */
  predicate Classic(b: Branch) {
    b.protected == Some(true) && b.enabled == Some(true) && b.enforcement.Some? && b.enforcement.value != "off"
  }

  predicate BranchReadable(b: Branch) {
    b.protected == Some(false)
    || (b.protected == Some(true)
        && (b.enabled == Some(false)
            || (b.enabled == Some(true) && b.enforcement.Some?
                && (b.enforcement.value == "off" || (b.contexts.Some? && Named(b.contexts.value))))))
  }

  predicate RulesReadable(rules: seq<Rule>) {
    forall i :: 0 <= i < |rules| && IsRequired(rules[i]) ==> rules[i].checks.Some? && Named(rules[i].checks.value)
  }

  predicate FromRules(rules: seq<Rule>, name: string) {
    exists i :: 0 <= i < |rules| && IsRequired(rules[i]) && rules[i].checks.Some? && Some(name) in rules[i].checks.value
  }

  predicate FromClassic(b: Branch, name: string) {
    Classic(b) && b.contexts.Some? && Some(name) in b.contexts.value
  }

  method AddAll(names: seq<Option<string>>, before: set<string>) returns (all: Option<set<string>>)
    ensures all.Some? <==> Named(names)
    ensures all.Some? ==> forall name :: name in all.value <==> name in before || Some(name) in names
  {
    var out, i := before, 0;
    while i < |names|
      invariant 0 <= i <= |names| && Named(names[..i])
      invariant forall name :: name in out <==> name in before || Some(name) in names[..i]
    {
      if names[i].None? || names[i].value == "" {
        return None;
      }
      out := out + {names[i].value};
      assert names[..i + 1] == names[..i] + [names[i]];
      i := i + 1;
    }
    assert names[..i] == names;
    return Some(out);
  }

  /** Both places are read, and a shape that is not recognised is a failure, never "no checks". */
  method RequiredChecks(rules: seq<Rule>, branch: Branch) returns (required: Option<set<string>>)
    ensures required.Some? <==> RulesReadable(rules) && BranchReadable(branch)
    ensures required.Some? ==>
              forall name :: name in required.value <==> FromRules(rules, name) || FromClassic(branch, name)
  {
    var out: set<string> := {};
    var i := 0;
    while i < |rules|
      invariant 0 <= i <= |rules| && RulesReadable(rules[..i])
      invariant forall name :: name in out <==> FromRules(rules[..i], name)
    {
      ghost var before := out;
      assert rules[..i + 1] == rules[..i] + [rules[i]];
      if IsRequired(rules[i]) {
        if rules[i].checks.None? {
          return None;
        }
        var added := AddAll(rules[i].checks.value, out);
        if added.None? {
          return None;
        }
        out := added.value;
      }
      forall name ensures name in out <==> FromRules(rules[..i + 1], name) {
        RulesExtend(rules[..i], rules[i], name);
      }
      i := i + 1;
    }
    assert rules[..i] == rules;
    if branch.protected == Some(false) {
      return Some(out);
    } else if branch.protected != Some(true) {
      return None;
    } else if branch.enabled == Some(false) {
      return Some(out);
    } else if branch.enabled != Some(true) {
      return None;
    } else if branch.enforcement.None? {
      return None;
    } else if branch.enforcement.value == "off" {
      return Some(out);
    } else if branch.contexts.None? {
      return None;
    }
    required := AddAll(branch.contexts.value, out);
  }

  lemma RulesExtend(rules: seq<Rule>, rule: Rule, name: string)
    ensures FromRules(rules + [rule], name) <==>
            FromRules(rules, name) || (IsRequired(rule) && rule.checks.Some? && Some(name) in rule.checks.value)
  {
    var all := rules + [rule];
    if FromRules(rules, name) {
      var i :| 0 <= i < |rules| && IsRequired(rules[i]) && rules[i].checks.Some? && Some(name) in rules[i].checks.value;
      assert all[i] == rules[i];
    }
    assert all[|rules|] == rule;
  }

  // ---- The gate ----

  datatype Pr = Pr(
    head: Option<string>,
    state: string,
    merged: bool,
    draft: bool,
    base: string,
    mergeable: Option<bool>,
    mergeableState: string)

  datatype Status = Status(context: string, state: string)

  datatype Combined = Combined(statuses: Option<seq<Status>>, total: Option<int>)

  /** What GitHub answers, in the order it is asked; a missing answer is a failed read. */
  datatype Facts = Facts(
    first: Option<Pr>,
    reviews: Option<seq<Review>>,
    runs: Option<seq<Run>>,
    combined: Option<Combined>,
    rules: Option<seq<Rule>>,
    branch: Option<Branch>,
    last: Option<Pr>)

  datatype Code =
    | HeadMoved | NotOpen | Draft | WrongBase | ChangesRequested | NotApproved
    | ChecksPending | ChecksFailed | NoRequiredChecks | NotMergeable

  datatype Verdict = Pass | Refused(code: Code) | Unread

  predicate PrReady(p: Pr, head: string) {
    p.head == Some(head) && p.state == "open" && !p.merged && !p.draft && p.base == "main"
  }

  predicate StatusesPassed(c: Combined) {
    c.statuses.Some? && c.total == Some(|c.statuses.value|)
    && forall i :: 0 <= i < |c.statuses.value| ==> c.statuses.value[i].state == "success"
  }

  ghost predicate ReviewsApprove(reviews: seq<Review>, head: string) {
    AllAuthored(reviews)
    && (forall who :: Latest(reviews, who).Some? ==> Latest(reviews, who).value.state != "CHANGES_REQUESTED")
    && Latest(reviews, REVIEW_BOT).Some?
    && Latest(reviews, REVIEW_BOT).value.state == "APPROVED" && Latest(reviews, REVIEW_BOT).value.commit == head
  }

  ghost predicate RunsPass(runs: seq<Run>) {
    AllNumbered(runs) && forall r :: r in runs ==> r.id.Some? && (Superseded(runs, r) || Passed(r))
  }

  ghost predicate Seen(runs: seq<Run>, c: Combined, name: string) {
    (AllNumbered(runs) && exists r :: r in runs && r.id.Some? && !Superseded(runs, r) && r.name == name)
    || (c.statuses.Some? && exists i :: 0 <= i < |c.statuses.value| && c.statuses.value[i].context == name)
  }

  ghost predicate Required(f: Facts, name: string) {
    (f.rules.Some? && FromRules(f.rules.value, name)) || (f.branch.Some? && FromClassic(f.branch.value, name))
  }

  ghost predicate DemandsHold(f: Facts) {
    f.runs.Some? && f.combined.Some?
    && f.rules.Some? && f.branch.Some? && RulesReadable(f.rules.value) && BranchReadable(f.branch.value)
    && (exists name :: Required(f, name))
    && (forall name :: Required(f, name) ==> Seen(f.runs.value, f.combined.value, name))
  }

  ghost predicate ChecksHold(f: Facts) {
    f.runs.Some? && RunsPass(f.runs.value)
    && f.combined.Some? && StatusesPassed(f.combined.value) && DemandsHold(f)
  }

  ghost predicate GateHolds(f: Facts, head: string) {
    f.first.Some? && PrReady(f.first.value, head)
    && f.reviews.Some? && ReviewsApprove(f.reviews.value, head)
    && ChecksHold(f)
    && f.last.Some? && f.last.value.head == Some(head)
    && f.last.value.mergeable == Some(true) && f.last.value.mergeableState == "clean"
  }

  /** The reason given for a refusal is a fact. */
  ghost predicate Justified(f: Facts, head: string, code: Code) {
    match code
    case HeadMoved => Moved(f.first, head) || Moved(f.last, head)
    case NotOpen => f.first.Some? && (f.first.value.state != "open" || f.first.value.merged)
    case Draft => f.first.Some? && f.first.value.draft
    case WrongBase => f.first.Some? && f.first.value.base != "main"
    case ChangesRequested => f.reviews.Some? && Objected(f.reviews.value)
    case NotApproved => f.reviews.Some? && !BotApproved(f.reviews.value, head)
    case ChecksPending => f.runs.Some? && AllNumbered(f.runs.value) && (RunPending(f.runs.value) || RequiredMissing(f))
    case ChecksFailed => f.runs.Some? && AllNumbered(f.runs.value) && (RunFailed(f.runs.value) || StatusFailed(f))
    case NoRequiredChecks => f.rules.Some? && f.branch.Some? && forall name :: !Required(f, name)
    case NotMergeable => f.last.Some? && (f.last.value.mergeable != Some(true) || f.last.value.mergeableState != "clean")
  }

  predicate Moved(p: Option<Pr>, head: string) {
    p.Some? && p.value.head.Some? && p.value.head.value != head
  }

  ghost predicate Objected(reviews: seq<Review>) {
    exists who :: Latest(reviews, who).Some? && Latest(reviews, who).value.state == "CHANGES_REQUESTED"
  }

  predicate BotApproved(reviews: seq<Review>, head: string) {
    var r := Latest(reviews, REVIEW_BOT);
    r.Some? && r.value.state == "APPROVED" && r.value.commit == head
  }

  ghost predicate RunPending(runs: seq<Run>) {
    AllNumbered(runs)
    && exists r :: r in runs && r.id.Some? && !Superseded(runs, r) && r.status != "completed"
  }

  ghost predicate RunFailed(runs: seq<Run>) {
    AllNumbered(runs)
    && exists r :: r in runs && r.id.Some? && !Superseded(runs, r) && r.conclusion !in PASSING
  }

  ghost predicate RequiredMissing(f: Facts) {
    f.runs.Some? && AllNumbered(f.runs.value) && f.combined.Some? && f.combined.value.statuses.Some?
    && f.rules.Some? && f.branch.Some?
    && exists name :: Required(f, name) && !Seen(f.runs.value, f.combined.value, name)
  }

  predicate StatusFailed(f: Facts) {
    f.combined.Some? && f.combined.value.statuses.Some?
    && exists s :: s in f.combined.value.statuses.value && s.state != "success"
  }

  /** Every read succeeded and every answer has the shape expected. */
  predicate Readable(f: Facts) {
    f.first.Some? && f.first.value.head.Some? && f.last.Some? && f.last.value.head.Some?
    && f.reviews.Some? && AllAuthored(f.reviews.value)
    && f.runs.Some? && AllNumbered(f.runs.value)
    && f.combined.Some? && f.combined.value.statuses.Some?
    && f.combined.value.total == Some(|f.combined.value.statuses.value|)
    && f.rules.Some? && f.branch.Some? && RulesReadable(f.rules.value) && BranchReadable(f.branch.value)
  }

  method ReadPr(p: Option<Pr>, head: string) returns (v: Verdict)
    ensures v == Pass <==> p.Some? && p.value.head == Some(head)
    ensures v.Refused? ==> v.code == HeadMoved && Moved(p, head)
    ensures v == Unread ==> p.None? || p.value.head.None?
  {
    if p.None? || p.value.head.None? {
      return Unread;
    } else if p.value.head.value != head {
      return Refused(HeadMoved);
    }
    return Pass;
  }

  method CheckReviews(reviews: seq<Review>, head: string) returns (v: Verdict)
    ensures v == Pass <==> ReviewsApprove(reviews, head)
    ensures v.Refused? ==> v.code in {ChangesRequested, NotApproved}
    ensures v == Refused(ChangesRequested) ==> Objected(reviews)
    ensures v == Refused(NotApproved) ==> !BotApproved(reviews, head)
    ensures v == Unread ==> !AllAuthored(reviews)
  {
    var latest := LatestVerdicts(reviews);
    if latest.None? {
      return Unread;
    }
    var found := latest.value;
    if exists who :: who in found && found[who].state == "CHANGES_REQUESTED" {
      return Refused(ChangesRequested);
    } else if REVIEW_BOT !in found || found[REVIEW_BOT].state != "APPROVED" || found[REVIEW_BOT].commit != head {
      return Refused(NotApproved);
    }
    return Pass;
  }

  /** The first run that did not pass decides, and what it says depends on whether it is done. */
  function RunsVerdict(kept: seq<Run>): Verdict {
    if kept == [] then Pass
    else if kept[0].status != "completed" then Refused(ChecksPending)
    else if kept[0].conclusion !in PASSING then Refused(ChecksFailed)
    else RunsVerdict(kept[1..])
  }

  predicate Pending(r: Run) { r.status != "completed" }

  predicate Failed(r: Run) { r.status == "completed" && r.conclusion !in PASSING }

  lemma {:induction false} RunsVerdictMeans(kept: seq<Run>)
    ensures RunsVerdict(kept) == Pass <==> forall r :: r in kept ==> Passed(r)
    ensures RunsVerdict(kept) in {Pass, Refused(ChecksPending), Refused(ChecksFailed)}
    ensures RunsVerdict(kept) == Refused(ChecksPending) ==> exists r :: r in kept && Pending(r)
    ensures RunsVerdict(kept) == Refused(ChecksFailed) ==> exists r :: r in kept && Failed(r)
  {
    if kept != [] {
      var r, rest := kept[0], kept[1..];
      RunsVerdictMeans(rest);
      assert r in kept && forall d :: d in kept <==> d == r || d in rest;
      if Passed(r) {
        assert (forall d :: d in kept ==> Passed(d)) <==> forall d :: d in rest ==> Passed(d);
      }
    }
  }

  lemma ToFront(runs: seq<Run>, r: Run) returns (other: seq<Run>)
    requires r in runs
    ensures other != [] && other[0] == r && multiset(other) == multiset(runs)
  {
    var i :| 0 <= i < |runs| && runs[i] == r;
    other := [r] + (runs[..i] + runs[i + 1..]);
    assert runs == runs[..i] + [r] + runs[i + 1..];
  }

  ghost predicate SameInEveryOrder(runs: seq<Run>) {
    forall other: seq<Run> :: multiset(other) == multiset(runs) ==> RunsVerdict(other) == RunsVerdict(runs)
  }

  predicate Mixed(runs: seq<Run>) {
    (exists r :: r in runs && Pending(r)) && exists r :: r in runs && Failed(r)
  }

  /** Which refusal the runs give is the same in every order if and only if they are not both
      pending and failed. */
  lemma RefusalOfRuns(runs: seq<Run>)
    ensures SameInEveryOrder(runs) <==> !Mixed(runs)
  {
    if Mixed(runs) {
      var r :| r in runs && Pending(r);
      var s :| s in runs && Failed(s);
      var first := ToFront(runs, r);
      var second := ToFront(runs, s);
      assert RunsVerdict(first) != RunsVerdict(second);
    } else {
      forall other: seq<Run> | multiset(other) == multiset(runs) ensures RunsVerdict(other) == RunsVerdict(runs) {
        SameRunsSameRefusal(runs, other);
      }
    }
  }

  lemma SameRunsSameRefusal(runs: seq<Run>, other: seq<Run>)
    requires multiset(other) == multiset(runs)
    requires !Mixed(runs)
    ensures RunsVerdict(other) == RunsVerdict(runs)
  {
    RunsVerdictMeans(runs);
    RunsVerdictMeans(other);
    forall r | r in runs ensures r in other {
      assert r in multiset(runs);
    }
    forall r | r in other ensures r in runs {
      assert r in multiset(other);
    }
    assert (forall r :: r in other ==> Passed(r)) <==> forall r :: r in runs ==> Passed(r);
  }

  method CheckRuns(kept: seq<Run>) returns (v: Verdict)
    ensures v == RunsVerdict(kept)
    ensures v == Pass <==> forall r :: r in kept ==> Passed(r)
    ensures v.Refused? ==> v.code in {ChecksPending, ChecksFailed}
    ensures v == Refused(ChecksPending) ==> exists r :: r in kept && r.status != "completed"
    ensures v == Refused(ChecksFailed) ==> exists r :: r in kept && r.conclusion !in PASSING
    ensures v != Unread
  {
    var i := 0;
    assert kept[0..] == kept;
    while i < |kept|
      invariant 0 <= i <= |kept| && RunsVerdict(kept) == RunsVerdict(kept[i..])
      invariant forall k :: 0 <= k < i ==> Passed(kept[k])
    {
      assert kept[i..][0] == kept[i] && kept[i..][1..] == kept[i + 1..];
      if kept[i].status != "completed" {
        assert kept[i] in kept;
        return Refused(ChecksPending);
      } else if kept[i].conclusion !in PASSING {
        assert kept[i] in kept;
        return Refused(ChecksFailed);
      }
      i := i + 1;
    }
    return Pass;
  }

  method CheckStatuses(c: Combined) returns (v: Verdict)
    ensures v == Pass <==> StatusesPassed(c)
    ensures v.Refused? ==>
              v.code == ChecksFailed && c.statuses.Some? && exists s :: s in c.statuses.value && s.state != "success"
    ensures v == Unread ==> c.statuses.None? || c.total != Some(|c.statuses.value|)
  {
    if c.statuses.None? || c.total != Some(|c.statuses.value|) {
      return Unread;
    }
    var i := 0;
    while i < |c.statuses.value|
      invariant 0 <= i <= |c.statuses.value|
      invariant forall k :: 0 <= k < i ==> c.statuses.value[k].state == "success"
    {
      if c.statuses.value[i].state != "success" {
        assert c.statuses.value[i] in c.statuses.value;
        return Refused(ChecksFailed);
      }
      i := i + 1;
    }
    return Pass;
  }

  method CheckRequired(required: set<string>, kept: seq<Run>, statuses: seq<Status>) returns (v: Verdict)
    ensures v == Pass <==>
            required != {}
            && forall name :: name in required ==>
                 (exists r :: r in kept && r.name == name)
                 || exists i :: 0 <= i < |statuses| && statuses[i].context == name
    ensures v.Refused? ==> v.code in {NoRequiredChecks, ChecksPending}
    ensures v == Refused(NoRequiredChecks) ==> required == {}
    ensures v == Refused(ChecksPending) ==>
              exists name :: name in required && (forall r :: r in kept ==> r.name != name)
                             && forall i :: 0 <= i < |statuses| ==> statuses[i].context != name
    ensures v != Unread
  {
    if required == {} {
      return Refused(NoRequiredChecks);
    }
    var seen := (set r | r in kept :: r.name) + (set s | s in statuses :: s.context);
    forall name: string
      ensures name in seen <==>
              (exists r :: r in kept && r.name == name)
              || exists i :: 0 <= i < |statuses| && statuses[i].context == name
    {
      if s :| s in statuses && s.context == name {
        var i :| 0 <= i < |statuses| && statuses[i] == s;
      }
      if i :| 0 <= i < |statuses| && statuses[i].context == name {
        assert statuses[i] in statuses;
      }
    }
    if exists name :: name in required && name !in seen {
      return Refused(ChecksPending);
    }
    return Pass;
  }

  /** The gate passes exactly the heads for which everything holds. */
  method Gate(f: Facts, head: string) returns (v: Verdict)
    ensures v == Pass <==> GateHolds(f, head)
    ensures v.Refused? ==> Justified(f, head, v.code)
    ensures v == Unread ==> !Readable(f)
  {
    v := ReadPr(f.first, head);
    if v != Pass {
      return;
    }
    var p := f.first.value;
    if p.state != "open" || p.merged {
      return Refused(NotOpen);
    } else if p.draft {
      return Refused(Draft);
    } else if p.base != "main" {
      return Refused(WrongBase);
    } else if f.reviews.None? {
      return Unread;
    }
    v := CheckReviews(f.reviews.value, head);
    if v != Pass {
      return;
    }
    v := CheckChecks(f);
    if v != Pass {
      return;
    }
    v := ReadPr(f.last, head);
    if v != Pass {
      return;
    }
    if f.last.value.mergeable != Some(true) || f.last.value.mergeableState != "clean" {
      return Refused(NotMergeable);
    }
    return Pass;
  }

  lemma KeptPass(runs: seq<Run>)
    requires AllNumbered(runs)
    ensures (forall r :: r in Kept(runs, runs) ==> Passed(r)) <==> RunsPass(runs)
    ensures (exists r :: r in Kept(runs, runs) && r.status != "completed") ==> RunPending(runs)
    ensures (exists r :: r in Kept(runs, runs) && r.conclusion !in PASSING) ==> RunFailed(runs)
  {
    forall r: Run
      ensures r in Kept(runs, runs) <==> r in runs && r.id.Some? && !Superseded(runs, r)
      ensures r in runs ==> r.id.Some?
    {
      KeptMember(runs, runs, r);
    }
  }

  lemma KeptSeen(runs: seq<Run>, c: Combined)
    requires AllNumbered(runs) && c.statuses.Some?
    ensures forall name ::
              (exists r :: r in Kept(runs, runs) && r.name == name)
              || (exists i :: 0 <= i < |c.statuses.value| && c.statuses.value[i].context == name)
              <==> Seen(runs, c, name)
  {
    forall r: Run
      ensures r in Kept(runs, runs) <==> r in runs && r.id.Some? && !Superseded(runs, r)
    {
      KeptMember(runs, runs, r);
    }
  }

  method CheckDemanded(f: Facts, kept: seq<Run>) returns (v: Verdict)
    requires f.runs.Some? && AllNumbered(f.runs.value) && f.combined.Some? && f.combined.value.statuses.Some?
    requires kept == Kept(f.runs.value, f.runs.value)
    ensures v == Pass <==> DemandsHold(f)
    ensures v.Refused? ==> v.code in {ChecksPending, NoRequiredChecks}
    ensures v == Refused(ChecksPending) ==> RequiredMissing(f)
    ensures v == Refused(NoRequiredChecks) ==> Justified(f, "", NoRequiredChecks)
    ensures v == Unread ==> !Readable(f)
  {
    if f.rules.None? || f.branch.None? {
      return Unread;
    }
    var required := RequiredChecks(f.rules.value, f.branch.value);
    if required.None? {
      return Unread;
    }
    KeptSeen(f.runs.value, f.combined.value);
    hide Seen, Kept;
    v := CheckRequired(required.value, kept, f.combined.value.statuses.value);
    assert forall name :: name in required.value <==> Required(f, name);
    if required.value != {} {
      var name :| name in required.value;
      assert Required(f, name);
    }
  }

  method CheckChecks(f: Facts) returns (v: Verdict)
    ensures v == Pass <==> ChecksHold(f)
    ensures v.Refused? ==> v.code in {ChecksPending, ChecksFailed, NoRequiredChecks} && Justified(f, "", v.code)
    ensures v == Unread ==> !Readable(f)
  {
    if f.runs.None? {
      return Unread;
    }
    var kept := WithoutSuperseded(f.runs.value);
    if kept.None? {
      return Unread;
    }
    v := CheckRuns(kept.value);
    KeptPass(f.runs.value);
    if v != Pass {
      return;
    }
    if f.combined.None? {
      return Unread;
    }
    v := CheckStatuses(f.combined.value);
    if v != Pass {
      return;
    }
    v := CheckDemanded(f, kept.value);
  }

  // ---- What a pass means ----

  /** No failure is hidden: every run that did not pass was cancelled and has a strictly newer
      run of its own app and name; so the newest run of every app and name passed. */
  lemma NoFailureHidden(f: Facts, head: string, r: Run)
    requires GateHolds(f, head) && r in f.runs.value
    requires forall d :: d in f.runs.value ==> d.id.Some? && d.id.value >= 0 && '/' !in d.app
    ensures Passed(r)
            || (r.conclusion == "cancelled"
                && exists d :: d in f.runs.value && d.app == r.app && d.name == r.name && d.id.value > r.id.value)
    ensures (forall d :: d in f.runs.value && d.app == r.app && d.name == r.name ==> d.id.value <= r.id.value) ==> Passed(r)
  {
    SupersededMeans(f.runs.value, r);
    if Superseded(f.runs.value, r) {
      var d :| d in f.runs.value && Key(d) == Key(r) && d.id.Some? && d.id.value > r.id.value;
      KeySplits(d, r);
    }
  }

  /** An app that is a number has no slash, so the key names the app and the name. */
  lemma KeySplits(a: Run, b: Run)
    requires Key(a) == Key(b) && '/' !in a.app && '/' !in b.app
    ensures a.app == b.app && a.name == b.name
  {
    var x, y := a.app + "/" + a.name, b.app + "/" + b.name;
    assert x[|a.app|] == '/' && y[|b.app|] == '/';
    assert forall i :: 0 <= i < |a.app| ==> x[i] == a.app[i];
    assert forall i :: 0 <= i < |b.app| ==> y[i] == b.app[i];
    assert |a.app| == |b.app|;
    assert a.app == x[..|a.app|] && b.app == y[..|b.app|];
    assert a.name == x[|a.app| + 1..] && b.name == y[|b.app| + 1..];
  }

  /** Every required check is the name of a run that passed, or of a status that succeeded. */
  lemma RequiredPassed(f: Facts, head: string, name: string)
    requires GateHolds(f, head) && Required(f, name)
    ensures (exists r :: r in f.runs.value && Passed(r) && r.name == name)
            || exists s :: s in f.combined.value.statuses.value && s.state == "success" && s.context == name
  {
    var runs := f.runs.value;
    if r :| r in runs && r.id.Some? && !Superseded(runs, r) && r.name == name {
      assert Passed(r);
    } else {
      var i :| 0 <= i < |f.combined.value.statuses.value| && f.combined.value.statuses.value[i].context == name;
      assert f.combined.value.statuses.value[i] in f.combined.value.statuses.value;
    }
  }

  lemma NewestOfMembers(a: seq<Run>, b: seq<Run>, key: string)
    requires AllNumbered(a) && AllNumbered(b) && forall r :: r in a <==> r in b
    ensures Newest(a, key) == Newest(b, key)
  {
    NewestIsMax(a, key);
    NewestIsMax(b, key);
  }

  /** The answer does not depend on the order in which the runs are listed. */
  lemma OrderDoesNotMatter(f: Facts, head: string, runs: seq<Run>)
    requires f.runs.Some? && multiset(runs) == multiset(f.runs.value)
    ensures GateHolds(f.(runs := Some(runs)), head) <==> GateHolds(f, head)
  {
    var was := f.runs.value;
    forall r ensures r in runs <==> r in was {
      assert r in multiset(runs) <==> r in multiset(was);
    }
    if AllNumbered(was) {
      NumberedMembers(was, runs);
    }
    if AllNumbered(runs) {
      NumberedMembers(runs, was);
      forall r: Run | r.id.Some?
        ensures Superseded(runs, r) <==> Superseded(was, r)
      {
        NewestOfMembers(runs, was, Key(r));
      }
      var g := f.(runs := Some(runs));
      assert forall name :: f.rules.Some? && f.branch.Some? ==> Required(f, name) == Required(g, name);
      assert forall name :: f.combined.Some? && f.combined.value.statuses.Some? ==>
               Seen(runs, f.combined.value, name) == Seen(was, f.combined.value, name);
      assert RunsPass(runs) <==> RunsPass(was);
    }
  }

  lemma NumberedMembers(a: seq<Run>, b: seq<Run>)
    requires AllNumbered(a) && forall r :: r in b ==> r in a
    ensures AllNumbered(b)
  {
    forall i | 0 <= i < |b| ensures b[i].id.Some? {
      assert b[i] in a;
    }
  }
}
