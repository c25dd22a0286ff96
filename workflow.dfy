/** The decisions of the release script: when it prompts, when it aborts,
    which git commands it issues and in what order. Commands are abstract
    values; what git does with them is outside the model. */
module Workflow {
  import opened Text
  import opened Versions

  datatype Option<T> = None | Some(value: T)

  // ---------------------------------------------------------------------------
  // The operator's answer (promptUser and the test in main)
  // ---------------------------------------------------------------------------

  /** `answer.trim().toLowerCase()`. */
  function Normalise(raw: string): string {
    ToLower(Trim(raw))
  }

  /** The answer discards local changes when it normalises to "y" or "yes". */
  predicate Accepts(raw: string) {
    var a := Normalise(raw);
    a == "y" || a == "yes"
  }

  /** Every spelling of "y" and "yes", in any mix of letter cases. */
  const YesWords: set<string> :=
    {"y", "Y", "yes", "yeS", "yEs", "yES", "Yes", "YeS", "YEs", "YES"}

  lemma LowerCharIs(c: char, l: char)
    requires 'a' <= l <= 'z'
    ensures LowerChar(c) == l <==> c == l || c as int == l as int - 'a' as int + 'A' as int
  {
  }

  /** Lower-casing gives "y" or "yes" exactly for the spellings in YesWords. */
  lemma LowerIsYes(w: string)
    ensures (ToLower(w) == "y" || ToLower(w) == "yes") <==> w in YesWords
  {
    var l := ToLower(w);
    if |w| == 1 {
      LowerCharIs(w[0], 'y');
      assert l == "y" <==> l[0] == 'y';
      assert w == [w[0]];
    } else if |w| == 3 {
      LowerCharIs(w[0], 'y');
      LowerCharIs(w[1], 'e');
      LowerCharIs(w[2], 's');
      assert l == "yes" <==> l[0] == 'y' && l[1] == 'e' && l[2] == 's';
      assert w == [w[0], w[1], w[2]];
    } else {
      assert |l| == |w|;
    }
  }

  /** An answer is accepted exactly when, white space around it aside, it is
      "y" or "yes" in some letter case. Every answer splits this way (see
      Trim), so this decides every input. */
  lemma AnswerAccepted(pre: string, w: string, suf: string)
    requires AllSpace(pre) && AllSpace(suf) && Unpadded(w)
    ensures Accepts(pre + w + suf) <==> w in YesWords
  {
    TrimPadded(pre, w, suf);
    LowerIsYes(w);
  }

  // ---------------------------------------------------------------------------
  // Observations of the repository
  // ---------------------------------------------------------------------------

  /** `hasUncommittedChanges`: the trimmed status listing is not empty. */
  predicate IsDirty(status: string) {
    Trim(status) != []
  }

  /** `getLastTag`: the trimmed output of `git describe`, or the baseline
      when that command fails. */
  function LastTag(describe: Option<string>): string {
    if describe.Some? then Trim(describe.value) else Baseline
  }

  function ReleaseName(version: string): string {
    "release/" + version
  }

  /** `releaseBranchExists`: the trimmed branch listing contains
      "release/<version>"; a failed listing counts as "no". */
  predicate BranchExists(listing: Option<string>, version: string) {
    listing.Some? && Contains(Trim(listing.value), ReleaseName(version))
  }

  /** The trimming `run` does on the listing never changes the answer: the
      branch exists iff the raw listing contains "release/<version>", and a
      failed listing means it does not. */
  lemma BranchExistsIff(listing: Option<string>, version: string)
    requires Unpadded(version)
    ensures BranchExists(listing, version) <==>
      listing.Some? && Contains(listing.value, ReleaseName(version))
  {
    var name := ReleaseName(version);
    assert name[0] == 'r' && name[|name| - 1] == (if version == [] then '/' else version[|version| - 1]);
    if listing.Some? {
      TrimKeepsContains(listing.value, name);
    }
  }

  /** The check is a substring test, not a name comparison: a listing that
      shows only "release/1.2.0-rc" still counts as "release/1.2.0". */
  lemma BranchExistsOnLongerName()
    ensures BranchExists(Some("  release/1.2.0-rc\n"), "1.2.0")
  {
    var s := "  release/1.2.0-rc\n";
    ContainsAt(s, ReleaseName("1.2.0"), 2);
    BranchExistsIff(Some(s), "1.2.0");
  }

  // ---------------------------------------------------------------------------
  // Commands and runs
  // ---------------------------------------------------------------------------

  datatype Branch = Master | Development | ReleaseOf(version: string)

  /** The git commands the script issues. */
  datatype Command =
    | Status                     // git status --porcelain
    | ResetHard                  // git reset --hard
    | CleanUntracked             // git clean -fd
    | DescribeTags               // git describe --tags --abbrev=0
    | ListRelease(version: string)   // git branch --list release/<version>
    | Checkout(branch: Branch)   // git checkout <branch>
    | Pull(branch: Branch)       // git pull origin <branch>
    | FlowStart(version: string)     // git flow release start <version>
    | FlowFinish(version: string)    // git flow release finish -m "Release <version>" <version>
    | Push(branch: Branch)       // git push origin <branch>
    | PushTag(version: string)   // git push origin refs/tags/<version>

  /** The two commands whose failure the script catches and replaces by a
      default; the failure of any other command ends the run. */
  predicate Caught(c: Command) {
    c.DescribeTags? || c.ListRelease?
  }

  /** What the script observes. `describe` and `listing` are the outputs of
      the two caught commands (None: the command failed). `failAfter` says
      which uncaught command fails first: Some(k) lets k of them succeed and
      fails the next, None lets all succeed. Since the first such failure
      ends the run, this covers every pattern of failures. */
  datatype Env = Env(status: string, describe: Option<string>, listing: Option<string>,
                     failAfter: Option<nat>)

  /** How the run ends: normally (exit 0), by the operator declining to
      discard changes (exit 1), or by a failed command (exit 1). */
  datatype Outcome = Completed | Declined | Crashed

  function ExitCode(o: Outcome): nat {
    if o.Completed? then 0 else 1
  }

  /** The commands issued in order, whether the operator was asked, and how it ended. */
  datatype Run = Run(commands: seq<Command>, prompted: bool, outcome: Outcome)

  /** The tag read is well formed (malformed tags are not modelled). */
  predicate TagReadable(env: Env) {
    ValidTag(LastTag(env.describe))
  }

  function NewVersion(env: Env): string
    requires TagReadable(env)
  {
    IncrementTag(LastTag(env.describe))
  }

  /** The new version is a well-formed tag, so for every run the branch
      check amounts to "the raw listing contains release/<version>". */
  lemma NewBranchCheck(env: Env)
    requires TagReadable(env)
    ensures BranchExists(env.listing, NewVersion(env)) <==>
      env.listing.Some? && Contains(env.listing.value, ReleaseName(NewVersion(env)))
  {
    var v := NewVersion(env);
    ValidTagUnpadded(v);
    BranchExistsIff(env.listing, v);
  }

  /** The tree is clean, or the operator agreed to discard its changes. */
  predicate Proceeds(env: Env, answer: string) {
    !IsDirty(env.status) || Accepts(answer)
  }

  function PullSequence(b: Branch): seq<Command> {
    [Checkout(b), Pull(b)]
  }

  /** `startRelease`: pull master, pull development, start the release
      branch, push it. */
  function StartSequence(v: string): seq<Command> {
    [Checkout(Master), Pull(Master), Checkout(Development), Pull(Development),
     FlowStart(v), Push(ReleaseOf(v))]
  }

  /** `finishRelease`: pull master, development and the release branch,
      finish the release, push master, push development, push the tag. */
  function FinishSequence(v: string): seq<Command> {
    [Checkout(Master), Pull(Master), Checkout(Development), Pull(Development),
     Checkout(ReleaseOf(v)), Pull(ReleaseOf(v)),
     FlowFinish(v), Checkout(Master), Push(Master), Checkout(Development), Push(Development),
     PushTag(v)]
  }

  /** What the script has learnt when it decides: whether the tree is dirty,
      whether it may go on, the new version and whether its branch exists. */
  datatype Facts = Facts(dirty: bool, proceeds: bool, version: string, branchExists: bool)

  function Observe(env: Env, answer: string): Facts
    requires TagReadable(env)
  {
    var v := NewVersion(env);
    Facts(IsDirty(env.status), Proceeds(env, answer), v, BranchExists(env.listing, v))
  }

  /** A clean tree never needs the operator's consent. */
  predicate Coherent(f: Facts) {
    !f.dirty ==> f.proceeds
  }

  /** The commands before the start decision: the status query, the discard
      of local changes when the tree is dirty, the tag and branch queries. */
  function Preamble(dirty: bool, v: string): seq<Command> {
    [Status] + (if dirty then [ResetHard, CleanUntracked] else []) + [DescribeTags, ListRelease(v)]
  }

  /** What `main` decides to do, given what it learns, when no uncaught command fails. */
  function Plan(f: Facts, close: bool): Run {
    if !f.proceeds then Run([Status], true, Declined)
    else
      Run(Preamble(f.dirty, f.version)
          + (if f.branchExists then [] else StartSequence(f.version))
          + (if close then FinishSequence(f.version) else []),
          f.dirty, Completed)
  }

  function Intended(env: Env, answer: string, close: bool): Run
    requires TagReadable(env)
  {
    Plan(Observe(env, answer), close)
  }

  // ---------------------------------------------------------------------------
  // Failures: a failed uncaught command stops everything after it
  // ---------------------------------------------------------------------------

  /** Number of uncaught commands in `cmds`. */
  function Uncaught(cmds: seq<Command>): nat {
    if cmds == [] then 0 else (if Caught(cmds[0]) then 0 else 1) + Uncaught(cmds[1..])
  }

  /** `c` is the uncaught command that fails, given how many may still succeed. */
  predicate FailsNow(budget: Option<nat>, c: Command) {
    !Caught(c) && budget == Some(0)
  }

  /** The budget left once `c` has run. */
  function Spend(budget: Option<nat>, c: Command): Option<nat> {
    if !Caught(c) && budget.Some? && budget.value > 0 then Some(budget.value - 1) else budget
  }

  datatype Halted = Halted(commands: seq<Command>, failed: bool, budget: Option<nat>)

  /** Issue `cmds` in order until an uncaught command fails. */
  function Halt(cmds: seq<Command>, budget: Option<nat>): Halted
  {
    if cmds == [] then Halted([], false, budget)
    else if FailsNow(budget, cmds[0]) then Halted([cmds[0]], true, budget)
    else
      var h := Halt(cmds[1..], Spend(budget, cmds[0]));
      Halted([cmds[0]] + h.commands, h.failed, h.budget)
  }

  /** What is issued is a prefix of `cmds`; it is all of them unless there
      was a failure, which happens exactly when the budget is smaller than
      the number of uncaught commands, and then the failing command is the
      last one issued. */
  lemma {:induction false} HaltFacts(cmds: seq<Command>, budget: Option<nat>)
    ensures var h := Halt(cmds, budget);
      && h.commands <= cmds
      && (h.failed <==> budget.Some? && budget.value < Uncaught(cmds))
      && (!h.failed ==> h.commands == cmds)
      && (!h.failed ==> h.budget == if budget.Some? then Some(budget.value - Uncaught(cmds)) else None)
      && (h.failed ==> h.commands != [] && !Caught(h.commands[|h.commands| - 1])
                       && Uncaught(h.commands) == budget.value + 1)
  {
    if cmds == [] {
    } else if FailsNow(budget, cmds[0]) {
      assert Uncaught([cmds[0]]) == 1;
    } else {
      HaltFacts(cmds[1..], Spend(budget, cmds[0]));
      var h := Halt(cmds[1..], Spend(budget, cmds[0]));
      var out := [cmds[0]] + h.commands;
      assert out[1..] == h.commands;
      assert h.commands != [] ==> out[|out| - 1] == h.commands[|h.commands| - 1];
    }
  }

  lemma {:induction false} UncaughtAppend(a: seq<Command>, b: seq<Command>)
    ensures Uncaught(a + b) == Uncaught(a) + Uncaught(b)
  {
    if a != [] {
      assert (a + b)[1..] == a[1..] + b;
      UncaughtAppend(a[1..], b);
    } else {
      assert a + b == b;
    }
  }

  /** Running `a + b` is running `a`, then, if nothing failed, `b` with the
      budget `a` left. */
  lemma {:induction false} HaltAppend(a: seq<Command>, b: seq<Command>, budget: Option<nat>)
    ensures var ha := Halt(a, budget);
      Halt(a + b, budget) ==
        if ha.failed then ha
        else var hb := Halt(b, ha.budget); Halted(ha.commands + hb.commands, hb.failed, hb.budget)
  {
    if a == [] {
      assert a + b == b;
    } else {
      assert (a + b)[0] == a[0] && (a + b)[1..] == a[1..] + b;
      if !FailsNow(budget, a[0]) {
        HaltAppend(a[1..], b, Spend(budget, a[0]));
        var ht := Halt(a[1..], Spend(budget, a[0]));
        var hb := Halt(b, ht.budget);
        assert [a[0]] + (ht.commands + hb.commands) == [a[0]] + ht.commands + hb.commands;
      }
    }
  }

  /** A plan carried out while uncaught commands may fail: cut at the first
      failure. The prompt happens once the status query has succeeded. */
  function Execute(p: Run, budget: Option<nat>): Run {
    var h := Halt(p.commands, budget);
    Run(h.commands, p.prompted && budget != Some(0), if h.failed then Crashed else p.outcome)
  }

  /** The run of `main`. */
  function Release(env: Env, answer: string, close: bool): Run
    requires TagReadable(env)
  {
    Execute(Intended(env, answer, close), env.failAfter)
  }

  /** What `main` learns, field by field; its run is the plan for it. */
  lemma Observed(env: Env, answer: string, close: bool) returns (f: Facts)
    requires TagReadable(env)
    ensures Coherent(f)
    ensures f.dirty == IsDirty(env.status) && f.proceeds == Proceeds(env, answer)
    ensures f.version == NewVersion(env) && f.branchExists == BranchExists(env.listing, f.version)
    ensures Intended(env, answer, close) == Plan(f, close)
    ensures Release(env, answer, close) == Execute(Plan(f, close), env.failAfter)
  {
    f := Observe(env, answer);
  }

  lemma NotInPrefix(a: seq<Command>, b: seq<Command>, c: Command)
    requires a <= b && c !in b
    ensures c !in a
  {
  }

  // ---------------------------------------------------------------------------
  // Properties of a run
  // ---------------------------------------------------------------------------

  /** Whatever fails, a plan's run issues a prefix of its commands; it
      crashes exactly when fewer uncaught commands succeed than the plan
      holds, and then it stops right at the failing command; otherwise it
      issues the whole plan and ends as planned. */
  lemma ExecuteIsPlanPrefix(p: Run, budget: Option<nat>)
    requires !p.outcome.Crashed?
    ensures var r := Execute(p, budget);
      && r.commands <= p.commands
      && (r.outcome.Crashed? <==> budget.Some? && budget.value < Uncaught(p.commands))
      && (r.outcome.Crashed? ==> Uncaught(r.commands) == budget.value + 1
                                 && !Caught(r.commands[|r.commands| - 1]))
      && (!r.outcome.Crashed? ==> r.commands == p.commands && r.outcome == p.outcome)
  {
    HaltFacts(p.commands, budget);
  }

  lemma PlanRunPrefix(f: Facts, close: bool, budget: Option<nat>)
    ensures var p, r := Plan(f, close), Execute(Plan(f, close), budget);
      && r.commands <= p.commands
      && (r.outcome.Crashed? <==> budget.Some? && budget.value < Uncaught(p.commands))
      && (r.outcome.Crashed? ==> Uncaught(r.commands) == budget.value + 1
                                 && !Caught(r.commands[|r.commands| - 1]))
      && (!r.outcome.Crashed? ==> r.commands == p.commands && r.outcome == p.outcome)
      && (ExitCode(r.outcome) == 1 <==> r.outcome.Crashed? || !f.proceeds)
  {
    ExecuteIsPlanPrefix(Plan(f, close), budget);
  }

  /** The same for the run of `main`, whatever fails: the exit code is 1
      exactly when the run crashes or the operator declines. */
  lemma RunIsPlanPrefix(env: Env, answer: string, close: bool)
    requires TagReadable(env)
    ensures var p, r := Intended(env, answer, close), Release(env, answer, close);
      && r.commands <= p.commands
      && (r.outcome.Crashed? <==> env.failAfter.Some? && env.failAfter.value < Uncaught(p.commands))
      && (r.outcome.Crashed? ==> Uncaught(r.commands) == env.failAfter.value + 1
                                 && !Caught(r.commands[|r.commands| - 1]))
      && (!r.outcome.Crashed? ==> r.commands == p.commands && r.outcome == p.outcome)
      && (ExitCode(r.outcome) == 1 <==> r.outcome.Crashed? || !Proceeds(env, answer))
  {
    var f := Observed(env, answer, close);
    var p, r := Intended(env, answer, close), Release(env, answer, close);
    assert p == Plan(f, close) && r == Execute(p, env.failAfter);
    PlanRunPrefix(f, close, env.failAfter);
  }

  lemma PlanPrompt(f: Facts, close: bool)
    requires Coherent(f)
    ensures Plan(f, close).prompted == f.dirty
    ensures !f.dirty ==> ResetHard !in Plan(f, close).commands
                         && CleanUntracked !in Plan(f, close).commands
  {
    if !f.dirty {
      var v := f.version;
      var start := if f.branchExists then [] else StartSequence(v);
      var finish := if close then FinishSequence(v) else [];
      assert Plan(f, close).commands == Preamble(false, v) + start + finish;
      assert ResetHard !in Preamble(false, v) && ResetHard !in start && ResetHard !in finish;
      assert CleanUntracked !in Preamble(false, v) && CleanUntracked !in start
             && CleanUntracked !in finish;
    }
  }

  /** The operator is asked exactly when the tree is dirty and the status
      query succeeded; on a clean tree there is no prompt and no reset or
      clean command, whatever else happens. */
  lemma PromptOnlyWhenDirty(env: Env, answer: string, close: bool)
    requires TagReadable(env)
    ensures var r := Release(env, answer, close);
      && (r.prompted <==> IsDirty(env.status) && env.failAfter != Some(0))
      && (!IsDirty(env.status) ==> ResetHard !in r.commands && CleanUntracked !in r.commands)
  {
    var f := Observed(env, answer, close);
    var p := Plan(f, close);
    PlanPrompt(f, close);
    ExecuteIsPlanPrefix(p, env.failAfter);
    var r := Execute(p, env.failAfter);
    if !f.dirty {
      NotInPrefix(r.commands, p.commands, ResetHard);
      NotInPrefix(r.commands, p.commands, CleanUntracked);
    }
  }

  lemma PlanDeclined(f: Facts, close: bool, budget: Option<nat>)
    requires !f.proceeds
    ensures var r := Execute(Plan(f, close), budget);
      r.commands == [Status] && ExitCode(r.outcome) == 1
  {
    HaltFacts([Status], budget);
  }

  /** On a dirty tree, an answer other than y/yes ends the run with exit code
      1 right after the status query: no reset, clean or later command. */
  lemma DeclineAborts(env: Env, answer: string, close: bool)
    requires TagReadable(env)
    requires IsDirty(env.status) && !Accepts(answer)
    ensures var r := Release(env, answer, close);
      r.commands == [Status] && ExitCode(r.outcome) == 1
  {
    var f := Observed(env, answer, close);
    PlanDeclined(f, close, env.failAfter);
  }

  lemma PlanDiscardsFirst(f: Facts, close: bool, budget: Option<nat>)
    requires f.dirty && f.proceeds && budget != Some(0)
    ensures var r := Execute(Plan(f, close), budget);
      r.prompted && |r.commands| >= 2 && r.commands[..2] == [Status, ResetHard]
      && (|r.commands| > 2 ==> r.commands[2] == CleanUntracked)
  {
    var p := Plan(f, close);
    var c := p.commands;
    assert c[..3] == [Status, ResetHard, CleanUntracked];
    assert c[..2] == [Status, ResetHard];
    assert c[..2][1..] == [ResetHard] && [ResetHard][1..] == [];
    assert Uncaught(c[..2]) == 2;
    UncaughtAppend(c[..2], c[2..]);
    assert c[..2] + c[2..] == c;
    ExecuteIsPlanPrefix(p, budget);
    var r := Execute(p, budget);
    assert |r.commands| >= 2;
    assert r.commands[..2] == c[..2];
  }

  /** On a dirty tree with the answer accepted, local changes are discarded
      (reset, then clean) right after the status query, before the tag is read. */
  lemma AcceptedDiscardsFirst(env: Env, answer: string, close: bool)
    requires TagReadable(env)
    requires IsDirty(env.status) && Accepts(answer) && env.failAfter != Some(0)
    ensures var r := Release(env, answer, close);
      r.prompted && |r.commands| >= 2 && r.commands[..2] == [Status, ResetHard]
      && (|r.commands| > 2 ==> r.commands[2] == CleanUntracked)
  {
    var f := Observed(env, answer, close);
    PlanDiscardsFirst(f, close, env.failAfter);
  }

  /** The two commands of the start sequence that create and publish the
      release branch occur neither in the preamble nor in the finish sequence. */
  lemma StartNotElsewhere(dirty: bool, v: string)
    ensures FlowStart(v) !in Preamble(dirty, v) && Push(ReleaseOf(v)) !in Preamble(dirty, v)
    ensures FlowStart(v) !in FinishSequence(v) && Push(ReleaseOf(v)) !in FinishSequence(v)
  {
  }

  lemma PlanWhenExists(f: Facts, close: bool)
    requires f.proceeds && f.branchExists
    ensures var c := Plan(f, close).commands;
      && c == Preamble(f.dirty, f.version) + (if close then FinishSequence(f.version) else [])
      && FlowStart(f.version) !in c && Push(ReleaseOf(f.version)) !in c
  {
    var v := f.version;
    var pre, fin := Preamble(f.dirty, v), if close then FinishSequence(v) else [];
    assert Plan(f, close).commands == pre + [] + fin;
    assert pre + [] == pre;
    StartNotElsewhere(f.dirty, v);
  }

  /** With the release branch already there, nothing of the start sequence
      happens; with no failure the run is the preamble, then the finish
      sequence when --close was given. */
  lemma ExistingBranchSkipsStart(env: Env, answer: string, close: bool)
    requires TagReadable(env) && Proceeds(env, answer)
    requires BranchExists(env.listing, NewVersion(env))
    ensures var r, v := Release(env, answer, close), NewVersion(env);
      && FlowStart(v) !in r.commands && Push(ReleaseOf(v)) !in r.commands
      && (env.failAfter.None? ==>
            r.commands == Preamble(IsDirty(env.status), v)
                          + (if close then FinishSequence(v) else [])
            && r.outcome.Completed?)
  {
    var f := Observed(env, answer, close);
    var p := Plan(f, close);
    PlanWhenExists(f, close);
    ExecuteIsPlanPrefix(p, env.failAfter);
    var r := Execute(p, env.failAfter);
    NotInPrefix(r.commands, p.commands, FlowStart(f.version));
    NotInPrefix(r.commands, p.commands, Push(ReleaseOf(f.version)));
  }

  lemma PlanWhenMissing(f: Facts, close: bool)
    requires f.proceeds && !f.branchExists
    ensures var r, n, v := Execute(Plan(f, close), None), |Preamble(f.dirty, f.version)|, f.version;
      && r.commands == Preamble(f.dirty, v) + StartSequence(v) + (if close then FinishSequence(v) else [])
      && r.commands[n..n + 6] == StartSequence(v)
      && r.outcome.Completed?
  {
    var c, n, v := Plan(f, close).commands, |Preamble(f.dirty, f.version)|, f.version;
    assert c[n..n + 6] == StartSequence(v);
    ExecuteIsPlanPrefix(Plan(f, close), None);
  }

  /** With no release branch yet and no failure, the start sequence follows
      the preamble: checkout/pull master, checkout/pull development, flow
      release start, push of release/<version>, in that order. */
  lemma MissingBranchStarts(env: Env, answer: string, close: bool)
    requires TagReadable(env) && Proceeds(env, answer) && env.failAfter.None?
    requires !BranchExists(env.listing, NewVersion(env))
    ensures var r, v, n := Release(env, answer, close), NewVersion(env),
                           |Preamble(IsDirty(env.status), NewVersion(env))|;
      && r.commands == Preamble(IsDirty(env.status), v) + StartSequence(v)
                       + (if close then FinishSequence(v) else [])
      && r.commands[n..n + 6] ==
           [Checkout(Master), Pull(Master), Checkout(Development), Pull(Development),
            FlowStart(v), Push(ReleaseOf(v))]
      && r.outcome.Completed?
  {
    var f := Observed(env, answer, close);
    PlanWhenMissing(f, close);
  }

  /** The two commands of the finish sequence that merge the release and
      publish its tag occur neither in the preamble nor in the start sequence. */
  lemma FinishNotElsewhere(dirty: bool, v: string)
    ensures FlowFinish(v) !in Preamble(dirty, v) && PushTag(v) !in Preamble(dirty, v)
    ensures FlowFinish(v) !in StartSequence(v) && PushTag(v) !in StartSequence(v)
    ensures FlowFinish(v) !in [Status] && PushTag(v) !in [Status]
  {
  }

  lemma PlanNoFinish(f: Facts, budget: Option<nat>)
    ensures var r, v := Execute(Plan(f, false), budget), f.version;
      FlowFinish(v) !in r.commands && PushTag(v) !in r.commands
  {
    var p, v := Plan(f, false), f.version;
    FinishNotElsewhere(f.dirty, v);
    if f.proceeds {
      var pre, start := Preamble(f.dirty, v), if f.branchExists then [] else StartSequence(v);
      assert p.commands == pre + start + [];
      assert pre + start + [] == pre + start;
    }
    ExecuteIsPlanPrefix(p, budget);
    NotInPrefix(Execute(p, budget).commands, p.commands, FlowFinish(v));
    NotInPrefix(Execute(p, budget).commands, p.commands, PushTag(v));
  }

  lemma PlanFinish(f: Facts, close: bool, budget: Option<nat>)
    requires f.proceeds && close && budget.None?
    ensures var c, v := Execute(Plan(f, close), budget).commands, f.version;
      && |c| >= |FinishSequence(v)|
      && c[|c| - |FinishSequence(v)|..] == FinishSequence(v)
      && FlowFinish(v) in c && c[|c| - 1] == PushTag(v)
  {
    var p, v := Plan(f, true), f.version;
    ExecuteIsPlanPrefix(p, None);
    var c, fin := p.commands, FinishSequence(v);
    assert c[|c| - |fin|..] == fin;
    assert c[|c| - |fin| + 6] == fin[6] == FlowFinish(v);
  }

  /** Without --close no finish command is ever issued, whatever fails. */
  lemma FinishOnlyWithClose(env: Env, answer: string)
    requires TagReadable(env)
    ensures var r, v := Release(env, answer, false), NewVersion(env);
      FlowFinish(v) !in r.commands && PushTag(v) !in r.commands
  {
    var f := Observed(env, answer, false);
    PlanNoFinish(f, env.failAfter);
  }

  /** With --close, once the run may go on and nothing fails, the finish
      sequence closes the run, after the start decision, and pushing the
      tag is the very last command. */
  lemma CloseFinishes(env: Env, answer: string)
    requires TagReadable(env) && Proceeds(env, answer) && env.failAfter.None?
    ensures var r, v := Release(env, answer, true), NewVersion(env);
      && FlowFinish(v) in r.commands
      && |r.commands| >= |FinishSequence(v)|
      && r.commands[|r.commands| - |FinishSequence(v)|..] == FinishSequence(v)
      && r.commands[|r.commands| - 1] == PushTag(v)
  {
    var f := Observed(env, answer, true);
    var r, v := Release(env, answer, true), NewVersion(env);
    PlanFinish(f, true, env.failAfter);
    assert r.commands == Execute(Plan(f, true), env.failAfter).commands && v == f.version;
  }

  /** With no tag to read, the new version is 0.1.0. */
  lemma NoTagVersion(env: Env)
    requires env.describe.None?
    ensures TagReadable(env) && NewVersion(env) == "0.1.0"
  {
    BaselineIncrement();
  }

  /** The tree counts as dirty exactly when the status listing holds
      something other than white space. */
  lemma DirtyIffNotBlank(status: string)
    ensures IsDirty(status) <==> !AllSpace(status)
  {
    if AllSpace(status) {
      assert status + [] + [] == status;
      TrimPadded(status, [], []);
    } else {
      var i :| 0 <= i < |status| && !IsSpace(status[i]);
      InsideTrim(status, i);
    }
  }

  /** A status listing that is empty or only white space is a clean tree,
      which always proceeds. */
  lemma BlankStatusClean(env: Env, answer: string)
    requires AllSpace(env.status)
    ensures !IsDirty(env.status) && Proceeds(env, answer)
  {
    DirtyIffNotBlank(env.status);
  }

  lemma FirstReleaseFacts(env: Env, answer: string)
    requires env.status == "" && env.describe.None?
    requires env.listing.None? || env.listing == Some("")
    ensures TagReadable(env) && Observe(env, answer) == Facts(false, true, "0.1.0", false)
  {
    NoTagVersion(env);
    BlankStatusClean(env, answer);
    assert !BranchExists(env.listing, "0.1.0") by {
      assert Trim("") == "";
      assert !Contains("", ReleaseName("0.1.0"));
    }
  }

  /** Clean tree, branch missing, no --close, nothing fails: the whole run. */
  lemma CleanStartRun(v: string)
    ensures Execute(Plan(Facts(false, true, v, false), false), None) ==
      Run([Status, DescribeTags, ListRelease(v),
           Checkout(Master), Pull(Master), Checkout(Development), Pull(Development),
           FlowStart(v), Push(ReleaseOf(v))], false, Completed)
  {
    PlanWhenMissing(Facts(false, true, v, false), false);
  }

  /** Clean tree, branch present, no --close, nothing fails: the whole run. */
  lemma CleanSkipRun(v: string)
    ensures Execute(Plan(Facts(false, true, v, true), false), None) ==
      Run([Status, DescribeTags, ListRelease(v)], false, Completed)
  {
    PlanWhenExists(Facts(false, true, v, true), false);
    ExecuteIsPlanPrefix(Plan(Facts(false, true, v, true), false), None);
  }

  /** First release of a repository: no tag, clean tree, no --close, nothing
      fails, no branch listed. The version is 0.1.0, its branch is created
      and pushed, and no finish command is issued. */
  lemma FirstRelease(env: Env, answer: string)
    requires env.status == "" && env.describe.None? && env.failAfter.None?
    requires env.listing.None? || env.listing == Some("")
    ensures TagReadable(env) && NewVersion(env) == "0.1.0"
    ensures Release(env, answer, false) ==
        Run([Status, DescribeTags, ListRelease("0.1.0"),
             Checkout(Master), Pull(Master), Checkout(Development), Pull(Development),
             FlowStart("0.1.0"), Push(ReleaseOf("0.1.0"))], false, Completed)
  {
    FirstReleaseFacts(env, answer);
    CleanStartRun("0.1.0");
  }

  lemma SecondRunFacts(env: Env, answer: string)
    requires env.status == "" && env.describe.None?
    requires env.listing.Some? && Contains(env.listing.value, ReleaseName("0.1.0"))
    ensures TagReadable(env) && Observe(env, answer) == Facts(false, true, "0.1.0", true)
  {
    NoTagVersion(env);
    BlankStatusClean(env, answer);
    ValidTagUnpadded("0.1.0");
    BranchExistsIff(env.listing, "0.1.0");
  }

  /** Running again once release/0.1.0 shows in the listing: the start is
      skipped, and the run only queries the repository. */
  lemma SecondRun(env: Env, answer: string)
    requires env.status == "" && env.describe.None? && env.failAfter.None?
    requires env.listing.Some? && Contains(env.listing.value, ReleaseName("0.1.0"))
    ensures TagReadable(env)
    ensures Release(env, answer, false) ==
      Run([Status, DescribeTags, ListRelease("0.1.0")], false, Completed)
  {
    SecondRunFacts(env, answer);
    CleanSkipRun("0.1.0");
  }
}
