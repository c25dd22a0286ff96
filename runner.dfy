/** The script as it runs: `main`, `startRelease`, `finishRelease`,
    `pullBranch` and the three repository queries, issuing one command at a
    time through a shell. A command whose failure is not caught ends the
    run, which the methods below pass upwards as `ok == false`. Each method
    is proved to issue exactly what the plan of module Workflow prescribes,
    cut at the first failure. */
module Runner {
  import opened Text
  import opened Versions
  import opened Workflow

  /** What `run` hands back: the trimmed output, or the failure it throws. */
  datatype Reply = Ok(out: string) | Failed

  /** The reply to `c` in repository `env` when `budget` more uncaught
      commands may succeed. The two queries whose failure the script
      catches answer from `env.describe` and `env.listing`; every other
      command fails exactly when it is the one `budget` says fails. */
  function Answer(env: Env, budget: Option<nat>, c: Command): (r: Reply)
    ensures !Caught(c) ==> (r.Failed? <==> FailsNow(budget, c))
    ensures c.DescribeTags? ==> (r.Failed? <==> env.describe.None?)
    ensures c.ListRelease? ==> (r.Failed? <==> env.listing.None?)
    ensures r.Ok? ==> Unpadded(r.out)
  {
    match c
    case DescribeTags => if env.describe.Some? then Ok(Trim(env.describe.value)) else Failed
    case ListRelease(_) => if env.listing.Some? then Ok(Trim(env.listing.value)) else Failed
    case _ =>
      if FailsNow(budget, c) then Failed
      else if c.Status? then Ok(Trim(env.status))
      else Ok([])
  }

  /** The shell the script talks to: the repository it answers for, the
      commands issued so far, and how many more uncaught commands may
      succeed. */
  class Shell {
    const env: Env
    var issued: seq<Command>
    var budget: Option<nat>

    constructor (env: Env)
      ensures this.env == env && issued == [] && budget == env.failAfter
    {
      this.env := env;
      issued := [];
      budget := env.failAfter;
    }

    /** `run(cmd)`: issue `c` and return its trimmed output or its failure. */
    method RunCommand(c: Command) returns (r: Reply)
      modifies this
      ensures issued == old(issued) + [c]
      ensures budget == Spend(old(budget), c)
      ensures r == Answer(env, old(budget), c)
    {
      r := Answer(env, budget, c);
      issued := issued + [c];
      budget := Spend(budget, c);
    }
  }

  /** `h`, issued after `done`. */
  ghost function After(done: seq<Command>, h: Halted): Halted {
    Halted(done + h.commands, h.failed, h.budget)
  }

  /** Running `seg + rest` after `done` is running `seg`, then, unless it
      failed, `rest` after what `seg` issued. */
  lemma Continue(done: seq<Command>, seg: seq<Command>, rest: seq<Command>, budget: Option<nat>)
    ensures var h := Halt(seg, budget);
      After(done, Halt(seg + rest, budget)) ==
        if h.failed then After(done, h) else After(done + h.commands, Halt(rest, h.budget))
  {
    HaltAppend(seg, rest, budget);
    var h := Halt(seg, budget);
    if !h.failed {
      var t := Halt(rest, h.budget).commands;
      assert done + (h.commands + t) == done + h.commands + t;
    }
  }

  /** Continue, for a run tracked in `track`. */
  lemma Step(track: Halted, done: seq<Command>, seg: seq<Command>, rest: seq<Command>,
             budget: Option<nat>)
    requires track == After(done, Halt(seg + rest, budget))
    ensures var h := Halt(seg, budget);
      track == if h.failed then After(done, h) else After(done + h.commands, Halt(rest, h.budget))
  {
    Continue(done, seg, rest, budget);
  }

  lemma HaltCons(c: Command, rest: seq<Command>, budget: Option<nat>)
    ensures Halt([c] + rest, budget) ==
      if FailsNow(budget, c) then Halted([c], true, budget)
      else var h := Halt(rest, Spend(budget, c)); Halted([c] + h.commands, h.failed, h.budget)
  {
    assert ([c] + rest)[0] == c && ([c] + rest)[1..] == rest;
  }

  /** One command `c`, then `rest`: after `c` fails nothing else is
      issued; otherwise `rest` follows with the budget `c` left. */
  lemma StepOne(track: Halted, done: seq<Command>, c: Command, rest: seq<Command>,
                budget: Option<nat>)
    requires track == After(done, Halt([c] + rest, budget))
    ensures FailsNow(budget, c) ==> track == Halted(done + [c], true, budget)
    ensures !FailsNow(budget, c) ==> track == After(done + [c], Halt(rest, Spend(budget, c)))
  {
    HaltCons(c, rest, budget);
    if !FailsNow(budget, c) {
      var t := Halt(rest, Spend(budget, c)).commands;
      assert done + ([c] + t) == done + [c] + t;
    }
  }

  /** Nothing left to issue. */
  lemma Finished(track: Halted, done: seq<Command>, budget: Option<nat>)
    requires track == After(done, Halt([], budget))
    ensures track == Halted(done, false, budget)
  {
    assert done + [] == done;
  }

  /** A single command whose failure the script does not catch: `ok` tells
      whether it succeeded. */
  method Issue(sh: Shell, c: Command) returns (ok: bool)
    requires !Caught(c)
    modifies sh
    ensures sh.issued == old(sh.issued) + [c] && sh.budget == Spend(old(sh.budget), c)
    ensures ok == !FailsNow(old(sh.budget), c)
  {
    var r := sh.RunCommand(c);
    ok := r.Ok?;
  }

  /** `hasUncommittedChanges`: the status query, and whether its trimmed
      output is non-empty. */
  method HasUncommittedChanges(sh: Shell) returns (dirty: bool, ok: bool)
    modifies sh
    ensures sh.issued == old(sh.issued) + [Status] && sh.budget == Spend(old(sh.budget), Status)
    ensures ok == (old(sh.budget) != Some(0)) && ok == !FailsNow(old(sh.budget), Status)
    ensures ok ==> dirty == IsDirty(sh.env.status)
  {
    var r := sh.RunCommand(Status);
    ok := r.Ok?;
    dirty := r.Ok? && |r.out| > 0;
  }

  /** `getLastTag`: the trimmed output of the tag query, or the baseline
      when it fails; a failure here never ends the run. */
  method GetLastTag(sh: Shell) returns (tag: string)
    modifies sh
    ensures sh.issued == old(sh.issued) + [DescribeTags] && sh.budget == old(sh.budget)
    ensures tag == LastTag(sh.env.describe)
  {
    var r := sh.RunCommand(DescribeTags);
    tag := if r.Ok? then r.out else Baseline;
  }

  /** `releaseBranchExists`: whether the listing of release/<version>
      contains that name; a failed listing means it does not. */
  method ReleaseBranchExists(sh: Shell, version: string) returns (b: bool)
    modifies sh
    ensures sh.issued == old(sh.issued) + [ListRelease(version)] && sh.budget == old(sh.budget)
    ensures b == BranchExists(sh.env.listing, version)
  {
    var r := sh.RunCommand(ListRelease(version));
    b := r.Ok? && Contains(r.out, ReleaseName(version));
  }

  /** `pullBranch`: check out `b`, then pull it from origin. */
  method PullBranch(sh: Shell, b: Branch) returns (ok: bool)
    modifies sh
    ensures var h := Halt(PullSequence(b), old(sh.budget));
      sh.issued == old(sh.issued) + h.commands && sh.budget == h.budget && ok == !h.failed
  {
    ghost var track := After(sh.issued, Halt(PullSequence(b), sh.budget));
    assert PullSequence(b) == [Checkout(b)] + [Pull(b)];
    StepOne(track, sh.issued, Checkout(b), [Pull(b)], sh.budget);
    ok := Issue(sh, Checkout(b));
    if !ok {
      return;
    }
    assert [Pull(b)] == [Pull(b)] + [];
    StepOne(track, sh.issued, Pull(b), [], sh.budget);
    ok := Issue(sh, Pull(b));
    if ok {
      Finished(track, sh.issued, sh.budget);
    }
  }

  /** Lines 47-49 of `startRelease`: start the release branch with git
      flow, then push it to origin. */
  method LaunchRelease(sh: Shell, v: string) returns (ok: bool)
    modifies sh
    ensures var h := Halt([FlowStart(v), Push(ReleaseOf(v))], old(sh.budget));
      sh.issued == old(sh.issued) + h.commands && sh.budget == h.budget && ok == !h.failed
  {
    ghost var track := After(sh.issued, Halt([FlowStart(v), Push(ReleaseOf(v))], sh.budget));
    assert [FlowStart(v), Push(ReleaseOf(v))] == [FlowStart(v)] + [Push(ReleaseOf(v))];
    StepOne(track, sh.issued, FlowStart(v), [Push(ReleaseOf(v))], sh.budget);
    ok := Issue(sh, FlowStart(v));
    if !ok {
      return;
    }
    assert [Push(ReleaseOf(v))] == [Push(ReleaseOf(v))] + [];
    StepOne(track, sh.issued, Push(ReleaseOf(v)), [], sh.budget);
    ok := Issue(sh, Push(ReleaseOf(v)));
    if ok {
      Finished(track, sh.issued, sh.budget);
    }
  }

  /** `startRelease`: pull master and development, start the release branch
      with git flow and push it, stopping at the first failure. */
  method StartRelease(sh: Shell, v: string) returns (ok: bool)
    modifies sh
    ensures var h := Halt(StartSequence(v), old(sh.budget));
      sh.issued == old(sh.issued) + h.commands && sh.budget == h.budget && ok == !h.failed
  {
    var flow := [FlowStart(v), Push(ReleaseOf(v))];
    assert StartSequence(v) == PullSequence(Master) + (PullSequence(Development) + flow);
    ghost var track := After(sh.issued, Halt(StartSequence(v), sh.budget));
    Step(track, sh.issued, PullSequence(Master), PullSequence(Development) + flow, sh.budget);
    ok := PullBranch(sh, Master);
    if !ok {
      return;
    }
    Step(track, sh.issued, PullSequence(Development), flow, sh.budget);
    ok := PullBranch(sh, Development);
    if !ok {
      return;
    }
    assert flow + [] == flow;
    Step(track, sh.issued, flow, [], sh.budget);
    ok := LaunchRelease(sh, v);
  }

  /** Check out `b`, then push it to origin (lines 59-62 do this for master
      and for development). */
  function PushSequence(b: Branch): seq<Command> {
    [Checkout(b), Push(b)]
  }

  /** The last five commands of `finishRelease`: push master, push
      development, push the tag. */
  function Publish(v: string): seq<Command> {
    PushSequence(Master) + PushSequence(Development) + [PushTag(v)]
  }

  /** Lines 58-59 (and 60-61): check out `b`, then push it to origin. */
  method PushBranch(sh: Shell, b: Branch) returns (ok: bool)
    modifies sh
    ensures var h := Halt(PushSequence(b), old(sh.budget));
      sh.issued == old(sh.issued) + h.commands && sh.budget == h.budget && ok == !h.failed
  {
    ghost var track := After(sh.issued, Halt(PushSequence(b), sh.budget));
    assert PushSequence(b) == [Checkout(b)] + [Push(b)];
    StepOne(track, sh.issued, Checkout(b), [Push(b)], sh.budget);
    ok := Issue(sh, Checkout(b));
    if !ok {
      return;
    }
    assert [Push(b)] == [Push(b)] + [];
    StepOne(track, sh.issued, Push(b), [], sh.budget);
    ok := Issue(sh, Push(b));
    if ok {
      Finished(track, sh.issued, sh.budget);
    }
  }

  /** The end of `finishRelease`: check out and push master, check out and
      push development, push the tag. */
  method PushFinished(sh: Shell, v: string) returns (ok: bool)
    modifies sh
    ensures var h := Halt(Publish(v), old(sh.budget));
      sh.issued == old(sh.issued) + h.commands && sh.budget == h.budget && ok == !h.failed
  {
    var tag := [PushTag(v)];
    assert Publish(v) == PushSequence(Master) + (PushSequence(Development) + tag);
    ghost var track := After(sh.issued, Halt(Publish(v), sh.budget));
    Step(track, sh.issued, PushSequence(Master), PushSequence(Development) + tag, sh.budget);
    ok := PushBranch(sh, Master);
    if !ok {
      return;
    }
    Step(track, sh.issued, PushSequence(Development), tag, sh.budget);
    ok := PushBranch(sh, Development);
    if !ok {
      return;
    }
    assert tag == [PushTag(v)] + [];
    StepOne(track, sh.issued, PushTag(v), [], sh.budget);
    ok := Issue(sh, PushTag(v));
    if ok {
      Finished(track, sh.issued, sh.budget);
    }
  }

  /** `finishRelease`: pull master, development and the release branch,
      finish the release with git flow, push master and development, push
      the tag, stopping at the first failure. */
  method FinishRelease(sh: Shell, v: string) returns (ok: bool)
    modifies sh
    ensures var h := Halt(FinishSequence(v), old(sh.budget));
      sh.issued == old(sh.issued) + h.commands && sh.budget == h.budget && ok == !h.failed
  {
    var flow := [FlowFinish(v)] + Publish(v);
    var rel := PullSequence(ReleaseOf(v)) + flow;
    var dev := PullSequence(Development) + rel;
    assert FinishSequence(v) == PullSequence(Master) + dev;
    ghost var track := After(sh.issued, Halt(FinishSequence(v), sh.budget));

    Step(track, sh.issued, PullSequence(Master), dev, sh.budget);
    ok := PullBranch(sh, Master);
    if !ok {
      return;
    }
    Step(track, sh.issued, PullSequence(Development), rel, sh.budget);
    ok := PullBranch(sh, Development);
    if !ok {
      return;
    }
    Step(track, sh.issued, PullSequence(ReleaseOf(v)), flow, sh.budget);
    ok := PullBranch(sh, ReleaseOf(v));
    if !ok {
      return;
    }
    StepOne(track, sh.issued, FlowFinish(v), Publish(v), sh.budget);
    ok := Issue(sh, FlowFinish(v));
    if !ok {
      return;
    }
    assert Publish(v) + [] == Publish(v);
    Step(track, sh.issued, Publish(v), [], sh.budget);
    ok := PushFinished(sh, v);
  }

  /** The commands of `main` up to the tag query: the status query and,
      when the run goes on from a dirty tree, the discard of its changes. */
  function Opening(dirty: bool, proceeds: bool): seq<Command> {
    [Status] + (if dirty && proceeds then [ResetHard, CleanUntracked] else [])
  }

  /** The commands of `main` after the tag query: the branch query, the
      start sequence unless the branch exists, the finish sequence when
      asked for. */
  function Closing(v: string, branchExists: bool, close: bool): seq<Command> {
    [ListRelease(v)] + ((if branchExists then [] else StartSequence(v))
                        + (if close then FinishSequence(v) else []))
  }

  /** A plan's commands are the opening, then, if the run goes on, the tag
      query and the closing. */
  lemma Regroup(o: seq<Command>, d: Command, l: Command, s: seq<Command>, t: seq<Command>)
    ensures o + [d, l] + s + t == o + ([d] + ([l] + (s + t)))
  {
  }

  lemma PlanShape(f: Facts, close: bool)
    ensures var c, opening := Plan(f, close).commands, Opening(f.dirty, f.proceeds);
      && (f.proceeds ==> c == opening + ([DescribeTags] + Closing(f.version, f.branchExists, close)))
      && (!f.proceeds ==> c == opening)
  {
    if f.proceeds {
      var v := f.version;
      var start := if f.branchExists then [] else StartSequence(v);
      var finish := if close then FinishSequence(v) else [];
      var opening := Opening(f.dirty, true);
      assert Preamble(f.dirty, v) == opening + [DescribeTags, ListRelease(v)];
      Regroup(opening, DescribeTags, ListRelease(v), start, finish);
    }
  }

  /** The run of a plan, taken in the steps `main` takes: the opening; then,
      unless it failed or the operator declined, the tag query and the
      closing. */
  lemma PlanInSteps(f: Facts, close: bool, b0: Option<nat>)
    requires Coherent(f)
    ensures var ho, r := Halt(Opening(f.dirty, f.proceeds), b0), Execute(Plan(f, close), b0);
      && (ho.failed || !f.proceeds ==>
            r == Run(ho.commands, f.dirty && b0 != Some(0), if ho.failed then Crashed else Declined))
      && (!ho.failed && f.proceeds ==>
            var hc := Halt(Closing(f.version, f.branchExists, close), ho.budget);
            r == Run(ho.commands + [DescribeTags] + hc.commands, f.dirty && b0 != Some(0),
                     if hc.failed then Crashed else Completed))
  {
    PlanShape(f, close);
    if f.proceeds {
      TagQueryBetween(Opening(f.dirty, true), Closing(f.version, f.branchExists, close), b0);
    } else {
      assert Opening(f.dirty, false) == [Status];
    }
  }

  /** Running `opening`, the tag query, then `closing`: the tag query never
      fails, so the run is the opening's, then, unless it failed, the
      closing's with the budget the opening left. */
  lemma TagQueryBetween(opening: seq<Command>, closing: seq<Command>, b0: Option<nat>)
    ensures var ho, h := Halt(opening, b0), Halt(opening + ([DescribeTags] + closing), b0);
      && (ho.failed ==> h == ho)
      && (!ho.failed ==> var hc := Halt(closing, ho.budget);
            h == Halted(ho.commands + [DescribeTags] + hc.commands, hc.failed, hc.budget))
  {
    HaltAppend(opening, [DescribeTags] + closing, b0);
    var ho := Halt(opening, b0);
    if !ho.failed {
      HaltCons(DescribeTags, closing, ho.budget);
      assert !FailsNow(ho.budget, DescribeTags) && Spend(ho.budget, DescribeTags) == ho.budget;
      var hc := Halt(closing, ho.budget);
      assert ho.commands + ([DescribeTags] + hc.commands) == ho.commands + [DescribeTags] + hc.commands;
    }
  }

  /** Lines 104-105 of `main`: throw away local changes, then untracked files. */
  method DiscardChanges(sh: Shell) returns (ok: bool)
    modifies sh
    ensures var h := Halt([ResetHard, CleanUntracked], old(sh.budget));
      sh.issued == old(sh.issued) + h.commands && sh.budget == h.budget && ok == !h.failed
  {
    ghost var track := After(sh.issued, Halt([ResetHard, CleanUntracked], sh.budget));
    assert [ResetHard, CleanUntracked] == [ResetHard] + [CleanUntracked];
    StepOne(track, sh.issued, ResetHard, [CleanUntracked], sh.budget);
    ok := Issue(sh, ResetHard);
    if !ok {
      return;
    }
    assert [CleanUntracked] == [CleanUntracked] + [];
    StepOne(track, sh.issued, CleanUntracked, [], sh.budget);
    ok := Issue(sh, CleanUntracked);
    if ok {
      Finished(track, sh.issued, sh.budget);
    }
  }

  /** Lines 101-111 of `main`: the status query; on a dirty tree the prompt,
      and either the discard of the changes or the decision to abort. `ok`
      is false when a command failed, `proceeds` whether the run goes on. */
  method ConfirmClean(sh: Shell, answer: string) returns (prompted: bool, ok: bool, proceeds: bool)
    modifies sh
    ensures var h := Halt(Opening(IsDirty(sh.env.status), Proceeds(sh.env, answer)), old(sh.budget));
      && sh.issued == old(sh.issued) + h.commands && sh.budget == h.budget
      && ok == !h.failed && (ok ==> proceeds == Proceeds(sh.env, answer))
    ensures prompted == (IsDirty(sh.env.status) && old(sh.budget) != Some(0))
  {
    ghost var dirtyTree, goesOn := IsDirty(sh.env.status), Proceeds(sh.env, answer);
    ghost var discard: seq<Command> := if dirtyTree && goesOn then [ResetHard, CleanUntracked] else [];
    ghost var track := After(sh.issued, Halt(Opening(dirtyTree, goesOn), sh.budget));
    StepOne(track, sh.issued, Status, discard, sh.budget);
    prompted, proceeds := false, true;
    var dirty;
    dirty, ok := HasUncommittedChanges(sh);
    if !ok {
      return;
    }
    assert track == After(sh.issued, Halt(discard, sh.budget));
    if dirty {
      prompted := true;
      var reply := Normalise(answer);
      if reply == "y" || reply == "yes" {
        assert discard == [ResetHard, CleanUntracked];
        ok := DiscardChanges(sh);
      } else {
        proceeds := false;
        assert discard == [];
        Finished(track, sh.issued, sh.budget);
      }
    } else {
      assert discard == [];
      Finished(track, sh.issued, sh.budget);
    }
  }

  /** Lines 118-132 of `main`, for the new version `v`: query the release
      branch, start the release unless it exists, finish it when asked to. */
  method StartAndFinish(sh: Shell, v: string, close: bool) returns (ok: bool)
    modifies sh
    ensures var h := Halt(Closing(v, BranchExists(sh.env.listing, v), close), old(sh.budget));
      sh.issued == old(sh.issued) + h.commands && sh.budget == h.budget && ok == !h.failed
  {
    ghost var track := After(sh.issued, Halt(Closing(v, BranchExists(sh.env.listing, v), close), sh.budget));
    ghost var issued0, budget0 := sh.issued, sh.budget;
    var branchExists := ReleaseBranchExists(sh, v);
    ghost var start: seq<Command> := if branchExists then [] else StartSequence(v);
    ghost var finish: seq<Command> := if close then FinishSequence(v) else [];
    StepOne(track, issued0, ListRelease(v), start + finish, budget0);
    assert track == After(sh.issued, Halt(start + finish, sh.budget));
    ok := true;
    if !branchExists {
      Step(track, sh.issued, StartSequence(v), finish, sh.budget);
      ok := StartRelease(sh, v);
      if !ok {
        return;
      }
    } else {
      assert start + finish == finish;
    }
    assert track == After(sh.issued, Halt(finish, sh.budget));
    if close {
      assert finish + [] == finish;
      Step(track, sh.issued, finish, [], sh.budget);
      ok := FinishRelease(sh, v);
    } else {
      Finished(track, sh.issued, sh.budget);
    }
  }

  /** `main`, given the operator's reply to the prompt (`answer`) and
      whether --close was passed: ask about a dirty tree, discard its
      changes or abort, read the last tag, work out the new version, start
      its release branch unless it exists, finish it when asked to. The
      run it makes is the plan of module Workflow cut at the first failure
      of an uncaught command. */
  method RunRelease(sh: Shell, answer: string, close: bool) returns (prompted: bool, outcome: Outcome)
    requires sh.issued == [] && sh.budget == sh.env.failAfter && TagReadable(sh.env)
    modifies sh
    ensures Release(sh.env, answer, close) == Run(sh.issued, prompted, outcome)
  {
    ghost var f := Observed(sh.env, answer, close);
    ghost var b0 := sh.budget;
    ghost var ho := Halt(Opening(f.dirty, f.proceeds), b0);
    PlanInSteps(f, close, b0);
    var ok, proceeds;
    prompted, ok, proceeds := ConfirmClean(sh, answer);
    assert sh.issued == ho.commands;
    if !ok {
      outcome := Crashed;
      return;
    }
    if !proceeds {
      outcome := Declined;
      return;
    }
    var lastTag := GetLastTag(sh);
    var newTag := IncrementTag(lastTag);
    assert newTag == f.version;
    ghost var hc := Halt(Closing(f.version, f.branchExists, close), ho.budget);
    ok := StartAndFinish(sh, newTag, close);
    assert sh.issued == ho.commands + [DescribeTags] + hc.commands;
    outcome := if ok then Completed else Crashed;
  }
}
