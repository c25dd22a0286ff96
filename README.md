# release.js in Dafny

`release.js` is a Node script that cuts a git-flow release of a repository.
It works in these steps:

1. It asks git whether the working copy has uncommitted changes.
2. If it has, it asks the operator whether to throw them away. On "y" or "yes" it runs `git reset --hard` and `git clean -fd`. On any other answer it exits with code 1.
3. It reads the last tag, or assumes `0.0.0` when there is none.
4. It computes the next version: minor goes up by one, a minor of ten or more rolls over into major, and patch becomes 0.
5. It lists the branch `release/<version>`. If the branch is missing, it starts the release: it pulls master and development, runs `git flow release start`, and pushes the new branch.
6. When `--close` is given, it finishes the release. It pulls master, development and the release branch, runs `git flow release finish`, pushes master and development, and pushes the tag.

Any failing git command ends the script with exit code 1, except two. A failure of the tag query gives the baseline tag. A failure of the branch listing counts as "no branch".

The model has four modules.

- `Text` (text.dfy): the string operations the script relies on. These are `trim` with ECMAScript's white-space set, ASCII `toLowerCase`, `includes`, `split` on one character and `join`. Their lemmas state what each operation keeps and removes.
- `Versions` (versions.dfy): tags as `Version(major, minor, patch)`. It holds parsing (`split('.').map(Number)` on decimal numerals), printing through the template literal, and `incrementTag`. It proves the print/parse round trip and the rollover rule.
- `Workflow` (workflow.dfy): what `main` decides. The git commands are an abstract `Command` datatype. An `Env` describes the repository: the status output, the outputs of the two caught queries (or their failure), and `failAfter`, which says how many uncaught commands succeed before one fails. `Plan` is the list of commands `main` intends to issue. `Halt` cuts a command list at the first uncaught failure. `Release` is the run that results: the commands issued, whether the operator was prompted, and the outcome with its exit code.
- `Runner` (runner.dfy): the script written as it runs. A `Shell` object records every command issued and how many more may succeed. There is one method for each function of the script (`pullBranch`, `startRelease`, `finishRelease`, `hasUncommittedChanges`, `getLastTag`, `releaseBranchExists`) and `RunRelease` for `main`. Each method is proved to issue exactly its command sequence cut at the first failure. `RunRelease` is proved to produce exactly `Release`.

The operator's answer and the `--close` flag are parameters of the model. Git's replies come from the `Env`.

The rollover test is `minor >= 10` (line 31), not `minor == 10`, so a tag whose minor is already above nine, such as `1.12.0`, also rolls over, to `2.0.0`.

## Model

| member | source | states |
|---|---|---|
| Text.Trim | release.js:11 | the trimmed output is a contiguous middle of the input, everything cut from either end is white space, and the result has no white space at either end |
| Text.TrimPadded | release.js:11 | trimming `pre + w + suf`, with white-space padding around an unpadded `w`, gives back exactly `w` |
| Text.ToLower | release.js:87 | lower-casing keeps the length, leaves no ASCII capital, keeps every other character, and turns each capital into its own small letter |
| Text.ToLowerIdempotent | release.js:87 | lower-casing an already lower-cased answer changes nothing |
| Text.ContainsAt | release.js:68 | an occurrence of the needle at any position makes `includes` true |
| Text.ContainsWitness | release.js:68 | `includes` is true only when there is a position where the needle occurs |
| Text.TrimKeepsContains | release.js:67-68 | for a non-empty needle with no white space at its ends, trimming the text searched does not change whether `includes` finds it |
| Text.JoinSplit | release.js:29 | no piece of `split` holds the separator, and joining the pieces with it gives back the original string |
| Text.SplitJoin | release.js:29 | splitting undoes joining pieces that do not hold the separator |
| Versions.Decimal | release.js:35 | a number is printed as a canonical numeral (no superfluous leading zero) that reads back as the same number |
| Versions.DecimalOfNumber | release.js:29 | a canonical numeral is printed back exactly as it was read |
| Versions.Serialise | release.js:35 | the template literal gives a well-formed, canonical tag that parses back to the same version |
| Versions.SerialiseParse | release.js:29-35 | a canonical tag, parsed and printed again, is the same string |
| Versions.ValidTagUnpadded | release.js:35 | a well-formed tag has no white space at either end, and `trim` returns it unchanged |
| Versions.Increment | release.js:29-34 | the next version comes strictly after the old one and has patch 0 and a one-digit minor. Major is unchanged exactly when minor + 1 is below ten; in that case minor goes up by one, otherwise major goes up by one and minor becomes 0 |
| Versions.IncrementIsNextRelease | release.js:30-34 | no version with a one-digit minor lies strictly between the old version and its increment |
| Versions.IncrementTag | release.js:28-36 | the new tag is well formed and canonical (a valid input again), parses to the increment of the old version, and comes strictly after it |
| Versions.IncrementTagRule | release.js:28-36 | written as strings: "M.m.p" becomes "M.(m+1).0" when m + 1 < 10, and "(M+1).0.0" otherwise |
| Versions.IncrementIgnoresPatch | release.js:29-35 | tags that differ only in patch give the same next tag |
| Versions.BaselineIncrement | release.js:24-35 | the baseline "0.0.0" is well formed and gives "0.1.0" |
| Versions.IncrementExampleBump | release.js:28-36 | "1.2.3" gives "1.3.0" |
| Versions.IncrementExampleRollover | release.js:31-34 | "1.9.0" gives "2.0.0" |
| Versions.IncrementExamplePastNine | release.js:31-34 | "1.12.0" gives "2.0.0": the rollover test is "ten or more" |
| Workflow.LowerIsYes | release.js:87 | the lower-cased answer is "y" or "yes" exactly for the ten upper/lower-case spellings of those words |
| Workflow.AnswerAccepted | release.js:103 | an answer is accepted exactly when, white space around it aside, it is "y" or "yes" in some letter case (both directions) |
| Workflow.BranchExistsIff | release.js:65-72 | the branch check is true exactly when the listing succeeded and its raw output contains "release/<version>"; a failed listing gives false |
| Workflow.NewBranchCheck | release.js:118 | for the version the script computes, the branch check is exactly "the listing contains release/<version>" |
| Workflow.BranchExistsOnLongerName | release.js:68 | the check is a substring test: a listing showing only "release/1.2.0-rc" counts as the branch of 1.2.0 |
| Workflow.HaltFacts | release.js:12-16 | with failures, the commands issued are a prefix of those intended. There is a failure exactly when fewer uncaught commands may succeed than there are, and then the last command issued is the uncaught one that failed |
| Workflow.HaltAppend | release.js:12-16 | running two command lists in a row is running the first, then, unless it failed, the second with what is left |
| Workflow.ExecuteIsPlanPrefix | release.js:92-133 | a plan carried out with failures issues a prefix of its commands; it crashes exactly when the budget is short and then stops right at the failing command; otherwise it issues the whole plan and ends as planned |
| Workflow.PlanRunPrefix | release.js:92-133 | the same for every plan `main` can make, and the exit code is 1 exactly when the run crashes or the operator declines |
| Workflow.RunIsPlanPrefix | release.js:92-133 | for every repository, answer and flag, the run of `main` is a prefix of its plan cut at the first uncaught failure, and it exits with 1 exactly on a crash or a declined prompt |
| Workflow.PromptOnlyWhenDirty | release.js:101-102 | the operator is prompted exactly when the tree is dirty and the status query succeeded; on a clean tree no reset or clean command is ever issued |
| Workflow.DeclineAborts | release.js:107-110 | on a dirty tree, an answer that is not y/yes leaves the status query as the only command and gives exit code 1 |
| Workflow.AcceptedDiscardsFirst | release.js:103-105 | on a dirty tree with the answer accepted, reset and then clean follow the status query directly, before anything else |
| Workflow.StartNotElsewhere | release.js:47-49 | the commands that create and push the release branch occur neither in the preamble nor in the finish sequence |
| Workflow.ExistingBranchSkipsStart | release.js:118-125 | when the branch exists, neither `git flow release start` nor the push of the release branch is ever issued; with no failure the run is the preamble, then the finish sequence when --close is given |
| Workflow.MissingBranchStarts | release.js:118-122 | when the branch is missing and nothing fails, the start sequence follows the preamble in order: master, development, flow start, push of the release branch |
| Workflow.FinishNotElsewhere | release.js:57-62 | `git flow release finish` and the tag push occur in no other sequence of the script |
| Workflow.FinishOnlyWithClose | release.js:127-132 | without --close, no finish command and no tag push is ever issued, whatever fails |
| Workflow.CloseFinishes | release.js:127-129 | with --close, a run that goes on and does not fail ends with the whole finish sequence, and pushing the tag is the last command |
| Workflow.NoTagVersion | release.js:20-36 | with no tag to read, the new version is "0.1.0" |
| Workflow.DirtyIffNotBlank | release.js:74-77 | the tree counts as dirty exactly when the status listing holds something other than white space, in both directions |
| Workflow.BlankStatusClean | release.js:101-111 | a status listing that is empty or only white space is a clean tree, so the run goes on without a prompt being needed |
| Workflow.FirstRelease | release.js:92-133 | first release of a clean repository with no tag, no branch and no --close: the exact nine commands, no prompt, exit 0 |
| Workflow.SecondRun | release.js:92-133 | run again once release/0.1.0 is listed: only the three queries are issued, no prompt, exit 0 |
| Runner.Answer | release.js:9-26 | an uncaught command fails exactly when the budget says so; the tag query and the listing fail exactly when their output is missing; every output is trimmed |
| Runner.Shell.RunCommand | release.js:9-18 | `run` appends the command to what has been issued, spends the budget, and returns the trimmed output or the failure |
| Runner.Issue | release.js:9-18 | an uncaught command succeeds exactly when it is not the one that fails |
| Runner.HasUncommittedChanges | release.js:74-77 | issues the status query; it fails only when no command may succeed; otherwise "dirty" is exactly "the trimmed status is non-empty" |
| Runner.GetLastTag | release.js:20-26 | issues the tag query, which never ends the run; the tag is its trimmed output, or "0.0.0" when it fails |
| Runner.ReleaseBranchExists | release.js:65-72 | issues the listing, which never ends the run; the answer is exactly `BranchExists` |
| Runner.PullBranch | release.js:38-41 | issues checkout then pull, cut at the first failure; `ok` exactly when neither failed |
| Runner.LaunchRelease | release.js:47-49 | issues flow start then the push of the release branch, cut at the first failure |
| Runner.StartRelease | release.js:43-50 | issues the start sequence cut at the first failure; `ok` exactly when all of it succeeded |
| Runner.PushBranch | release.js:58-61 | issues checkout then push of one branch, cut at the first failure |
| Runner.PushFinished | release.js:58-62 | issues the pushes of master, development and the tag, cut at the first failure |
| Runner.FinishRelease | release.js:52-63 | issues the finish sequence cut at the first failure; `ok` exactly when all of it succeeded |
| Runner.DiscardChanges | release.js:104-105 | issues reset then clean, cut at the first failure |
| Runner.ConfirmClean | release.js:101-111 | issues the status query and, when the tree is dirty and the answer accepted, reset and clean. It prompts exactly when the tree is dirty and the query succeeded, and reports whether the run may go on |
| Runner.PlanInSteps | release.js:101-132 | the run of a plan is the opening (status, discard), then, unless that failed or the operator declined, the tag query and the branch/start/finish part with what is left of the budget |
| Runner.StartAndFinish | release.js:118-132 | issues the listing, then the start sequence unless the branch exists, then the finish sequence when asked to, cut at the first failure |
| Runner.RunRelease | release.js:92-133 | `main` issues exactly the commands of `Release`, prompts exactly when it says, and ends with its outcome |

## Left out

- `execSync`, the shell and the processes are not modelled. The commands are abstract values, and the repository's answers come from `Env`. The error messages `run` prints to stderr (lines 13-15) are left out.
- The readline prompt (lines 79-90) is not modelled, and neither is its question text. The operator's raw reply is the parameter `answer`; only its normalisation (line 87) and the test (line 103) are modelled.
- The usage check and `process.argv`/`path.resolve` (lines 93-98) are left out. The repository path does not influence any decision. The `--close` test (line 99) is the parameter `close`.
- Console output (lines 106, 108, 115-116, 122, 124, 129, 131) is left out, because it does not change what the script does.
- What git does with each command (merging, branch creation, pushing) is left out. Only the order of the commands and their success or failure are modelled.
- The branch listing is modelled as one fixed output for the version the script computes, since the script lists only that one branch.
- A failing uncaught command ends `main` through an unhandled promise rejection. The model records it as the outcome `Crashed` with exit code 1, and does not model how Node reports it.
- `Versions.Parse`: requires a well-formed tag, three numerals of decimal digits (`TagReadable` in `Workflow`). Malformed tags are left out: `Number` giving `NaN`, empty or non-numeric components, more or fewer than three parts, white space or hexadecimal inside a component. JavaScript's floating-point numbers are modelled as unbounded naturals, so precision loss above 2^53 is not captured.
- `Text.ToLower`: lower-cases only the ASCII letters. `toLowerCase` also maps other letters, but none of them lowers to 'y', 'e' or 's'. So the accept/decline decision modelled by `Workflow.AnswerAccepted` is exact.
- Concurrency with other processes changing the working copy is left out, and so are commands that hang.
