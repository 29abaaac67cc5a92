# RemoteGitBuild: checking out a remote git repository for a PHP Censor build

This Dafny project models the build type of PHP Censor that fetches its working copy
from a remote git repository (`RemoteGitBuild`). It covers these steps:

- The build picks a transport: SSH when the project has a private key, HTTP otherwise.
- For SSH, it writes the key file and a `GIT_SSH` wrapper script, and removes both afterwards.
- It runs `git clone`, with a shallow `--depth N` option when `clone_depth` is configured.
- After a successful clone it checks out the requested commit, then asks git for `HEAD`
  and records that hash as the build's commit.
- On failure it logs one message; on success it hands over to `handleConfig`.

The project has five modules:

- `Wrappers` holds `Option`, for a configuration entry that may be absent.
- `PhpStrings` holds the PHP string semantics the code relies on: `trim()` with its
  default character list, `empty()` on a string, and the decimal text of an int.
  `trim()` is proved to strip exactly the leading and trailing whitespace. It is
  idempotent, and trimming a padded value gives the value back. The lemmas
  `TrimLeftAllTrim`, `TrimLeftPadded` and `TrimRightPadded` are proof helpers for these.
- `Host` holds the outside world. The `Builder` is a scripted oracle: each command
  takes the next `Reply(ok, output)` from `script`, and a script that has run out
  answers failure with no output. Every command is recorded in `commands`, together
  with the set of files on the `Disk` while it ran (`filesDuring`, ghost). Every
  logged message goes to `failures`. The `Disk` is the set of paths of the files that
  exist. The lemmas `DropDrop`, `RepeatJoin` and `LongerThanAll` are proof helpers
  about the script, these snapshots and fresh paths.
- `GitCommands` holds the commands and their outcomes as plain values. It gives the
  transport choice, the clone templates, the post-clone command sequence, and what a
  script of replies makes of a whole clone attempt: the commands issued, whether the
  attempt succeeded, and which commit is recorded.
- `RemoteGit` holds the class `RemoteGitBuild`, written in the source's imperative
  form. Each method's postcondition ties the builder trace, the remaining script, the
  disk, the log and `commitId` to the `GitCommands` functions of the old state.

## Model

| member | source | states |
|---|---|---|
| PhpStrings.TrimCharacterised | src/PHPCensor/Model/Build/RemoteGitBuild.php:28 | trim() returns an infix of its argument with only whitespace around it. The result is empty iff the argument is all whitespace, and otherwise it neither starts nor ends with whitespace |
| PhpStrings.TrimShape | src/PHPCensor/Model/Build/RemoteGitBuild.php:28 | trim() returns the infix of its argument that starts where ltrim stops, with only whitespace around it. It is empty iff the argument is all whitespace, and otherwise neither starts nor ends with whitespace |
| PhpStrings.TrimLeftShape | src/PHPCensor/Model/Build/RemoteGitBuild.php:28 | ltrim keeps the longest suffix not starting with whitespace and drops only whitespace |
| PhpStrings.TrimRightShape | src/PHPCensor/Model/Build/RemoteGitBuild.php:28 | rtrim keeps the longest prefix not ending with whitespace and drops only whitespace |
| PhpStrings.TrimEmptyIff | src/PHPCensor/Model/Build/RemoteGitBuild.php:28-30 | trim() gives "" exactly when the string is all whitespace |
| PhpStrings.TrimOfTrimmed | src/PHPCensor/Model/Build/RemoteGitBuild.php:119 | trim() leaves a string alone that neither starts nor ends with whitespace |
| PhpStrings.TrimIdempotent | src/PHPCensor/Model/Build/RemoteGitBuild.php:119 | trim(trim(s)) == trim(s), so a recorded hash is stable under another trim |
| PhpStrings.TrimPadded | src/PHPCensor/Model/Build/RemoteGitBuild.php:119 | a hash printed with surrounding whitespace (e.g. a trailing newline) is recorded as the bare hash |
| PhpStrings.NatToDecimal | src/PHPCensor/Model/Build/RemoteGitBuild.php:54 | the text of a non-negative int is non-empty, all digits, with no leading zero |
| PhpStrings.IntToDecimal | src/PHPCensor/Model/Build/RemoteGitBuild.php:54 | the text of an int is non-empty and starts with '-' exactly when the int is negative |
| PhpStrings.NatDecimalRoundTrip | src/PHPCensor/Model/Build/RemoteGitBuild.php:54 | reading back the digits of a natural number gives the number |
| PhpStrings.DecimalRoundTrip | src/PHPCensor/Model/Build/RemoteGitBuild.php:54 | the text that `intval($depth)` becomes in the command is a well-formed numeral that reads back as the same int |
| Host.Builder.ExecuteCommand | src/PHPCensor/Model/Build/RemoteGitBuild.php:58 | the command is appended to the trace, together with the files then on the disk; the result and last output come from the next reply, which is consumed |
| Host.Builder.LogFailure | src/PHPCensor/Model/Build/RemoteGitBuild.php:37 | the message is appended to the build log |
| Host.Disk.CreateFresh | src/PHPCensor/Model/Build/RemoteGitBuild.php:72-73 | a file is created at a path that did not exist, and nothing else changes |
| Host.Disk.Unlink | src/PHPCensor/Model/Build/RemoteGitBuild.php:94-95 | exactly that path is removed |
| GitCommands.TransportFor | src/PHPCensor/Model/Build/RemoteGitBuild.php:28-34 | SSH exactly when `!empty(trim(key))`: the key has a non-whitespace character and trims to something other than "0"; HTTP otherwise |
| GitCommands.CloneTemplateDepth | src/PHPCensor/Model/Build/RemoteGitBuild.php:49-57 | the clone template carries a `--depth N` option, with N the configured value, exactly when `clone_depth` is set, and no option when it is not |
| GitCommands.CloneTemplateInjective | src/PHPCensor/Model/Build/RemoteGitBuild.php:49-57 | different depth settings give different clone commands |
| GitCommands.SshTemplateSplits | src/PHPCensor/Model/Build/RemoteGitBuild.php:76-85 | the SSH template is `export GIT_SSH="<wrapper>" && ` followed by exactly the HTTP template for the same depth, so it carries the same depth option |
| GitCommands.PostCloneCommandsOrder | src/PHPCensor/Model/Build/RemoteGitBuild.php:112-118 | post-clone setup issues a checkout of the commit iff the commit is not empty() and not "Manual"; a rev-parse of HEAD is always issued and is last; nothing else is issued |
| GitCommands.CheckoutResultIgnoresRevParse | src/PHPCensor/Model/Build/RemoteGitBuild.php:108-122 | the result of post-clone setup does not depend on the rev-parse reply |
| GitCommands.AttemptCommands | src/PHPCensor/Model/Build/RemoteGitBuild.php:58-62 | a clone attempt starts with the clone command, and post-clone commands follow iff the clone succeeded |
| GitCommands.AttemptCommit | src/PHPCensor/Model/Build/RemoteGitBuild.php:58-62 | a failed clone leaves the commit unchanged |
| GitCommands.AttemptKeepsCommitTrimmed | src/PHPCensor/Model/Build/RemoteGitBuild.php:117-120 | a commit without surrounding whitespace stays so after an attempt, because the recorded value is the old commit or trim() output |
| GitCommands.FailedCheckoutStillRecordsHead | src/PHPCensor/Model/Build/RemoteGitBuild.php:112-122 | when the checkout fails and rev-parse succeeds, the attempt fails, yet the commit becomes the trimmed HEAD |
| RemoteGit.RemoteGitBuild.HandleConfig | src/PHPCensor/Model/Build/RemoteGitBuild.php:41 | handleConfig runs once and answers the build's configuration verdict |
| RemoteGit.RemoteGitBuild.WriteSshKey | src/PHPCensor/Model/Build/RemoteGitBuild.php:72 | the key is written to a new file, and nothing else on disk changes |
| RemoteGit.RemoteGitBuild.WriteSshWrapper | src/PHPCensor/Model/Build/RemoteGitBuild.php:73 | the wrapper is written to a new file, and nothing else on disk changes |
| RemoteGit.RemoteGitBuild.CreateWorkingCopy | src/PHPCensor/Model/Build/RemoteGitBuild.php:26-42 | clones with the transport TransportFor picks, then: on failure exactly one "Failed to clone remote git repository." log entry, no handleConfig, result false. commitId is unchanged when the clone command itself fails; after a failed checkout it is still the trimmed HEAD if rev-parse succeeds; on success one handleConfig run and its verdict as result. The disk ends as it began; under SSH, key and wrapper exist during every command |
| RemoteGit.RemoteGitBuild.CloneByHttp | src/PHPCensor/Model/Build/RemoteGitBuild.php:47-65 | issues the HTTP clone command (branch, URL, destination), then post-clone setup iff it succeeded; the result is the clone's failure or post-clone's result |
| RemoteGit.RemoteGitBuild.CloneBySsh | src/PHPCensor/Model/Build/RemoteGitBuild.php:70-98 | creates two new distinct files, issues the SSH clone command and post-clone setup iff it succeeded while both files exist, and removes both whatever the outcome |
| RemoteGit.RemoteGitBuild.CloneAndSetUp | src/PHPCensor/Model/Build/RemoteGitBuild.php:58-64 | the clone command then post-clone setup iff it succeeded, with the trace, script, result and commit those dictate |
| RemoteGit.RemoteGitBuild.PostCloneSetup | src/PHPCensor/Model/Build/RemoteGitBuild.php:106-123 | issues exactly the post-clone commands; returns the checkout's result (true when skipped); commitId becomes trim(last output) iff rev-parse succeeded, and is otherwise unchanged |
| RemoteGit.BuildCloneTemplate | src/PHPCensor/Model/Build/RemoteGitBuild.php:49-57 | the `.=` steps build exactly the clone template whose depth option is described by CloneTemplateDepth |

## Left out

- Running shell commands is left out. The Builder's `executeCommand` substitutes the arguments into the template; the model keeps the template and the argument list, and the outcome comes from the script.
- `writeSshKey` and `writeSshWrapper` belong to the parent class, which is not part of this model. The model keeps only their effect on the disk: each creates one file at a path that did not exist. The file contents and the real path scheme are not modelled.
- `handleConfig` belongs to the parent class, which is not part of this model. It is reduced to a fixed verdict and a ghost count of its runs.
- Exceptions are not modelled. That covers a failing `unlink`, a failing write of the key or wrapper, and errors thrown inside `executeCommand`. The source checks none of these, and the model assumes each call returns.
- `clone_depth` is modelled as an optional int. `intval` of a non-integer setting such as a string or float is not modelled.
- A null `getCommitId()` is modelled as "". PHP treats both as empty(), so the branch taken is the same.
- `$commit != 'Manual'` is modelled as string inequality. PHP's loose comparison only differs when both sides are numeric strings, and "Manual" is not one.
- RemoteGit.RemoteGitBuild.CloneUrl: it has no contract, because it only returns the project's reference. The clone command is stated with that reference directly.
- The test file in the repository (`tests/PHPCensor/Security/Authentication/ServiceTest.php`) concerns the authentication-provider registry. It has nothing to do with this component and is not modelled.
- RemoteGit.RemoteGitBuild.PostCloneSetup: a failed rev-parse does not fail the clone. postCloneSetup returns the checkout's result alone (see `CheckoutResultIgnoresRevParse`).
- RemoteGit.RemoteGitBuild.CloneBySsh: the results of writeSshKey and writeSshWrapper are not checked, so a failed write does not stop the clone.
