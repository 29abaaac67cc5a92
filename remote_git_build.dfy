/**
 * A build whose working copy is cloned from a remote git repository, over HTTP
 * or over SSH with a private key. The class keeps the source's step-by-step form:
 * each method assigns its success flag the way the source does, issues commands
 * through the Builder, and writes and removes the SSH key and wrapper files.
 * Each method is proved against the specification functions of GitCommands.
 */
module RemoteGit {
  import opened Wrappers
  import opened PhpStrings
  import opened Host
  import opened GitCommands

  /** The project a build belongs to: where to clone from, and the private key for SSH
      ("" or whitespace when the project has none). */
  datatype Project = Project(reference: string, sshPrivateKey: string)

  class RemoteGitBuild {
    const project: Project
    const branch: string
    /** The requested commit before the checkout; the resolved HEAD after it. */
    var commitId: string
    /** What the parent class's handleConfig answers. Its work is not part of this model. */
    const configVerdict: bool
    /** How many times handleConfig has run. */
    ghost var configRuns: nat

    constructor (project: Project, branch: string, commitId: string, configVerdict: bool)
      ensures this.project == project && this.branch == branch
      ensures this.commitId == commitId && this.configVerdict == configVerdict
      ensures configRuns == 0
    {
      this.project := project;
      this.branch := branch;
      this.commitId := commitId;
      this.configVerdict := configVerdict;
      configRuns := 0;
    }

    /** getCloneUrl: the project's reference, as it is. */
    function CloneUrl(): string
    {
      project.reference
    }

    /** handleConfig of the parent class, reduced to its verdict. */
    method HandleConfig(builder: Builder, buildPath: Path) returns (ok: bool)
      modifies this`configRuns
      ensures configRuns == old(configRuns) + 1 && ok == configVerdict
    {
      configRuns := configRuns + 1;
      ok := configVerdict;
    }

    /** writeSshKey of the parent class: writes the private key to a new file. */
    method WriteSshKey(disk: Disk, cloneTo: Path) returns (keyFile: Path)
      modifies disk
      ensures keyFile !in old(disk.files) && disk.files == old(disk.files) + {keyFile}
    {
      keyFile := disk.CreateFresh();
    }

    /** writeSshWrapper of the parent class: writes the GIT_SSH wrapper script to a new file. */
    method WriteSshWrapper(disk: Disk, cloneTo: Path, keyFile: Path) returns (wrapper: Path)
      modifies disk
      ensures wrapper !in old(disk.files) && disk.files == old(disk.files) + {wrapper}
    {
      wrapper := disk.CreateFresh();
    }

    /** createWorkingCopy: clone over SSH when the project has a private key and over HTTP
        otherwise; on failure log one message and return false, on success return what
        handleConfig returns. The disk ends as it started. */
    method CreateWorkingCopy(builder: Builder, disk: Disk, buildPath: Path)
      returns (ok: bool, ghost keyPath: Path, ghost wrapperPath: Path)
      modifies builder, disk, this`commitId, this`configRuns
      ensures disk.files == old(disk.files)
      ensures var transport := TransportFor(project.sshPrivateKey);
              var clone := CloneCommand(CloneTemplateVia(transport, wrapperPath, builder.cloneDepth),
                                        branch, project.reference, buildPath);
              builder.commands == old(builder.commands)
                                  + AttemptCommands(clone, buildPath, old(commitId), old(builder.script))
      ensures TransportFor(project.sshPrivateKey) == Ssh ==>
                keyPath != wrapperPath && keyPath !in old(disk.files) && wrapperPath !in old(disk.files)
      ensures var onDisk := if TransportFor(project.sshPrivateKey) == Ssh
                            then old(disk.files) + {keyPath, wrapperPath} else old(disk.files);
              builder.filesDuring == old(builder.filesDuring)
                                     + Repeat(onDisk, |builder.commands| - |old(builder.commands)|)
      ensures builder.script == Drop(old(builder.script), |builder.commands| - |old(builder.commands)|)
      ensures commitId == AttemptCommit(old(commitId), old(builder.script))
      ensures var cloned := AttemptSucceeded(old(commitId), old(builder.script));
              && builder.failures == old(builder.failures) + (if cloned then [] else [CloneFailure])
              && configRuns == old(configRuns) + (if cloned then 1 else 0)
              && ok == (cloned && configVerdict)
    {
      var key := Trim(project.sshPrivateKey);
      var success;
      if !IsEmpty(key) {
        assert TransportFor(project.sshPrivateKey) == Ssh;
        success, keyPath, wrapperPath := CloneBySsh(builder, disk, buildPath);
      } else {
        assert TransportFor(project.sshPrivateKey) == Http;
        success := CloneByHttp(builder, buildPath, disk);
        keyPath, wrapperPath := "", "";
      }
      assert success == AttemptSucceeded(old(commitId), old(builder.script));

      if !success {
        builder.LogFailure(CloneFailure);
        return false, keyPath, wrapperPath;
      }

      ok := HandleConfig(builder, buildPath);
    }

    /** cloneByHttp: run `git clone` with the HTTP template, then post-clone setup if the
        clone succeeded. The commands run with the files of `disk` in place. */
    method CloneByHttp(builder: Builder, cloneTo: Path, ghost disk: Disk) returns (success: bool)
      modifies builder`script, builder`lastOutput, builder`commands, builder`filesDuring, this`commitId
      ensures var clone := CloneCommand(CloneTemplate(builder.cloneDepth), branch, project.reference, cloneTo);
              builder.commands == old(builder.commands)
                                  + AttemptCommands(clone, cloneTo, old(commitId), old(builder.script))
      ensures builder.filesDuring == old(builder.filesDuring) + Repeat(disk.files, |builder.commands| - |old(builder.commands)|)
      ensures builder.script == Drop(old(builder.script), |builder.commands| - |old(builder.commands)|)
      ensures success == AttemptSucceeded(old(commitId), old(builder.script))
      ensures commitId == AttemptCommit(old(commitId), old(builder.script))
    {
      var cmd := BuildCloneTemplate(builder.cloneDepth);
      success := CloneAndSetUp(builder, cmd, cloneTo, disk);
    }

    /** cloneBySsh: write the key file and then the wrapper, run `git clone` with the SSH
        template, run post-clone setup if the clone succeeded, and remove both files
        whatever happened. Both files exist while every command of the attempt runs,
        and neither is left afterwards. */
    method CloneBySsh(builder: Builder, disk: Disk, cloneTo: Path)
      returns (success: bool, ghost keyPath: Path, ghost wrapperPath: Path)
      modifies builder`script, builder`lastOutput, builder`commands, builder`filesDuring, disk, this`commitId
      ensures disk.files == old(disk.files)
      ensures keyPath != wrapperPath && keyPath !in old(disk.files) && wrapperPath !in old(disk.files)
      ensures var clone := CloneCommand(SshCloneTemplate(wrapperPath, builder.cloneDepth),
                                        branch, project.reference, cloneTo);
              builder.commands == old(builder.commands)
                                  + AttemptCommands(clone, cloneTo, old(commitId), old(builder.script))
      ensures builder.filesDuring == old(builder.filesDuring)
                                     + Repeat(old(disk.files) + {keyPath, wrapperPath},
                                              |builder.commands| - |old(builder.commands)|)
      ensures builder.script == Drop(old(builder.script), |builder.commands| - |old(builder.commands)|)
      ensures success == AttemptSucceeded(old(commitId), old(builder.script))
      ensures commitId == AttemptCommit(old(commitId), old(builder.script))
    {
      var keyFile := WriteSshKey(disk, cloneTo);
      var gitSshWrapper := WriteSshWrapper(disk, cloneTo, keyFile);
      assert disk.files == old(disk.files) + {keyFile, gitSshWrapper};

      // Clone with the SSH wrapper bound in the environment.
      var cmd := BuildCloneTemplate(builder.cloneDepth);
      cmd := "export GIT_SSH=\"" + gitSshWrapper + "\" && " + cmd;

      success := CloneAndSetUp(builder, cmd, cloneTo, disk);

      // Neither file outlives the clone attempt, whatever its outcome.
      disk.Unlink(keyFile);
      disk.Unlink(gitSshWrapper);

      keyPath, wrapperPath := keyFile, gitSshWrapper;
    }

    /** postCloneSetup: check out the requested commit unless empty() holds of it or it is
        "Manual", then always ask git for HEAD. commitId becomes the trimmed answer exactly
        when that second command succeeds. The result is the checkout's, or true without one;
        the rev-parse result never enters it. */
    method PostCloneSetup(builder: Builder, cloneTo: Path, ghost disk: Disk) returns (success: bool)
      modifies builder`script, builder`lastOutput, builder`commands, builder`filesDuring, this`commitId
      ensures builder.commands == old(builder.commands) + PostCloneCommands(cloneTo, old(commitId))
      ensures builder.filesDuring == old(builder.filesDuring) + Repeat(disk.files, |builder.commands| - |old(builder.commands)|)
      ensures builder.script == Drop(old(builder.script), |PostCloneCommands(cloneTo, old(commitId))|)
      ensures success == CheckoutResult(old(commitId), old(builder.script))
      ensures commitId == ResolvedCommit(old(commitId), old(builder.script))
    {
      ghost var before := builder.commands;
      ghost var steps := PostCloneCommands(cloneTo, commitId);
      ghost var skip := if WantsCheckout(commitId) then 1 else 0;

      success := true;
      var commit := commitId;
      var chdir := ChangeDir;

      if !IsEmpty(commit) && commit != "Manual" {
        var cmd := chdir + " && git checkout %s --quiet";
        success := builder.ExecuteCommand(cmd, [cloneTo, commit], disk);
        assert builder.commands == before + steps[..1];
      } else {
        assert steps[..0] == [];
      }
      assert builder.script == Drop(old(builder.script), skip);
      assert builder.filesDuring == old(builder.filesDuring) + Repeat(disk.files, skip);

      // Whether or not there was a checkout, record the hash HEAD now points at.
      var revParse := chdir + " && git rev-parse HEAD";
      ghost var answer := Next(builder.script);
      var resolved := builder.ExecuteCommand(revParse, [cloneTo], disk);
      if resolved {
        commitId := Trim(builder.lastOutput);
      }
      assert answer == RevParseReply(commit, old(builder.script));
      assert builder.commands == before + steps;
      DropDrop(old(builder.script), skip, 1);
    }

    /** The step both clone methods share: run the clone command `cmd` with the branch,
        the clone URL and the destination, then post-clone setup if the clone succeeded. */
    method CloneAndSetUp(builder: Builder, cmd: string, cloneTo: Path, ghost disk: Disk)
      returns (success: bool)
      modifies builder`script, builder`lastOutput, builder`commands, builder`filesDuring, this`commitId
      ensures var clone := CloneCommand(cmd, branch, project.reference, cloneTo);
              builder.commands == old(builder.commands)
                                  + AttemptCommands(clone, cloneTo, old(commitId), old(builder.script))
      ensures builder.filesDuring == old(builder.filesDuring) + Repeat(disk.files, |builder.commands| - |old(builder.commands)|)
      ensures builder.script == Drop(old(builder.script), |builder.commands| - |old(builder.commands)|)
      ensures success == AttemptSucceeded(old(commitId), old(builder.script))
      ensures commitId == AttemptCommit(old(commitId), old(builder.script))
    {
      ghost var before, during := builder.commands, builder.filesDuring;
      ghost var clone := CloneCommand(cmd, branch, project.reference, cloneTo);
      ghost var steps := PostCloneCommands(cloneTo, commitId);

      success := builder.ExecuteCommand(cmd, [branch, CloneUrl(), cloneTo], disk);

      if success {
        success := PostCloneSetup(builder, cloneTo, disk);
        assert builder.commands == before + ([clone] + steps);
        RepeatJoin(disk.files, 1, |steps|);
        DropDrop(old(builder.script), 1, |steps|);
      } else {
        assert builder.filesDuring == during + Repeat(disk.files, 1);
      }
    }
  }

  /** The clone command template as both clone methods build it: the fixed head, then
      ` --depth N ` when `clone_depth` is set, then the placeholders for the branch,
      the URL and the destination. */
  method BuildCloneTemplate(depth: Option<int>) returns (cmd: string)
    ensures cmd == CloneTemplate(depth)
  {
    cmd := CloneHead;

    if depth.Some? {
      cmd := cmd + (DepthFlag + IntToDecimal(depth.value) + " ");
    }

    cmd := cmd + CloneTail;
  }
}
