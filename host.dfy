/**
 * The outside world as the checkout code sees it. The `Builder` runs shell
 * commands, keeps the output of the last one, logs failures and holds the
 * build configuration. The `Disk` holds the paths of the files that exist.
 *
 * The Builder is a scripted oracle. Each command it is asked to run takes the next
 * reply from `script` (success flag and captured output) and is appended to the
 * `commands` trace. What the shell would really do is not modelled.
 */
module Host {
  import opened Wrappers

  type Path = string

  /** What the host answers to one command: did it succeed, and what did it print. */
  datatype Reply = Reply(ok: bool, output: string)

  /** One call of executeCommand: the template and the arguments substituted into it. */
  datatype Command = Command(template: string, args: seq<string>)

  /** The reply the next command gets. Once the script is used up every command fails silently. */
  function Next(script: seq<Reply>): Reply
  {
    if script == [] then Reply(false, "") else script[0]
  }

  /** The script left after `k` commands have taken their replies. */
  function Drop(script: seq<Reply>, k: nat): seq<Reply>
  {
    if k <= |script| then script[k..] else []
  }

  lemma DropDrop(script: seq<Reply>, a: nat, b: nat)
    ensures Drop(Drop(script, a), b) == Drop(script, a + b)
  {
    if a + b <= |script| {
      assert script[a..][b..] == script[a + b..];
    }
  }

  /** `n` copies of the same set of files, for a run of commands during which the disk did not change. */
  function Repeat(files: set<Path>, n: nat): (r: seq<set<Path>>)
    ensures |r| == n && forall i :: 0 <= i < n ==> r[i] == files
  {
    if n == 0 then [] else Repeat(files, n - 1) + [files]
  }

  lemma {:induction false} RepeatJoin(files: set<Path>, a: nat, b: nat)
    ensures Repeat(files, a) + Repeat(files, b) == Repeat(files, a + b)
  {
    if b > 0 {
      RepeatJoin(files, a, b - 1);
      assert Repeat(files, a) + (Repeat(files, b - 1) + [files])
          == (Repeat(files, a) + Repeat(files, b - 1)) + [files];
    } else {
      assert Repeat(files, a) + [] == Repeat(files, a);
    }
  }

  class Builder {
    /** Replies still to be given, in order. */
    var script: seq<Reply>
    /** Output of the most recent command (getLastOutput). */
    var lastOutput: string
    /** Every command run so far, in order. */
    var commands: seq<Command>
    /** Every message passed to logFailure, in order. */
    var failures: seq<string>
    /** The `clone_depth` configuration entry; None when it is not set. */
    const cloneDepth: Option<int>
    /** For each command in `commands`, the files on disk while it ran. */
    ghost var filesDuring: seq<set<Path>>

    constructor (script: seq<Reply>, cloneDepth: Option<int>)
      ensures filesDuring == []
      ensures this.script == script && this.cloneDepth == cloneDepth
      ensures lastOutput == "" && commands == [] && failures == []
    {
      this.script := script;
      this.cloneDepth := cloneDepth;
      lastOutput := "";
      commands := [];
      failures := [];
      filesDuring := [];
    }

    /** executeCommand: run `template` with `args`, record it, and answer with the next reply.
        The files on `disk` at that moment are recorded beside it. */
    method ExecuteCommand(template: string, args: seq<string>, ghost disk: Disk) returns (ok: bool)
      modifies this`script, this`lastOutput, this`commands, this`filesDuring
      ensures commands == old(commands) + [Command(template, args)]
      ensures filesDuring == old(filesDuring) + [disk.files]
      ensures ok == Next(old(script)).ok && lastOutput == Next(old(script)).output
      ensures script == Drop(old(script), 1)
    {
      var reply := Next(script);
      ok := reply.ok;
      lastOutput := reply.output;
      script := Drop(script, 1);
      commands := commands + [Command(template, args)];
      filesDuring := filesDuring + [disk.files];
    }

    /** logFailure: append a message to the build log. */
    method LogFailure(message: string)
      modifies this`failures
      ensures failures == old(failures) + [message]
    {
      failures := failures + [message];
    }
  }

  /** The files that exist, by path. */
  class Disk {
    var files: set<Path>

    constructor (files: set<Path>)
      ensures this.files == files
    {
      this.files := files;
    }

    /** Write a new file at a path no existing file has, and return that path. */
    method CreateFresh() returns (p: Path)
      modifies this
      ensures p !in old(files) && files == old(files) + {p}
    {
      ghost var longer := LongerThanAll(files);
      assert longer !in files;
      p :| p !in files;
      files := files + {p};
    }

    /** unlink(): remove the file at `p`. */
    method Unlink(p: Path)
      modifies this
      ensures files == old(files) - {p}
    {
      files := files - {p};
    }
  }

  /** Every finite set of paths misses some path: one longer than all of them. */
  lemma {:induction false} LongerThanAll(paths: set<Path>) returns (p: Path)
    ensures forall q :: q in paths ==> |q| < |p|
  {
    if paths == {} {
      p := "";
    } else {
      var x :| x in paths;
      var p' := LongerThanAll(paths - {x});
      p := p' + x + "~";
    }
  }
}
