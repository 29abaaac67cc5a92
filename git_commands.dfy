/**
 * The commands a remote git checkout issues, and what a script of replies makes
 * of them, as plain values: the transport choice, the `git clone` templates, the
 * post-clone `git checkout` and `git rev-parse HEAD` steps, and how the replies
 * decide the result and the recorded commit.
 */
module GitCommands {
  import opened Wrappers
  import opened PhpStrings
  import opened Host

  datatype Transport = Http | Ssh

  /** SSH is used exactly when the trimmed private key is non-empty in PHP's sense:
      it has a character trim() keeps, and it is not the string "0". */
  function TransportFor(sshPrivateKey: string): (t: Transport)
    ensures t == Ssh <==> !AllTrimChars(sshPrivateKey) && Trim(sshPrivateKey) != "0"
  {
    TrimEmptyIff(sshPrivateKey);
    if IsEmpty(Trim(sshPrivateKey)) then Http else Ssh
  }

  // ---- git clone ----

  const CloneHead := "git clone --recursive "
  const DepthFlag := " --depth "
  const CloneTail := " -b \"%s\" \"%s\" \"%s\""

  /** The shallow-clone option: empty for a full clone. */
  function DepthPart(depth: Option<int>): string
  {
    match depth
    case None => ""
    case Some(n) => DepthFlag + IntToDecimal(n) + " "
  }

  /** The template of the HTTP clone command for a given `clone_depth`. Its three
      placeholders take the branch, the clone URL and the destination. */
  function CloneTemplate(depth: Option<int>): string
  {
    CloneHead + DepthPart(depth) + CloneTail
  }

  /** The environment binding that makes git use the SSH wrapper at `wrapper`. */
  function SshPrefix(wrapper: Path): string
  {
    "export GIT_SSH=\"" + wrapper + "\" && "
  }

  /** The SSH clone template: the wrapper binding, then the HTTP template for the same depth. */
  function SshCloneTemplate(wrapper: Path, depth: Option<int>): string
  {
    SshPrefix(wrapper) + CloneTemplate(depth)
  }

  /** The clone template of the given transport; `wrapper` matters for SSH only. */
  function CloneTemplateVia(transport: Transport, wrapper: Path, depth: Option<int>): string
  {
    match transport
    case Http => CloneTemplate(depth)
    case Ssh => SshCloneTemplate(wrapper, depth)
  }

  /** The clone command: the branch, the clone URL and the destination, in that order. */
  function CloneCommand(template: string, branch: string, url: string, cloneTo: Path): Command
  {
    Command(template, [branch, url, cloneTo])
  }

  predicate IsNumeral(s: string)
  {
    s != [] && forall i :: (if s[0] == '-' then 1 else 0) <= i < |s| ==> IsDigit(s[i])
  }

  /** Reads the depth back out of an HTTP clone template: None when there is no
      `--depth` option between the fixed head and tail. */
  function DepthOf(t: string): Option<int>
  {
    if |t| < |CloneHead| + |CloneTail| || t[..|CloneHead|] != CloneHead
       || t[|t| - |CloneTail|..] != CloneTail then None
    else
      var m := t[|CloneHead|..|t| - |CloneTail|];
      if |m| > |DepthFlag| && m[..|DepthFlag|] == DepthFlag && m[|m| - 1] == ' '
         && IsNumeral(m[|DepthFlag|..|m| - 1])
      then Some(DecimalToInt(m[|DepthFlag|..|m| - 1]))
      else None
  }

  /** The clone template carries exactly the configured depth: a `--depth N` option
      with N the configured value when `clone_depth` is set, and none when it is not. */
  lemma CloneTemplateDepth(depth: Option<int>)
    ensures DepthOf(CloneTemplate(depth)) == depth
  {
    var t := CloneTemplate(depth);
    var m := DepthPart(depth);
    assert t[|CloneHead|..|t| - |CloneTail|] == m;
    match depth
    case None =>
    case Some(n) =>
      var digits := IntToDecimal(n);
      assert m[..|DepthFlag|] == DepthFlag;
      assert m[|DepthFlag|..|m| - 1] == digits;
      DecimalRoundTrip(n);
  }

  /** Different depths give different clone templates. */
  lemma CloneTemplateInjective(d1: Option<int>, d2: Option<int>)
    requires CloneTemplate(d1) == CloneTemplate(d2)
    ensures d1 == d2
  {
    CloneTemplateDepth(d1);
    CloneTemplateDepth(d2);
  }

  /** The SSH template is the wrapper binding followed by exactly the HTTP template. */
  lemma SshTemplateSplits(wrapper: Path, depth: Option<int>)
    ensures var t := SshCloneTemplate(wrapper, depth);
            var k := |SshPrefix(wrapper)|;
            k <= |t| && t[..k] == SshPrefix(wrapper) && t[k..] == CloneTemplate(depth)
            && DepthOf(t[k..]) == depth
  {
    var t := SshCloneTemplate(wrapper, depth);
    assert t[|SshPrefix(wrapper)|..] == CloneTemplate(depth);
    CloneTemplateDepth(depth);
  }

  // ---- after the clone ----

  const ChangeDir := "cd \"%s\""
  const CheckoutTemplate := ChangeDir + " && git checkout %s --quiet"
  const RevParseTemplate := ChangeDir + " && git rev-parse HEAD"
  const CloneFailure := "Failed to clone remote git repository."

  /** The commit is checked out explicitly unless empty() holds of it ("" or "0") or it is "Manual". */
  predicate WantsCheckout(commit: string)
  {
    !IsEmpty(commit) && commit != "Manual"
  }

  function CheckoutCommand(cloneTo: Path, commit: string): Command
  {
    Command(CheckoutTemplate, [cloneTo, commit])
  }

  function RevParseCommand(cloneTo: Path): Command
  {
    Command(RevParseTemplate, [cloneTo])
  }

  /** The commands of post-clone setup: a checkout of `commit` exactly when it is wanted,
      and always a rev-parse of HEAD, last. */
  function PostCloneCommands(cloneTo: Path, commit: string): seq<Command>
  {
    (if WantsCheckout(commit) then [CheckoutCommand(cloneTo, commit)] else []) + [RevParseCommand(cloneTo)]
  }

  /** Post-clone setup issues a checkout of the commit exactly when one is wanted, then
      rev-parse, which is always issued and always last; nothing else. */
  lemma PostCloneCommandsOrder(cloneTo: Path, commit: string)
    ensures var cs := PostCloneCommands(cloneTo, commit);
            && |cs| == (if WantsCheckout(commit) then 2 else 1)
            && cs[|cs| - 1] == RevParseCommand(cloneTo)
            && (CheckoutCommand(cloneTo, commit) in cs <==> WantsCheckout(commit))
            && forall i :: 0 <= i < |cs| - 1 ==> cs[i] == CheckoutCommand(cloneTo, commit)
  {
    var cs := PostCloneCommands(cloneTo, commit);
    assert CheckoutCommand(cloneTo, commit) != RevParseCommand(cloneTo);
  }

  /** The reply rev-parse gets, for the script as it stands when post-clone setup starts. */
  function RevParseReply(commit: string, script: seq<Reply>): Reply
  {
    Next(Drop(script, if WantsCheckout(commit) then 1 else 0))
  }

  /** What post-clone setup returns: the checkout's result, or true when there was none. */
  function CheckoutResult(commit: string, script: seq<Reply>): bool
  {
    !WantsCheckout(commit) || Next(script).ok
  }

  /** The commit recorded by post-clone setup: the trimmed rev-parse output when rev-parse
      succeeds, otherwise the commit it started with. */
  function ResolvedCommit(commit: string, script: seq<Reply>): string
  {
    var r := RevParseReply(commit, script);
    if r.ok then Trim(r.output) else commit
  }

  /** What post-clone setup returns does not depend on the reply rev-parse gets. */
  lemma CheckoutResultIgnoresRevParse(commit: string, s1: seq<Reply>, s2: seq<Reply>)
    requires WantsCheckout(commit) ==> Next(s1) == Next(s2)
    ensures CheckoutResult(commit, s1) == CheckoutResult(commit, s2)
  {
  }

  // ---- a whole clone attempt: the clone command, then post-clone setup if it succeeded ----

  function AttemptCommands(clone: Command, cloneTo: Path, commit: string, script: seq<Reply>): (cs: seq<Command>)
    ensures |cs| >= 1 && cs[0] == clone
    ensures |cs| == 1 <==> !Next(script).ok
  {
    [clone] + (if Next(script).ok then PostCloneCommands(cloneTo, commit) else [])
  }

  /** A clone attempt succeeds when the clone command and post-clone setup both report success. */
  function AttemptSucceeded(commit: string, script: seq<Reply>): bool
  {
    Next(script).ok && CheckoutResult(commit, Drop(script, 1))
  }

  /** The commit recorded after a clone attempt: unchanged when the clone fails. */
  function AttemptCommit(commit: string, script: seq<Reply>): (c: string)
    ensures !Next(script).ok ==> c == commit
  {
    if Next(script).ok then ResolvedCommit(commit, Drop(script, 1)) else commit
  }

  /** A recorded commit without surrounding whitespace stays so: whatever a clone attempt
      records is either the old commit or the output of trim(). */
  lemma AttemptKeepsCommitTrimmed(commit: string, script: seq<Reply>)
    requires Trim(commit) == commit
    ensures Trim(AttemptCommit(commit, script)) == AttemptCommit(commit, script)
  {
    if Next(script).ok {
      var r := RevParseReply(commit, Drop(script, 1));
      if r.ok {
        TrimIdempotent(r.output);
      }
    }
  }

  /** A failed explicit checkout does not stop HEAD from being recorded: the attempt fails,
      yet the commit becomes the trimmed rev-parse output when rev-parse succeeds. */
  lemma FailedCheckoutStillRecordsHead(commit: string, script: seq<Reply>)
    requires WantsCheckout(commit) && Next(script).ok && !Next(Drop(script, 1)).ok
    requires Next(Drop(script, 2)).ok
    ensures !AttemptSucceeded(commit, script)
    ensures AttemptCommit(commit, script) == Trim(Next(Drop(script, 2)).output)
  {
    assert Drop(Drop(script, 1), 1) == Drop(script, 2);
  }
}
