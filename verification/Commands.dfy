// Commands as the applier sees them: what makes two of them the same command,
// what makes two of them write the same resource, and how a failed one is read.

module Commands {

  datatype Option<+T> = None | Some(value: T)

  /** One invocation. There is no shell: args is passed as a vector. */
  datatype Command = Command(path: string, args: seq<string>, stdin: string)

  const ZERO := Command("", [], "")

  /** The empty command, which is how a step says it has no inverse. */
  predicate IsZero(c: Command) {
    c.path == "" && c.args == []
  }

  function Join(parts: seq<string>, sep: string): string {
    if parts == [] then ""
    else if |parts| == 1 then parts[0]
    else parts[0] + sep + Join(parts[1..], sep)
  }

  /** The resource a command writes: path and arguments, never standard input. */
  function CommandLine(c: Command): string {
    if c.args == [] then c.path else c.path + " " + Join(c.args, " ")
  }

  /** The identity of a command. The digest of standard input is taken to be
      injective, and is represented by the text itself. */
  function RunnerKey(c: Command): string {
    if c.stdin == "" then CommandLine(c) else CommandLine(c) + " <stdin:" + c.stdin + ">"
  }

  /** Two commands on one resource share a key exactly when they carry the same
      standard input. */
  lemma KeyIdentity(a: Command, b: Command)
    requires CommandLine(a) == CommandLine(b)
    ensures RunnerKey(a) == RunnerKey(b) <==> a.stdin == b.stdin
  {
    var line := CommandLine(a);
    if a.stdin != "" && b.stdin != "" && RunnerKey(a) == RunnerKey(b) {
      var p := |line + " <stdin:"|;
      assert |a.stdin| == |b.stdin|;
      assert RunnerKey(a)[p..p + |a.stdin|] == a.stdin;
      assert RunnerKey(b)[p..p + |b.stdin|] == b.stdin;
    }
    if a.stdin == "" && b.stdin != "" {
      assert |RunnerKey(b)| > |line|;
    }
    if b.stdin == "" && a.stdin != "" {
      assert |RunnerKey(a)| > |line|;
    }
  }

  /** A command that is not empty has a key that is not the empty string, so a
      missing cache entry can never be mistaken for it. */
  lemma NonZeroKey(c: Command)
    requires !IsZero(c)
    ensures RunnerKey(c) != ""
  {
    if c.args != [] {
      assert |CommandLine(c)| >= 1;
    }
  }

  // --- reading a failure -----------------------------------------------------

  function LowerChar(c: char): char {
    if 'A' <= c <= 'Z' then (c as int + 32) as char else c
  }

  function Lower(s: string): (r: string)
    ensures |r| == |s| && forall i :: 0 <= i < |s| ==> r[i] == LowerChar(s[i])
  {
    seq(|s|, i requires 0 <= i < |s| => LowerChar(s[i]))
  }

  predicate At(s: string, sub: string, i: nat) {
    i + |sub| <= |s| && s[i..i + |sub|] == sub
  }

  predicate Contains(s: string, sub: string) {
    exists i | 0 <= i <= |s| :: At(s, sub, i)
  }

  const ALREADY_EXISTS := ["file exists", "object exists"]

  const NOT_FOUND := ["no such device", "no such file or directory", "no such process",
                      "cannot find device", "cannot assign requested address", "not in table"]

  predicate MatchesAny(stderr: string, err: string, markers: seq<string>) {
    exists k | 0 <= k < |markers| :: Contains(Lower(stderr + " " + err), markers[k])
  }

  /** A failed command failed because what it would create is already there. */
  predicate IsAlreadyExists(stderr: string, err: string) {
    MatchesAny(stderr, err, ALREADY_EXISTS)
  }

  /** A failed command failed because what it names is not there. */
  predicate IsNotFound(stderr: string, err: string) {
    MatchesAny(stderr, err, NOT_FOUND)
  }

  /** Whether the job of a command is to take something away: the first verb
      decides. */
  predicate RemovesFrom(args: seq<string>, i: nat)
    decreases |args| - i
  {
    if i >= |args| then false
    else if args[i] == "del" || args[i] == "delete" then true
    else if args[i] == "add" || args[i] == "replace" || args[i] == "set" then false
    else RemovesFrom(args, i + 1)
  }

  predicate CommandRemoves(c: Command) {
    RemovesFrom(c.args, 0)
  }

  /** What the apply path reads as "it ran and changed nothing". */
  predicate ReadAsUnchanged(c: Command, stderr: string, err: string) {
    (CommandRemoves(c) && IsNotFound(stderr, err)) || IsAlreadyExists(stderr, err)
  }

  /** What the undo path reads as "nothing left to undo". */
  predicate ReadAsGone(c: Command, stderr: string, err: string) {
    CommandRemoves(c) && IsNotFound(stderr, err)
  }

  // --- the firewall's commands -----------------------------------------------

  const OP_NFT := "nft"
  const TEARDOWN := "table inet caspian\ndelete table inet caspian\n"

  predicate IsNft(c: Command) {
    c.path == "nft"
  }

  function NftLoad(ruleset: string): Command {
    Command("nft", ["-f", "-"], ruleset)
  }

  const NFT_UNLOAD := NftLoad(TEARDOWN)
}
