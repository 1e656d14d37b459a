// The two things a crash cannot take back: the disk and the kernel. Every effect
// of the applier is one function here. An oracle decides how each effect ends,
// and one of the endings is the death of the process.

module World {
  import opened Commands
  import opened Journal

  /** Everything a command other than a firewall load can change: kernel objects
      by name. */
  type Machine = map<string, string>

  /** A change made under journal number n that may still be in force, and the
      inverse that was recorded for it. */
  datatype Debt = Debt(n: int, undo: Command)

  /** fw is the ruleset in force. owed is bookkeeping: the changes that may have
      landed and have not been reversed since. */
  datatype Kernel = Kernel(fw: Option<string>, rest: Machine, owed: set<Debt>)

  /** up is false once the process has died: nothing further reaches the disk or
      the kernel. */
  datatype World = World(disk: Disk, kernel: Kernel, clock: nat, up: bool)

  /** How a command ends. A command that fails may still have landed; one that is
      cut short by a crash may have landed too. */
  datatype Answer = Ok | Fails(stderr: string, err: string, landed: bool) | Dies(landed: bool)

  /** How a journal append ends: reported written, reported failed, or cut short,
      with some of its bytes in the file. */
  datatype WriteEnd = Written | WriteError(left: Left) | WriteDies(left: Left)

  /** How the replacement of the journal ends. The rename is atomic. */
  datatype ReplaceEnd = Replaced | ReplaceError | ReplaceDies(replaced: bool)

  datatype Env = Env(
    eff: (Command, Machine) -> Machine,
    run: (nat, Command, Machine) -> Answer,
    satisfied: nat -> bool,
    write: nat -> WriteEnd,
    replace: nat -> ReplaceEnd)

  // --- commands --------------------------------------------------------------

  /** A firewall load is one transaction; anything else acts on its objects. */
  function Effect(env: Env, c: Command, k: Kernel): Kernel {
    if IsNft(c) then k.(fw := if c.stdin == TEARDOWN then None else Some(c.stdin))
    else k.(rest := env.eff(c, k.rest))
  }

  predicate Lands(c: Command, a: Answer) {
    match a
    case Ok => true
    case Fails(stderr, err, landed) => landed && !IsNft(c) && !ReadAsUnchanged(c, stderr, err)
    case Dies(landed) => landed
  }

  datatype Ran = Ran(w: World, a: Answer)

  function Exec(env: Env, w: World, c: Command): Ran {
    if !w.up then Ran(w, Dies(false))
    else
      var a := env.run(w.clock, c, w.kernel.rest);
      Ran(w.(kernel := if Lands(c, a) then Effect(env, c, w.kernel) else w.kernel,
             clock := w.clock + 1,
             up := !a.Dies?), a)
  }

  // --- steps -----------------------------------------------------------------

  /** One change together with its inverse. queried says that it carries a
      read-only query answering whether the change is already in place. */
  datatype Step = Step(op: string, do: Command, undo: Command, queried: bool)

  predicate MayHaveLanded(s: Step, a: Answer) {
    match a
    case Ok => true
    case Fails(stderr, err, _) => !ReadAsUnchanged(s.do, stderr, err)
    case Dies(_) => true
  }

  /** Running a step's change under number n: it is owed an inverse when it may
      have landed. */
  function ExecDo(env: Env, w: World, n: int, s: Step): Ran {
    var r := Exec(env, w, s.do);
    if w.up && MayHaveLanded(s, r.a) && !IsZero(s.undo) then
      Ran(r.w.(kernel := r.w.kernel.(owed := r.w.kernel.owed + {Debt(n, s.undo)})), r.a)
    else r
  }

  predicate Reverses(c: Command, a: Answer) {
    match a
    case Ok => true
    case Fails(stderr, err, _) => ReadAsGone(c, stderr, err)
    case Dies(landed) => landed
  }

  /** Running an entry's inverse: the change is no longer owed once the inverse
      has done its work, or once there was nothing left for it to do. */
  function ExecUndo(env: Env, w: World, e: Entry): Ran {
    var r := Exec(env, w, e.undo);
    if w.up && Reverses(e.undo, r.a) then
      Ran(r.w.(kernel := r.w.kernel.(owed := r.w.kernel.owed - {Debt(e.seqno, e.undo)})), r.a)
    else r
  }

  // --- the journal -----------------------------------------------------------

  datatype Logged = Logged(w: World, ok: bool)

  function Log(env: Env, w: World, r: Record): Logged {
    if !w.up then Logged(w, false)
    else
      match env.write(w.clock)
      case Written => Logged(w.(disk := Append(w.disk, r, Everything), clock := w.clock + 1), true)
      case WriteError(left) => Logged(w.(disk := Append(w.disk, r, left), clock := w.clock + 1), false)
      case WriteDies(left) =>
        Logged(w.(disk := Append(w.disk, r, left), clock := w.clock + 1, up := false), false)
  }

  function Replace(env: Env, w: World, es: seq<Entry>): Logged {
    if !w.up then Logged(w, false)
    else
      match env.replace(w.clock)
      case Replaced => Logged(w.(disk := Rewritten(es), clock := w.clock + 1), true)
      case ReplaceError => Logged(w.(clock := w.clock + 1), false)
      case ReplaceDies(replaced) =>
        Logged(w.(disk := if replaced then Rewritten(es) else w.disk, clock := w.clock + 1, up := false), false)
  }

  /** OpenJournal creates the file when it is missing and repairs nothing. */
  function Opened(w: World): World {
    if w.disk.Absent? then w.(disk := File([], true)) else w
  }
}
