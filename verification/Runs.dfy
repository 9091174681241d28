/**
 * One run of the scanner against a node whose chain may change between any two calls, and a store
 * whose calls may fail (scanner/scanner.go: Run, resume, rewind).
 */
module Runs {
  import opened Wrappers
  import opened IndexState
  import opened Indexing
  import opened Retry
  import opened Chain

  /** What the node answers to one call: its active chain at that moment, or an error. */
  datatype Reply = Up(view: View) | Down

  datatype Cursor = Cursor(height: int, hash: Hash)

  /** Why a run stops early. `Unfinished` means the script of replies ends before the run does. */
  datatype Fault = RpcError | StoreError | Unfinished

  /**
   * What the last store writes left behind that the cursor does not show: nothing; part or all of
   * a block beyond the cursor; or a cursor that still names a block whose rows are deleted.
   */
  datatype Residue = Clean | HalfDone(hash: Hash) | StaleCursor

  /**
   * The store with its cursor, the replies still to come, and the number of store calls that will
   * succeed. The last four fields are history: they record what happened and decide nothing.
   * `trusted` is lost when one of the conditions the scanner relies on, and does not check, fails.
   * `lost` holds the keys under which a rewind deleted a vote and no vote has been kept since, in a
   * finished block or on an emptied store.
   */
  datatype Machine = Machine(
    index: Index, cursor: Option<Cursor>, script: seq<Reply>, calls: nat,
    residue: Residue, trusted: bool, rewinds: nat, lost: set<VoteKey>)

  /** Where the loop goes on, or how the run ends. */
  datatype Outcome = Go(next: int, prev: Hash) | Done | Failed(fault: Fault)

  // ---------- Calls to the node ----------

  function Ask(m: Machine): (Machine, Result<View, Fault>) {
    if m.script == [] then (m, Failure(Unfinished))
    else
      var rest := m.(script := m.script[1..]);
      match m.script[0]
      case Down => (rest, Failure(RpcError))
      case Up(view) => (rest, Success(view))
  }

  /** The hash at a height; heights outside the chain are an error. */
  function AskHash(m: Machine, h: int): (Machine, Result<Hash, Fault>) {
    var (m, view) := Ask(m);
    match view
    case Failure(f) => (m, Failure(f))
    case Success(v) => if 0 <= h < |v| then (m, Success(v[h])) else (m, Failure(RpcError))
  }

  // ---------- Rewind ----------

  function Target(c: Config, from: int): int {
    if from - c.depth < c.start then c.start else from - c.depth
  }

  /** The node's hash at `h` is the ancestor, at that height, of the block the cursor names. */
  predicate AnchorAgrees(c: Config, cursor: Option<Cursor>, h: int, hash: Hash) {
    cursor.Some? && h <= cursor.value.height && Back(c, cursor.value.hash, cursor.value.height - h) == hash
  }

  function Deleted(m: Machine, target: int): Machine
    requires m.calls > 0
  {
    m.(index := m.index.DeleteFromHeight(target), calls := m.calls - 1, residue := StaleCursor,
       rewinds := m.rewinds + 1, lost := m.lost + m.index.VotesFrom(target))
  }

  function Rewind(c: Config, m: Machine, from: int): (Machine, Outcome) {
    if m.calls == 0 then (m, Failed(StoreError))
    else
      var target := Target(c, from);
      var cut := Deleted(m, target);
      if target <= c.start then (cut, Go(c.start, ""))
      else
        var (asked, anchor) := AskHash(cut, target - 1);
        match anchor
        case Failure(f) => (asked, Failed(f))
        case Success(hash) =>
          if asked.calls == 0 then (asked, Failed(StoreError))
          else
            (asked.(cursor := Some(Cursor(target - 1, hash)), calls := asked.calls - 1, residue := Clean,
                    trusted := m.trusted && AnchorAgrees(c, m.cursor, target - 1, hash)),
             Go(target, hash))
  }

  // ---------- Resume ----------

  function Resume(c: Config, m: Machine): (Machine, Outcome) {
    if m.calls == 0 then (m, Failed(StoreError))
    else
      var m := m.(calls := m.calls - 1);
      if m.cursor.None? then (m, Go(c.start, ""))
      else
        var Cursor(h, hash) := m.cursor.value;
        var (asked, onchain) := AskHash(m, h);
        match onchain
        case Failure(f) => (asked, Failed(f))
        case Success(found) =>
          if found == hash then (asked.(trusted := m.trusted && !m.residue.StaleCursor?), Go(h + 1, hash))
          else Rewind(c, asked, h)
  }

  // ---------- The loop ----------

  /**
   * A block begun earlier is begun again: the same one, and one in which nothing refused at first
   * would be accepted on the retry.
   */
  predicate RetryAllowed(c: Config, residue: Residue, next: int, hash: Hash) {
    residue.HalfDone? ==>
      && residue.hash == hash && next >= c.start
      && NoLateAcceptance(c.prims, Fresh(c, c.block(hash).prev, next - c.start), OutputsOf(c, hash))
  }

  /** Index the block and save the cursor. An attempt that fails before it writes anything leaves no trace. */
  function Ingest(c: Config, m: Machine, next: int, hash: Hash): (Machine, Outcome) {
    var a := ProcessWithin(c.prims, m.index, OutputsOf(c, hash), m.calls);
    var finished := a.ok && a.left > 0;
    if !finished && a.index == m.index then (m.(calls := a.left), Failed(StoreError))
    else
      var written := m.(
        index := a.index, calls := a.left, trusted := m.trusted && RetryAllowed(c, m.residue, next, hash),
        residue := if m.residue.StaleCursor? then StaleCursor else HalfDone(hash),
        lost := if finished || m.residue.StaleCursor? then m.lost - a.index.votes.Keys else m.lost);
      if !finished then (written, Failed(StoreError))
      else
        (written.(cursor := Some(Cursor(next, hash)), calls := a.left - 1, residue := Clean), Go(next + 1, hash))
  }

  /** One turn of the loop. */
  function Step(c: Config, m: Machine, next: int, prev: Hash): (Machine, Outcome) {
    var (m1, view) := Ask(m);
    match view
    case Failure(f) => (m1, Failed(f))
    case Success(v) =>
      if next > |v| - 1 then (m1, Done)
      else
        var (m2, answer) := AskHash(m1, next);
        match answer
        case Failure(f) => (m2, Failed(f))
        case Success(hash) =>
          var (m3, fetched) := Ask(m2);
          match fetched
          case Failure(f) => (m3, Failed(f))
          case Success(_) =>
            if prev != "" && c.block(hash).prev != prev then Rewind(c, m3, next - 1)
            else Ingest(c, m3, next, hash)
  }

  lemma StepConsumes(c: Config, m: Machine, next: int, prev: Hash)
    ensures Step(c, m, next, prev).1.Go? ==> |Step(c, m, next, prev).0.script| < |m.script|
  {
  }

  function Loop(c: Config, m: Machine, next: int, prev: Hash): (r: (Machine, Outcome))
    ensures !r.1.Go?
    decreases |m.script|
  {
    StepConsumes(c, m, next, prev);
    var (after, progress) := Step(c, m, next, prev);
    match progress
    case Go(n, p) => Loop(c, after, n, p)
    case _ => (after, progress)
  }

  function Run(c: Config, m: Machine): (r: (Machine, Outcome))
    ensures !r.1.Go?
  {
    var (after, progress) := Resume(c, m);
    match progress
    case Go(n, p) => Loop(c, after, n, p)
    case _ => (after, progress)
  }

  /** What one call of Run meets: the node's replies and how long the store works. */
  datatype Conditions = Conditions(script: seq<Reply>, calls: nat)

  function Prepared(m: Machine, r: Conditions): Machine {
    m.(script := r.script, calls := r.calls)
  }

  /** Any number of runs, one after the other, on the same store. */
  function Session(c: Config, m: Machine, runs: seq<Conditions>): Machine
    decreases |runs|
  {
    if runs == [] then m else Session(c, Run(c, Prepared(m, runs[0])).0, runs[1..])
  }

  const NEW_STORE := Machine(EMPTY, None, [], 0, Clean, true, 0, {})
}
