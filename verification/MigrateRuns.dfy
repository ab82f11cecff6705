/**
 * Any number of migration runners on one database, one atomic step at a time,
 * in every order (db/migrate.ts). A step is one statement or one transaction.
 * The snapshot is taken before the lock is tried. A crash ends the session,
 * which frees the lock; a session may also be lost under a runner that goes on
 * with a new one, so nothing but the exclusion results may lean on the lock.
 */
module MigrateRuns {
  import opened Names
  import opened Migrate

  datatype End = UpToDate | StatusOnly | Edited(name: string) | LockBusy | Applied | Failed | Crashed

  datatype Phase =
    | Starting
    | Ready(pending: seq<File>)
    | Applying(pending: seq<File>, next: nat)
    | Releasing(how: End)
    | Ended(how: End)

  datatype Runner = Runner(tree: Tree, statusOnly: bool, phase: Phase)

  datatype Commit = Commit(who: nat, file: File)

  /** log is every transaction that committed, in commit order. */
  datatype State = State(rows: Rows, log: seq<Commit>, lock: Option<nat>, runners: map<nat, Runner>)

  datatype Action =
    | Spawn(id: nat, tree: Tree, statusOnly: bool)
    | Snapshot(id: nat)       // read the table, make the plan
    | TryLock(id: nat)
    | Transact(id: nat)       // one file's transaction commits
    | Fail(id: nat)           // one file's transaction rolls back
    | Close(id: nat)          // every file done, or failed: unlock
    | Crash(id: nat)
    | LoseSession(id: nat)

  function Begin(rows: Rows): State {
    State(rows, [], None, map[])
  }

  /** The transaction of the next pending file can commit: its name has no row yet. */
  predicate CanCommit(s: State, id: nat) {
    id in s.runners && s.runners[id].phase.Applying?
    && var p := s.runners[id].phase; p.next < |p.pending| && p.pending[p.next].name !in s.rows
  }

  ghost function AfterSnapshot(sha: Sha, r: Runner, rows: Rows): Phase {
    match PlanFrom(sha, Files(r.tree), rows)
    case Refused(name) => Ended(End.Edited(name))
    case ToApply(pending) =>
      if pending == [] then Ended(End.UpToDate)
      else if r.statusOnly then Ended(End.StatusOnly)
      else Ready(pending)
  }

  /** Where an action other than a commit takes the acting runner; planned is what a snapshot now would decide. */
  function Move(a: Action, phase: Phase, free: bool, planned: Phase): Phase {
    match a
    case Snapshot(_) => if phase.Starting? then planned else phase
    case TryLock(_) =>
      if !phase.Ready? then phase else if free then Applying(phase.pending, 0) else Ended(End.LockBusy)
    case Fail(_) => if phase.Applying? && phase.next < |phase.pending| then Releasing(End.Failed) else phase
    case Close(_) =>
      if phase.Applying? && phase.next == |phase.pending| then Releasing(End.Applied)
      else if phase.Releasing? then Ended(phase.how)
      else phase
    case Crash(_) => if phase.Ended? then phase else Ended(End.Crashed)
    case _ => phase
  }

  /** The lock after such an action: a session that ends, or unlocks, frees only its own hold. */
  function LockAfter(a: Action, phase: Phase, lock: Option<nat>): Option<nat> {
    if a.TryLock? && phase.Ready? && lock == None then Some(a.id)
    else if lock == Some(a.id) && (a.Crash? || a.LoseSession? || (a.Close? && phase.Releasing?)) then None
    else lock
  }

  /** One step; an action that is not possible in s leaves s as it is. */
  ghost function Step(sha: Sha, s: State, a: Action): State {
    if a.id !in s.runners then
      if a.Spawn? then s.(runners := s.runners[a.id := Runner(a.tree, a.statusOnly, Starting)]) else s
    else
      var r := s.runners[a.id];
      if a.Transact? && CanCommit(s, a.id) then
        var f := r.phase.pending[r.phase.next];
        State(s.rows[f.name := sha(f.body)], s.log + [Commit(a.id, f)], s.lock,
              s.runners[a.id := r.(phase := Applying(r.phase.pending, r.phase.next + 1))])
      else
        s.(lock := LockAfter(a, r.phase, s.lock),
           runners := s.runners[a.id := r.(phase := Move(a, r.phase, s.lock == None, AfterSnapshot(sha, r, s.rows)))])
  }

  ghost function Exec(sha: Sha, s: State, acts: seq<Action>): State {
    if acts == [] then s
    else Step(sha, Exec(sha, s, acts[..|acts| - 1]), acts[|acts| - 1])
  }

  /* ---- Differing trees ---- */

  function LoggedFiles(log: seq<Commit>): seq<File> {
    seq(|log|, i requires 0 <= i < |log| => log[i].file)
  }

  function CommitsBy(log: seq<Commit>, id: nat): seq<File> {
    if log == [] then []
    else
      var last := log[|log| - 1];
      CommitsBy(log[..|log| - 1], id) + if last.who == id then [last.file] else []
  }

  /** The table is the rows it began with plus one row per commit, each the digest of the text that ran. */
  ghost predicate TableMatchesLog(sha: Sha, start: Rows, rows: Rows, log: seq<Commit>) {
    && (forall n :: n in start ==> n in rows && rows[n] == start[n])
    && (forall i :: 0 <= i < |log| ==> log[i].file.name !in start && Holds(sha, log[i].file, rows))
    && (forall i, j :: 0 <= i < j < |log| ==> log[i].file.name != log[j].file.name)
    && (forall n :: n in rows && n !in start ==> n in LoggedNames(log))
  }

  ghost function LoggedNames(log: seq<Commit>): set<string> {
    set i | 0 <= i < |log| :: log[i].file.name
  }

  ghost predicate AllRecorded(sha: Sha, tree: Tree, rows: Rows) {
    forall f :: f in Files(tree) ==> Holds(sha, f, rows)
  }

  ghost predicate RecordedOrIn(sha: Sha, tree: Tree, rows: Rows, pending: seq<File>) {
    forall f :: f in Files(tree) ==> Holds(sha, f, rows) || f in pending
  }

  /** What one runner has done, phase by phase. */
  ghost predicate Accounted(sha: Sha, s: State, id: nat)
    requires id in s.runners
  {
    var r := s.runners[id];
    match r.phase
    case Starting => CommitsBy(s.log, id) == []
    case Ready(p) => CommitsBy(s.log, id) == [] && RecordedOrIn(sha, r.tree, s.rows, p)
    case Applying(p, i) => i <= |p| && CommitsBy(s.log, id) == p[..i] && RecordedOrIn(sha, r.tree, s.rows, p)
    case Releasing(how) => (how.Applied? && AllRecorded(sha, r.tree, s.rows)) || how.Failed?
    case Ended(how) =>
      && (how.UpToDate? || how.Applied? ==> AllRecorded(sha, r.tree, s.rows))
      && (how.Edited? || how.LockBusy? || how.StatusOnly? || how.UpToDate? ==> CommitsBy(s.log, id) == [])
  }

  ghost predicate Holding(s: State, id: nat) {
    id in s.runners && (s.runners[id].phase.Applying? || s.runners[id].phase.Releasing?)
  }

  ghost predicate Inv(sha: Sha, start: Rows, s: State) {
    && TableMatchesLog(sha, start, s.rows, s.log)
    && (forall id :: id in s.runners ==> Accounted(sha, s, id))
    && (forall i :: 0 <= i < |s.log| ==> s.log[i].who in s.runners)
    && (s.lock.Some? ==> Holding(s, s.lock.value))
  }

  lemma {:induction false} NoCommitsBy(log: seq<Commit>, id: nat)
    requires forall i :: 0 <= i < |log| ==> log[i].who != id
    ensures CommitsBy(log, id) == []
  {
    if log != [] { NoCommitsBy(log[..|log| - 1], id); }
  }

  lemma {:induction false} CommittedAreLogged(log: seq<Commit>, id: nat, f: File)
    requires f in CommitsBy(log, id)
    ensures exists i :: 0 <= i < |log| && log[i] == Commit(id, f)
  {
    var k := |log| - 1;
    if f in CommitsBy(log[..k], id) {
      CommittedAreLogged(log[..k], id, f);
    } else {
      assert log[k] == Commit(id, f);
    }
  }

  /** Rows that only grow keep every other runner's account true. */
  lemma OthersKept(sha: Sha, s: State, t: State, id: nat)
    requires id in s.runners && id in t.runners && t.runners[id] == s.runners[id]
    requires Accounted(sha, s, id) && CommitsBy(t.log, id) == CommitsBy(s.log, id)
    requires forall n :: n in s.rows ==> n in t.rows && t.rows[n] == s.rows[n]
    ensures Accounted(sha, t, id)
  {
  }

  lemma SnapshotAccounted(sha: Sha, r: Runner, rows: Rows)
    ensures var p := AfterSnapshot(sha, r, rows);
      && (p == Ended(End.UpToDate) ==> AllRecorded(sha, r.tree, rows))
      && (p.Ready? ==> RecordedOrIn(sha, r.tree, rows, p.pending))
  {
    if PlanFrom(sha, Files(r.tree), rows).ToApply? { PendingNames(sha, r.tree, rows); }
  }

  /** Only the acting runner moves; only a transaction touches the table and the log. */
  lemma StepFrame(sha: Sha, s: State, a: Action)
    ensures var t := Step(sha, s, a);
      && (forall id :: id in s.runners && id != a.id ==> id in t.runners && t.runners[id] == s.runners[id])
      && (forall id :: id in t.runners ==> id in s.runners || id == a.id)
      && (forall id :: id in s.runners ==> id in t.runners)
      && (!(a.Transact? && CanCommit(s, a.id)) ==> t.rows == s.rows && t.log == s.log)
  {
  }

  lemma LoggedNamesGrow(log: seq<Commit>, c: Commit)
    ensures LoggedNames(log + [c]) == LoggedNames(log) + {c.file.name}
  {
    forall n ensures n in LoggedNames(log + [c]) <==> n in LoggedNames(log) + {c.file.name} {
      if n in LoggedNames(log) {
        var i :| 0 <= i < |log| && log[i].file.name == n;
        assert (log + [c])[i].file.name == n;
      }
      assert (log + [c])[|log|] == c;
    }
  }

  lemma TransactTable(sha: Sha, start: Rows, rows: Rows, log: seq<Commit>, c: Commit)
    requires TableMatchesLog(sha, start, rows, log) && c.file.name !in rows
    ensures TableMatchesLog(sha, start, rows[c.file.name := sha(c.file.body)], log + [c])
  {
    LoggedNamesGrow(log, c);
    var log', rows' := log + [c], rows[c.file.name := sha(c.file.body)];
    forall i | 0 <= i < |log'| ensures log'[i].file.name !in start && Holds(sha, log'[i].file, rows') {
      assert i < |log| ==> log'[i] == log[i];
    }
    forall i, j | 0 <= i < j < |log'| ensures log'[i].file.name != log'[j].file.name {
      assert log'[i] == log[i] && (j < |log| ==> log'[j] == log[j]);
    }
  }

  lemma TransactAccounted(sha: Sha, s: State, id: nat)
    requires CanCommit(s, id) && Accounted(sha, s, id)
    ensures Accounted(sha, Step(sha, s, Transact(id)), id)
  {
    var t := Step(sha, s, Transact(id));
    var p := s.runners[id].phase;
    assert t.log[..|s.log|] == s.log;
    assert p.pending[..p.next + 1] == p.pending[..p.next] + [p.pending[p.next]];
  }

  lemma TransactKeeps(sha: Sha, start: Rows, s: State, id: nat)
    requires Inv(sha, start, s) && CanCommit(s, id)
    ensures Inv(sha, start, Step(sha, s, Transact(id)))
  {
    var t := Step(sha, s, Transact(id));
    StepFrame(sha, s, Transact(id));
    TransactTable(sha, start, s.rows, s.log, Commit(id, s.runners[id].phase.pending[s.runners[id].phase.next]));
    TransactAccounted(sha, s, id);
    assert t.log[..|s.log|] == s.log;
    forall other | other in t.runners && other != id ensures Accounted(sha, t, other) {
      OthersKept(sha, s, t, other);
    }
  }

  lemma CloseRecordsAll(sha: Sha, start: Rows, s: State, id: nat)
    requires Inv(sha, start, s) && id in s.runners && s.runners[id].phase.Applying?
    requires s.runners[id].phase.next == |s.runners[id].phase.pending|
    ensures AllRecorded(sha, s.runners[id].tree, s.rows)
  {
    var p := s.runners[id].phase.pending;
    assert p[..|p|] == p;
    forall f | f in Files(s.runners[id].tree) ensures Holds(sha, f, s.rows) {
      if f in p {
        CommittedAreLogged(s.log, id, f);
      }
    }
  }

  /** The acting runner's account after any step but a commit. */
  lemma ActorAccounted(sha: Sha, start: Rows, s: State, a: Action)
    requires Inv(sha, start, s) && !(a.Transact? && CanCommit(s, a.id)) && a.id in Step(sha, s, a).runners
    ensures Accounted(sha, Step(sha, s, a), a.id)
  {
    if a.id !in s.runners {
      NoCommitsBy(s.log, a.id);
    } else if a.Snapshot? {
      SnapshotAccounted(sha, s.runners[a.id], s.rows);
    } else if a.Close? && s.runners[a.id].phase.Applying? && s.runners[a.id].phase.next == |s.runners[a.id].phase.pending| {
      CloseRecordsAll(sha, start, s, a.id);
    }
  }

  lemma StepKeeps(sha: Sha, start: Rows, s: State, a: Action)
    requires Inv(sha, start, s)
    ensures Inv(sha, start, Step(sha, s, a))
  {
    if a.Transact? && CanCommit(s, a.id) {
      TransactKeeps(sha, start, s, a.id);
    } else {
      StepFrame(sha, s, a);
      OthersAccounted(sha, start, s, a);
    }
  }

  lemma OthersAccounted(sha: Sha, start: Rows, s: State, a: Action)
    requires Inv(sha, start, s) && !(a.Transact? && CanCommit(s, a.id))
    ensures var t := Step(sha, s, a); forall id :: id in t.runners ==> Accounted(sha, t, id)
  {
    var t := Step(sha, s, a);
    StepFrame(sha, s, a);
    forall id | id in t.runners ensures Accounted(sha, t, id) {
      if id == a.id { ActorAccounted(sha, start, s, a); } else { OthersKept(sha, s, t, id); }
    }
  }

  lemma {:induction false} EveryRunKeeps(sha: Sha, start: Rows, acts: seq<Action>)
    ensures Inv(sha, start, Exec(sha, Begin(start), acts))
  {
    if acts != [] {
      EveryRunKeeps(sha, start, acts[..|acts| - 1]);
      StepKeeps(sha, start, Exec(sha, Begin(start), acts[..|acts| - 1]), acts[|acts| - 1]);
    }
  }

  /** No name commits twice, and its one row is the digest of the text that ran. */
  lemma NeverTwice(sha: Sha, start: Rows, acts: seq<Action>)
    ensures var s := Exec(sha, Begin(start), acts);
      && (forall i, j :: 0 <= i < j < |s.log| ==> s.log[i].file.name != s.log[j].file.name)
      && (forall i :: 0 <= i < |s.log| ==> Holds(sha, s.log[i].file, s.rows) && s.log[i].file.name !in start)
      && s.rows.Keys == start.Keys + LoggedNames(s.log)
  {
    EveryRunKeeps(sha, start, acts);
  }

  /**
   * What one snapshot leads to: refused on a changed file, the first; done when
   * every file is recorded; and otherwise the list of what is left, when only
   * that was asked for, or going on to the lock with it.
   */
  lemma SnapshotDecides(sha: Sha, s: State, id: nat)
    requires id in s.runners && s.runners[id].phase.Starting?
    ensures var r, t := s.runners[id], Step(sha, s, Snapshot(id));
      var left := exists f <- Files(r.tree) :: f.name !in s.rows;
      && t.rows == s.rows && t.log == s.log && id in t.runners
      && match t.runners[id].phase
         case Ended(how) =>
           && (how.Edited? || how.UpToDate? || how.StatusOnly?)
           && (how.Edited? <==> exists f <- Files(r.tree) :: Changed(sha, f, s.rows))
           && (how.UpToDate? <==> AllRecorded(sha, r.tree, s.rows))
           && (how.StatusOnly? ==> r.statusOnly && left)
         case Ready(p) => !r.statusOnly && left && p != [] && forall f <- Files(r.tree) :: !Changed(sha, f, s.rows)
         case _ => false
  {
    var files := Files(s.runners[id].tree);
    PlanExact(sha, files, s.rows);
    UnappliedMembers(files, s.rows);
    var plan := PlanFrom(sha, files, s.rows);
    if plan.ToApply? && plan.pending != [] { assert plan.pending[0] in files; }
  }

  /** A transaction that fails stops its runner, which then lets go of the lock and ends as failed; nothing was recorded for it. */
  lemma FailureEnds(sha: Sha, s: State, id: nat)
    requires id in s.runners && s.runners[id].phase.Applying? && s.runners[id].phase.next < |s.runners[id].phase.pending|
    ensures var t := Step(sha, Step(sha, s, Fail(id)), Close(id));
      && t.rows == s.rows && t.log == s.log && id in t.runners && t.runners[id].phase == Ended(End.Failed)
      && t.lock == if s.lock == Some(id) then None else s.lock
  {
  }

  /** A session that ends, with its runner or under it, frees the lock it held and no other's, and nothing recorded goes with it. */
  lemma SessionEnds(sha: Sha, s: State, a: Action)
    requires a.id in s.runners && (a.Crash? || a.LoseSession?)
    ensures var t := Step(sha, s, a);
      && t.rows == s.rows && t.log == s.log && t.lock == (if s.lock == Some(a.id) then None else s.lock)
      && a.id in t.runners && (a.Crash? ==> t.runners[a.id].phase.Ended?) && (a.LoseSession? ==> t.runners == s.runners)
  {
  }

  lemma {:induction false} ExecSplit(sha: Sha, s: State, before: seq<Action>, after: seq<Action>)
    ensures Exec(sha, s, before + after) == Exec(sha, Exec(sha, s, before), after)
  {
    if after == [] {
      assert before + after == before;
    } else {
      var k := |after| - 1;
      ExecSplit(sha, s, before, after[..k]);
      assert (before + after)[..|before + after| - 1] == before + after[..k];
    }
  }

  /** However a run goes on, its rows are never altered or removed and its log is only added to. */
  lemma {:induction false} RowsNeverAltered(sha: Sha, s: State, after: seq<Action>)
    ensures var t := Exec(sha, s, after);
      && (forall n :: n in s.rows ==> n in t.rows && t.rows[n] == s.rows[n])
      && s.log <= t.log
  {
    if after != [] { RowsNeverAltered(sha, s, after[..|after| - 1]); }
  }

  /**
   * What a finished runner has done, for ever after: done means every file it
   * read is recorded with the digest of what it read; refused, busy or status
   * means it committed nothing.
   */
  lemma FinishedRunner(sha: Sha, start: Rows, acts: seq<Action>, id: nat)
    requires var s := Exec(sha, Begin(start), acts); id in s.runners && s.runners[id].phase.Ended?
    ensures var s := Exec(sha, Begin(start), acts);
      var how := s.runners[id].phase.how;
      && (how.Applied? || how.UpToDate? ==>
            forall n :: n in s.runners[id].tree ==> n in s.rows && s.rows[n] == sha(s.runners[id].tree[n]))
      && (how.Edited? || how.LockBusy? || how.StatusOnly? || how.UpToDate? ==>
            forall i :: 0 <= i < |s.log| ==> s.log[i].who != id)
  {
    EveryRunKeeps(sha, start, acts);
    var s := Exec(sha, Begin(start), acts);
    var tree := s.runners[id].tree;
    forall n | n in tree && AllRecorded(sha, tree, s.rows) ensures n in s.rows && s.rows[n] == sha(tree[n]) {
      assert n in Sorted(tree.Keys);
      var i :| 0 <= i < |Sorted(tree.Keys)| && Sorted(tree.Keys)[i] == n;
      assert Files(tree)[i] in Files(tree);
    }
    forall i | 0 <= i < |s.log| && CommitsBy(s.log, id) == [] ensures s.log[i].who != id {
      LoggedAreCommitted(s.log, i);
    }
  }

  lemma {:induction false} LoggedAreCommitted(log: seq<Commit>, i: nat)
    requires i < |log|
    ensures log[i].file in CommitsBy(log, log[i].who)
  {
    if i < |log| - 1 { LoggedAreCommitted(log[..|log| - 1], i); }
  }

  /** A runner whose snapshot shows a changed file is refused on the spot and never commits, however the run goes on. */
  lemma ChangedCommitsNothing(sha: Sha, start: Rows, acts: seq<Action>, id: nat, after: seq<Action>)
    requires var s := Exec(sha, Begin(start), acts);
      && id in s.runners && s.runners[id].phase.Starting?
      && exists f :: f in Files(s.runners[id].tree) && Changed(sha, f, s.rows)
    ensures var t := Exec(sha, Begin(start), acts + [Snapshot(id)] + after);
      forall i :: 0 <= i < |t.log| ==> t.log[i].who != id
  {
    var s := Exec(sha, Begin(start), acts);
    var acts' := acts + [Snapshot(id)];
    assert acts'[..|acts|] == acts;
    PlanExact(sha, Files(s.runners[id].tree), s.rows);
    EndedStays(sha, Exec(sha, Begin(start), acts'), after, id);
    ExecSplit(sha, Begin(start), acts', after);
    FinishedRunner(sha, start, acts' + after, id);
  }

  lemma {:induction false} EndedStays(sha: Sha, s: State, after: seq<Action>, id: nat)
    requires id in s.runners && s.runners[id].phase.Ended?
    ensures var t := Exec(sha, s, after); id in t.runners && t.runners[id] == s.runners[id]
  {
    if after != [] { EndedStays(sha, s, after[..|after| - 1], id); }
  }

  /** The lock is never left behind: whoever holds it is still running. */
  lemma LockHolderIsLive(sha: Sha, start: Rows, acts: seq<Action>)
    ensures var s := Exec(sha, Begin(start), acts);
      s.lock.Some? ==> s.lock.value in s.runners && !s.runners[s.lock.value].phase.Ended?
  {
    EveryRunKeeps(sha, start, acts);
  }

  /* ---- One set of files, an empty table ---- */

  ghost predicate SameFiles(tree: Tree, acts: seq<Action>) {
    forall a :: a in acts && a.Spawn? ==> a.tree == tree
  }

  /** pending is what is left of files from some point on. */
  predicate Tail(pending: seq<File>, files: seq<File>) {
    |pending| <= |files| && pending == files[|files| - |pending|..]
  }

  ghost predicate PrefixTable(files: seq<File>, rows: Rows, log: seq<Commit>) {
    && |log| <= |files| && LoggedFiles(log) == files[..|log|]
    && forall n :: n in rows <==> exists i :: 0 <= i < |log| && files[i].name == n
  }

  /** Where in files a runner's plan begins, and that the log has got at least as far as the runner has. */
  ghost predicate InStep(files: seq<File>, phase: Phase, logged: nat) {
    match phase
    case Ready(p) => Tail(p, files) && |files| - |p| <= logged
    case Applying(p, i) => Tail(p, files) && i <= |p| && |files| - |p| + i <= logged
    case _ => true
  }

  ghost predicate PrefixInv(tree: Tree, s: State) {
    && PrefixTable(Files(tree), s.rows, s.log)
    && forall id :: id in s.runners ==> s.runners[id].tree == tree && InStep(Files(tree), s.runners[id].phase, |s.log|)
  }

  lemma FilesDistinct(tree: Tree, i: nat, j: nat)
    requires i < j < |Files(tree)|
    ensures Files(tree)[i].name != Files(tree)[j].name
  {
    LessTotal(Files(tree)[i].name, Files(tree)[j].name);
  }

  lemma {:induction false} UnappliedTail(files: seq<File>, applied: Rows, n: nat)
    requires n <= |files|
    requires forall i :: 0 <= i < |files| ==> (files[i].name in applied <==> i < n)
    ensures Unapplied(files, applied) == files[n..]
  {
    if files != [] {
      if n > 0 {
        UnappliedTail(files[1..], applied, n - 1);
        assert files[1..][n - 1..] == files[n..];
      } else {
        UnappliedTail(files[1..], applied, 0);
      }
    }
  }

  lemma RowsArePrefix(sha: Sha, tree: Tree, s: State, i: nat)
    requires PrefixInv(tree, s) && TableMatchesLog(sha, map[], s.rows, s.log) && i < |Files(tree)|
    ensures var f := Files(tree)[i]; (f.name in s.rows <==> i < |s.log|) && !Changed(sha, f, s.rows)
  {
    var files, n := Files(tree), |s.log|;
    if i < n {
      assert LoggedFiles(s.log)[i] == s.log[i].file == files[i];
    } else if files[i].name in s.rows {
      var j :| 0 <= j < n && files[j].name == files[i].name;
      FilesDistinct(tree, j, i);
    }
  }

  /** A snapshot of a prefix makes the plan that prefix's remainder. */
  lemma SnapshotIsTail(sha: Sha, tree: Tree, s: State)
    requires PrefixInv(tree, s) && TableMatchesLog(sha, map[], s.rows, s.log)
    ensures PlanFrom(sha, Files(tree), s.rows) == ToApply(Files(tree)[|s.log|..])
  {
    var files := Files(tree);
    forall i | 0 <= i < |files| ensures (files[i].name in s.rows <==> i < |s.log|) && !Changed(sha, files[i], s.rows) {
      RowsArePrefix(sha, tree, s, i);
    }
    PlanExact(sha, files, s.rows);
    UnappliedTail(files, s.rows, |s.log|);
  }

  /** A commit is always of the file the log stands at. */
  lemma CommitIsNext(sha: Sha, tree: Tree, s: State, id: nat)
    requires PrefixInv(tree, s) && CanCommit(s, id)
    ensures var p := s.runners[id].phase;
      |s.log| < |Files(tree)| && |Files(tree)| - |p.pending| + p.next == |s.log|
      && p.pending[p.next] == Files(tree)[|s.log|]
  {
    var files, p := Files(tree), s.runners[id].phase;
    var at := |files| - |p.pending| + p.next;
    assert p.pending[p.next] == files[at];
    assert forall i :: 0 <= i < |s.log| ==> files[i].name in s.rows;
  }

  lemma PrefixTableGrows(sha: Sha, files: seq<File>, rows: Rows, log: seq<Commit>, id: nat)
    requires PrefixTable(files, rows, log) && |log| < |files|
    ensures var f := files[|log|]; PrefixTable(files, rows[f.name := sha(f.body)], log + [Commit(id, f)])
  {
    var n := |log|;
    var rows' := rows[files[n].name := sha(files[n].body)];
    assert LoggedFiles(log + [Commit(id, files[n])]) == LoggedFiles(log) + [files[n]];
    assert files[..n + 1] == files[..n] + [files[n]];
    forall m ensures m in rows' <==> exists i :: 0 <= i < n + 1 && files[i].name == m {
      if m in rows && m != files[n].name {
        var i :| 0 <= i < n && files[i].name == m;
        assert 0 <= i < n + 1;
      }
    }
  }

  lemma PrefixCommit(sha: Sha, tree: Tree, s: State, id: nat)
    requires PrefixInv(tree, s) && CanCommit(s, id)
    ensures PrefixInv(tree, Step(sha, s, Transact(id)))
  {
    var t := Step(sha, s, Transact(id));
    CommitIsNext(sha, tree, s, id);
    StepFrame(sha, s, Transact(id));
    PrefixTableGrows(sha, Files(tree), s.rows, s.log, id);
  }

  lemma SnapshotInStep(sha: Sha, tree: Tree, s: State, r: Runner)
    requires PrefixInv(tree, s) && TableMatchesLog(sha, map[], s.rows, s.log) && r.tree == tree
    ensures InStep(Files(tree), AfterSnapshot(sha, r, s.rows), |s.log|)
  {
    SnapshotIsTail(sha, tree, s);
  }

  lemma MoveInStep(files: seq<File>, a: Action, phase: Phase, free: bool, planned: Phase, logged: nat)
    requires InStep(files, phase, logged) && InStep(files, planned, logged)
    ensures InStep(files, Move(a, phase, free, planned), logged)
  {
  }

  lemma PrefixStep(sha: Sha, tree: Tree, s: State, a: Action)
    requires PrefixInv(tree, s) && TableMatchesLog(sha, map[], s.rows, s.log)
    requires a.Spawn? ==> a.tree == tree
    ensures PrefixInv(tree, Step(sha, s, a))
  {
    if a.Transact? && CanCommit(s, a.id) {
      PrefixCommit(sha, tree, s, a.id);
    } else {
      StepFrame(sha, s, a);
      if a.id in s.runners {
        var r := s.runners[a.id];
        SnapshotInStep(sha, tree, s, r);
        MoveInStep(Files(tree), a, r.phase, s.lock == None, AfterSnapshot(sha, r, s.rows), |s.log|);
      }
    }
  }

  lemma {:induction false} PrefixRun(sha: Sha, tree: Tree, acts: seq<Action>)
    requires SameFiles(tree, acts)
    ensures PrefixInv(tree, Exec(sha, Begin(map[]), acts))
  {
    if acts != [] {
      var k := |acts| - 1;
      assert SameFiles(tree, acts[..k]) && acts[k] in acts;
      PrefixRun(sha, tree, acts[..k]);
      EveryRunKeeps(sha, map[], acts[..k]);
      PrefixStep(sha, tree, Exec(sha, Begin(map[]), acts[..k]), acts[k]);
    }
  }

  /**
   * Runners of one set of files on an empty table, in any order, with crashes
   * and lost sessions anywhere: what has committed is always a prefix of the
   * files in name order, and all of them once any runner finishes normally.
   * Of two names committed the earlier has the smaller character where they
   * first differ, or ends there.
   */
  lemma AlwaysInOrder(sha: Sha, tree: Tree, acts: seq<Action>)
    requires SameFiles(tree, acts)
    ensures var s := Exec(sha, Begin(map[]), acts);
      && LoggedFiles(s.log) <= Files(tree) && InCharacterOrder(NamesOf(LoggedFiles(s.log)))
      && ((exists id :: id in s.runners && (s.runners[id].phase == Ended(End.Applied) || s.runners[id].phase == Ended(End.UpToDate)))
            ==> LoggedFiles(s.log) == Files(tree))
  {
    var s, files := Exec(sha, Begin(map[]), acts), Files(tree);
    PrefixRun(sha, tree, acts);
    PlanInOrder(sha, tree, map[]);
    assert forall i :: 0 <= i < |s.log| ==> NamesOf(LoggedFiles(s.log))[i] == LoggedFiles(s.log)[i].name == files[i].name == NamesOf(files)[i];
    if id :| id in s.runners && (s.runners[id].phase == Ended(End.Applied) || s.runners[id].phase == Ended(End.UpToDate)) {
      FinishedRunner(sha, map[], acts, id);
      CompleteWhenRecorded(tree, s);
    }
  }

  lemma CompleteWhenRecorded(tree: Tree, s: State)
    requires PrefixInv(tree, s) && forall n :: n in tree ==> n in s.rows
    ensures LoggedFiles(s.log) == Files(tree)
  {
    var files := Files(tree);
    if |s.log| < |files| {
      assert files[|s.log|].name in s.rows;
      var i :| 0 <= i < |s.log| && files[i].name == files[|s.log|].name;
      FilesDistinct(tree, i, |s.log|);
    }
    assert files[..|files|] == files;
  }

  /* Two files and one runner. */

  function TreeOf(a: File, b: File): Tree { map[a.name := a.body, b.name := b.body] }

  lemma TwoInOrder(a: File, b: File)
    requires Precedes(a.name, b.name)
    ensures Files(TreeOf(a, b)) == [a, b]
  {
    LessIsByCharacter(a.name, b.name);
    LessTotal(a.name, b.name);
    ListingUnique([a.name, b.name], Sorted(TreeOf(a, b).Keys), TreeOf(a, b).Keys);
  }

  lemma TwoPlanned(sha: Sha, a: File, b: File)
    requires Precedes(a.name, b.name)
    ensures AfterSnapshot(sha, Runner(TreeOf(a, b), false, Starting), map[]) == Ready([a, b])
  {
    TwoInOrder(a, b);
    UnappliedTail([a, b], map[], 0);
    PlanExact(sha, [a, b], map[]);
  }

  /** The run once n of its two files have committed. */
  function TwoState(sha: Sha, a: File, b: File, n: nat, lock: Option<nat>, phase: Phase): State
    requires n <= 2
  {
    State(Recorded(sha, [a, b][..n], map[]), [Commit(0, a), Commit(0, b)][..n], lock, map[0 := Runner(TreeOf(a, b), false, phase)])
  }

  lemma TwoCommits(sha: Sha, a: File, b: File, n: nat)
    requires Precedes(a.name, b.name) && n < 2
    ensures Step(sha, TwoState(sha, a, b, n, Some(0), Applying([a, b], n)), Transact(0))
      == TwoState(sha, a, b, n + 1, Some(0), Applying([a, b], n + 1))
  {
    LessIsByCharacter(a.name, b.name);
    LessTotal(a.name, b.name);
    assert [a, b][..1] == [a] && [a, b][..2] == [a, b] && [a, b][..0] == [] && [a][..0] == [];
    assert [Commit(0, a), Commit(0, b)][..n + 1] == [Commit(0, a), Commit(0, b)][..n] + [Commit(0, [a, b][n])];
    assert Recorded(sha, [a], map[]) == map[a.name := sha(a.body)];
    assert Recorded(sha, [a, b], map[]) == Recorded(sha, [a], map[])[b.name := sha(b.body)];
  }

  lemma ExecNext(sha: Sha, s: State, before: seq<Action>, a: Action)
    ensures Exec(sha, s, before + [a]) == Step(sha, Exec(sha, s, before), a)
  {
    assert (before + [a])[..|before|] == before;
  }

  const Locking: seq<Action> := [Snapshot(0)] + [TryLock(0)]
  const Committing: seq<Action> := [Transact(0)] + [Transact(0)]
  const Closing: seq<Action> := [Close(0)] + [Close(0)]

  lemma ExecAlone(sha: Sha, s: State, a: Action)
    ensures Exec(sha, s, [a]) == Step(sha, s, a)
  {
    ExecNext(sha, s, [], a);
    assert [] + [a] == [a];
  }

  lemma ExecTwo(sha: Sha, s: State, a: Action, b: Action)
    ensures Exec(sha, s, [a] + [b]) == Step(sha, Step(sha, s, a), b)
  {
    ExecNext(sha, s, [a], b);
    ExecAlone(sha, s, a);
  }

  /** Any step of a lone runner but a commit. */
  lemma StepsAlone(sha: Sha, s: State, r: Runner, a: Action)
    requires s.runners == map[0 := r] && a.id == 0 && !a.Transact?
    ensures Step(sha, s, a) == s.(lock := LockAfter(a, r.phase, s.lock),
                                  runners := map[0 := r.(phase := Move(a, r.phase, s.lock == None, AfterSnapshot(sha, r, s.rows)))])
  {
  }

  /** A lone runner with something to apply takes the free lock. */
  lemma LocksAlone(sha: Sha, s: State, r: Runner, p: seq<File>)
    requires s.runners == map[0 := r] && s.lock == None && r.phase.Starting? && AfterSnapshot(sha, r, s.rows) == Ready(p)
    ensures Exec(sha, s, Locking) == s.(lock := Some(0), runners := map[0 := r.(phase := Applying(p, 0))])
  {
    ExecTwo(sha, s, Snapshot(0), TryLock(0));
    StepsAlone(sha, s, r, Snapshot(0));
    StepsAlone(sha, s.(runners := map[0 := r.(phase := Ready(p))]), r.(phase := Ready(p)), TryLock(0));
  }

  lemma TwoLocking(sha: Sha, a: File, b: File)
    requires Precedes(a.name, b.name)
    ensures Exec(sha, TwoState(sha, a, b, 0, None, Starting), Locking) == TwoState(sha, a, b, 0, Some(0), Applying([a, b], 0))
  {
    TwoPlanned(sha, a, b);
    assert [a, b][..0] == [];
    LocksAlone(sha, TwoState(sha, a, b, 0, None, Starting), Runner(TreeOf(a, b), false, Starting), [a, b]);
  }

  lemma TwoCommitting(sha: Sha, a: File, b: File)
    requires Precedes(a.name, b.name)
    ensures Exec(sha, TwoState(sha, a, b, 0, Some(0), Applying([a, b], 0)), Committing) == TwoState(sha, a, b, 2, Some(0), Applying([a, b], 2))
  {
    ExecTwo(sha, TwoState(sha, a, b, 0, Some(0), Applying([a, b], 0)), Transact(0), Transact(0));
    TwoCommits(sha, a, b, 0);
    TwoCommits(sha, a, b, 1);
  }

  /** A lone runner that has applied all it planned closes twice: it lets go of the lock, and ends. */
  lemma ClosesAlone(sha: Sha, s: State, r: Runner)
    requires s.runners == map[0 := r] && s.lock == Some(0) && r.phase.Applying? && r.phase.next == |r.phase.pending|
    ensures Exec(sha, s, Closing) == s.(lock := None, runners := map[0 := r.(phase := Ended(End.Applied))])
  {
    ExecTwo(sha, s, Close(0), Close(0));
    StepsAlone(sha, s, r, Close(0));
    StepsAlone(sha, s.(runners := map[0 := r.(phase := Releasing(End.Applied))]), r.(phase := Releasing(End.Applied)), Close(0));
  }

  lemma TwoClosing(sha: Sha, a: File, b: File)
    ensures Exec(sha, TwoState(sha, a, b, 2, Some(0), Applying([a, b], 2)), Closing) == TwoState(sha, a, b, 2, None, Ended(End.Applied))
  {
    ClosesAlone(sha, TwoState(sha, a, b, 2, Some(0), Applying([a, b], 2)), Runner(TreeOf(a, b), false, Applying([a, b], 2)));
  }

  lemma Spawned(sha: Sha, a: File, b: File)
    ensures Exec(sha, Begin(map[]), [Spawn(0, TreeOf(a, b), false)]) == TwoState(sha, a, b, 0, None, Starting)
  {
    ExecAlone(sha, Begin(map[]), Spawn(0, TreeOf(a, b), false));
    assert [a, b][..0] == [] && [Commit(0, a), Commit(0, b)][..0] == [];
  }

  /** Two files and one runner: the one whose name goes first commits first, and at the end the lock is free. */
  lemma TwoFilesRun(sha: Sha, a: File, b: File)
    requires Precedes(a.name, b.name)
    ensures Exec(sha, Begin(map[]), [Spawn(0, TreeOf(a, b), false)] + Locking + Committing + Closing)
      == State(map[a.name := sha(a.body)][b.name := sha(b.body)], [Commit(0, a), Commit(0, b)], None,
               map[0 := Runner(TreeOf(a, b), false, Ended(End.Applied))])
  {
    var spawn, s := [Spawn(0, TreeOf(a, b), false)], Begin(map[]);
    Spawned(sha, a, b);
    ExecSplit(sha, s, spawn, Locking);
    TwoLocking(sha, a, b);
    ExecSplit(sha, s, spawn + Locking, Committing);
    TwoCommitting(sha, a, b);
    ExecSplit(sha, s, spawn + Locking + Committing, Closing);
    TwoClosing(sha, a, b);
    TwoRecorded(sha, a, b);
  }

  lemma TwoRecorded(sha: Sha, a: File, b: File)
    ensures TwoState(sha, a, b, 2, None, Ended(End.Applied))
      == State(map[a.name := sha(a.body)][b.name := sha(b.body)], [Commit(0, a), Commit(0, b)], None,
               map[0 := Runner(TreeOf(a, b), false, Ended(End.Applied))])
  {
    assert [a, b][..2] == [a, b] && [a, b][..1] == [a] && [a][..0] == [];
    assert Recorded(sha, [a], map[]) == map[a.name := sha(a.body)];
  }

  const BOOTSTRAP := File("0000_bootstrap.sql", "create role helm")
  const TENANCY := File("0010_tenancy.sql", "create table tenant")

  /** So 0000 commits, and then 0010. */
  lemma BootstrapFirst(sha: Sha)
    ensures Exec(sha, Begin(map[]), [Spawn(0, TreeOf(BOOTSTRAP, TENANCY), false)] + Locking + Committing + Closing).log
      == [Commit(0, BOOTSTRAP), Commit(0, TENANCY)]
  {
    assert PrecedesAt(BOOTSTRAP.name, TENANCY.name, 2);
    TwoFilesRun(sha, BOOTSTRAP, TENANCY);
  }

  /* ---- What the lock adds, while no session is lost ---- */

  ghost predicate Exclusive(s: State) {
    forall id: nat :: Holding(s, id) ==> s.lock == Some(id)
  }

  lemma {:induction false} OnlyTheHolderCommits(sha: Sha, start: Rows, acts: seq<Action>)
    requires forall a :: a in acts ==> !a.LoseSession?
    ensures Exclusive(Exec(sha, Begin(start), acts))
  {
    if acts != [] {
      var k := |acts| - 1;
      assert acts[k] in acts;
      OnlyTheHolderCommits(sha, start, acts[..k]);
    }
  }

  /**
   * With the lock, a runner that has committed anything started exactly where
   * the table stood when it took the lock and nobody has committed since; so a
   * runner whose snapshot was stale by then commits nothing at all.
   */
  ghost predicate Contiguous(tree: Tree, s: State) {
    forall id :: id in s.runners && s.runners[id].phase.Applying? && s.runners[id].phase.next > 0 ==>
      |Files(tree)| - |s.runners[id].phase.pending| + s.runners[id].phase.next == |s.log|
  }

  lemma ContiguousStep(sha: Sha, tree: Tree, s: State, a: Action)
    requires PrefixInv(tree, s) && Exclusive(s) && Contiguous(tree, s)
    ensures Contiguous(tree, Step(sha, s, a))
  {
    StepFrame(sha, s, a);
    if a.Transact? && CanCommit(s, a.id) {
      CommitIsNext(sha, tree, s, a.id);
      assert Holding(s, a.id);
      forall id | id in s.runners && id != a.id ensures !s.runners[id].phase.Applying? {
        assert Holding(s, id) ==> s.lock == Some(id);
      }
    }
  }

  lemma {:induction false} LockedRunsAreContiguous(sha: Sha, tree: Tree, acts: seq<Action>)
    requires SameFiles(tree, acts) && forall a :: a in acts ==> !a.LoseSession?
    ensures Contiguous(tree, Exec(sha, Begin(map[]), acts))
  {
    if acts != [] {
      var k := |acts| - 1;
      assert SameFiles(tree, acts[..k]) && acts[k] in acts;
      LockedRunsAreContiguous(sha, tree, acts[..k]);
      PrefixRun(sha, tree, acts[..k]);
      OnlyTheHolderCommits(sha, map[], acts[..k]);
      ContiguousStep(sha, tree, Exec(sha, Begin(map[]), acts[..k]), acts[k]);
    }
  }
}
