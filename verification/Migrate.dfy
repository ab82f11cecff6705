/**
 * The migration runner (db/migrate.ts): what one runner decides from its
 * snapshot of helm_migration, and what it does to the table.
 *
 * A tree maps the names under db/sql to the text of each file. sha stands for
 * the digest of a file's text; nothing here depends on which digest it is.
 */
module Migrate {
  import opened Names

  type Tree = map<string, string>
  type Rows = map<string, string>   // helm_migration: filename to sha256
  type Sha = string -> string

  datatype File = File(name: string, body: string)

  /** What a runner concludes from one snapshot: the first changed file, or what is left to apply. */
  datatype Plan = Refused(changed: string) | ToApply(pending: seq<File>)

  /** The directory listing in name order, with each file's text. */
  ghost function Files(tree: Tree): (r: seq<File>)
    ensures |r| == |Sorted(tree.Keys)|
    ensures forall i :: 0 <= i < |r| ==> r[i].name == Sorted(tree.Keys)[i] && r[i].name in tree && r[i].body == tree[r[i].name]
  {
    FilesOf(tree, Sorted(tree.Keys))
  }

  function FilesOf(tree: Tree, names: seq<string>): (r: seq<File>)
    requires forall f :: f in names ==> f in tree
    ensures |r| == |names|
    ensures forall i :: 0 <= i < |r| ==> r[i] == File(names[i], tree[names[i]])
  {
    seq(|names|, i requires 0 <= i < |names| => File(names[i], tree[names[i]]))
  }

  /** A file that ran as something else than what the tree now holds. */
  predicate Changed(sha: Sha, f: File, applied: Rows) {
    f.name in applied && applied[f.name] != sha(f.body)
  }

  predicate Holds(sha: Sha, f: File, rows: Rows) {
    f.name in rows && rows[f.name] == sha(f.body)
  }

  /** The loop of main: a changed file throws at once; a file with no row is pending. */
  function PlanFrom(sha: Sha, files: seq<File>, applied: Rows): Plan {
    if files == [] then ToApply([])
    else
      var rest := PlanFrom(sha, files[1..], applied);
      if Changed(sha, files[0], applied) then Refused(files[0].name)
      else if files[0].name in applied then rest
      else After([files[0]], rest)
  }

  function After(done: seq<File>, rest: Plan): Plan {
    if rest.Refused? then rest else ToApply(done + rest.pending)
  }

  /** The files with no row, in the order given. */
  function Unapplied(files: seq<File>, applied: Rows): seq<File> {
    if files == [] then []
    else (if files[0].name in applied then [] else [files[0]]) + Unapplied(files[1..], applied)
  }

  /**
   * What the plan means: it is refused exactly when some file changed, naming
   * the first such file; otherwise it is exactly the files with no row, in
   * order, each with the text the tree has for it.
   */
  lemma {:induction false} PlanExact(sha: Sha, files: seq<File>, applied: Rows)
    ensures var p := PlanFrom(sha, files, applied);
      && (p.ToApply? <==> forall f :: f in files ==> !Changed(sha, f, applied))
      && (p.ToApply? ==> p.pending == Unapplied(files, applied))
      && (p.Refused? ==> exists i :: 0 <= i < |files| && files[i].name == p.changed && Changed(sha, files[i], applied)
                           && forall j :: 0 <= j < i ==> !Changed(sha, files[j], applied))
  {
    if files != [] {
      var rest := files[1..];
      PlanExact(sha, rest, applied);
      assert files == [files[0]] + rest;
      var p, q := PlanFrom(sha, files, applied), PlanFrom(sha, rest, applied);
      if Changed(sha, files[0], applied) {
        assert files[0].name == p.changed;
      } else if q.Refused? {
        var i :| 0 <= i < |rest| && rest[i].name == q.changed && Changed(sha, rest[i], applied)
          && forall j :: 0 <= j < i ==> !Changed(sha, rest[j], applied);
        assert files[i + 1].name == p.changed;
        forall j | 0 <= j < i + 1 ensures !Changed(sha, files[j], applied) {
          assert j > 0 ==> files[j] == rest[j - 1];
        }
      }
    }
  }

  function NamesOf(files: seq<File>): seq<string> {
    seq(|files|, i requires 0 <= i < |files| => files[i].name)
  }

  ghost predicate AscendingFiles(files: seq<File>) {
    forall i, j :: 0 <= i < j < |files| ==> Less(files[i].name, files[j].name)
  }

  lemma {:induction false} UnappliedMembers(files: seq<File>, applied: Rows)
    ensures forall f :: f in Unapplied(files, applied) <==> f in files && f.name !in applied
    ensures AscendingFiles(files) ==> AscendingFiles(Unapplied(files, applied))
  {
    if files != [] {
      UnappliedMembers(files[1..], applied);
      assert files == [files[0]] + files[1..];
      if AscendingFiles(files) {
        var rest := Unapplied(files[1..], applied);
        forall j | 0 <= j < |rest| ensures Less(files[0].name, rest[j].name) {
          assert rest[j] in files[1..];
        }
      }
    }
  }

  lemma AscendingNames(files: seq<File>)
    requires AscendingFiles(files)
    ensures InCharacterOrder(NamesOf(files))
  {
    AscendingByCharacter(NamesOf(files));
  }

  /** A directory's files, and those of them a plan leaves to apply, go by the first character in which their names differ. */
  lemma PlanInOrder(sha: Sha, tree: Tree, applied: Rows)
    ensures InCharacterOrder(NamesOf(Files(tree))) && InCharacterOrder(NamesOf(PendingOf(PlanFrom(sha, Files(tree), applied))))
  {
    var files := Files(tree);
    PlanExact(sha, files, applied);
    UnappliedMembers(files, applied);
    AscendingNames(files);
    AscendingNames(PendingOf(PlanFrom(sha, files, applied)));
  }

  /** Pending files have no row in the snapshot, and no two share a name. */
  lemma PendingNames(sha: Sha, tree: Tree, applied: Rows)
    requires PlanFrom(sha, Files(tree), applied).ToApply?
    ensures var p := PlanFrom(sha, Files(tree), applied).pending;
      && (forall i :: 0 <= i < |p| ==> p[i].name !in applied && p[i].name in tree && p[i].body == tree[p[i].name])
      && (forall i, j :: 0 <= i < j < |p| ==> p[i].name != p[j].name)
      && (forall f :: f in Files(tree) ==> Holds(sha, f, applied) || f in p)
  {
    var files := Files(tree);
    PlanExact(sha, files, applied);
    UnappliedMembers(files, applied);
    var p := PlanFrom(sha, files, applied).pending;
    forall i, j | 0 <= i < j < |p| ensures p[i].name != p[j].name { LessTotal(p[i].name, p[j].name); }
    forall i | 0 <= i < |p| ensures p[i].name !in applied && p[i].name in tree && p[i].body == tree[p[i].name] {
      assert p[i] in files;
    }
  }

  lemma PlanUnfold(sha: Sha, files: seq<File>, i: nat, applied: Rows)
    requires i < |files|
    ensures var rest := PlanFrom(sha, files[i + 1..], applied);
      PlanFrom(sha, files[i..], applied) ==
        if Changed(sha, files[i], applied) then Refused(files[i].name)
        else if files[i].name in applied then rest
        else After([files[i]], rest)
  {
    assert files[i..][1..] == files[i + 1..];
  }

  lemma AfterTwice(done: seq<File>, f: File, rest: Plan)
    ensures After(done, After([f], rest)) == After(done + [f], rest)
  {
    if rest.ToApply? { assert done + ([f] + rest.pending) == (done + [f]) + rest.pending; }
  }

  method ComputePending(sha: Sha, tree: Tree, listing: seq<string>, applied: Rows) returns (plan: Plan)
    requires Lists(listing, tree.Keys)
    ensures plan == PlanFrom(sha, Files(tree), applied)
    ensures InCharacterOrder(NamesOf(PendingOf(plan)))
  {
    PlanInOrder(sha, tree, applied);
    ListingUnique(listing, Sorted(tree.Keys), tree.Keys);
    ghost var files := Files(tree);
    ghost var goal := PlanFrom(sha, files, applied);
    var pending: seq<File> := [];
    assert files[0..] == files;
    for i := 0 to |listing|
      invariant goal == After(pending, PlanFrom(sha, files[i..], applied))
    {
      var filename := listing[i];
      var body := tree[filename];
      assert files[i] == File(filename, body);
      PlanUnfold(sha, files, i, applied);
      if filename !in applied {
        AfterTwice(pending, files[i], PlanFrom(sha, files[i + 1..], applied));
        pending := pending + [File(filename, body)];
      } else if applied[filename] != sha(body) {
        return Refused(filename);
      }
    }
    plan := ToApply(pending);
  }

  /* One runner with the database to itself. */

  datatype Outcome = UpToDate | StatusOnly(names: seq<string>) | Edited(name: string) | LockBusy | Applied | Failed

  /** The table once files, in this order, have committed. */
  function Recorded(sha: Sha, files: seq<File>, rows: Rows): Rows {
    if files == [] then rows
    else
      var last := files[|files| - 1];
      Recorded(sha, files[..|files| - 1], rows)[last.name := sha(last.body)]
  }

  predicate Named(files: seq<File>, n: string) {
    exists i :: 0 <= i < |files| && files[i].name == n
  }

  lemma {:induction false} RecordedRows(sha: Sha, files: seq<File>, rows: Rows)
    requires forall i, j :: 0 <= i < j < |files| ==> files[i].name != files[j].name
    ensures var r := Recorded(sha, files, rows);
      && (forall i :: 0 <= i < |files| ==> Holds(sha, files[i], r))
      && (forall n :: n in rows ==> n in r && (!Named(files, n) ==> r[n] == rows[n]))
  {
    if files != [] {
      var k := |files| - 1;
      RecordedRows(sha, files[..k], rows);
      forall n | Named(files[..k], n) ensures Named(files, n) {
        var i :| 0 <= i < k && files[..k][i].name == n;
        assert files[i].name == n;
      }
    }
  }

  class Database {
    var rows: Rows
    var lockedBy: Option<nat>

    constructor ()
      ensures rows == map[] && lockedBy == None
    {
      rows, lockedBy := map[], None;
    }

    /** One file in one transaction: the body and its row commit together or not at all. */
    method Transact(sha: Sha, f: File, runs: string -> bool) returns (ok: bool)
      modifies this`rows
      ensures ok == (runs(f.body) && f.name !in old(rows))
      ensures rows == if ok then old(rows)[f.name := sha(f.body)] else old(rows)
    {
      ok := runs(f.body) && f.name !in rows;
      if ok { rows := rows[f.name := sha(f.body)]; }
    }

    /** Commits files in order until one fails; n of them did. */
    method ApplyAll(sha: Sha, files: seq<File>, runs: string -> bool) returns (n: nat)
      modifies this`rows
      ensures n <= |files| && rows == Recorded(sha, files[..n], old(rows))
      ensures forall i :: 0 <= i < n ==> runs(files[i].body)
      ensures n < |files| ==> !runs(files[n].body) || files[n].name in rows
    {
      n := 0;
      while n < |files|
        invariant n <= |files| && rows == Recorded(sha, files[..n], old(rows))
        invariant forall i :: 0 <= i < n ==> runs(files[i].body)
      {
        assert files[..n + 1][..n] == files[..n];
        var ok := Transact(sha, files[n], runs);
        if !ok { return; }
        n := n + 1;
      }
    }

    /**
     * One whole run. Only a prefix of the plan's rows is ever added, stopping
     * at the first body that fails; a run that says it is done leaves every
     * file of the tree recorded; the lock is left as it was found.
     */
    method Run(sha: Sha, id: nat, tree: Tree, listing: seq<string>, statusOnly: bool, runs: string -> bool)
      returns (outcome: Outcome, ghost n: nat)
      requires Lists(listing, tree.Keys)
      modifies this
      ensures lockedBy == old(lockedBy)
      ensures var plan := PlanFrom(sha, Files(tree), old(rows));
        && n <= |PendingOf(plan)|
        && rows == Recorded(sha, PendingOf(plan)[..n], old(rows))
        && Explains(outcome, plan, n, statusOnly, old(lockedBy).Some?)
        && (outcome.Failed? ==> !runs(plan.pending[n].body))
      ensures InCharacterOrder(NamesOf(PendingOf(PlanFrom(sha, Files(tree), old(rows)))))
      ensures outcome.UpToDate? || outcome.Applied? ==> AllHeld(sha, Files(tree), rows)
      ensures KeepsRows(old(rows), rows)
    {
      n := 0;
      var plan := ComputePending(sha, tree, listing, rows);
      if plan.Refused? { return Edited(plan.changed), 0; }
      PendingNames(sha, tree, rows);
      var pending := plan.pending;
      RunKeeps(sha, tree, rows, 0);
      if pending == [] { return UpToDate, 0; }
      if statusOnly { return StatusOnly(NamesOf(pending)), 0; }
      if lockedBy != None { return LockBusy, 0; }
      lockedBy := Some(id);
      var done := ApplyAll(sha, pending, runs);
      n := done;
      RunKeeps(sha, tree, old(rows), done);
      lockedBy := None;
      outcome := if done == |pending| then Applied else Failed;
    }
  }

  function PendingOf(plan: Plan): seq<File> {
    if plan.Refused? then [] else plan.pending
  }

  /** Which outcome a run may report, given its plan and how many files it committed. */
  predicate Explains(outcome: Outcome, plan: Plan, n: nat, statusOnly: bool, busy: bool) {
    match outcome
    case Edited(name) => plan == Refused(name) && n == 0
    case UpToDate => plan == ToApply([])
    case StatusOnly(names) => statusOnly && n == 0 && PendingOf(plan) != [] && names == NamesOf(PendingOf(plan))
    case LockBusy => busy && !statusOnly && n == 0 && PendingOf(plan) != []
    case Applied => !busy && !statusOnly && n == |PendingOf(plan)| > 0
    case Failed => !busy && !statusOnly && n < |PendingOf(plan)|
  }

  ghost predicate AllHeld(sha: Sha, files: seq<File>, rows: Rows) {
    forall f :: f in files ==> Holds(sha, f, rows)
  }

  ghost predicate KeepsRows(before: Rows, after: Rows) {
    forall name :: name in before ==> name in after && after[name] == before[name]
  }

  lemma PrefixRecorded(sha: Sha, p: seq<File>, rows: Rows, n: nat)
    requires forall i, j :: 0 <= i < j < |p| ==> p[i].name != p[j].name
    requires forall i :: 0 <= i < |p| ==> p[i].name !in rows
    requires n <= |p|
    ensures var after := Recorded(sha, p[..n], rows);
      && KeepsRows(rows, after)
      && (forall i :: 0 <= i < n ==> Holds(sha, p[i], after))
      && (n < |p| ==> p[n].name !in after)
  {
    RecordedRows(sha, p[..n], rows);
    RecordedKeys(sha, p[..n], rows);
    var after := Recorded(sha, p[..n], rows);
    forall i | 0 <= i < n ensures Holds(sha, p[i], after) {
      assert p[..n][i] == p[i];
    }
  }

  /** Committing a prefix of the plan alters no row; committing all of it records every file. */
  lemma RunKeeps(sha: Sha, tree: Tree, rows: Rows, n: nat)
    requires var plan := PlanFrom(sha, Files(tree), rows); plan.ToApply? && n <= |plan.pending|
    ensures var p := PlanFrom(sha, Files(tree), rows).pending;
      && KeepsRows(rows, Recorded(sha, p[..n], rows))
      && (n == |p| ==> AllHeld(sha, Files(tree), Recorded(sha, p[..n], rows)))
      && (n < |p| ==> p[n].name !in Recorded(sha, p[..n], rows))
  {
    var p := PlanFrom(sha, Files(tree), rows).pending;
    PendingNames(sha, tree, rows);
    PrefixRecorded(sha, p, rows, n);
    forall f | f in Files(tree) && n == |p| ensures Holds(sha, f, Recorded(sha, p[..n], rows)) {
      assert Holds(sha, f, rows) || f in p;
    }
  }

  lemma {:induction false} RecordedKeys(sha: Sha, files: seq<File>, rows: Rows)
    ensures forall n :: n in Recorded(sha, files, rows) ==> n in rows || Named(files, n)
  {
    if files != [] {
      var k := |files| - 1;
      RecordedKeys(sha, files[..k], rows);
      forall n | Named(files[..k], n) ensures Named(files, n) {
        var i :| 0 <= i < k && files[..k][i].name == n;
        assert files[i].name == n;
      }
      assert Named(files, files[k].name);
    }
  }
}
