/**
 * The migration guard (scripts/check-migrations.ts): the manifest check, the
 * update and its --force, and the modes that compare the tree with a git ref
 * or with an environment's own rows. An exit status of 0 passes, 1 refuses.
 */
module CheckMigrations {
  import opened Names
  import opened Manifest
  import Migrate

  /** The tree as the guard sees it: each file's digest. */
  function HashTree(sha: Migrate.Sha, tree: Migrate.Tree): Hashes {
    map n | n in tree :: sha(tree[n])
  }

  method Migrations(sha: Migrate.Sha, tree: Migrate.Tree, listing: seq<string>) returns (out: Hashes)
    requires Lists(listing, tree.Keys)
    ensures out == HashTree(sha, tree)
  {
    out := map[];
    for i := 0 to |listing|
      invariant forall n :: n in out <==> n in listing[..i]
      invariant forall n :: n in out ==> n in tree && out[n] == sha(tree[n])
    {
      assert listing[..i + 1] == listing[..i] + [listing[i]];
      out := out[listing[i] := sha(tree[listing[i]])];
    }
    assert listing[..|listing|] == listing;
  }

  /* ---- Where tree, manifest and HEAD differ ---- */

  function ChangedIn(files: Hashes, manifest: Hashes): set<string> {
    set n | n in files && n in manifest && manifest[n] != files[n]
  }

  /** Names at HEAD that the tree has lost; with no git, nothing can be said to be lost. */
  function Missing(files: Hashes, head: Option<seq<string>>): set<string> {
    if head.None? then {} else set n | n in head.value && n !in files
  }

  /** Every file at HEAD is still in the tree. */
  ghost predicate NothingLost(files: Hashes, head: Option<seq<string>>) {
    head.Some? ==> forall n <- head.value :: n in files
  }

  /** No file differs from what the manifest has for it. */
  ghost predicate Unaltered(files: Hashes, manifest: Hashes) {
    forall n :: n in files && n in manifest ==> files[n] == manifest[n]
  }

  lemma NothingMissing(files: Hashes, head: Option<seq<string>>)
    ensures Missing(files, head) == {} <==> NothingLost(files, head)
  {
    if head.Some? {
      forall n | n in head.value ensures n in Missing(files, head) <==> n !in files {}
    }
  }

  lemma NothingChanged(files: Hashes, manifest: Hashes)
    ensures ChangedIn(files, manifest) == {} <==> Unaltered(files, manifest)
  {
    forall n ensures n in ChangedIn(files, manifest) <==> n in files && n in manifest && files[n] != manifest[n] {}
  }

  /** The Map's keys, in some order. */
  method KeysOf(m: Hashes) returns (keys: seq<string>)
    ensures forall i, j :: 0 <= i < j < |keys| ==> keys[i] != keys[j]
    ensures (set k | k in keys) == m.Keys
  {
    keys := [];
    var rest := m.Keys;
    while rest != {}
      invariant rest <= m.Keys && (forall k :: k in keys <==> k in m.Keys && k !in rest)
      invariant forall i, j :: 0 <= i < j < |keys| ==> keys[i] != keys[j]
      decreases rest
    {
      var k :| k in rest;
      assert forall i :: 0 <= i < |keys| ==> keys[i] in keys && keys[i] != k;
      keys, rest := keys + [k], rest - {k};
    }
  }

  method Compare(files: Hashes, manifest: Hashes) returns (changed: set<string>, added: set<string>, removed: set<string>)
    ensures changed == ChangedIn(files, manifest)
    ensures added == files.Keys - manifest.Keys && removed == manifest.Keys - files.Keys
  {
    changed, added, removed := {}, {}, {};
    var names := KeysOf(files);
    for i := 0 to |names|
      invariant added == set n | n in names[..i] && n !in manifest
      invariant changed == set n | n in names[..i] && n in files && n in manifest && manifest[n] != files[n]
    {
      var name := names[i];
      assert names[..i + 1] == names[..i] + [name];
      assert name in files.Keys;
      if name !in manifest { added := added + {name}; }
      else if manifest[name] != files[name] { changed := changed + {name}; }
    }
    assert names[..|names|] == names;
    assert added == files.Keys - manifest.Keys;
    assert changed == ChangedIn(files, manifest);
    names := KeysOf(manifest);
    for i := 0 to |names|
      invariant removed == set n | n in names[..i] && n !in files
    {
      assert names[..i + 1] == names[..i] + [names[i]];
      if names[i] !in files { removed := removed + {names[i]}; }
    }
    assert names[..|names|] == names;
    assert removed == manifest.Keys - files.Keys;
  }

  method Record(next: Hashes, names: set<string>, files: Hashes) returns (r: Hashes)
    requires names <= files.Keys
    ensures r == next + map n | n in names :: files[n]
  {
    r := next;
    var rest := names;
    while rest != {}
      invariant rest <= names && r == next + map n | n in names - rest :: files[n]
      decreases rest
    {
      var n :| n in rest;
      r, rest := r[n := files[n]], rest - {n};
    }
    assert names - rest == names;
  }

  method Forget(next: Hashes, names: set<string>) returns (r: Hashes)
    ensures r == next - names
  {
    r := next;
    var rest := names;
    while rest != {}
      invariant rest <= names && r == next - (names - rest)
      decreases rest
    {
      var n :| n in rest;
      r, rest := r - {n}, rest - {n};
    }
    assert names - rest == names;
  }

  /** May --update write: the manifest parses, and without --force nothing was changed or lost. */
  ghost predicate MayUpdate(files: Hashes, manifest: Option<string>, head: Option<seq<string>>, force: bool) {
    var parsed := ParseManifest(manifest);
    parsed.Ok? && (force || (Unaltered(files, parsed.value) && NothingLost(files, head)))
  }

  /** What the bare check accepts: the manifest says exactly what the tree holds, and HEAD has lost nothing. */
  ghost predicate Clean(files: Hashes, manifest: Option<string>, head: Option<seq<string>>) {
    ParseManifest(manifest) == Ok(files) && NothingLost(files, head)
  }

  lemma NothingDiffers(files: Hashes, manifest: Hashes)
    ensures ChangedIn(files, manifest) == {} && files.Keys - manifest.Keys == {} && manifest.Keys - files.Keys == {}
       <==> manifest == files
  {
    if ChangedIn(files, manifest) == {} && files.Keys - manifest.Keys == {} && manifest.Keys - files.Keys == {} {
      forall n ensures n in files <==> n in manifest {
        assert n in files.Keys - manifest.Keys <==> n in files && n !in manifest;
        assert n in manifest.Keys - files.Keys <==> n in manifest && n !in files;
      }
      forall n | n in files ensures manifest[n] == files[n] {
        assert n in ChangedIn(files, manifest) <==> manifest[n] != files[n];
      }
    }
  }

  /** The steps of an update, whatever the manifest said before, end at the tree itself. */
  lemma Reconciled(files: Hashes, manifest: Hashes)
    ensures var added := files.Keys - manifest.Keys;
      var next := manifest + map n | n in added :: files[n];
      var recorded := next + map n | n in ChangedIn(files, manifest) :: files[n];
      && recorded - (manifest.Keys - files.Keys) == files
      && (ChangedIn(files, manifest) == {} ==> next - (manifest.Keys - files.Keys) == files)
  {
    var added := files.Keys - manifest.Keys;
    var next := manifest + map n | n in added :: files[n];
    var recorded := next + map n | n in ChangedIn(files, manifest) :: files[n];
    var r := recorded - (manifest.Keys - files.Keys);
    forall n | n in files ensures n in r && r[n] == files[n] {
      if n in manifest && manifest[n] != files[n] { assert n in ChangedIn(files, manifest); }
    }
    assert r == files;
    if ChangedIn(files, manifest) == {} { assert recorded == next; }
  }

  class Checkout {
    const header: seq<string>
    var files: Hashes
    var manifest: Option<string>
    var head: Option<seq<string>>

    constructor (header: seq<string>, files: Hashes, manifest: Option<string>, head: Option<seq<string>>)
      ensures this.header == header && this.files == files && this.manifest == manifest && this.head == head
    {
      this.header, this.files, this.manifest, this.head := header, files, manifest, head;
    }

    /** --update: it writes exactly when it may, and what it then writes is the tree, whatever was there before. */
    method Update(force: bool) returns (code: int)
      modifies this`manifest
      ensures code == if MayUpdate(files, old(manifest), head, force) then 0 else 1
      ensures manifest == if code == 0 then Some(ManifestText(header, files)) else old(manifest)
    {
      var parsed := ReadManifest(manifest);
      if parsed.Error? { return 1; }
      var changed, added, removed := Compare(files, parsed.value);
      Reconciled(files, parsed.value);
      NothingChanged(files, parsed.value);
      NothingMissing(files, head);
      var next := Record(parsed.value, added, files);
      if Missing(files, head) != {} && !force { return 1; }
      if changed != {} {
        if !force { return 1; }
        next := Record(next, changed, files);
      }
      next := Forget(next, removed);
      assert next == files;
      var keys := KeysOf(next);
      var text := WriteManifest(header, next, keys);
      manifest := Some(text);
      code := 0;
    }

    /** The bare check. */
    method Check() returns (code: int)
      ensures code == if Clean(files, manifest, head) then 0 else 1
    {
      var parsed := ReadManifest(manifest);
      if parsed.Error? { return 1; }
      var changed, added, removed := Compare(files, parsed.value);
      NothingDiffers(files, parsed.value);
      NothingMissing(files, head);
      code := if changed == {} && removed == {} && added == {} && Missing(files, head) == {} then 0 else 1;
    }
  }

  /* ---- What update and check promise each other ---- */

  ghost predicate Printable(files: Hashes) {
    forall n :: n in files ==> Representable(n)
  }

  ghost predicate Digests(files: Hashes) {
    forall n :: n in files ==> IsHash(files[n])
  }

  /**
   * After an --update that succeeded, the check passes on the same tree and
   * HEAD exactly when every file name can be carried by the manifest and, if
   * it was forced past a deletion, nothing at HEAD is missing.
   */
  lemma UpdateThenCheck(header: seq<string>, files: Hashes, before: Option<string>, head: Option<seq<string>>, force: bool)
    requires Comments(header) && Digests(files) && MayUpdate(files, before, head, force)
    ensures var after := Some(ManifestText(header, files));
      Clean(files, after, head) <==> Printable(files) && (force ==> NothingLost(files, head))
  {
    ManifestRoundTrip(header, files);
  }

  /** Without --force the manifest written has every hash that was recorded before for a file still there, and every file at HEAD. */
  lemma UnforcedUpdateAltersNothing(header: seq<string>, files: Hashes, before: Option<string>, head: Option<seq<string>>)
    requires Comments(header) && Digests(files) && Printable(files) && MayUpdate(files, before, head, false)
    ensures var m, after := ParseManifest(before).value, ParseManifest(Some(ManifestText(header, files)));
      && after.Ok?
      && (forall n :: n in m && n in files ==> n in after.value && after.value[n] == m[n])
      && (head.Some? ==> forall n <- head.value :: n in after.value)
  {
    ManifestRoundTrip(header, files);
  }

  /** A manifest just written is accepted by a second, unforced --update, which writes the same bytes. */
  lemma SecondUpdate(header: seq<string>, files: Hashes, head: Option<seq<string>>)
    requires Comments(header) && Digests(files) && Printable(files)
    ensures MayUpdate(files, Some(ManifestText(header, files)), head, false) <==> NothingLost(files, head)
  {
    ManifestRoundTrip(header, files);
  }

  /* ---- --expect: an environment's own rows ---- */

  ghost predicate Matches(files: Hashes, applied: Hashes) {
    forall n :: n in applied ==> n in files && files[n] == applied[n]
  }

  ghost predicate ExpectPasses(files: Hashes, text: string) {
    var applied := ParseRows(text);
    applied != map[] && Matches(files, applied)
  }

  method Expect(files: Hashes, text: string) returns (code: int)
    ensures code == if ExpectPasses(files, text) then 0 else 1
  {
    var applied := ReadRows(text);
    if applied == map[] { return 1; }
    var drifted, missing := Differences(files, applied);
    code := if drifted != [] || missing != [] then 1 else 0;
  }

  method Differences(files: Hashes, applied: Hashes) returns (drifted: seq<string>, missing: seq<string>)
    ensures drifted == [] && missing == [] <==> Matches(files, applied)
  {
    drifted, missing := [], [];
    var names := KeysOf(applied);
    forall k | 0 <= k < |names| ensures names[k] in applied.Keys { assert names[k] in names; }
    for i := 0 to |names|
      invariant forall k :: 0 <= k < |names| ==> names[k] in applied.Keys
      invariant drifted == [] && missing == [] <==>
        forall k :: 0 <= k < i ==> names[k] in files && files[names[k]] == applied[names[k]]
    {
      var name := names[i];
      if name !in files { missing := missing + [name]; }
      else if files[name] != applied[name] { drifted := drifted + [name]; }
    }
    ListedAll(files, applied, names);
  }

  lemma ListedAll(files: Hashes, applied: Hashes, names: seq<string>)
    requires (set k | k in names) == applied.Keys
    ensures (forall k :: 0 <= k < |names| ==> names[k] in applied.Keys && names[k] in files && files[names[k]] == applied[names[k]])
       <==> Matches(files, applied)
  {
    forall k | 0 <= k < |names| ensures names[k] in applied.Keys { assert names[k] in names; }
    forall n | n in applied ensures exists k :: 0 <= k < |names| && names[k] == n {
      assert n in applied.Keys;
    }
  }

  lemma RowsNeverBad(raw: string)
    ensures !RowLine(raw).Bad?
  {
  }

  lemma {:induction false} RowsAlwaysRead(lines: seq<string>, out: Hashes)
    ensures ReadFrom(RowLine, lines, out).Ok?
  {
    if lines != [] {
      RowsNeverBad(lines[0]);
      RowsAlwaysRead(lines[1..], if RowLine(lines[0]).Entry? then out[RowLine(lines[0]).name := RowLine(lines[0]).hash] else out);
    }
  }

  method ReadRows(text: string) returns (applied: Hashes)
    ensures applied == ParseRows(text)
  {
    applied := map[];
    var lines := SplitLines(text);
    RowsAlwaysRead(lines, map[]);
    for i := 0 to |lines|
      invariant ReadFrom(RowLine, lines, map[]) == ReadFrom(RowLine, lines[i..], applied)
    {
      assert lines[i..][1..] == lines[i + 1..];
      RowsNeverBad(lines[i]);
      var line := RowLine(lines[i]);
      if line.Entry? { applied := applied[line.name := line.hash]; }
    }
  }

  /**
   * --expect answers for a table, on every tree, whether the tree holds every
   * applied file with the recorded digest, exactly when the table has rows and
   * every name in it is plain. A row with any other name is passed over.
   */
  lemma ExpectFaithful(rows: Hashes, order: seq<string>)
    requires Digests(rows) && forall n :: n in order <==> n in rows
    ensures (forall files :: ExpectPasses(files, Dump(rows, order)) <==> Matches(files, rows))
       <==> (rows != map[] && forall n :: n in rows ==> Plain(n))
  {
    var text := Dump(rows, order);
    if forall n :: n in rows ==> Plain(n) {
      RowsReadBack(rows, order);
      if rows == map[] {
        assert Matches(map[], rows) && !ExpectPasses(map[], text);
      }
    } else {
      RowsArePlain(text);
      var read := ParseRows(text);
      if read == map[] {
        assert Matches(rows, rows) && !ExpectPasses(rows, text);
      } else {
        assert Matches(read, read) && ExpectPasses(read, text) && !Matches(read, rows);
      }
    }
  }

  /** A row whose name has a space in it is not seen: the guard passes a tree that has lost that file. */
  lemma ExpectOverlooks(hash: string)
    requires IsHash(hash)
    ensures RowLine("a b.sql" + " " + hash) == Skip
  {
    var name := "a b.sql";
    var line := name + " " + hash;
    assert Hex(hash[63]) && line[|line| - 1] == hash[63];
    TrimmedAlready(line);
    assert line[|line| - 64..] == hash;
    assert line[..|line| - 64] == name + " ";
    assert (name + " ")[..7] == name;
    assert TrimEnd(name) == name;
    assert TrimEnd(name + " ") == name;
    assert name[1] == ' ' && !NameChar(name[1]);
  }

  /**
   * What a pass says about the next deploy: the runner does not refuse this
   * tree, and what it will apply is the tree less the applied names, in order.
   * The guard asks for one thing more than the runner, that nothing applied is gone.
   */
  lemma ExpectPredictsRunner(sha: Migrate.Sha, tree: Migrate.Tree, rows: Hashes, order: seq<string>)
    requires Digests(rows) && rows != map[] && (forall n :: n in rows ==> Plain(n)) && forall n :: n in order <==> n in rows
    ensures var plan := Migrate.PlanFrom(sha, Migrate.Files(tree), rows);
      && (ExpectPasses(HashTree(sha, tree), Dump(rows, order)) <==> plan.ToApply? && rows.Keys <= tree.Keys)
      && (plan.ToApply? ==> Migrate.NamesOf(plan.pending) == Sorted(tree.Keys - rows.Keys))
  {
    RowsReadBack(rows, order);
    var files := Migrate.Files(tree);
    Migrate.PlanExact(sha, files, rows);
    forall n | n in tree ensures Migrate.File(n, tree[n]) in files {
      FileListed(tree, n);
    }
    assert Matches(HashTree(sha, tree), rows)
      <==> (forall f :: f in files ==> !Migrate.Changed(sha, f, rows)) && rows.Keys <= tree.Keys by {
      MatchesMeansUnchanged(sha, tree, rows);
    }
    PendingIsTheRest(sha, tree, rows);
  }

  lemma FileListed(tree: Migrate.Tree, n: string)
    requires n in tree
    ensures Migrate.File(n, tree[n]) in Migrate.Files(tree)
  {
    var names := Sorted(tree.Keys);
    assert n in names;
    var i :| 0 <= i < |names| && names[i] == n;
    assert Migrate.Files(tree)[i] == Migrate.File(n, tree[n]);
  }

  lemma MatchesMeansUnchanged(sha: Migrate.Sha, tree: Migrate.Tree, rows: Hashes)
    ensures Matches(HashTree(sha, tree), rows)
       <==> (forall f :: f in Migrate.Files(tree) ==> !Migrate.Changed(sha, f, rows)) && rows.Keys <= tree.Keys
  {
    var files, hashes := Migrate.Files(tree), HashTree(sha, tree);
    if Matches(hashes, rows) {
      forall f | f in files ensures !Migrate.Changed(sha, f, rows) {
        if f.name in rows { assert hashes[f.name] == rows[f.name]; }
      }
    } else if (forall f :: f in files ==> !Migrate.Changed(sha, f, rows)) && rows.Keys <= tree.Keys {
      forall n | n in rows ensures n in hashes && hashes[n] == rows[n] {
        assert n in rows.Keys;
        FileListed(tree, n);
      }
    }
  }

  lemma RestIsPending(tree: Migrate.Tree, rows: Hashes, p: seq<Migrate.File>)
    requires forall f :: f in p <==> f in Migrate.Files(tree) && f.name !in rows
    ensures forall n :: n in Migrate.NamesOf(p) <==> n in tree.Keys - rows.Keys
  {
    var names := Migrate.NamesOf(p);
    forall n | n in names ensures n in tree.Keys - rows.Keys {
      var i :| 0 <= i < |p| && names[i] == n;
      assert p[i] in p;
    }
    forall n | n in tree.Keys - rows.Keys ensures n in names {
      FileListed(tree, n);
      assert Migrate.File(n, tree[n]) in p;
      var i :| 0 <= i < |p| && p[i] == Migrate.File(n, tree[n]);
      assert names[i] == n;
    }
  }

  lemma PendingIsTheRest(sha: Migrate.Sha, tree: Migrate.Tree, rows: Hashes)
    ensures var plan := Migrate.PlanFrom(sha, Migrate.Files(tree), rows);
      plan.ToApply? ==> Migrate.NamesOf(plan.pending) == Sorted(tree.Keys - rows.Keys)
  {
    var files := Migrate.Files(tree);
    var plan := Migrate.PlanFrom(sha, files, rows);
    if plan.ToApply? {
      Migrate.PlanExact(sha, files, rows);
      Migrate.UnappliedMembers(files, rows);
      assert Migrate.AscendingFiles(files);
      RestIsPending(tree, rows, plan.pending);
      ListingUnique(Migrate.NamesOf(plan.pending), Sorted(tree.Keys - rows.Keys), tree.Keys - rows.Keys);
    }
  }

  /* ---- --against and --deleted-since ---- */

  /** The ref's own listing drives the comparison; content is what git shows for each of its files. */
  method Against(files: Hashes, atRef: seq<string>, content: Hashes) returns (code: int)
    requires forall n :: n in atRef ==> n in content
    ensures code == if atRef != [] && (forall n :: n in atRef ==> n in files && files[n] == content[n]) then 0 else 1
  {
    if atRef == [] { return 1; }
    var drifted, deleted := [], [];
    for i := 0 to |atRef|
      invariant drifted == [] && deleted == [] <==>
        forall k :: 0 <= k < i ==> atRef[k] in files && files[atRef[k]] == content[atRef[k]]
    {
      var name := atRef[i];
      if name !in files {
        deleted := deleted + [name];
      } else if content[name] != files[name] {
        drifted := drifted + [name];
      }
    }
    code := if drifted != [] || deleted != [] then 1 else 0;
  }

  method DeletedSince(files: Hashes, atRef: seq<string>) returns (code: int)
    ensures code == if atRef != [] && (forall n <- atRef :: n in files) then 0 else 1
  {
    NothingMissing(files, Some(atRef));
    code := if atRef == [] || Missing(files, Some(atRef)) != {} then 1 else 0;
  }
}
