/** The compiler's output transaction: named outputs are staged, then backed up, published
    and, on any failure before the last publish, rolled back. Every file operation may fail. */
module OutputTransaction {
  import opened Wrappers

  type Path = string

  /** What a path can name; `Other` is anything that is not a regular file. */
  datatype File = Regular(bytes: seq<int>) | Other

  type Files = map<Path, File>

  function At(fs: Files, p: Path): Option<File> {
    if p in fs then Some(fs[p]) else None
  }

  const OUTPUT_LIMIT := 32

  /** What asking about a path can answer. */
  datatype Asked = NotFound | Unknown | Found(file: File)

  /** One output of the transaction. */
  datatype Item = Item(
    final: Path, staging: Option<Path>, backup: Option<Path>,
    backupReserved: bool, hadOriginal: bool, originalMoved: bool, published: bool)

  // ---- what the flags of an item say about the file system ---------------------------------

  /** All paths of the transaction are different: finals by the duplicate check of add,
      temporaries because each is a new unique name. `spare` are the names that the
      backups take when they are reserved. */
  ghost predicate Distinct(items: seq<Item>, spare: seq<Path>) {
    && |spare| == |items|
    && (forall i, j :: 0 <= i < j < |items| ==>
          items[i].final != items[j].final && spare[i] != spare[j] &&
          (items[i].staging.Some? && items[j].staging.Some? ==>
             items[i].staging.value != items[j].staging.value))
    && (forall i, j :: 0 <= i < |items| && 0 <= j < |items| ==>
          items[i].final != spare[j] &&
          (items[j].staging.Some? ==> items[j].staging.value != items[i].final && items[j].staging.value != spare[i]))
    && (forall i :: 0 <= i < |items| && items[i].backup.Some? ==> items[i].backup.value == spare[i])
  }

  /** What adding keeps: outputs have different paths, staging files different names, and no
      output path is the name of a staging file. */
  ghost predicate Apart(items: seq<Item>) {
    && (forall i, j :: 0 <= i < j < |items| ==> items[i].final != items[j].final)
    && (forall i, j :: 0 <= i < j < |items| && items[i].staging.Some? ==> items[i].staging != items[j].staging)
    && (forall i, j :: 0 <= i < |items| && 0 <= j < |items| ==> items[i].staging != Some(items[j].final))
  }

  /** Every staging file exists. */
  ghost predicate StagingExists(fs: Files, items: seq<Item>) {
    forall i :: 0 <= i < |items| && items[i].staging.Some? ==> items[i].staging.value in fs
  }

  /** Neither the new path nor the new name clashes with a name or a path in use. */
  ghost predicate NoClash(items: seq<Item>, final: Path, name: Path) {
    name != final && forall i :: 0 <= i < |items| ==> items[i].final != name && items[i].staging != Some(final)
  }

  /** Names for the backups: unused, different, and not an output path; a staging file that
      has disappeared does not lend its name either. */
  ghost predicate Spares(fs: Files, items: seq<Item>, spare: seq<Path>) {
    && |spare| == |items|
    && (forall i :: 0 <= i < |spare| ==> spare[i] !in fs)
    && (forall i, j :: 0 <= i < j < |spare| ==> spare[i] != spare[j])
    && (forall i, j :: 0 <= i < |items| && 0 <= j < |spare| ==> items[i].final != spare[j])
    && (forall i, j :: 0 <= i < |items| && 0 <= j < |spare| && items[i].staging.Some? ==>
          items[i].staging.value in fs || items[i].staging.value != spare[j])
  }

  lemma ApartIsDistinct(fs: Files, items: seq<Item>, spare: seq<Path>)
    requires Apart(items) && Spares(fs, items, spare)
    requires forall i :: 0 <= i < |items| ==> items[i].backup.None?
    ensures Distinct(items, spare)
  {
  }

  /** The state of an item's files while the transaction is in progress, against the
      file system o it started from. */
  ghost predicate InProgress(o: Files, fs: Files, it: Item, spare: Path) {
    && (it.published ==> it.staging.Some? && At(o, it.staging.value).Some?)
    && At(fs, it.final) == (if it.published then At(o, it.staging.value) else
                            if it.originalMoved then None else At(o, it.final))
    && (it.staging.Some? ==> At(fs, it.staging.value) == if it.published then None else At(o, it.staging.value))
    && (it.originalMoved ==> it.backup == Some(spare) && it.final in o && At(fs, spare) == At(o, it.final))
    && (!it.backupReserved ==> spare !in fs && !it.originalMoved)
    && (it.backupReserved ==> it.backup == Some(spare) && it.final in o && it.hadOriginal)
    && (it.final in o && it.published ==> it.originalMoved)
  }

  /** The item is back where it started, and its temporaries are gone. */
  ghost predicate Restored(o: Files, fs: Files, it: Item, spare: Path) {
    At(fs, it.final) == At(o, it.final) &&
    (it.staging.Some? ==> it.staging.value !in fs) && spare !in fs
  }

  /** The original of the item, if there was one, can be found at its path or in its backup. */
  ghost predicate Safe(o: Files, fs: Files, final: Path, spare: Path) {
    final in o ==> At(fs, final) == At(o, final) || At(fs, spare) == At(o, final)
  }

  ghost predicate AllSafe(o: Files, fs: Files, items: seq<Item>, spare: seq<Path>)
    requires |spare| == |items|
  {
    forall i :: 0 <= i < |items| ==> Safe(o, fs, items[i].final, spare[i])
  }

  predicate Owned(items: seq<Item>, spare: seq<Path>, p: Path)
    requires |spare| == |items|
  {
    exists i :: 0 <= i < |items| && (p == items[i].final || p == spare[i] || items[i].staging == Some(p))
  }

  /** Paths that are not the transaction's are never touched. */
  ghost predicate Untouched(o: Files, fs: Files, items: seq<Item>, spare: seq<Path>)
    requires |spare| == |items|
  {
    forall p :: !Owned(items, spare, p) ==> At(fs, p) == At(o, p)
  }

  /** Same outputs; only flags and the backup slot may differ. */
  ghost predicate SameOutputs(a: seq<Item>, b: seq<Item>) {
    |a| == |b| && forall i :: 0 <= i < |a| ==> a[i].final == b[i].final && a[i].staging == b[i].staging
  }

  ghost predicate Progress(o: Files, fs: Files, items: seq<Item>, spare: seq<Path>) {
    && Distinct(items, spare)
    && (forall i :: 0 <= i < |items| ==> InProgress(o, fs, items[i], spare[i]))
    && Untouched(o, fs, items, spare)
  }

  lemma ProgressSafe(o: Files, fs: Files, items: seq<Item>, spare: seq<Path>)
    requires Progress(o, fs, items, spare)
    ensures AllSafe(o, fs, items, spare)
  {
    forall i | 0 <= i < |items| ensures Safe(o, fs, items[i].final, spare[i]) {
      assert InProgress(o, fs, items[i], spare[i]);
    }
  }

  /** A change of the file system at one item's paths only, with that item's new flags. */
  lemma UpdateItem(o: Files, fs: Files, fs': Files, items: seq<Item>, spare: seq<Path>, k: nat, it: Item)
    requires Progress(o, fs, items, spare) && k < |items|
    requires it.final == items[k].final && it.staging == items[k].staging
    requires it.backup.Some? ==> it.backup.value == spare[k]
    requires forall p :: p != it.final && p != spare[k] && it.staging != Some(p) ==> At(fs', p) == At(fs, p)
    requires InProgress(o, fs', it, spare[k])
    ensures Progress(o, fs', items[k := it], spare)
  {
    hide InProgress, At;
    OthersKept(o, fs, fs', items, spare, k);
    var z := items[k := it];
    OwnedSame(items, z, spare);
  }

  // ---- the coordinator --------------------------------------------------------------------

  class Coordinator {
    var files: Files
    var items: seq<Item>
    /** Every state the file system has been in since the history was last cleared. */
    ghost var history: seq<Files>
    /** How many file operations have failed. */
    ghost var failures: nat

    constructor (fs: Files)
      ensures files == fs && items == [] && history == [] && failures == 0
    {
      files, items, history, failures := fs, [], [], 0;
    }

    /** rename: fails and changes nothing, or moves the file over the target. */
    method Rename(a: Path, b: Path) returns (ok: bool)
      modifies this`files, this`history, this`failures
      ensures history == old(history) + [files]
      ensures failures == old(failures) + if ok || a !in old(files) then 0 else 1
      ensures ok ==> a in old(files) && files == (old(files) - {a})[b := old(files)[a]]
      ensures !ok ==> files == old(files)
    {
      ok := *;
      if !ok && a in files { failures := failures + 1; }
      if a !in files { ok := false; }
      if ok { files := (files - {a})[b := files[a]]; }
      history := history + [files];
    }

    /** Removes a path if there is one and it exists; only a failing unlink is an error. */
    method Unlink(p: Option<Path>) returns (ok: bool)
      modifies this`files, this`history, this`failures
      ensures history == old(history) + [files]
      ensures failures == old(failures) + if ok then 0 else 1
      ensures ok ==> (p.Some? ==> files == old(files) - {p.value}) && (p.None? ==> files == old(files))
      ensures !ok ==> p.Some? && p.value in old(files) && files == old(files)
    {
      ok := *;
      if p.None? || p.value !in files { ok := true; }
      if !ok { failures := failures + 1; }
      if ok && p.Some? { files := files - {p.value}; }
      history := history + [files];
    }

    /** Creates an empty file under a name nobody uses; it may fail before or after creating it. */
    method Reserve(name: Path) returns (ok: bool, path: Option<Path>)
      requires name !in files
      modifies this`files, this`history, this`failures
      ensures history == old(history) + [files]
      ensures failures == old(failures) + if ok then 0 else 1
      ensures ok ==> path == Some(name)
      ensures path == Some(name) ==> files == old(files)[name := Regular([])]
      ensures path != Some(name) ==> path == None && files == old(files)
    {
      ok := *;
      path := None;
      var created := *;
      if ok || created {
        files := files[name := Regular([])];
        path := Some(name);
      }
      if !ok { failures := failures + 1; }
      history := history + [files];
    }

    /** stat: says what there is, that there is nothing, or fails. */
    method Stat(p: Path) returns (r: Asked)
      modifies this`failures
      ensures failures == old(failures) + if r.Unknown? then 1 else 0
      ensures r.NotFound? ==> p !in files
      ensures r.Found? ==> p in files && files[p] == r.file
    {
      var fails := *;
      if fails {
        failures := failures + 1;
        return Unknown;
      }
      r := if p in files then Found(files[p]) else NotFound;
    }

    /** Copies the permissions of the output; bytes stay as they are. */
    method Chmod() returns (ok: bool)
      modifies this`failures
      ensures failures == old(failures) + if ok then 0 else 1
    {
      ok := *;
      if !ok { failures := failures + 1; }
    }

    /** Adds an output: rejects a full transaction and a path that is already an output. */
    method Add(final: Path, name: Path) returns (ok: bool)
      requires name !in files
      modifies this
      ensures |old(items)| >= OUTPUT_LIMIT || (exists i :: 0 <= i < |old(items)| && old(items)[i].final == final) ==>
        !ok && items == old(items) && files == old(files)
      ensures items != old(items) ==>
        && |items| == |old(items)| + 1 <= OUTPUT_LIMIT && items[..|items| - 1] == old(items)
        && (forall i :: 0 <= i < |old(items)| ==> old(items)[i].final != final)
        && (exists path :: items[|items| - 1] == Item(final, path, None, false, false, false, false) &&
              (ok ==> path == Some(name)) && (path.Some? ==> path == Some(name)))
      ensures ok ==> items != old(items)
      ensures ok <==> failures == old(failures) && |old(items)| < OUTPUT_LIMIT &&
                      forall i :: 0 <= i < |old(items)| ==> old(items)[i].final != final
      ensures Apart(old(items)) && StagingExists(old(files), old(items)) && NoClash(old(items), final, name) ==>
        Apart(items) && StagingExists(files, items)
    {
      ok := false;
      if |items| >= OUTPUT_LIMIT { return; }
      var i := 0;
      while i < |items|
        invariant 0 <= i <= |items|
        invariant forall j :: 0 <= j < i ==> items[j].final != final
      {
        if items[i].final == final { return; }
        i := i + 1;
      }
      var path: Option<Path>;
      ok, path := Reserve(name);
      items := items + [Item(final, path, None, false, false, false, false)];
    }

    /** Rolls back, last output first. An original that cannot be restored stays in its backup. */
    method Abort(ghost o: Files, ghost spare: seq<Path>) returns (ok: bool)
      requires Progress(o, files, items, spare)
      requires forall h :: h in history ==> AllSafe(o, h, items, spare)
      modifies this
      ensures items == []
      ensures forall h :: h in history ==> AllSafe(o, h, old(items), spare)
      ensures AllSafe(o, files, old(items), spare) && Untouched(o, files, old(items), spare)
      ensures ok ==> forall i :: 0 <= i < |old(items)| ==> Restored(o, files, old(items)[i], spare[i])
      ensures ok <==> failures == old(failures)
      ensures failures >= old(failures)
    {
      ok := true;
      ghost var all := items;
      ProgressSafe(o, files, items, spare);
      var n := |items|;
      while n > 0
        invariant 0 <= n <= |items| && items == all
        invariant Distinct(all, spare) && Untouched(o, files, all, spare)
        invariant forall h :: h in history ==> AllSafe(o, h, all, spare)
        invariant AllSafe(o, files, all, spare)
        invariant forall i :: 0 <= i < n ==> InProgress(o, files, all[i], spare[i])
        invariant ok ==> forall i :: n <= i < |all| ==> Restored(o, files, all[i], spare[i])
        invariant failures >= old(failures) && (ok <==> failures == old(failures))
        decreases n
      {
        n := n - 1;
        ghost var before := files;
        var done := AbortItem(items[n], o, all, spare, n);
        if !done { ok := false; }
        OthersKept(o, before, files, all, spare, n);
      }
      items := [];
    }

    /** Rolls one output back. */
    method AbortItem(it: Item, ghost o: Files, ghost all: seq<Item>, ghost spare: seq<Path>, ghost n: nat)
      returns (ok: bool)
      requires Distinct(all, spare) && n < |all| && it == all[n]
      requires InProgress(o, files, it, spare[n]) && AllSafe(o, files, all, spare)
      requires forall h :: h in history ==> AllSafe(o, h, all, spare)
      modifies this`files, this`history, this`failures
      ensures failures >= old(failures) && (ok <==> failures == old(failures))
      ensures forall p :: p != it.final && p != spare[n] && it.staging != Some(p) ==> At(files, p) == At(old(files), p)
      ensures forall h :: h in history ==> AllSafe(o, h, all, spare)
      ensures AllSafe(o, files, all, spare)
      ensures ok ==> Restored(o, files, it, spare[n])
    {
      ok := true;
      var moved := it.originalMoved;
      ghost var start := files;
      if it.published {
        var u := Unlink(Some(it.final));
        if !u { ok := false; }
        StillSafe(o, start, files, all, spare, n);
      }
      if it.originalMoved {
        var r := Rename(it.backup.value, it.final);
        if !r { ok := false; } else { moved := false; }
        StillSafe(o, start, files, all, spare, n);
      }
      ghost var settled := files;
      var s := Unlink(it.staging);
      if !s { ok := false; }
      StillSafe(o, start, files, all, spare, n);
      if it.backupReserved && !moved {
        var b := Unlink(it.backup);
        if !b { ok := false; }
        StillSafe(o, start, files, all, spare, n);
      }
    }

    /** Checks one staged output and, if its path is taken, reserves a backup slot. */
    method PrepareItem(k: nat, name: Path, ghost o: Files, ghost all: seq<Item>, ghost spare: seq<Path>)
      returns (ok: bool)
      requires Moving(o, all, spare) && k < |items| && name == spare[k]
      requires items[k] == Item(all[k].final, all[k].staging, None, false, false, false, false)
      modifies this
      ensures Moving(o, all, spare) && |items| == |old(items)|
      ensures forall i :: 0 <= i < |items| && i != k ==> items[i] == old(items)[i]
      ensures ok ==> Prepared(o, items[k]) && !items[k].originalMoved && !items[k].published
      ensures failures >= old(failures)
      ensures ok <==> Acceptable(o, all[k]) && failures == old(failures)
    {
      ok := false;
      var it := items[k];
      assert InProgress(o, files, it, spare[k]);
      if it.staging.None? { return; }
      var staged := Stat(it.staging.value);
      if !staged.Found? || staged.file == Other { return; }
      var there := Stat(it.final);
      if there.NotFound? { return true; }
      if there.Unknown? || there.file == Other { return; }
      var chmodded := Chmod();
      if !chmodded { return; }
      ghost var before := files;
      var reserved, path := Reserve(name);
      it := it.(hadOriginal := true, backup := path, backupReserved := path.Some?);
      UpdateItem(o, before, files, items, spare, k, it);
      items := items[k := it];
      SafeNow(o, all, spare);
      ok := reserved;
    }

    /** Moves one original out of the way. */
    method BackupItem(k: nat, ghost o: Files, ghost all: seq<Item>, ghost spare: seq<Path>) returns (ok: bool)
      requires Moving(o, all, spare) && k < |items| && Prepared(o, items[k])
      requires !items[k].originalMoved && !items[k].published
      modifies this
      ensures failures >= old(failures) && (ok <==> failures == old(failures))
      ensures Moving(o, all, spare) && |items| == |old(items)|
      ensures forall i :: 0 <= i < |items| && i != k ==> items[i] == old(items)[i]
      ensures ok ==> Prepared(o, items[k]) && !items[k].published && (items[k].final in o ==> items[k].originalMoved)
    {
      ok := true;
      var it := items[k];
      assert InProgress(o, files, it, spare[k]);
      if it.hadOriginal {
        ghost var before := files;
        ok := Rename(it.final, it.backup.value);
        if ok { it := it.(originalMoved := true); }
        UpdateItem(o, before, files, items, spare, k, it);
        items := items[k := it];
        SafeNow(o, all, spare);
      }
    }

    /** Moves one staged output into place. */
    method PublishItem(k: nat, ghost o: Files, ghost all: seq<Item>, ghost spare: seq<Path>) returns (ok: bool)
      requires Moving(o, all, spare) && k < |items| && Prepared(o, items[k])
      requires !items[k].published && (items[k].final in o ==> items[k].originalMoved)
      modifies this
      ensures failures >= old(failures) && (ok <==> failures == old(failures))
      ensures Moving(o, all, spare) && |items| == |old(items)|
      ensures forall i :: 0 <= i < |items| && i != k ==> items[i] == old(items)[i]
      ensures ok ==> items[k].published
    {
      var it := items[k];
      assert InProgress(o, files, it, spare[k]);
      ghost var before := files;
      ok := Rename(it.staging.value, it.final);
      if ok { it := it.(published := true); }
      UpdateItem(o, before, files, items, spare, k, it);
      items := items[k := it];
      SafeNow(o, all, spare);
    }

    /** The transaction is under way: flags and files agree and no original has been lost. */
    ghost predicate Moving(o: Files, all: seq<Item>, spare: seq<Path>)
      reads this
    {
      && |spare| == |all| && Progress(o, files, items, spare) && SameOutputs(items, all)
      && forall h :: h in history ==> AllSafe(o, h, all, spare)
    }

    /** Records that the state just reached is safe, too. */
    lemma SafeNow(o: Files, all: seq<Item>, spare: seq<Path>)
      requires |spare| == |all| && Progress(o, files, items, spare) && SameOutputs(items, all)
      ensures AllSafe(o, files, all, spare)
    {
      ProgressSafe(o, files, items, spare);
      forall i | 0 <= i < |all| ensures Safe(o, files, all[i].final, spare[i]) {
        assert items[i].final == all[i].final;
      }
    }

    /** The three phases up to the last publish; stops at the first failure. */
    method MoveAll(names: seq<Path>, ghost o: Files, ghost all: seq<Item>) returns (ok: bool)
      requires files == o && items == all && history == [] && |names| == |items| && Distinct(items, names)
      requires forall i :: 0 <= i < |items| ==>
        items[i] == Item(items[i].final, items[i].staging, None, false, false, false, false)
      requires forall i :: 0 <= i < |names| ==> names[i] !in files
      modifies this
      ensures Moving(o, all, names)
      ensures ok ==> forall i :: 0 <= i < |items| ==> items[i].published
      ensures failures >= old(failures)
      ensures ok <==> failures == old(failures) && forall i :: 0 <= i < |all| ==> Acceptable(o, all[i])
    {
      hide Progress, AllSafe, Prepared, Acceptable;
      ok := true;
      FreshProgress(o, items, names);
      var i := 0;
      while i < |items|
        invariant 0 <= i <= |items| && Moving(o, all, names) && failures == old(failures)
        invariant forall j :: 0 <= j < i ==> Acceptable(o, all[j])
        invariant forall j :: 0 <= j < i ==> Prepared(o, items[j]) && !items[j].originalMoved && !items[j].published
        invariant forall j :: i <= j < |items| ==>
          items[j] == Item(all[j].final, all[j].staging, None, false, false, false, false)
      {
        ok := PrepareItem(i, names[i], o, all, names);
        if !ok { return; }
        i := i + 1;
      }
      i := 0;
      while i < |items|
        invariant 0 <= i <= |items| && Moving(o, all, names) && failures == old(failures)
        invariant forall j :: 0 <= j < |all| ==> Acceptable(o, all[j])
        invariant forall j :: 0 <= j < |items| ==> Prepared(o, items[j]) && !items[j].published
        invariant forall j :: 0 <= j < i ==> items[j].final in o ==> items[j].originalMoved
        invariant forall j :: i <= j < |items| ==> !items[j].originalMoved
      {
        ok := BackupItem(i, o, all, names);
        if !ok { return; }
        i := i + 1;
      }
      i := 0;
      while i < |items|
        invariant 0 <= i <= |items| && Moving(o, all, names) && failures == old(failures)
        invariant forall j :: 0 <= j < |all| ==> Acceptable(o, all[j])
        invariant forall j :: i <= j < |items| ==>
          Prepared(o, items[j]) && !items[j].published && (items[j].final in o ==> items[j].originalMoved)
        invariant forall j :: 0 <= j < i ==> items[j].published
      {
        ok := PublishItem(i, o, all, names);
        if !ok { return; }
        i := i + 1;
      }
    }

    /** After the last publish the backups go; a failure is reported but nothing is undone. */
    method Cleanup(ghost o: Files, ghost all: seq<Item>, ghost spare: seq<Path>) returns (ok: bool)
      requires Moving(o, all, spare)
      requires forall i :: 0 <= i < |items| ==> items[i].published
      modifies this
      ensures items == [] && old(history) <= history && Untouched(o, files, all, spare)
      ensures forall i :: 0 <= i < |all| ==> Delivered(o, files, all[i])
      ensures ok ==> forall i :: 0 <= i < |all| ==> spare[i] !in files
      ensures failures >= old(failures) && (ok <==> failures == old(failures))
    {
      ok := true;
      ghost var held := items;
      OwnedSame(items, all, spare);
      forall j | 0 <= j < |held| ensures Delivered(o, files, held[j]) {
        assert InProgress(o, files, held[j], spare[j]);
      }
      var i := 0;
      while i < |items|
        invariant 0 <= i <= |items| && items == held && old(history) <= history
        invariant Untouched(o, files, held, spare)
        invariant forall j :: 0 <= j < |held| ==> Delivered(o, files, held[j])
        invariant forall j :: i <= j < |held| ==> !held[j].backupReserved ==> spare[j] !in files
        invariant ok ==> forall j :: 0 <= j < i ==> spare[j] !in files
        invariant failures >= old(failures) && (ok <==> failures == old(failures))
      {
        if items[i].backupReserved {
          assert InProgress(o, old(files), held[i], spare[i]);
          ghost var before := files;
          var u := Unlink(items[i].backup);
          if !u { ok := false; }
          assert forall p :: p != spare[i] ==> At(files, p) == At(before, p);
          DeliveredKept(o, before, files, held, spare, i);
        }
        i := i + 1;
      }
      items := [];
      forall j | 0 <= j < |all| ensures Delivered(o, files, all[j]) {
        assert Delivered(o, files, held[j]);
      }
    }

    /** Publishes every staged output or none. `committed` says which; `clean` that no file
        operation of the rollback or the cleanup failed; the originals exist in all states
        of history[..mark], which is the whole history unless the outputs were published. */
    method Commit(spare: seq<Path>)
      returns (ok: bool, ghost committed: bool, ghost clean: bool, ghost mark: nat)
      requires Apart(items) && Spares(files, items, spare)
      requires forall i :: 0 <= i < |items| ==>
        items[i] == Item(items[i].final, items[i].staging, None, false, false, false, false)
      modifies this
      ensures items == [] && ok == (committed && clean) && mark <= |history|
      ensures Untouched(old(files), files, old(items), spare)
      ensures forall k :: 0 <= k < mark ==> AllSafe(old(files), history[k], old(items), spare)
      ensures !committed ==> mark == |history| && AllSafe(old(files), files, old(items), spare)
      ensures !committed && clean && old(items) != [] ==>
        forall i :: 0 <= i < |old(items)| ==> Restored(old(files), files, old(items)[i], spare[i])
      ensures committed ==> old(items) != [] && forall i :: 0 <= i < |old(items)| ==>
        Delivered(old(files), files, old(items)[i]) && (clean ==> spare[i] !in files)
      ensures committed ==> forall i :: 0 <= i < |old(items)| ==> Acceptable(old(files), old(items)[i])
      ensures failures >= old(failures)
      ensures failures == old(failures) ==> clean
      ensures ok <==> failures == old(failures) && old(items) != [] &&
                      forall i :: 0 <= i < |old(items)| ==> Acceptable(old(files), old(items)[i])
      ensures !committed ==> failures > old(failures) || old(items) == [] ||
                             exists i :: 0 <= i < |old(items)| && !Acceptable(old(files), old(items)[i])
    {
      ghost var o := files;
      ghost var all := items;
      ApartIsDistinct(files, items, spare);
      history := [];
      committed, clean, mark := false, true, 0;
      ok := false;
      if items == [] { return; }
      var published := MoveAll(spare, o, all);
      ghost var held := items;
      OwnedSame(held, all, spare);
      if !published {
        RestateSafe(o, history, held, all, spare);
        clean := Abort(o, spare);
        mark := |history|;
        RestateBack(o, files, history, held, all, spare, clean);
        return;
      }
      committed := true;
      mark := |history|;
      ok := Cleanup(o, all, spare);
      clean := ok;
    }
  }

  /** At the start every flag is down and nothing has been moved. */
  lemma FreshProgress(o: Files, items: seq<Item>, spare: seq<Path>)
    requires Distinct(items, spare)
    requires forall i :: 0 <= i < |items| ==>
      items[i] == Item(items[i].final, items[i].staging, None, false, false, false, false)
    requires forall i :: 0 <= i < |spare| ==> spare[i] !in o
    ensures Progress(o, o, items, spare)
  {
  }

  /** The staged bytes are at the final path and the staging file is gone. */
  ghost predicate Delivered(o: Files, fs: Files, it: Item) {
    it.staging.Some? && it.staging.value in o && At(fs, it.final) == At(o, it.staging.value) &&
    it.staging.value !in fs
  }

  /** What a commit demands of an output: a regular staging file, and nothing or a regular
      file at the final path. */
  ghost predicate Acceptable(o: Files, it: Item) {
    && it.staging.Some? && it.staging.value in o && o[it.staging.value].Regular?
    && (it.final in o ==> o[it.final].Regular?)
  }

  /** Fit to be moved: staged, and with a backup slot if its path is taken. */
  ghost predicate Prepared(o: Files, it: Item) {
    it.staging.Some? && it.staging.value in o && (it.hadOriginal <==> it.final in o) &&
    (it.hadOriginal ==> it.backupReserved)
  }

  /** Changes at one item's paths keep the other items as they were. */
  lemma OthersKept(o: Files, fs: Files, fs': Files, items: seq<Item>, spare: seq<Path>, n: nat)
    requires Distinct(items, spare) && n < |items|
    requires forall p :: p != items[n].final && p != spare[n] && items[n].staging != Some(p) ==> At(fs', p) == At(fs, p)
    ensures forall i :: 0 <= i < |items| && i != n && InProgress(o, fs, items[i], spare[i]) ==>
      InProgress(o, fs', items[i], spare[i])
    ensures forall i :: 0 <= i < |items| && i != n && Restored(o, fs, items[i], spare[i]) ==>
      Restored(o, fs', items[i], spare[i])
    ensures Untouched(o, fs, items, spare) ==> Untouched(o, fs', items, spare)
  {
    forall i | 0 <= i < |items| && i != n
      ensures At(fs', items[i].final) == At(fs, items[i].final) && At(fs', spare[i]) == At(fs, spare[i])
      ensures items[i].staging.Some? ==> At(fs', items[i].staging.value) == At(fs, items[i].staging.value)
    {
    }
    forall p | !Owned(items, spare, p) && Untouched(o, fs, items, spare) ensures At(fs', p) == At(o, p) {
    }
  }

  lemma StillSafe(o: Files, fs: Files, fs': Files, items: seq<Item>, spare: seq<Path>, n: nat)
    requires Distinct(items, spare) && n < |items| && AllSafe(o, fs, items, spare)
    requires forall p :: p != items[n].final && p != spare[n] && items[n].staging != Some(p) ==> At(fs', p) == At(fs, p)
    requires Safe(o, fs', items[n].final, spare[n])
    ensures AllSafe(o, fs', items, spare)
  {
    forall i | 0 <= i < |items| && i != n
      ensures At(fs', items[i].final) == At(fs, items[i].final) && At(fs', spare[i]) == At(fs, spare[i])
    {
    }
  }

  lemma OwnedSame(a: seq<Item>, b: seq<Item>, spare: seq<Path>)
    requires |spare| == |a| && SameOutputs(a, b)
    ensures forall p :: Owned(a, spare, p) == Owned(b, spare, p)
    ensures forall o, fs :: AllSafe(o, fs, a, spare) == AllSafe(o, fs, b, spare)
  {
    forall p ensures Owned(a, spare, p) == Owned(b, spare, p) {
      assert forall i :: 0 <= i < |a| ==> a[i].final == b[i].final && a[i].staging == b[i].staging;
    }
    forall o, fs ensures AllSafe(o, fs, a, spare) == AllSafe(o, fs, b, spare) {
      assert forall i :: 0 <= i < |a| ==> a[i].final == b[i].final;
    }
  }

  lemma RestateSafe(o: Files, history: seq<Files>, held: seq<Item>, all: seq<Item>, spare: seq<Path>)
    requires |spare| == |all| && SameOutputs(held, all)
    requires forall h :: h in history ==> AllSafe(o, h, all, spare)
    ensures forall h :: h in history ==> AllSafe(o, h, held, spare)
  {
    OwnedSame(held, all, spare);
  }

  lemma RestateBack(o: Files, fs: Files, history: seq<Files>, held: seq<Item>, all: seq<Item>,
                    spare: seq<Path>, clean: bool)
    requires |spare| == |all| && SameOutputs(held, all)
    requires forall h :: h in history ==> AllSafe(o, h, held, spare)
    requires AllSafe(o, fs, held, spare) && Untouched(o, fs, held, spare)
    requires clean ==> forall i :: 0 <= i < |held| ==> Restored(o, fs, held[i], spare[i])
    ensures forall k :: 0 <= k < |history| ==> AllSafe(o, history[k], all, spare)
    ensures AllSafe(o, fs, all, spare) && Untouched(o, fs, all, spare)
    ensures clean ==> forall i :: 0 <= i < |all| ==> Restored(o, fs, all[i], spare[i])
  {
    OwnedSame(held, all, spare);
    forall k | 0 <= k < |history| ensures AllSafe(o, history[k], all, spare) {
      assert history[k] in history;
    }
    forall i | 0 <= i < |all| && clean ensures Restored(o, fs, all[i], spare[i]) {
      assert Restored(o, fs, held[i], spare[i]);
    }
  }

  /** Removing a backup disturbs no delivered output. */
  lemma DeliveredKept(o: Files, fs: Files, fs': Files, items: seq<Item>, spare: seq<Path>, n: nat)
    requires Distinct(items, spare) && n < |items|
    requires forall p :: p != spare[n] ==> At(fs', p) == At(fs, p)
    ensures forall i :: 0 <= i < |items| && Delivered(o, fs, items[i]) ==> Delivered(o, fs', items[i])
    ensures Untouched(o, fs, items, spare) ==> Untouched(o, fs', items, spare)
    ensures forall i :: 0 <= i < |items| && i != n ==> At(fs', spare[i]) == At(fs, spare[i])
  {
    forall i | 0 <= i < |items| && Delivered(o, fs, items[i]) ensures Delivered(o, fs', items[i]) {
      assert At(fs', items[i].final) == At(fs, items[i].final);
      assert At(fs', items[i].staging.value) == At(fs, items[i].staging.value);
    }
    forall p | !Owned(items, spare, p) && Untouched(o, fs, items, spare) ensures At(fs', p) == At(o, p) {
    }
  }
}
