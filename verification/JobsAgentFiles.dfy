/** Backing up, downloading and rolling back the files of a job (samples/JobsAgent/JobsAgentOperations.cpp:178-287),
    over a file system that maps paths to contents. */
module JobsAgentFiles {
  import opened MqttTypes

  type Path = string

  type Contents = map<Path, seq<byte>>

  /** A file of the job document: its full path, if it has a name; whether it has a source; and what becomes of it: which
      attempts to open a file for writing succeed, and what its transfer delivers. */
  datatype Entry = Entry(path: Option<Path>, hasSource: bool, backupOpens: bool, downloadOpens: bool,
                         received: seq<byte>, complete: bool, rollbackOpens: bool)

  function Old(p: Path): Path {
    p + ".old"
  }

  datatype Outcome = Outcome(files: Contents, ok: bool)

  // ---------- what the three loops do ----------

  /** Copies what exists beside itself, from entry `i` on, until a copy cannot be opened. */
  function Backup(files: Contents, es: seq<Entry>, i: nat): Outcome
    requires i <= |es|
    decreases |es| - i
  {
    if i == |es| then Outcome(files, true)
    else
      var e := es[i];
      if e.path.None? || e.path.value !in files then Backup(files, es, i + 1)
      else if !e.backupOpens then Outcome(files, false)
      else Backup(files[Old(e.path.value) := files[e.path.value]], es, i + 1)
  }

  /** Copies every backup back, as far as the targets can be opened. */
  function Rollback(files: Contents, es: seq<Entry>, i: nat): Outcome
    requires i <= |es|
    decreases |es| - i
  {
    if i == |es| then Outcome(files, true)
    else
      var e := es[i];
      if e.path.None? || Old(e.path.value) !in files then Rollback(files, es, i + 1)
      else if !e.rollbackOpens then Rollback(files, es, i + 1).(ok := false)
      else Rollback(files[e.path.value := files[Old(e.path.value)]], es, i + 1)
  }

  /** Overwrites file after file; opening one empties it, and a transfer that breaks off leaves what it delivered. */
  function Fetch(files: Contents, es: seq<Entry>, i: nat): Outcome
    requires i <= |es|
    decreases |es| - i
  {
    if i == |es| then Outcome(files, true)
    else
      var e := es[i];
      if e.path.None? || !e.hasSource then Fetch(files, es, i + 1)
      else if !e.downloadOpens then Outcome(files, false)
      else
        var written := files[e.path.value := e.received];
        if !e.complete then Outcome(written, false) else Fetch(written, es, i + 1)
  }

  /** A download that fails part of the way is rolled back; one that cannot begin is not. */
  function Download(files: Contents, es: seq<Entry>, curlReady: bool): Outcome {
    if !curlReady then Outcome(files, false)
    else
      var f := Fetch(files, es, 0);
      if f.ok then f else Outcome(Rollback(f.files, es, 0).files, false)
  }

  class JobsAgent {
    var files: Contents

    constructor (files: Contents)
      ensures this.files == files
    {
      this.files := files;
    }

    /** Opening for writing and writing: the old contents are gone as soon as the file is open. */
    method Overwrite(p: Path, data: seq<byte>)
      modifies this
      ensures files == old(files)[p := data]
    {
      files := files[p := []];
      files := files[p := data];
    }

    method BackupFiles(es: seq<Entry>) returns (rc: ResponseCode)
      modifies this
      ensures files == Backup(old(files), es, 0).files
      ensures rc == if Backup(old(files), es, 0).ok then Success else Failure
    {
      var i := 0;
      ghost var whole := Backup(files, es, 0);
      while i < |es|
        invariant 0 <= i <= |es|
        invariant whole == Backup(files, es, i)
      {
        if es[i].path.Some? {
          var fileNameWithPath := es[i].path.value;
          if fileNameWithPath in files {
            if !es[i].backupOpens {
              return Failure;
            }
            Overwrite(fileNameWithPath + ".old", files[fileNameWithPath]);
          }
        }
        i := i + 1;
      }
      rc := Success;
    }

    method RollbackFiles(es: seq<Entry>) returns (rc: ResponseCode)
      modifies this
      ensures files == Rollback(old(files), es, 0).files
      ensures rc == if Rollback(old(files), es, 0).ok then Success else Failure
    {
      rc := Success;
      var i := 0;
      ghost var whole := Rollback(files, es, 0);
      while i < |es|
        invariant 0 <= i <= |es|
        invariant rc == Success || rc == Failure
        invariant whole.files == Rollback(files, es, i).files
        invariant whole.ok == (rc.Success? && Rollback(files, es, i).ok)
      {
        if es[i].path.Some? {
          var fileNameWithPath := es[i].path.value;
          if fileNameWithPath + ".old" in files {
            if !es[i].rollbackOpens {
              rc := Failure;
            } else {
              Overwrite(fileNameWithPath, files[fileNameWithPath + ".old"]);
            }
          }
        }
        i := i + 1;
      }
    }

    method DownloadFiles(es: seq<Entry>, curlReady: bool) returns (rc: ResponseCode)
      modifies this
      ensures files == Download(old(files), es, curlReady).files
      ensures rc == if Download(old(files), es, curlReady).ok then Success else Failure
    {
      if !curlReady {
        return Failure;
      }
      var i := 0;
      ghost var whole := Fetch(files, es, 0);
      while i < |es|
        invariant 0 <= i <= |es|
        invariant whole == Fetch(files, es, i)
      {
        if es[i].path.Some? && es[i].hasSource {
          if !es[i].downloadOpens {
            var _ := RollbackFiles(es);
            return Failure;
          }
          Overwrite(es[i].path.value, es[i].received);
          if !es[i].complete {
            var _ := RollbackFiles(es);
            return Failure;
          }
        }
        i := i + 1;
      }
      rc := Success;
    }
  }

  // ---------- what a failed download leaves behind ----------

  function At(files: Contents, p: Path): Option<seq<byte>> {
    if p in files then Some(files[p]) else None
  }

  predicate Listed(es: seq<Entry>, p: Path) {
    exists i :: 0 <= i < |es| && es[i].path == Some(p)
  }

  /** No listed file is the backup of another. */
  ghost predicate NoClash(es: seq<Entry>) {
    forall p, q :: Listed(es, p) && Listed(es, q) ==> p != Old(q)
  }

  /** Rollback can open the file when it comes to it. */
  predicate Restorable(es: seq<Entry>, p: Path) {
    exists i :: 0 <= i < |es| && es[i].path == Some(p) && es[i].rollbackOpens
  }

  lemma OldInjective(p: Path, q: Path)
    ensures Old(p) == Old(q) ==> p == q
  {
    if Old(p) == Old(q) {
      assert p == Old(p)[..|Old(p)| - 4] && q == Old(q)[..|Old(q)| - 4];
    }
  }

  ghost predicate NotABackup(es: seq<Entry>, p: Path) {
    forall q :: Listed(es, q) ==> p != Old(q)
  }

  predicate ListedFrom(es: seq<Entry>, i: nat, p: Path) {
    exists j :: i <= j < |es| && es[j].path == Some(p)
  }

  predicate RestorableFrom(es: seq<Entry>, i: nat, p: Path) {
    exists j :: i <= j < |es| && es[j].path == Some(p) && es[j].rollbackOpens
  }

  lemma EntryListed(es: seq<Entry>, i: nat)
    requires i < |es| && es[i].path.Some?
    ensures Listed(es, es[i].path.value)
  {
  }

  // ---------- backup ----------

  /** A backup writes to backups only. */
  lemma {:induction false} BackupLeaves(files: Contents, es: seq<Entry>, i: nat, p: Path)
    requires i <= |es| && NotABackup(es, p)
    ensures At(Backup(files, es, i).files, p) == At(files, p)
    decreases |es| - i
  {
    hide NotABackup, Listed;
    if i < |es| {
      BackupLeaves(files, es, i + 1, p);
      if es[i].path.Some? && es[i].path.value in files {
        var k := es[i].path.value;
        EntryListed(es, i);
        assert p != Old(k) by { NotThatBackup(es, p, k); }
        BackupLeaves(files[Old(k) := files[k]], es, i + 1, p);
      }
    }
  }

  lemma NotThatBackup(es: seq<Entry>, p: Path, k: Path)
    requires NotABackup(es, p) && Listed(es, k)
    ensures p != Old(k)
  {
  }

  /** On success, what exists and is listed has been saved. */
  lemma {:induction false} BackupSaves(files: Contents, es: seq<Entry>, i: nat, p: Path)
    requires i <= |es| && NotABackup(es, p) && p in files
    requires ListedFrom(es, i, p) || At(files, Old(p)) == Some(files[p])
    ensures Backup(files, es, i).ok ==> At(Backup(files, es, i).files, Old(p)) == Some(files[p])
    decreases |es| - i
  {
    hide NotABackup, Listed;
    if i < |es| {
      if es[i].path.None? || es[i].path.value !in files {
        assert ListedFrom(es, i, p) ==> ListedFrom(es, i + 1, p);
        BackupSaves(files, es, i + 1, p);
      } else {
        var k := es[i].path.value;
        EntryListed(es, i);
        NotThatBackup(es, p, k);
        OldInjective(k, p);
        assert k != p && ListedFrom(es, i, p) ==> ListedFrom(es, i + 1, p);
        BackupSaves(files[Old(k) := files[k]], es, i + 1, p);
      }
    }
  }

  /** The backup of a listed file that does not exist is not touched. */
  lemma {:induction false} BackupSkips(files: Contents, es: seq<Entry>, i: nat, p: Path)
    requires i <= |es| && NotABackup(es, p) && p !in files
    ensures At(Backup(files, es, i).files, Old(p)) == At(files, Old(p))
    decreases |es| - i
  {
    hide NotABackup, Listed;
    if i < |es| {
      BackupSkips(files, es, i + 1, p);
      if es[i].path.Some? && es[i].path.value in files {
        var k := es[i].path.value;
        EntryListed(es, i);
        NotThatBackup(es, p, k);
        OldInjective(k, p);
        BackupSkips(files[Old(k) := files[k]], es, i + 1, p);
      }
    }
  }

  // ---------- download and rollback ----------

  /** A download writes to listed files only. */
  lemma {:induction false} FetchLeaves(files: Contents, es: seq<Entry>, i: nat, p: Path)
    requires i <= |es| && !Listed(es, p)
    ensures At(Fetch(files, es, i).files, p) == At(files, p)
    decreases |es| - i
  {
    hide Listed;
    if i < |es| {
      FetchLeaves(files, es, i + 1, p);
      if es[i].path.Some? {
        EntryListed(es, i);
        FetchLeaves(files[es[i].path.value := es[i].received], es, i + 1, p);
      }
    }
  }

  /** And so does a rollback. */
  lemma {:induction false} RollbackLeaves(files: Contents, es: seq<Entry>, i: nat, p: Path)
    requires i <= |es| && !Listed(es, p)
    ensures At(Rollback(files, es, i).files, p) == At(files, p)
    decreases |es| - i
  {
    hide Listed;
    if i < |es| {
      RollbackLeaves(files, es, i + 1, p);
      if es[i].path.Some? && Old(es[i].path.value) in files {
        EntryListed(es, i);
        RollbackLeaves(files[es[i].path.value := files[Old(es[i].path.value)]], es, i + 1, p);
      }
    }
  }

  /** A rollback that can open a file puts its backup in its place. */
  lemma {:induction false} RollbackRestores(files: Contents, es: seq<Entry>, i: nat, p: Path)
    requires i <= |es| && !Listed(es, Old(p)) && Old(p) in files
    requires RestorableFrom(es, i, p) || At(files, p) == Some(files[Old(p)])
    ensures At(Rollback(files, es, i).files, p) == Some(files[Old(p)])
    decreases |es| - i
  {
    hide Listed;
    if i < |es| {
      if es[i].path.Some? && Old(es[i].path.value) in files && es[i].rollbackOpens {
        var k := es[i].path.value;
        EntryListed(es, i);
        assert k != p && RestorableFrom(es, i, p) ==> RestorableFrom(es, i + 1, p);
        RollbackRestores(files[k := files[Old(k)]], es, i + 1, p);
      } else {
        assert RestorableFrom(es, i, p) ==> RestorableFrom(es, i + 1, p);
        RollbackRestores(files, es, i + 1, p);
      }
    }
  }

  /** One that cannot open it, or finds no backup, leaves it as it is. */
  lemma {:induction false} RollbackPasses(files: Contents, es: seq<Entry>, i: nat, p: Path)
    requires i <= |es| && !Listed(es, Old(p))
    requires !RestorableFrom(es, i, p) || Old(p) !in files
    ensures At(Rollback(files, es, i).files, p) == At(files, p)
    decreases |es| - i
  {
    hide Listed;
    if i < |es| {
      RollbackPasses(files, es, i + 1, p);
      if es[i].path.Some? && Old(es[i].path.value) in files && es[i].rollbackOpens {
        var k := es[i].path.value;
        EntryListed(es, i);
        RollbackPasses(files[k := files[Old(k)]], es, i + 1, p);
      }
    }
  }

  // ---------- what each loop comes to ----------

  /** The entry is downloaded, and something goes wrong with it. */
  predicate Faulty(e: Entry) {
    e.path.Some? && e.hasSource && !(e.downloadOpens && e.complete)
  }

  /** The entry's file is opened and gets what the transfer delivers. */
  predicate Writes(e: Entry, p: Path) {
    e.path == Some(p) && e.hasSource && e.downloadOpens
  }

  /** Entry `k` is the last before `end` to write the file. */
  predicate LastWriter(es: seq<Entry>, k: nat, end: nat, p: Path)
    requires k < end <= |es|
  {
    Writes(es[k], p) && forall j :: k < j < end ==> !Writes(es[j], p)
  }

  predicate NoWriter(es: seq<Entry>, i: nat, end: nat, p: Path)
    requires end <= |es|
  {
    forall j :: i <= j < end ==> !Writes(es[j], p)
  }

  /** With `n` the first entry at fault, or their number when there is none: the download succeeds exactly when there is
      none, and each file holds what the last entry up to `n` that writes it received, or what it held before. */
  lemma {:induction false} FetchMeaning(files: Contents, es: seq<Entry>, i: nat, n: nat, p: Path)
    requires i <= n <= |es| && (n < |es| ==> Faulty(es[n])) && forall j :: i <= j < n ==> !Faulty(es[j])
    ensures var f, end := Fetch(files, es, i), if n < |es| then n + 1 else n;
            && (f.ok <==> n == |es|)
            && (forall k :: i <= k < end && LastWriter(es, k, end, p) ==> At(f.files, p) == Some(es[k].received))
            && (NoWriter(es, i, end, p) ==> At(f.files, p) == At(files, p))
    decreases |es| - i
  {
    if i < |es| {
      var e := es[i];
      var end := if n < |es| then n + 1 else n;
      if e.path.None? || !e.hasSource {
        FetchMeaning(files, es, i + 1, n, p);
      } else if e.downloadOpens && e.complete {
        var next := files[e.path.value := e.received];
        FetchMeaning(next, es, i + 1, n, p);
        assert LastWriter(es, i, end, p) ==> NoWriter(es, i + 1, end, p);
        assert NoWriter(es, i, end, p) ==> !Writes(e, p) && NoWriter(es, i + 1, end, p);
      } else {
        assert n == i && end == i + 1;
        assert NoWriter(es, i, end, p) ==> !Writes(e, p);
      }
    }
  }

  /** A download succeeds exactly when it can begin and every file with a source is opened and completely received. */
  lemma DownloadSucceedsExactly(files: Contents, es: seq<Entry>, curlReady: bool)
    ensures Download(files, es, curlReady).ok <==>
            curlReady && forall i :: 0 <= i < |es| && es[i].path.Some? && es[i].hasSource ==>
                                       es[i].downloadOpens && es[i].complete
  {
    var n := FirstFault(es);
    FetchMeaning(files, es, 0, n, "");
    hide Fetch, Rollback;
    assert n < |es| ==> Faulty(es[n]);
  }

  lemma FirstFault(es: seq<Entry>) returns (n: nat)
    ensures n <= |es| && (n < |es| ==> Faulty(es[n])) && forall j :: 0 <= j < n ==> !Faulty(es[j])
  {
    n := 0;
    while n < |es| && !Faulty(es[n])
      invariant n <= |es| && forall j :: 0 <= j < n ==> !Faulty(es[j])
    {
      n := n + 1;
    }
  }

  /** Then each file with a source holds the bytes received for it, those of the last entry that names it, and every other
      file is as it was. */
  lemma DownloadInstalls(files: Contents, es: seq<Entry>, p: Path)
    requires Download(files, es, true).ok
    ensures var after := Download(files, es, true).files;
            && (forall k :: 0 <= k < |es| && es[k].path == Some(p) && es[k].hasSource &&
                            (forall j :: k < j < |es| ==> !(es[j].path == Some(p) && es[j].hasSource)) ==>
                              p in after && after[p] == es[k].received)
            && ((forall j :: 0 <= j < |es| ==> !(es[j].path == Some(p) && es[j].hasSource)) ==>
                  (p in after <==> p in files) && (p in files ==> after[p] == files[p]))
  {
    DownloadSucceedsExactly(files, es, true);
    var n := FirstFault(es);
    FetchMeaning(files, es, 0, n, p);
    hide Fetch, Rollback;
    var after := Download(files, es, true).files;
    assert n == |es|;
    forall k | 0 <= k < |es| && es[k].path == Some(p) && es[k].hasSource &&
               (forall j :: k < j < |es| ==> !(es[j].path == Some(p) && es[j].hasSource))
      ensures p in after && after[p] == es[k].received
    {
      assert LastWriter(es, k, n, p);
      assert At(after, p) == Some(es[k].received);
    }
    assert (forall j :: 0 <= j < |es| ==> !(es[j].path == Some(p) && es[j].hasSource)) ==> NoWriter(es, 0, n, p);
  }

  /** A backup succeeds exactly when every copy of a listed file that exists can be opened, and then the copy stands beside
      the file, under its name with `.old` behind it. */
  lemma BackupSucceedsExactly(files: Contents, es: seq<Entry>)
    requires NoClash(es)
    ensures Backup(files, es, 0).ok <==>
            forall i :: 0 <= i < |es| && es[i].path.Some? && es[i].path.value in files ==> es[i].backupOpens
    ensures Backup(files, es, 0).ok ==>
              forall p :: Listed(es, p) && p in files ==>
                            At(Backup(files, es, 0).files, p + ".old") == Some(files[p]) &&
                            At(Backup(files, es, 0).files, p) == Some(files[p])
  {
    BackupOk(files, es, 0);
    hide Backup, NoClash, Listed;
    if Backup(files, es, 0).ok {
      forall p | Listed(es, p) && p in files
        ensures At(Backup(files, es, 0).files, p + ".old") == Some(files[p])
        ensures At(Backup(files, es, 0).files, p) == Some(files[p])
      {
        ListedPath(es, p);
        BackupLeaves(files, es, 0, p);
        BackupSaves(files, es, 0, p);
      }
    }
  }

  lemma {:induction false} BackupOk(files: Contents, es: seq<Entry>, i: nat)
    requires i <= |es| && NoClash(es)
    ensures Backup(files, es, i).ok <==>
            forall j :: i <= j < |es| && es[j].path.Some? && es[j].path.value in files ==> es[j].backupOpens
    decreases |es| - i
  {
    hide NoClash, Listed;
    if i < |es| {
      var e := es[i];
      if e.path.None? || e.path.value !in files {
        BackupOk(files, es, i + 1);
      } else if e.backupOpens {
        var next := files[Old(e.path.value) := files[e.path.value]];
        BackupOk(next, es, i + 1);
        forall j | i < j < |es| && es[j].path.Some?
          ensures es[j].path.value in next <==> es[j].path.value in files
        {
          EntryListed(es, i);
          EntryListed(es, j);
          ClashFree(es, es[j].path.value, e.path.value);
        }
      }
    }
  }

  lemma ClashFree(es: seq<Entry>, p: Path, q: Path)
    requires NoClash(es) && Listed(es, p) && Listed(es, q)
    ensures p != Old(q)
  {
  }

  /** A rollback reports success exactly when every listed file that has a copy can be opened. */
  lemma {:induction false} RollbackSucceedsExactly(files: Contents, es: seq<Entry>, i: nat)
    requires i <= |es| && NoClash(es)
    ensures Rollback(files, es, i).ok <==>
            forall j :: i <= j < |es| && es[j].path.Some? && es[j].path.value + ".old" in files ==> es[j].rollbackOpens
    decreases |es| - i
  {
    hide NoClash, Listed;
    if i < |es| {
      var e := es[i];
      if e.path.None? || Old(e.path.value) !in files || !e.rollbackOpens {
        RollbackSucceedsExactly(files, es, i + 1);
      } else {
        var next := files[e.path.value := files[Old(e.path.value)]];
        RollbackSucceedsExactly(next, es, i + 1);
        forall j | i < j < |es| && es[j].path.Some?
          ensures Old(es[j].path.value) in next <==> Old(es[j].path.value) in files
        {
          EntryListed(es, i);
          EntryListed(es, j);
          ClashFree(es, e.path.value, es[j].path.value);
        }
      }
    }
  }

  // ---------- the main results ----------

  /** The files after a successful backup and a failed download. */
  function AfterFailure(files: Contents, es: seq<Entry>, curlReady: bool): Contents {
    Download(Backup(files, es, 0).files, es, curlReady).files
  }

  /** The contents a download has left when it fails, before the rollback. */
  function Interrupted(files: Contents, es: seq<Entry>, curlReady: bool): Contents {
    if curlReady then Fetch(Backup(files, es, 0).files, es, 0).files else Backup(files, es, 0).files
  }

  ghost predicate FailsAfterBackup(files: Contents, es: seq<Entry>, curlReady: bool) {
    Backup(files, es, 0).ok && !Download(Backup(files, es, 0).files, es, curlReady).ok
  }

  lemma ListedPath(es: seq<Entry>, p: Path)
    requires NoClash(es) && Listed(es, p)
    ensures NotABackup(es, p) && !Listed(es, Old(p)) && ListedFrom(es, 0, p)
    ensures Restorable(es, p) == RestorableFrom(es, 0, p)
  {
  }

  /** If a download fails at any point after a successful backup, a listed file that existed before has its original
      contents back exactly when rollback could open it or the download had not changed it. */
  lemma OriginalsRestored(files: Contents, es: seq<Entry>, curlReady: bool, p: Path)
    requires NoClash(es) && FailsAfterBackup(files, es, curlReady)
    requires Listed(es, p) && p in files
    ensures At(AfterFailure(files, es, curlReady), p) == Some(files[p]) <==>
            Restorable(es, p) || At(Interrupted(files, es, curlReady), p) == Some(files[p])
  {
    ListedPath(es, p);
    hide NotABackup, Listed, NoClash, Restorable;
    BackupLeaves(files, es, 0, p);
    BackupSaves(files, es, 0, p);
    var saved := Backup(files, es, 0).files;
    if curlReady {
      FetchLeaves(saved, es, 0, Old(p));
      var left := Fetch(saved, es, 0).files;
      if Restorable(es, p) {
        RollbackRestores(left, es, 0, p);
      } else {
        RollbackPasses(left, es, 0, p);
      }
    }
  }

  /** So when rollback can open its targets, nothing that existed is lost. */
  lemma NothingLost(files: Contents, es: seq<Entry>, curlReady: bool)
    requires NoClash(es) && FailsAfterBackup(files, es, curlReady)
    requires forall p :: Listed(es, p) ==> Restorable(es, p)
    ensures forall p :: Listed(es, p) && p in files ==>
                          At(AfterFailure(files, es, curlReady), p) == Some(files[p])
  {
    hide AfterFailure, NoClash, FailsAfterBackup, Listed, Restorable, At;
    forall p | Listed(es, p) && p in files
      ensures At(AfterFailure(files, es, curlReady), p) == Some(files[p])
    {
      OriginalsRestored(files, es, curlReady, p);
    }
  }

  /** A listed file that did not exist is not removed: it keeps what was downloaded, unless an older backup of it lies
      about, which then takes its place. */
  lemma NewFilesStay(files: Contents, es: seq<Entry>, p: Path)
    requires NoClash(es) && FailsAfterBackup(files, es, true)
    requires Listed(es, p) && p !in files
    ensures At(AfterFailure(files, es, true), p) ==
            if Restorable(es, p) && p + ".old" in files then Some(files[p + ".old"])
            else At(Interrupted(files, es, true), p)
  {
    ListedPath(es, p);
    hide NotABackup, Listed, NoClash, Restorable;
    BackupSkips(files, es, 0, p);
    var saved := Backup(files, es, 0).files;
    FetchLeaves(saved, es, 0, Old(p));
    var left := Fetch(saved, es, 0).files;
    if Restorable(es, p) && Old(p) in files {
      RollbackRestores(left, es, 0, p);
    } else {
      RollbackPasses(left, es, 0, p);
    }
  }

  /** Files that are neither listed nor the backup of a listed file are left alone. */
  lemma OthersUntouched(files: Contents, es: seq<Entry>, curlReady: bool, p: Path)
    requires !Listed(es, p) && NotABackup(es, p) && FailsAfterBackup(files, es, curlReady)
    ensures At(AfterFailure(files, es, curlReady), p) == At(files, p)
  {
    hide NotABackup, Listed;
    BackupLeaves(files, es, 0, p);
    var saved := Backup(files, es, 0).files;
    if curlReady {
      FetchLeaves(saved, es, 0, p);
      RollbackLeaves(Fetch(saved, es, 0).files, es, 0, p);
    }
  }

  /** Without the condition on names an original can be lost: here a file and its backup are both listed, and the copy
      of the first overwrites the second before that one is copied. */
  lemma ClashLosesAnOriginal(a: Path, first: seq<byte>, second: seq<byte>)
    requires first != second
    ensures var entry := Entry(Some(a), true, true, true, [], false, true);
            var es := [entry, entry.(path := Some(Old(a)))];
            var files := map[a := first, Old(a) := second];
            && FailsAfterBackup(files, es, true)
            && At(AfterFailure(files, es, true), Old(a)) == Some(first)
  {
    var entry := Entry(Some(a), true, true, true, [], false, true);
    var es := [entry, entry.(path := Some(Old(a)))];
    var files := map[a := first, Old(a) := second];
    assert a != Old(a) && Old(a) != Old(Old(a)) && a != Old(Old(a)) by {
      assert |a| < |Old(a)| < |Old(Old(a))|;
    }
    var saved := files[Old(a) := first][Old(Old(a)) := first];
    assert Backup(files[Old(a) := first], es, 1) == Outcome(saved, true) by {
      assert Backup(saved, es, 2) == Outcome(saved, true);
    }
    var left := saved[a := []];
    assert Fetch(saved, es, 0) == Outcome(left, false);
    assert Rollback(left[a := first], es, 1).files == left[a := first][Old(a) := first] by {
      assert Rollback(left[a := first][Old(a) := first], es, 2).ok;
    }
  }
}
