/** The durable state: the history directory, and one current and one rollback file per conversation. */
module HistoryDisk {
  import opened Wrappers
  import opened HistoryTypes

  /** `Foreign` is any directory entry the store did not name. */
  datatype FileName =
    | IntentFile
    | Body(id: Id)
    | Meta(id: Id)
    | Next(id: Id)
    | Foreign(entry: nat)

  type Directory = map<FileName, Bytes>

  datatype Disk = Disk(files: Directory, current: map<Scope, Bytes>, rollback: map<Scope, Bytes>)

  /**
   * What a crash leaves: the named files; the sizes of the history directory's `work-` temporaries, whose contents
   * nothing reads; and the size of the temporary of an atomic value replacement under way.
   */
  datatype Image = Image(disk: Disk, work: seq<nat>, inflight: nat)

  /** The directory can be listed: few enough entries, each one the store's own and within the record limit. */
  predicate Tidy(files: Directory, work: seq<nat>) {
    && |files| + |work| <= INVENTORY_LIMIT
    && (forall n :: n in files ==> !n.Foreign? && files[n].count <= RECORD_BYTES)
    && (forall w :: w in work ==> w <= RECORD_BYTES)
  }

  /** Reading one history file: empty or oversized files are refused. */
  function Read(files: Directory, name: FileName, maximum: nat): Result<Option<Bytes>, Failure> {
    if name !in files then Ok(None)
    else if 0 < files[name].count <= maximum then Ok(Some(files[name]))
    else Err(Invalid)
  }

  function Required(files: Directory, name: FileName, maximum: nat): Result<Bytes, Failure> {
    var found :- Read(files, name, maximum);
    if found.Some? then Ok(found.value) else Err(Invalid)
  }

  /** Publishing an immutable file: a name already taken must hold the same bytes. */
  function Publish(files: Directory, name: FileName, bytes: Bytes): Result<Directory, Failure> {
    if !(0 < bytes.count <= RECORD_BYTES) then Err(Invalid) else
    var existing :- Read(files, name, RECORD_BYTES);
    if existing.None? then Ok(files[name := bytes])
    else if existing.value == bytes then Ok(files)
    else Err(Changed)
  }

  function ReadValue(values: map<Scope, Bytes>, scope: Scope): Result<Option<Bytes>, Failure> {
    if scope !in values then Ok(None)
    else if values[scope].count <= RECORD_BYTES then Ok(Some(values[scope]))
    else Err(Full)
  }

  /** The bytes that stand for the conversation: current, or a verified rollback when current is absent. */
  function CurrentBytes(d: Disk, scope: Scope): Result<Option<Bytes>, Failure> {
    var current :- ReadValue(d.current, scope);
    if current.Some? then
      var _ :- Decode(current.value);
      Ok(current)
    else
      var rollback :- ReadValue(d.rollback, scope);
      if rollback.Some? then
        var _ :- Decode(rollback.value);
        Ok(rollback)
      else Ok(None)
  }

  /** An archive body, checked against its manifest. */
  function ReadBody(files: Directory, a: Archive): Result<Bytes, Failure> {
    var raw :- Required(files, Body(a.id), RECORD_BYTES);
    if raw.count != a.byteCount || Digest(raw) != a.sha then Err(Invalid) else
    var value :- Decode(raw);
    if value.revision == a.sourceRevision && value.epoch == a.fromEpoch
       && value.physicalSession == a.physicalSession && Resources(value) == a.resources
    then Ok(raw) else Err(Invalid)
  }

  function ManifestIds(files: Directory): set<Id> {
    set n | n in files.Keys && n.Meta? :: n.id
  }

  predicate ManifestReads(files: Directory, id: Id) {
    Meta(id) in files ==>
      && 0 < files[Meta(id)].count <= MANIFEST_BYTES
      && files[Meta(id)].payload.Manifest?
      && ValidArchive(files[Meta(id)].payload.archive)
      && files[Meta(id)].payload.archive.id == id
      && Body(id) in files
      && files[Body(id)].count == files[Meta(id)].payload.archive.byteCount
  }

  predicate IntentReads(files: Directory) {
    IntentFile in files ==> 0 < files[IntentFile].count <= MANIFEST_BYTES && files[IntentFile].payload.Plan?
  }

  /** Bytes held by a set of files. */
  ghost function Total(files: Directory): nat
    decreases |files|
  {
    if files == map[] then 0
    else
      var n :| n in files;
      files[n].count + Total(files - {n})
  }

  /** Listing the directory fails when there are too many entries or one the store cannot own. */
  function Inventory(files: Directory, work: seq<nat>): Result<Directory, Failure> {
    if |files| + |work| > INVENTORY_LIMIT then Err(Full)
    else if Tidy(files, work) then Ok(files) else Err(Invalid)
  }

  /** Every manifest reads and names its own body; every other body belongs to the pending intent. */
  predicate Accounted(files: Directory) {
    && (forall id :: id in ManifestIds(files) ==> ManifestReads(files, id))
    && IntentReads(files)
    && forall n :: n in files.Keys && n.Body? && n.id !in ManifestIds(files) ==>
                     IntentFile in files && files[IntentFile].payload.intent.archive.id == n.id
  }

  function Catalog(files: Directory): set<Archive> {
    set n | n in files.Keys && n.Meta? && ManifestReads(files, n.id) :: files[n].payload.archive
  }

  /** Loading the archive catalog, on a directory without temporaries. */
  ghost function Manifests(files: Directory): Result<set<Archive>, Failure> {
    var listed :- Inventory(files, []);
    if Total(listed) > PHYSICAL_BYTES || |ManifestIds(listed)| > PHYSICAL_RECORDS then Err(Full)
    else if Accounted(listed) then Ok(Catalog(listed)) else Err(Invalid)
  }

  // ----- sizes -----

  function Sum(sizes: seq<nat>): nat {
    if sizes == [] then 0 else sizes[0] + Sum(sizes[1..])
  }

  lemma {:induction false} SumAppends(sizes: seq<nat>, last: nat)
    ensures Sum(sizes + [last]) == Sum(sizes) + last
  {
    if sizes != [] {
      SumAppends(sizes[1..], last);
      assert (sizes + [last])[1..] == sizes[1..] + [last];
    }
  }

  function SizeOf(values: map<Scope, Bytes>, scope: Scope): nat {
    if scope in values then values[scope].count else 0
  }

  /** Everything on disk at one instant that the physical limit counts for a conversation. */
  ghost function Weight(s: Image, scope: Scope): nat {
    Total(s.disk.files) + Sum(s.work) + SizeOf(s.disk.current, scope) + SizeOf(s.disk.rollback, scope) + s.inflight
  }

  /** The order in which files are counted does not matter. */
  lemma {:induction false} TotalSplits(files: Directory, n: FileName)
    requires n in files
    ensures Total(files) == files[n].count + Total(files - {n})
    decreases |files|
  {
    var m :| m in files && Total(files) == files[m].count + Total(files - {m});
    if m != n {
      TotalSplits(files - {m}, n);
      TotalSplits(files - {n}, m);
      assert files - {m} - {n} == files - {n} - {m};
    }
  }

  lemma TotalAdds(files: Directory, n: FileName, bytes: Bytes)
    ensures n !in files ==> Total(files[n := bytes]) == Total(files) + bytes.count
    ensures n in files ==> Total(files[n := bytes]) == Total(files) + bytes.count - files[n].count
  {
    var more := files[n := bytes];
    TotalSplits(more, n);
    assert more - {n} == files - {n};
    if n in files {
      TotalSplits(files, n);
    } else {
      assert files - {n} == files;
    }
  }

  lemma {:induction false} TotalShrinks(less: Directory, files: Directory)
    requires less.Keys <= files.Keys
    requires forall n :: n in less ==> less[n] == files[n]
    ensures Total(less) <= Total(files)
    ensures |less| <= |files|
    decreases |files|
  {
    if files != map[] {
      var n :| n in files;
      TotalSplits(files, n);
      if n in less {
        TotalSplits(less, n);
        TotalShrinks(less - {n}, files - {n});
      } else {
        TotalShrinks(less, files - {n});
      }
    } else {
      assert less == map[];
    }
  }

  /** Summing the listed sizes in whatever order the directory returns them. */
  method SumSizes(files: Directory) returns (total: nat)
    ensures total == Total(files)
  {
    total := 0;
    var rest := files;
    while rest != map[]
      invariant total + Total(rest) == Total(files)
      decreases |rest|
    {
      var n :| n in rest;
      TotalSplits(rest, n);
      total := total + rest[n].count;
      rest := rest - {n};
    }
  }

  /** A catalog with nothing pending holds at most two files per archive. */
  lemma {:induction false} CatalogIsSmall(files: Directory)
    requires Accounted(files) && IntentFile !in files
    requires forall n :: n in files ==> n.Meta? || n.Body?
    ensures |files| <= 2 * |ManifestIds(files)|
    decreases |files|
  {
    if n :| n in files {
      var less := files - {Meta(n.id), Body(n.id)};
      assert Meta(n.id) in files.Keys;
      assert n.id in ManifestIds(files);
      assert ManifestIds(less) == ManifestIds(files) - {n.id};
      forall id | id in ManifestIds(less)
        ensures ManifestReads(less, id)
      {
        assert ManifestReads(files, id);
      }
      CatalogIsSmall(less);
      assert files.Keys == less.Keys + {Meta(n.id), Body(n.id)};
    } else {
      assert files == map[];
    }
  }
}
