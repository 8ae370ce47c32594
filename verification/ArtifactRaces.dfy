/** The artifact service under concurrent calls. A call is suspended at every access to storage or database;
    its rows become visible with the commit of its session. A new version reads the latest number, stores its
    blob, and only then adds its row, which the table's unique constraint on artifact and number, or the
    foreign key, can reject. A delete reads the history, removes the blobs one by one, and only then the rows. */
module ArtifactRaces {
  import opened Graphs
  import opened Artifacts

  /** A call that has begun and has not committed. */
  datatype Call =
    /** `create_new_version`, after the latest number was read. */
    | Versioning(id: Id, version: Version, data: Bytes, stored: bool)
    /** `upload_artifact`, after the blob was stored; `id` is the id the row will have. */
    | Uploading(id: Id, prefix: string, token: nat, data: Bytes)
    /** `delete`, after the history of `seen` versions was read; `left` are the paths still to be removed. */
    | Deleting(id: Id, seen: nat, paths: set<Path>, left: set<Path>)

  /** `rows` are the committed rows, with the blobs their versions stand for; `disk` is the blob store itself;
      `orphans` are paths on disk that no version names and no call will ever name. */
  datatype Race = Race(rows: Store, disk: map<Path, Bytes>, calls: map<nat, Call>, orphans: set<Path>)

  datatype Step =
    | Insert(id: Id, prefix: string)
    | ReadLatest(call: nat, id: Id, data: Bytes, token: nat)
    | PutVersion(call: nat)
    | CommitVersion(call: nat)
    | PutUpload(call: nat, id: Id, prefix: string, data: Bytes, token: nat)
    | CommitUpload(call: nat)
    | ReadHistory(call: nat, id: Id)
    | Remove(call: nat, path: Path)
    | CommitDelete(call: nat)

  predicate Exists(s: Store, id: Id) {
    id in s.artifacts && id in s.versions
  }

  /** The path of the blob a call stores. */
  function OwnPath(c: Call): Option<Path> {
    match c
    case Versioning(_, version, _, _) => Some(version.path)
    case Uploading(_, prefix, token, _) => Some(UploadPath(prefix, token))
    case Deleting(_, _, _, _) => None
  }

  predicate HasToken(c: Call, token: nat) {
    OwnPath(c).Some? && OwnPath(c).value.token == token
  }

  /** UUIDs are not used twice. */
  predicate Unused(r: Race, token: nat) {
    && token !in r.rows.used
    && (forall c :: c in r.calls ==> !HasToken(r.calls[c], token))
    && (forall p :: p in r.orphans ==> p.token != token)
  }

  predicate UnusedId(r: Race, id: Id) {
    id !in r.rows.artifacts && forall c :: c in r.calls ==> r.calls[c].id != id
  }

  predicate Possible(r: Race, step: Step) {
    match step
    case Insert(id, _) => UnusedId(r, id)
    case ReadLatest(call, id, _, token) => call !in r.calls && Exists(r.rows, id) && Unused(r, token)
    case PutVersion(call) => call in r.calls && r.calls[call].Versioning? && !r.calls[call].stored
    case CommitVersion(call) => call in r.calls && r.calls[call].Versioning? && r.calls[call].stored
    case PutUpload(call, id, _, _, token) => call !in r.calls && UnusedId(r, id) && Unused(r, token)
    case CommitUpload(call) => call in r.calls && r.calls[call].Uploading?
    case ReadHistory(call, id) => call !in r.calls && Exists(r.rows, id)
    case Remove(call, path) => call in r.calls && r.calls[call].Deleting? && path in r.calls[call].left
    case CommitDelete(call) => call in r.calls && r.calls[call].Deleting? && r.calls[call].left == {}
  }

  /** What the database checks when the row of a new version is committed. */
  predicate Accepted(s: Store, c: Call)
    requires c.Versioning?
  {
    Exists(s, c.id) && forall v :: v in s.versions[c.id] ==> v.number != c.version.number
  }

  /** The row as it was prepared, and the artifact pointed at it. */
  function RowAdded(s: Store, c: Call): Store
    requires c.Versioning? && Exists(s, c.id)
  {
    Store(s.artifacts[c.id := s.artifacts[c.id].(path := Some(c.version.path), size := |c.data|)],
          s.versions[c.id := s.versions[c.id] + [c.version]],
          s.blobs[c.version.path := c.data],
          s.used + {c.version.path.token})
  }

  /** Paths of versions of the deleted artifact that still hold a blob. */
  function LeftBehind(r: Race, id: Id): set<Path> {
    if Exists(r.rows, id) then set p | p in PathsOf(r.rows.versions[id]) && p in r.disk else {}
  }

  function Next(r: Race, step: Step): Race
    requires Possible(r, step)
  {
    match step
    case Insert(id, prefix) => r.(rows := Performed(r.rows, Create(id, prefix)))
    case ReadLatest(call, id, data, token) =>
      var number := NextNumber(r.rows.versions[id]);
      var path := VersionPath(r.rows.artifacts[id].prefix, number, token);
      r.(calls := r.calls[call := Versioning(id, Version(number, path), data, false)])
    case PutVersion(call) =>
      var c := r.calls[call];
      r.(disk := r.disk[c.version.path := c.data], calls := r.calls[call := c.(stored := true)])
    case CommitVersion(call) =>
      var c := r.calls[call];
      if Accepted(r.rows, c) then r.(rows := RowAdded(r.rows, c), calls := r.calls - {call})
      else r.(calls := r.calls - {call}, orphans := r.orphans + {c.version.path})
    case PutUpload(call, id, prefix, data, token) =>
      var path := UploadPath(prefix, token);
      r.(disk := r.disk[path := data], calls := r.calls[call := Uploading(id, prefix, token, data)])
    case CommitUpload(call) =>
      var c := r.calls[call];
      r.(rows := Performed(r.rows, Upload(c.id, c.prefix, c.data, c.token)), calls := r.calls - {call})
    case ReadHistory(call, id) =>
      var paths := PathsOf(r.rows.versions[id]);
      r.(calls := r.calls[call := Deleting(id, |r.rows.versions[id]|, paths, paths)])
    case Remove(call, path) =>
      var c := r.calls[call];
      r.(disk := r.disk - {path}, calls := r.calls[call := c.(left := c.left - {path})], orphans := r.orphans - {path})
    case CommitDelete(call) =>
      var id := r.calls[call].id;
      r.(rows := Performed(r.rows, Delete(id)), calls := r.calls - {call}, orphans := r.orphans + LeftBehind(r, id))
  }

  // ---------- invariant ----------

  ghost predicate VersioningOk(r: Race, c: Call)
    requires c.Versioning?
  {
    && (Exists(r.rows, c.id) ==> 1 <= c.version.number <= |r.rows.versions[c.id]| + 1)
    && (c.stored ==> c.version.path in r.disk && r.disk[c.version.path] == c.data)
  }

  ghost predicate UploadingOk(r: Race, c: Call)
    requires c.Uploading?
  {
    var path := UploadPath(c.prefix, c.token);
    c.id !in r.rows.artifacts && path in r.disk && r.disk[path] == c.data
  }

  ghost predicate DeletingOk(r: Race, c: Call)
    requires c.Deleting?
  {
    && c.left <= c.paths
    && (forall p :: p in c.paths ==> p.token in r.rows.used)
    && (forall p :: p in c.paths && p !in c.left ==> p !in r.disk)
    && if Exists(r.rows, c.id)
       then c.seen <= |r.rows.versions[c.id]| && c.paths == PathsOf(r.rows.versions[c.id][..c.seen])
       else forall p :: p in c.paths ==> p !in r.rows.blobs
  }

  ghost predicate CallOk(r: Race, k: nat)
    requires k in r.calls
  {
    match r.calls[k]
    case Versioning(_, _, _, _) => VersioningOk(r, r.calls[k])
    case Uploading(_, _, _, _) => UploadingOk(r, r.calls[k])
    case Deleting(_, _, _, _) => DeletingOk(r, r.calls[k])
  }

  /** The path a call stores its blob under, and the id it will insert, are its own. */
  ghost predicate CallIsApart(r: Race, k: nat)
    requires k in r.calls
  {
    var c := r.calls[k];
    && (OwnPath(c).Some? ==> OwnPath(c).value.token !in r.rows.used)
    && (forall d :: d in r.calls && d != k && OwnPath(c).Some? ==> !HasToken(r.calls[d], OwnPath(c).value.token))
    && (c.Uploading? ==> forall d :: d in r.calls && d != k ==> r.calls[d].id != c.id)
  }

  /** A call in flight has stored a blob under this path. */
  ghost predicate StoredBy(r: Race, k: nat, path: Path) {
    k in r.calls && OwnPath(r.calls[k]) == Some(path) && (r.calls[k].Versioning? ==> r.calls[k].stored)
  }

  /** A delete in flight has removed the blob of this path. */
  ghost predicate RemovedBy(r: Race, k: nat, path: Path) {
    k in r.calls && r.calls[k].Deleting? && path in r.calls[k].paths && path !in r.calls[k].left
  }

  /** Why a blob is on disk. */
  ghost predicate Accounted(r: Race, path: Path) {
    path in r.rows.blobs || path in r.orphans || exists k :: StoredBy(r, k, path)
  }

  /** The blob of a committed version is there, or a delete in flight has removed it. */
  ghost predicate Kept(r: Race, path: Path)
    requires path in r.rows.blobs
  {
    (path in r.disk && r.disk[path] == r.rows.blobs[path]) || exists k :: RemovedBy(r, k, path)
  }

  ghost predicate OrphanOk(r: Race, path: Path) {
    path in r.disk && path !in r.rows.blobs && forall k :: k in r.calls ==> !HasToken(r.calls[k], path.token)
  }

  ghost predicate RaceInv(r: Race) {
    && Valid(r.rows)
    && (forall k {:trigger CallOk(r, k)} :: k in r.calls ==> CallOk(r, k))
    && (forall k {:trigger CallIsApart(r, k)} :: k in r.calls ==> CallIsApart(r, k))
    && (forall p {:trigger OrphanOk(r, p)} :: p in r.orphans ==> OrphanOk(r, p))
    && (forall p {:trigger Kept(r, p)} :: p in r.rows.blobs ==> Kept(r, p))
    && (forall p {:trigger Accounted(r, p)} :: p in r.disk ==> Accounted(r, p))
  }

  // ---------- new versions ----------

  lemma NumbersOf(s: Store, id: Id)
    requires Valid(s) && id in s.artifacts
    ensures id in s.versions && NextNumber(s.versions[id]) == |s.versions[id]| + 1
    ensures forall i :: 0 <= i < |s.versions[id]| ==> s.versions[id][i].number == i + 1
  {
    assert ArtifactOk(s, id);
    if s.versions[id] != [] { LatestIsLast(s.versions[id]); }
  }

  /** The exact condition, checkable before the commit, for a row to go in: the artifact is still there and
      no version was added since the call read the latest number. */
  lemma CommitSucceedsIff(r: Race, k: nat)
    requires RaceInv(r) && k in r.calls && r.calls[k].Versioning?
    ensures var c := r.calls[k];
      Accepted(r.rows, c) <==> Exists(r.rows, c.id) && NextNumber(r.rows.versions[c.id]) == c.version.number
  {
    var c := r.calls[k];
    assert CallOk(r, k);
    if Exists(r.rows, c.id) {
      NumbersOf(r.rows, c.id);
      var vs := r.rows.versions[c.id];
      if c.version.number <= |vs| {
        assert vs[c.version.number - 1] in vs;
      }
    }
  }

  lemma RowIsNextVersion(s: Store, c: Call)
    requires c.Versioning? && Exists(s, c.id) && NextNumber(s.versions[c.id]) == c.version.number
    ensures RowAdded(s, c) == VersionAdded(s, c.id, c.version.path, c.data)
  {
  }

  /** Of two calls that read the same number, the second to commit is rejected and leaves its blob behind. */
  lemma SecondCommitIsRejected(r: Race, first: nat, second: nat)
    requires RaceInv(r) && Possible(r, CommitVersion(first)) && Possible(r, CommitVersion(second)) && first != second
    requires r.calls[first].id == r.calls[second].id
    requires r.calls[first].version.number == r.calls[second].version.number
    ensures var t := Next(Next(r, CommitVersion(first)), CommitVersion(second));
      && t.rows == Next(r, CommitVersion(first)).rows
      && r.calls[second].version.path in t.orphans && r.calls[second].version.path in t.disk
  {
    var c := r.calls[first];
    assert CallOk(r, second);
    if Accepted(r.rows, c) {
      var rows := RowAdded(r.rows, c);
      assert c.version in rows.versions[c.id];
    }
  }

  // ---------- every step keeps the invariant ----------

  /** The paths a history names were all committed. */
  lemma PathsAreUsed(s: Store, id: Id)
    requires Valid(s) && Exists(s, id)
    ensures forall p :: p in PathsOf(s.versions[id]) ==> p.token in s.used && p in s.blobs
  {
    assert ArtifactOk(s, id);
  }

  lemma BlobsAreUsed(s: Store)
    requires Valid(s)
    ensures forall p :: p in s.blobs ==> p.token in s.used
  {
    forall p | p in s.blobs ensures p.token in s.used { NamedIsUsed(s, p); }
  }

  lemma StillAccounted(r: Race, t: Race, p: Path)
    requires Accounted(r, p)
    requires p in r.rows.blobs ==> Accounted(t, p)
    requires p in r.orphans ==> p in t.orphans
    requires forall k :: StoredBy(r, k, p) ==> Accounted(t, p)
    ensures Accounted(t, p)
  {
  }

  lemma StillKept(r: Race, t: Race, p: Path)
    requires p in r.rows.blobs && p in t.rows.blobs && t.rows.blobs[p] == r.rows.blobs[p] && Kept(r, p)
    requires p in r.disk ==> p in t.disk && t.disk[p] == r.disk[p]
    requires forall k :: RemovedBy(r, k, p) ==> RemovedBy(t, k, p)
    ensures Kept(t, p)
  {
    if k :| RemovedBy(r, k, p) { assert RemovedBy(t, k, p); }
  }

  lemma InsertKeepsInv(r: Race, step: Step)
    requires RaceInv(r) && step.Insert? && Possible(r, step)
    ensures RaceInv(Next(r, step))
  {
    var t := Next(r, step);
    CreateKeepsValid(r.rows, step.id, step.prefix);
    forall k | k in t.calls ensures CallOk(t, k) && CallIsApart(t, k) {
      assert CallOk(r, k) && CallIsApart(r, k);
    }
    forall p | p in t.orphans ensures OrphanOk(t, p) { assert OrphanOk(r, p); }
    forall p | p in t.rows.blobs ensures Kept(t, p) { StillKept(r, t, p); }
    forall p | p in t.disk ensures Accounted(t, p) {
      assert Accounted(r, p);
      if k :| StoredBy(r, k, p) { assert StoredBy(t, k, p); }
    }
  }

  /** A call that only reads adds itself, and changes nothing else. */
  lemma ReadKeepsInv(r: Race, call: nat, c: Call)
    requires RaceInv(r) && call !in r.calls
    requires var t := r.(calls := r.calls[call := c]);
      && CallOk(t, call) && CallIsApart(t, call) && !(c.Versioning? && c.stored)
      && (forall p :: p in r.orphans ==> !HasToken(c, p.token))
      && (forall k :: k in r.calls && OwnPath(r.calls[k]).Some? ==> !HasToken(c, OwnPath(r.calls[k]).value.token))
      && (forall k :: k in r.calls && r.calls[k].Uploading? ==> r.calls[k].id != c.id)
    ensures RaceInv(r.(calls := r.calls[call := c]))
  {
    var t := r.(calls := r.calls[call := c]);
    forall k | k in t.calls ensures CallOk(t, k) && CallIsApart(t, k) {
      if k != call { assert CallOk(r, k) && CallIsApart(r, k); }
    }
    forall p | p in t.orphans ensures OrphanOk(t, p) { assert OrphanOk(r, p); }
    forall p | p in t.rows.blobs ensures Kept(t, p) { StillKept(r, t, p); }
    forall p | p in t.disk ensures Accounted(t, p) {
      assert Accounted(r, p);
      if k :| StoredBy(r, k, p) { assert StoredBy(t, k, p); }
    }
  }

  lemma ReadLatestKeepsInv(r: Race, step: Step)
    requires RaceInv(r) && step.ReadLatest? && Possible(r, step)
    ensures RaceInv(Next(r, step))
  {
    var t := Next(r, step);
    NumbersOf(r.rows, step.id);
    assert CallOk(t, step.call);
    forall k | k in r.calls ensures CallOk(r, k) {}
    ReadKeepsInv(r, step.call, t.calls[step.call]);
  }

  lemma ReadHistoryKeepsInv(r: Race, step: Step)
    requires RaceInv(r) && step.ReadHistory? && Possible(r, step)
    ensures RaceInv(Next(r, step))
  {
    var t := Next(r, step);
    PathsAreUsed(r.rows, step.id);
    var vs := r.rows.versions[step.id];
    assert vs[..|vs|] == vs;
    assert CallOk(t, step.call);
    forall k | k in r.calls ensures CallOk(r, k) {}
    ReadKeepsInv(r, step.call, t.calls[step.call]);
  }

  /** Storing a blob under a new path touches no other call and no row. */
  lemma PutKeepsInv(r: Race, t: Race, call: nat, path: Path, data: Bytes)
    requires RaceInv(r) && call in t.calls
    requires t == r.(disk := r.disk[path := data], calls := r.calls[call := t.calls[call]])
    requires StoredBy(t, call, path) && CallOk(t, call) && CallIsApart(t, call)
    requires path.token !in r.rows.used && forall p :: p in r.orphans ==> p.token != path.token
    requires forall k :: k in r.calls && k != call ==> !HasToken(r.calls[k], path.token)
    requires forall k :: k in r.calls && k != call && r.calls[k].Uploading? ==> r.calls[k].id != t.calls[call].id
    requires call in r.calls ==> r.calls[call].Versioning? && OwnPath(r.calls[call]) == Some(path)
    ensures RaceInv(t)
  {
    BlobsAreUsed(r.rows);
    forall k | k in t.calls ensures CallOk(t, k) && CallIsApart(t, k) {
      if k != call { PutKeepsCall(r, t, call, path, data, k); }
    }
    forall p | p in t.orphans ensures OrphanOk(t, p) { assert OrphanOk(r, p); }
    forall p | p in t.rows.blobs ensures Kept(t, p) { StillKept(r, t, p); }
    forall p | p in t.disk ensures Accounted(t, p) {
      if p != path {
        assert Accounted(r, p);
        if k :| StoredBy(r, k, p) { assert StoredBy(t, k, p); }
      }
    }
  }

  lemma PutKeepsCall(r: Race, t: Race, call: nat, path: Path, data: Bytes, k: nat)
    requires RaceInv(r) && call in t.calls
    requires t == r.(disk := r.disk[path := data], calls := r.calls[call := t.calls[call]])
    requires OwnPath(t.calls[call]) == Some(path) && path.token !in r.rows.used
    requires k in r.calls && k != call && !HasToken(r.calls[k], path.token)
    requires r.calls[k].Uploading? ==> r.calls[k].id != t.calls[call].id
    ensures CallOk(t, k) && CallIsApart(t, k)
  {
    assert CallOk(r, k) && CallIsApart(r, k);
  }

  lemma PutVersionKeepsInv(r: Race, step: Step)
    requires RaceInv(r) && step.PutVersion? && Possible(r, step)
    ensures RaceInv(Next(r, step))
  {
    var t, c := Next(r, step), r.calls[step.call];
    assert CallOk(r, step.call) && CallIsApart(r, step.call);
    forall p | p in r.orphans ensures p.token != c.version.path.token { assert OrphanOk(r, p); }
    forall k | k in r.calls && k != step.call && r.calls[k].Uploading? ensures r.calls[k].id != c.id {
      assert CallIsApart(r, k);
    }
    PutKeepsInv(r, t, step.call, c.version.path, c.data);
  }

  lemma PutUploadKeepsInv(r: Race, step: Step)
    requires RaceInv(r) && step.PutUpload? && Possible(r, step)
    ensures RaceInv(Next(r, step))
  {
    var path := UploadPath(step.prefix, step.token);
    PutKeepsInv(r, Next(r, step), step.call, path, step.data);
  }

  lemma CommitVersionKeepsCall(r: Race, step: Step, k: nat)
    requires RaceInv(r) && step.CommitVersion? && Possible(r, step) && k in r.calls && k != step.call
    ensures CallOk(Next(r, step), k) && CallIsApart(Next(r, step), k)
  {
    var t, c := Next(r, step), r.calls[step.call];
    assert CallOk(r, k) && CallIsApart(r, k) && CallOk(r, step.call) && CallIsApart(r, step.call);
    if Accepted(r.rows, c) && r.calls[k].Deleting? && r.calls[k].id == c.id {
      var vs, seen := r.rows.versions[c.id], r.calls[k].seen;
      assert (vs + [c.version])[..seen] == vs[..seen];
    }
  }

  lemma CommitVersionKeepsInv(r: Race, step: Step)
    requires RaceInv(r) && step.CommitVersion? && Possible(r, step)
    ensures RaceInv(Next(r, step))
  {
    var t, c := Next(r, step), r.calls[step.call];
    assert CallOk(r, step.call) && CallIsApart(r, step.call);
    BlobsAreUsed(r.rows);
    CommitSucceedsIff(r, step.call);
    if Accepted(r.rows, c) {
      RowIsNextVersion(r.rows, c);
      AddKeepsValid(r.rows, c.id, c.version.path, c.data);
    }
    forall k | k in t.calls ensures CallOk(t, k) && CallIsApart(t, k) { CommitVersionKeepsCall(r, step, k); }
    forall p | p in t.orphans ensures OrphanOk(t, p) {
      if p in r.orphans { assert OrphanOk(r, p); }
    }
    forall p | p in t.rows.blobs ensures Kept(t, p) {
      if p != c.version.path { StillKept(r, t, p); }
    }
    forall p | p in t.disk ensures Accounted(t, p) {
      assert Accounted(r, p);
      if k :| StoredBy(r, k, p) && k != step.call { assert StoredBy(t, k, p); }
    }
  }

  /** The rows an upload commits, as one version of a new artifact. */
  lemma UploadedRows(s: Store, c: Call)
    requires c.Uploading? && Valid(s) && c.id !in s.artifacts && c.token !in s.used
    ensures var t, path := Performed(s, Upload(c.id, c.prefix, c.data, c.token)), UploadPath(c.prefix, c.token);
      && Valid(t) && t.artifacts == s.artifacts[c.id := Artifact(c.prefix, Some(path), |c.data|)]
      && t.versions == s.versions[c.id := [Version(1, path)]]
      && t.blobs == s.blobs[path := c.data] && t.used == s.used + {c.token}
  {
    PerformKeepsValid(s, Upload(c.id, c.prefix, c.data, c.token));
    UploadInOneGo(s, c.id, c.prefix, UploadPath(c.prefix, c.token), c.data);
  }

  lemma CommitUploadKeepsInv(r: Race, step: Step)
    requires RaceInv(r) && step.CommitUpload? && Possible(r, step)
    ensures RaceInv(Next(r, step))
  {
    var t, c := Next(r, step), r.calls[step.call];
    var path := UploadPath(c.prefix, c.token);
    assert CallOk(r, step.call) && CallIsApart(r, step.call);
    UploadedRows(r.rows, c);
    forall k | k in t.calls ensures CallOk(t, k) && CallIsApart(t, k) {
      assert CallOk(r, k) && CallIsApart(r, k);
    }
    forall p | p in t.orphans ensures OrphanOk(t, p) { assert OrphanOk(r, p); }
    forall p | p in t.rows.blobs ensures Kept(t, p) {
      if p != path { StillKept(r, t, p); }
    }
    forall p | p in t.disk ensures Accounted(t, p) {
      assert Accounted(r, p);
      if k :| StoredBy(r, k, p) && k != step.call { assert StoredBy(t, k, p); }
    }
  }

  lemma RemoveKeepsCall(r: Race, step: Step, k: nat)
    requires RaceInv(r) && step.Remove? && Possible(r, step) && k in r.calls
    ensures CallOk(Next(r, step), k) && CallIsApart(Next(r, step), k)
  {
    assert CallOk(r, k) && CallIsApart(r, k) && CallOk(r, step.call);
    forall d | d in r.calls ensures OwnPath(Next(r, step).calls[d]) == OwnPath(r.calls[d]) {}
  }

  lemma RemoveKeepsInv(r: Race, step: Step)
    requires RaceInv(r) && step.Remove? && Possible(r, step)
    ensures RaceInv(Next(r, step))
  {
    var t := Next(r, step);
    assert CallOk(r, step.call);
    forall k | k in t.calls ensures CallOk(t, k) && CallIsApart(t, k) { RemoveKeepsCall(r, step, k); }
    forall p | p in t.orphans ensures OrphanOk(t, p) { assert OrphanOk(r, p); }
    forall p | p in t.rows.blobs ensures Kept(t, p) {
      if p == step.path { assert RemovedBy(t, step.call, p); } else { StillKept(r, t, p); }
    }
    forall p | p in t.disk ensures Accounted(t, p) {
      assert Accounted(r, p);
      if k :| StoredBy(r, k, p) { assert StoredBy(t, k, p); }
    }
  }

  lemma HistoryIsPart(r: Race, k: nat)
    requires RaceInv(r) && k in r.calls && r.calls[k].Deleting?
    ensures var c := r.calls[k];
      if Exists(r.rows, c.id) then c.paths <= PathsOf(r.rows.versions[c.id])
      else forall p :: p in c.paths ==> p !in r.rows.blobs
  {
    assert CallOk(r, k);
  }

  lemma CommitDeleteKeepsCall(r: Race, step: Step, k: nat)
    requires RaceInv(r) && step.CommitDelete? && Possible(r, step) && k in r.calls && k != step.call
    ensures CallOk(Next(r, step), k) && CallIsApart(Next(r, step), k)
  {
    assert CallOk(r, k) && CallIsApart(r, k);
    if r.calls[k].Deleting? { HistoryIsPart(r, k); }
  }

  lemma CommitDeleteKeepsInv(r: Race, step: Step)
    requires RaceInv(r) && step.CommitDelete? && Possible(r, step)
    ensures RaceInv(Next(r, step))
  {
    var t, c := Next(r, step), r.calls[step.call];
    PerformKeepsValid(r.rows, Delete(c.id));
    HistoryIsPart(r, step.call);
    if Exists(r.rows, c.id) { PathsAreUsed(r.rows, c.id); }
    forall k | k in t.calls ensures CallOk(t, k) && CallIsApart(t, k) { CommitDeleteKeepsCall(r, step, k); }
    forall p | p in t.orphans ensures OrphanOk(t, p) {
      if p in r.orphans { assert OrphanOk(r, p); } else { DeletedPathIsFree(r, p); }
    }
    forall p | p in t.rows.blobs ensures Kept(t, p) { StillKept(r, t, p); }
    forall p | p in t.disk ensures Accounted(t, p) {
      assert Accounted(r, p);
      if k :| StoredBy(r, k, p) && k != step.call { assert StoredBy(t, k, p); }
    }
  }

  /** No call in flight stores a blob under a committed path. */
  lemma DeletedPathIsFree(r: Race, p: Path)
    requires RaceInv(r) && p.token in r.rows.used
    ensures forall k :: k in r.calls ==> !HasToken(r.calls[k], p.token)
  {
    forall k | k in r.calls ensures !HasToken(r.calls[k], p.token) { assert CallIsApart(r, k); }
  }

  lemma StepKeepsRaceInv(r: Race, step: Step)
    requires RaceInv(r) && Possible(r, step)
    ensures RaceInv(Next(r, step))
  {
    match step
    case Insert(_, _) => InsertKeepsInv(r, step);
    case ReadLatest(_, _, _, _) => ReadLatestKeepsInv(r, step);
    case PutVersion(_) => PutVersionKeepsInv(r, step);
    case CommitVersion(_) => CommitVersionKeepsInv(r, step);
    case PutUpload(_, _, _, _, _) => PutUploadKeepsInv(r, step);
    case CommitUpload(_) => CommitUploadKeepsInv(r, step);
    case ReadHistory(_, _) => ReadHistoryKeepsInv(r, step);
    case Remove(_, _) => RemoveKeepsInv(r, step);
    case CommitDelete(_) => CommitDeleteKeepsInv(r, step);
  }

  // ---------- every interleaving ----------

  ghost predicate IsInterleaving(steps: seq<Step>)
    decreases |steps|, 0
  {
    steps == [] ||
    var before := steps[..|steps| - 1];
    IsInterleaving(before) && Possible(RaceAfter(before), steps[|steps| - 1])
  }

  ghost function RaceAfter(steps: seq<Step>): Race
    requires IsInterleaving(steps)
    decreases |steps|, 1
  {
    if steps == [] then Race(Store(map[], map[], map[], {}), map[], map[], {})
    else Next(RaceAfter(steps[..|steps| - 1]), steps[|steps| - 1])
  }

  lemma {:induction false} InterleavingKeepsInv(steps: seq<Step>)
    requires IsInterleaving(steps)
    ensures RaceInv(RaceAfter(steps))
  {
    if steps == [] {
      EmptyIsValid();
    } else {
      InterleavingKeepsInv(steps[..|steps| - 1]);
      StepKeepsRaceInv(RaceAfter(steps[..|steps| - 1]), steps[|steps| - 1]);
    }
  }

  /** What survives every interleaving, first agreement: an artifact's versions are numbered exactly 1..k and
      it points at version k's path. */
  lemma NumbersSurvive(steps: seq<Step>, id: Id)
    requires IsInterleaving(steps) && id in RaceAfter(steps).rows.artifacts
    ensures var s := RaceAfter(steps).rows;
      && id in s.versions
      && (forall i :: 0 <= i < |s.versions[id]| ==> s.versions[id][i].number == i + 1)
      && s.artifacts[id].path ==
           if s.versions[id] == [] then None else Some(s.versions[id][|s.versions[id]| - 1].path)
  {
    InterleavingKeepsInv(steps);
    ArtifactAgrees(RaceAfter(steps).rows, id);
  }

  /** Second agreement: a blob is on disk if and only if a version names it and no delete in flight has removed
      it, or it was left behind, or a call in flight has stored it. */
  lemma BlobsInFlight(steps: seq<Step>, p: Path)
    requires IsInterleaving(steps)
    ensures var r := RaceAfter(steps);
      p in r.disk <==>
        || (Named(r.rows, p) && !exists k :: RemovedBy(r, k, p))
        || p in r.orphans
        || exists k :: StoredBy(r, k, p)
  {
    var r := RaceAfter(steps);
    InterleavingKeepsInv(steps);
    NamedIsUsed(r.rows, p);
    forall k | k in r.calls ensures (StoredBy(r, k, p) ==> p in r.disk) && (RemovedBy(r, k, p) ==> p !in r.disk) {
      assert CallOk(r, k);
    }
    assert p in r.orphans ==> OrphanOk(r, p);
    assert p in r.rows.blobs ==> Kept(r, p);
    assert p in r.disk ==> Accounted(r, p);
  }

  /** A delete removes blobs while the versions that name them are still there. */
  lemma RemovalComesFirst(r: Race, k: nat, p: Path)
    requires RaceInv(r) && Possible(r, Remove(k, p)) && Exists(r.rows, r.calls[k].id)
    ensures var t := Next(r, Remove(k, p)); Named(t.rows, p) && p !in t.disk
  {
    var id := r.calls[k].id;
    assert CallOk(r, k);
    var i :| 0 <= i < r.calls[k].seen && r.rows.versions[id][..r.calls[k].seen][i].path == p;
    assert Names(Next(r, Remove(k, p)).rows, id, i, p);
  }

  /** With no call in flight, every version's blob is there, and what else is there was left behind. */
  lemma BlobsAtRest(steps: seq<Step>, p: Path)
    requires IsInterleaving(steps) && RaceAfter(steps).calls == map[]
    ensures p in RaceAfter(steps).disk <==> Named(RaceAfter(steps).rows, p) || p in RaceAfter(steps).orphans
  {
    BlobsInFlight(steps, p);
  }

  /** The paths of all versions but the first `seen`. */
  function LatePaths(vs: seq<Version>, seen: nat): set<Path> {
    if seen <= |vs| then PathsOf(vs[seen..]) else {}
  }

  /** What a delete leaves behind, when it is the only one of its artifact: exactly the blobs of the versions
      committed since it read the history. */
  lemma DeleteLeavesLateVersions(r: Race, k: nat)
    requires RaceInv(r) && Possible(r, CommitDelete(k)) && Exists(r.rows, r.calls[k].id)
    requires forall d :: d in r.calls && d != k && r.calls[d].Deleting? ==> r.calls[d].id != r.calls[k].id
    ensures Next(r, CommitDelete(k)).orphans == r.orphans + LatePaths(r.rows.versions[r.calls[k].id], r.calls[k].seen)
  {
    var c := r.calls[k];
    var vs := r.rows.versions[c.id];
    assert CallOk(r, k);
    forall j | 0 <= j < c.seen ensures vs[j].path !in r.disk {
      assert vs[..c.seen][j] in vs[..c.seen];
    }
    forall p | p in LeftBehind(r, c.id) ensures p in LatePaths(vs, c.seen) {
      var i :| 0 <= i < |vs| && vs[i].path == p;
      assert vs[c.seen..][i - c.seen] in vs[c.seen..];
    }
    forall p | p in LatePaths(vs, c.seen) ensures p in LeftBehind(r, c.id) {
      var i :| c.seen <= i < |vs| && vs[i].path == p;
      LateVersionIsOnDisk(r, k, i);
    }
  }

  lemma LateVersionIsOnDisk(r: Race, k: nat, i: nat)
    requires RaceInv(r) && k in r.calls && r.calls[k].Deleting? && Exists(r.rows, r.calls[k].id)
    requires forall d :: d in r.calls && d != k && r.calls[d].Deleting? ==> r.calls[d].id != r.calls[k].id
    requires r.calls[k].seen <= i < |r.rows.versions[r.calls[k].id]|
    ensures r.rows.versions[r.calls[k].id][i].path in r.disk
    ensures r.rows.versions[r.calls[k].id][i].path in PathsOf(r.rows.versions[r.calls[k].id])
  {
    var id := r.calls[k].id;
    var p := r.rows.versions[id][i].path;
    PathsAreUsed(r.rows, id);
    assert r.rows.versions[id][i] in r.rows.versions[id];
    assert Names(r.rows, id, i, p) && Kept(r, p);
    if d :| RemovedBy(r, d, p) {
      RemovedIsEarly(r, d, id, i);
    }
  }

  /** What a delete removes are the paths of its own artifact's versions, of those it has seen. */
  lemma RemovedIsEarly(r: Race, d: nat, id: Id, i: nat)
    requires RaceInv(r) && Exists(r.rows, id) && i < |r.rows.versions[id]|
    requires RemovedBy(r, d, r.rows.versions[id][i].path)
    ensures r.calls[d].id == id && i < r.calls[d].seen
  {
    var c, p := r.calls[d], r.rows.versions[id][i].path;
    assert CallOk(r, d);
    PathsAreUsed(r.rows, id);
    assert r.rows.versions[id][i] in r.rows.versions[id] && Names(r.rows, id, i, p);
    var j :| 0 <= j < c.seen && r.rows.versions[c.id][..c.seen][j].path == p;
    assert Names(r.rows, c.id, j, p);
  }

  // ---------- calls nobody interferes with ----------

  /** A new version whose steps follow one another does what the whole operation does. */
  lemma LoneVersion(r: Race, call: nat, id: Id, data: Bytes, token: nat)
    requires RaceInv(r) && Possible(r, ReadLatest(call, id, data, token))
    ensures var r1 := Next(r, ReadLatest(call, id, data, token));
      && Possible(r1, PutVersion(call))
      && var r2 := Next(r1, PutVersion(call));
      && Possible(r2, CommitVersion(call))
      && var r3 := Next(r2, CommitVersion(call));
      && r3.rows == Performed(r.rows, NewVersion(id, data, token))
      && r3.calls == r.calls && r3.orphans == r.orphans
      && r3.disk == r.disk[VersionPath(r.rows.artifacts[id].prefix, |r.rows.versions[id]| + 1, token) := data]
  {
    var r1 := Next(r, ReadLatest(call, id, data, token));
    var r2 := Next(r1, PutVersion(call));
    NumbersOf(r.rows, id);
    RowIsNextVersion(r.rows, r2.calls[call]);
    forall v | v in r.rows.versions[id] ensures v.number != |r.rows.versions[id]| + 1 {
      var i :| 0 <= i < |r.rows.versions[id]| && r.rows.versions[id][i] == v;
    }
    assert r2.calls - {call} == r.calls;
  }

  /** So does an upload. */
  lemma LoneUpload(r: Race, call: nat, id: Id, prefix: string, data: Bytes, token: nat)
    requires RaceInv(r) && Possible(r, PutUpload(call, id, prefix, data, token))
    ensures var r1 := Next(r, PutUpload(call, id, prefix, data, token));
      && Possible(r1, CommitUpload(call))
      && var r2 := Next(r1, CommitUpload(call));
      && r2.rows == Performed(r.rows, Upload(id, prefix, data, token))
      && r2.calls == r.calls && r2.orphans == r.orphans && r2.disk == r.disk[Path(prefix, token) := data]
  {
    var r1 := Next(r, PutUpload(call, id, prefix, data, token));
    assert r1.calls - {call} == r.calls;
  }

  /** `call` can remove the blobs of these paths, one after the other. */
  ghost predicate CanRemove(r: Race, call: nat, ps: seq<Path>)
    decreases |ps|
  {
    ps == [] || (Possible(r, Remove(call, ps[0])) && CanRemove(Next(r, Remove(call, ps[0])), call, ps[1..]))
  }

  ghost function AfterRemoves(r: Race, call: nat, ps: seq<Path>): Race
    requires CanRemove(r, call, ps)
    decreases |ps|
  {
    if ps == [] then r else AfterRemoves(Next(r, Remove(call, ps[0])), call, ps[1..])
  }

  function Among(ps: seq<Path>): set<Path> {
    set p | p in ps
  }

  predicate NoRepeats(ps: seq<Path>) {
    forall i, j :: 0 <= i < j < |ps| ==> ps[i] != ps[j]
  }

  /** With the blobs of `gone` removed by `call`. */
  ghost function WithRemoved(r: Race, call: nat, gone: set<Path>): Race
    requires call in r.calls && r.calls[call].Deleting?
  {
    var c := r.calls[call];
    r.(disk := r.disk - gone, calls := r.calls[call := c.(left := c.left - gone)], orphans := r.orphans - gone)
  }

  lemma OneMoreRemoved(r: Race, call: nat, p: Path, gone: set<Path>)
    requires Possible(r, Remove(call, p))
    ensures WithRemoved(Next(r, Remove(call, p)), call, gone) == WithRemoved(r, call, {p} + gone)
  {
    var c := r.calls[call];
    assert c.left - {p} - gone == c.left - ({p} + gone);
    assert r.disk - {p} - gone == r.disk - ({p} + gone);
    assert r.orphans - {p} - gone == r.orphans - ({p} + gone);
  }

  lemma NoneRemoved(r: Race, call: nat)
    requires call in r.calls && r.calls[call].Deleting?
    ensures WithRemoved(r, call, {}) == r
  {
    var c := r.calls[call];
    assert c.left - {} == c.left && c.(left := c.left) == c;
    assert r.calls[call := c] == r.calls;
    assert r.disk - {} == r.disk && r.orphans - {} == r.orphans;
  }

  lemma {:induction false} RemovesAll(r: Race, call: nat, ps: seq<Path>)
    requires call in r.calls && r.calls[call].Deleting? && NoRepeats(ps) && Among(ps) <= r.calls[call].left
    ensures CanRemove(r, call, ps) && AfterRemoves(r, call, ps) == WithRemoved(r, call, Among(ps))
    decreases |ps|
  {
    if ps == [] {
      assert Among(ps) == {};
      NoneRemoved(r, call);
    } else {
      FirstAmong(ps);
      RemovesAll(Next(r, Remove(call, ps[0])), call, ps[1..]);
      OneMoreRemoved(r, call, ps[0], Among(ps[1..]));
    }
  }

  lemma FirstAmong(ps: seq<Path>)
    requires ps != [] && NoRepeats(ps)
    ensures Among(ps) == {ps[0]} + Among(ps[1..]) && ps[0] !in Among(ps[1..]) && NoRepeats(ps[1..])
  {
    assert ps == [ps[0]] + ps[1..];
  }

  /** A delete with no other step in between, in whatever order it removes the blobs, does what the whole
      operation does, and leaves no blob of its artifact on disk. */
  lemma LoneDelete(r: Race, call: nat, id: Id, ps: seq<Path>)
    requires RaceInv(r) && Possible(r, ReadHistory(call, id))
    requires NoRepeats(ps) && Among(ps) == PathsOf(r.rows.versions[id])
    ensures var r1 := Next(r, ReadHistory(call, id));
      && CanRemove(r1, call, ps)
      && var r2 := AfterRemoves(r1, call, ps);
      && Possible(r2, CommitDelete(call))
      && var r3 := Next(r2, CommitDelete(call));
      && r3.rows == Performed(r.rows, Delete(id))
      && r3.calls == r.calls && r3.orphans == r.orphans && r3.disk == r.disk - PathsOf(r.rows.versions[id])
  {
    var r1 := Next(r, ReadHistory(call, id));
    RemovesAll(r1, call, ps);
    var r2 := AfterRemoves(r1, call, ps);
    var paths := PathsOf(r.rows.versions[id]);
    PathsAreUsed(r.rows, id);
    forall p | p in r.orphans ensures p !in r.rows.blobs { assert OrphanOk(r, p); }
    assert LeftBehind(r2, id) == {};
    assert r.orphans - paths == r.orphans;
    assert r2.calls - {call} == r.calls;
  }
}
