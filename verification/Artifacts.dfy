/** Artifact versioning: database rows and stored blobs, kept in step by the artifact service. */
module Artifacts {
  import opened Graphs

  type Bytes = seq<bv8>

  /** A storage path: the readable prefix, and the UUID that ends it. */
  datatype Path = Path(prefix: string, token: nat)

  datatype Artifact = Artifact(prefix: string, path: Option<Path>, size: nat)

  datatype Version = Version(number: nat, path: Path)

  /** The two tables and the blob store; `used` are the UUIDs generated for paths so far. */
  datatype Store = Store(
    artifacts: map<Id, Artifact>,
    versions: map<Id, seq<Version>>,
    blobs: map<Path, Bytes>,
    used: set<nat>)

  // ---------- invariant ----------

  /** Versions are numbered 1..k, and the artifact points at version k's blob and knows its size. */
  ghost predicate ArtifactOk(s: Store, id: Id)
    requires id in s.artifacts && id in s.versions
  {
    var vs := s.versions[id];
    && (forall i :: 0 <= i < |vs| ==> vs[i].number == i + 1 && vs[i].path in s.blobs && vs[i].path.token in s.used)
    && (if vs == [] then s.artifacts[id].path == None
        else s.artifacts[id].path == Some(vs[|vs| - 1].path) && s.artifacts[id].size == |s.blobs[vs[|vs| - 1].path]|)
  }

  /** Version `i` of artifact `id` has path `p`. */
  predicate Names(s: Store, id: Id, i: int, p: Path) {
    id in s.versions && 0 <= i < |s.versions[id]| && s.versions[id][i].path == p
  }

  ghost predicate Named(s: Store, p: Path) {
    exists id, i :: Names(s, id, i, p)
  }

  ghost predicate Valid(s: Store) {
    && s.artifacts.Keys == s.versions.Keys
    && (forall id {:trigger ArtifactOk(s, id)} :: id in s.artifacts ==> ArtifactOk(s, id))
    && (forall p :: p in s.blobs ==> Named(s, p))
    && (forall id, i, id', j, p {:trigger Names(s, id, i, p), Names(s, id', j, p)} ::
          Names(s, id, i, p) && Names(s, id', j, p) ==> id == id' && i == j)
  }

  // ---------- operations on values ----------

  /** `create_artifact` without a storage path: a row with no versions. */
  function Created(s: Store, id: Id, prefix: string): Store {
    s.(artifacts := s.artifacts[id := Artifact(prefix, None, 0)], versions := s.versions[id := []])
  }

  /** Stores a blob and appends the version that names it. */
  function VersionAdded(s: Store, id: Id, path: Path, data: Bytes): Store
    requires id in s.artifacts && id in s.versions
  {
    var vs := s.versions[id];
    Store(s.artifacts[id := s.artifacts[id].(path := Some(path), size := |data|)],
          s.versions[id := vs + [Version(NextNumber(vs), path)]],
          s.blobs[path := data],
          s.used + {path.token})
  }

  /** `ORDER BY version_number DESC LIMIT 1` */
  function Latest(vs: seq<Version>): (v: Version)
    requires vs != []
    ensures v in vs && forall w :: w in vs ==> w.number <= v.number
  {
    if |vs| == 1 then vs[0]
    else
      var v := Latest(vs[..|vs| - 1]);
      assert vs == vs[..|vs| - 1] + [vs[|vs| - 1]];
      if v.number < vs[|vs| - 1].number then vs[|vs| - 1] else v
  }

  function NextNumber(vs: seq<Version>): nat {
    if vs == [] then 1 else Latest(vs).number + 1
  }

  function PathsOf(vs: seq<Version>): set<Path> {
    set v | v in vs :: v.path
  }

  function Deleted(s: Store, id: Id): Store
    requires id in s.versions
  {
    s.(artifacts := s.artifacts - {id}, versions := s.versions - {id}, blobs := s.blobs - PathsOf(s.versions[id]))
  }

  function UploadPath(prefix: string, token: nat): Path {
    Path(prefix, token)
  }

  /** Decimal digits, as in the `v{number}` part of a version's path. */
  function Digits(n: nat): string {
    if n < 10 then ['0' + n as char] else Digits(n / 10) + ['0' + (n % 10) as char]
  }

  function VersionPath(prefix: string, number: nat, token: nat): Path {
    Path(prefix + "/v" + Digits(number), token)
  }

  /** The number a string of decimal digits stands for. */
  function Number(digits: string): int {
    if digits == "" then 0 else 10 * Number(digits[..|digits| - 1]) + (digits[|digits| - 1] as int - '0' as int)
  }

  predicate IsDecimal(s: string) {
    && s != "" && (|s| > 1 ==> s[0] != '0')
    && forall i :: 0 <= i < |s| ==> '0' <= s[i] <= '9'
  }

  lemma {:induction false} DigitsAreDecimal(n: nat)
    ensures IsDecimal(Digits(n)) && Number(Digits(n)) == n && (0 < n ==> Digits(n)[0] != '0')
  {
    if n < 10 {
      assert Digits(n)[..0] == "";
      DigitOf(n);
    } else {
      DigitsAreDecimal(n / 10);
      DigitOf(n % 10);
      assert Digits(n)[..|Digits(n)| - 1] == Digits(n / 10);
    }
  }

  lemma DigitOf(d: nat)
    requires d < 10
    ensures var c := '0' + d as char; '0' <= c <= '9' && c as int - '0' as int == d && (0 < d ==> c != '0')
  {
  }

  /** A version's path is the prefix, `/v`, the number in decimal, and the UUID. */
  lemma VersionPathReads(prefix: string, number: nat, token: nat)
    ensures var path := VersionPath(prefix, number, token);
      && path.token == token && |prefix| + 2 <= |path.prefix| && path.prefix[..|prefix| + 2] == prefix + "/v"
      && IsDecimal(path.prefix[|prefix| + 2..]) && Number(path.prefix[|prefix| + 2..]) == number
  {
    DigitsAreDecimal(number);
    var text := VersionPath(prefix, number, token).prefix;
    assert text[|prefix| + 2..] == Digits(number) && text[..|prefix| + 2] == prefix + "/v";
  }

  // ---------- the invariant is kept ----------

  lemma EmptyIsValid()
    ensures Valid(Store(map[], map[], map[], {}))
  {
  }

  lemma CreateKeepsValid(s: Store, id: Id, prefix: string)
    requires Valid(s) && id !in s.artifacts
    ensures Valid(Created(s, id, prefix))
  {
    var t := Created(s, id, prefix);
    forall x | x in t.artifacts ensures ArtifactOk(t, x) {
      if x != id { assert ArtifactOk(s, x); }
    }
    forall x, i, p ensures Names(t, x, i, p) <==> Names(s, x, i, p) {
    }
    forall p | p in t.blobs ensures Named(t, p) {
      var x, i :| Names(s, x, i, p);
      assert Names(t, x, i, p);
    }
  }

  lemma LatestIsLast(vs: seq<Version>)
    requires vs != [] && forall i :: 0 <= i < |vs| ==> vs[i].number == i + 1
    ensures Latest(vs) == vs[|vs| - 1]
  {
    var v := Latest(vs);
    var i :| 0 <= i < |vs| && vs[i] == v;
    assert vs[|vs| - 1] in vs;
  }

  /** A path some version names carries a used token and holds a blob. */
  lemma NamedIsUsed(s: Store, path: Path)
    requires Valid(s)
    ensures Named(s, path) ==> path.token in s.used && path in s.blobs
  {
    if id, i :| Names(s, id, i, path) {
      assert ArtifactOk(s, id);
    }
  }

  lemma AddNames(s: Store, id: Id, path: Path, data: Bytes, x: Id, i: int, p: Path)
    requires id in s.artifacts && id in s.versions
    ensures Names(VersionAdded(s, id, path, data), x, i, p)
      <==> Names(s, x, i, p) || (x == id && i == |s.versions[id]| && p == path)
  {
  }

  lemma AddKeepsOthersOk(s: Store, id: Id, path: Path, data: Bytes, x: Id)
    requires id in s.artifacts && id in s.versions && path !in s.blobs
    requires x in s.artifacts && x in s.versions && x != id && ArtifactOk(s, x)
    ensures ArtifactOk(VersionAdded(s, id, path, data), x)
  {
    var t := VersionAdded(s, id, path, data);
    assert t.versions[x] == s.versions[x] && t.artifacts[x] == s.artifacts[x];
    forall i | 0 <= i < |s.versions[x]|
      ensures s.versions[x][i].path in t.blobs && t.blobs[s.versions[x][i].path] == s.blobs[s.versions[x][i].path]
    {
    }
  }

  lemma AddKeepsOwnOk(s: Store, id: Id, path: Path, data: Bytes)
    requires id in s.artifacts && id in s.versions && path !in s.blobs && ArtifactOk(s, id)
    ensures ArtifactOk(VersionAdded(s, id, path, data), id)
  {
    var t, vs := VersionAdded(s, id, path, data), s.versions[id];
    if vs != [] {
      LatestIsLast(vs);
    }
    assert t.versions[id] == vs + [Version(|vs| + 1, path)];
    forall i | 0 <= i < |t.versions[id]|
      ensures t.versions[id][i].number == i + 1 && t.versions[id][i].path in t.blobs
        && t.versions[id][i].path.token in t.used
    {
    }
  }

  lemma AddKeepsValid(s: Store, id: Id, path: Path, data: Bytes)
    requires Valid(s) && id in s.artifacts && path.token !in s.used
    ensures Valid(VersionAdded(s, id, path, data))
  {
    var t := VersionAdded(s, id, path, data);
    NamedIsUsed(s, path);
    assert path !in s.blobs && !Named(s, path);
    forall x | x in t.artifacts ensures ArtifactOk(t, x) {
      assert ArtifactOk(s, x);
      if x == id { AddKeepsOwnOk(s, id, path, data); } else { AddKeepsOthersOk(s, id, path, data, x); }
    }
    forall p | p in t.blobs ensures Named(t, p) {
      if p == path {
        AddNames(s, id, path, data, id, |s.versions[id]|, path);
      } else {
        var x, i :| Names(s, x, i, p);
        AddNames(s, id, path, data, x, i, p);
      }
    }
    forall x, i, y, j, p | Names(t, x, i, p) && Names(t, y, j, p) ensures x == y && i == j {
      AddNames(s, id, path, data, x, i, p);
      AddNames(s, id, path, data, y, j, p);
      assert p == path ==> !Names(s, x, i, p) && !Names(s, y, j, p);
    }
  }

  lemma DeleteKeepsValid(s: Store, id: Id)
    requires Valid(s) && id in s.artifacts
    ensures Valid(Deleted(s, id))
  {
    var t := Deleted(s, id);
    forall x, i, p | x != id && Names(s, x, i, p) ensures p !in PathsOf(s.versions[id]) {
      if p in PathsOf(s.versions[id]) {
        var j :| 0 <= j < |s.versions[id]| && s.versions[id][j].path == p;
        assert Names(s, id, j, p);
      }
    }
    forall x | x in t.artifacts ensures ArtifactOk(t, x) {
      assert ArtifactOk(s, x);
      assert forall i :: 0 <= i < |s.versions[x]| ==> Names(s, x, i, s.versions[x][i].path);
    }
    forall p | p in t.blobs ensures Named(t, p) {
      var x, i :| Names(s, x, i, p);
      assert Names(t, x, i, p);
    }
    forall x, i, y, j, p | Names(t, x, i, p) && Names(t, y, j, p) ensures x == y && i == j {
      assert Names(s, x, i, p) && Names(s, y, j, p);
    }
  }

  // ---------- whole histories ----------

  datatype Operation =
    | Create(id: Id, prefix: string)
    | Upload(id: Id, prefix: string, data: Bytes, token: nat)
    | NewVersion(id: Id, data: Bytes, token: nat)
    | Delete(id: Id)

  /** New rows get new ids and new paths new UUIDs. */
  predicate Fresh(s: Store, op: Operation) {
    match op
    case Create(id, _) => id !in s.artifacts
    case Upload(id, _, _, token) => id !in s.artifacts && token !in s.used
    case NewVersion(_, _, token) => token !in s.used
    case Delete(_) => true
  }

  /** What one call of the service leaves; on a missing artifact nothing changes. */
  function Performed(s: Store, op: Operation): Store {
    match op
    case Create(id, prefix) => Created(s, id, prefix)
    case Upload(id, prefix, data, token) =>
      VersionAdded(Created(s, id, prefix), id, UploadPath(prefix, token), data)
    case NewVersion(id, data, token) =>
      if id in s.artifacts && id in s.versions
      then VersionAdded(s, id, VersionPath(s.artifacts[id].prefix, NextNumber(s.versions[id]), token), data)
      else s
    case Delete(id) => if id in s.artifacts && id in s.versions then Deleted(s, id) else s
  }

  lemma PerformKeepsValid(s: Store, op: Operation)
    requires Valid(s) && Fresh(s, op)
    ensures Valid(Performed(s, op))
  {
    match op
    case Create(id, prefix) => CreateKeepsValid(s, id, prefix);
    case Upload(id, prefix, data, token) =>
      CreateKeepsValid(s, id, prefix);
      AddKeepsValid(Created(s, id, prefix), id, UploadPath(prefix, token), data);
    case NewVersion(id, data, token) =>
      if id in s.artifacts {
        AddKeepsValid(s, id, VersionPath(s.artifacts[id].prefix, NextNumber(s.versions[id]), token), data);
      }
    case Delete(id) => if id in s.artifacts { DeleteKeepsValid(s, id); }
  }

  /** Every operation is fresh for the store it meets. */
  ghost predicate IsHistory(ops: seq<Operation>) {
    ops == [] || (IsHistory(ops[..|ops| - 1]) && Fresh(StoreAfter(ops[..|ops| - 1]), ops[|ops| - 1]))
  }

  function StoreAfter(ops: seq<Operation>): Store {
    if ops == [] then Store(map[], map[], map[], {})
    else Performed(StoreAfter(ops[..|ops| - 1]), ops[|ops| - 1])
  }

  lemma {:induction false} HistoryKeepsValid(ops: seq<Operation>)
    requires IsHistory(ops)
    ensures Valid(StoreAfter(ops))
  {
    if ops != [] {
      HistoryKeepsValid(ops[..|ops| - 1]);
      PerformKeepsValid(StoreAfter(ops[..|ops| - 1]), ops[|ops| - 1]);
    }
  }

  /** After any history: every artifact's versions are numbered exactly 1..k, it points at version k's
      path, and a path holds a blob if and only if some version names it, and then exactly one does. */
  lemma RowsAndBlobsAgree(ops: seq<Operation>)
    requires IsHistory(ops)
    ensures var s := StoreAfter(ops);
      && s.artifacts.Keys == s.versions.Keys
      && (forall id :: id in s.artifacts ==>
            && (forall i :: 0 <= i < |s.versions[id]| ==> s.versions[id][i].number == i + 1)
            && s.artifacts[id].path ==
                 if s.versions[id] == [] then None else Some(s.versions[id][|s.versions[id]| - 1].path))
      && (forall p :: p in s.blobs <==> Named(s, p))
      && (forall id, i, id', j, p {:trigger Names(s, id, i, p), Names(s, id', j, p)} ::
            Names(s, id, i, p) && Names(s, id', j, p) ==> id == id' && i == j)
  {
    var s := StoreAfter(ops);
    HistoryKeepsValid(ops);
    forall id | id in s.artifacts
      ensures forall i :: 0 <= i < |s.versions[id]| ==> s.versions[id][i].number == i + 1
      ensures s.artifacts[id].path ==
        if s.versions[id] == [] then None else Some(s.versions[id][|s.versions[id]| - 1].path)
    {
      ArtifactAgrees(s, id);
    }
    forall p ensures p in s.blobs <==> Named(s, p) {
      NamedIsUsed(s, p);
    }
  }

  lemma ArtifactAgrees(s: Store, id: Id)
    requires Valid(s) && id in s.artifacts
    ensures id in s.versions
    ensures forall i :: 0 <= i < |s.versions[id]| ==> s.versions[id][i].number == i + 1
    ensures s.artifacts[id].path ==
      if s.versions[id] == [] then None else Some(s.versions[id][|s.versions[id]| - 1].path)
  {
    assert ArtifactOk(s, id);
  }

  /** Stored contents are never overwritten, and a delete removes exactly the deleted artifact's blobs. */
  lemma ContentsAreKept(s: Store, op: Operation, p: Path)
    requires Valid(s) && Fresh(s, op) && p in s.blobs
    ensures var t := Performed(s, op);
      if op.Delete? && exists i :: Names(s, op.id, i, p) then p !in t.blobs
      else p in t.blobs && t.blobs[p] == s.blobs[p]
  {
    var x, i :| Names(s, x, i, p);
    assert ArtifactOk(s, x);
    match op
    case Create(_, _) =>
    case Upload(_, _, _, _) =>
    case NewVersion(_, _, _) =>
    case Delete(id) =>
      if id in s.artifacts {
        if j :| Names(s, id, j, p) {
          assert s.versions[id][j] in s.versions[id] && s.versions[id][j].path == p;
        } else {
          if v :| v in s.versions[id] && v.path == p {
            var j :| 0 <= j < |s.versions[id]| && s.versions[id][j] == v;
            assert Names(s, id, j, p);
          }
        }
      }
  }

  /** Creating the row and adding version 1, seen as one update of each table. */
  lemma UploadInOneGo(s: Store, id: Id, prefix: string, path: Path, data: Bytes)
    ensures VersionAdded(Created(s, id, prefix), id, path, data) ==
      Store(s.artifacts[id := Artifact(prefix, Some(path), |data|)], s.versions[id := [Version(1, path)]],
            s.blobs[path := data], s.used + {path.token})
  {
    var c := Created(s, id, prefix);
    assert c.versions[id] + [Version(1, path)] == [Version(1, path)];
    assert c.versions[id := [Version(1, path)]] == s.versions[id := [Version(1, path)]];
    var row := Artifact(prefix, Some(path), |data|);
    assert c.artifacts[id := row] == s.artifacts[id := row];
  }

  // ---------- the service ----------

  class ArtifactService {
    var artifacts: map<Id, Artifact>
    var versions: map<Id, seq<Version>>
    var blobs: map<Path, Bytes>
    ghost var used: set<nat>

    constructor ()
      ensures Valid(Abs())
    {
      artifacts, versions, blobs, used := map[], map[], map[], {};
      new;
      EmptyIsValid();
    }

    ghost function Abs(): Store
      reads this
    {
      Store(artifacts, versions, blobs, used)
    }

    method CreateArtifact(id: Id, prefix: string)
      requires Valid(Abs()) && Fresh(Abs(), Create(id, prefix))
      modifies this
      ensures Abs() == Performed(old(Abs()), Create(id, prefix)) && Valid(Abs())
      ensures artifacts == old(artifacts)[id := Artifact(prefix, None, 0)] && versions == old(versions)[id := []]
      ensures blobs == old(blobs)
    {
      CreateKeepsValid(Abs(), id, prefix);
      artifacts := artifacts[id := Artifact(prefix, None, 0)];
      versions := versions[id := []];
    }

    method UploadArtifact(id: Id, prefix: string, data: Bytes, token: nat)
      requires Valid(Abs()) && Fresh(Abs(), Upload(id, prefix, data, token))
      modifies this
      ensures Abs() == Performed(old(Abs()), Upload(id, prefix, data, token)) && Valid(Abs())
      ensures artifacts == old(artifacts)[id := Artifact(prefix, Some(Path(prefix, token)), |data|)]
      ensures versions == old(versions)[id := [Version(1, Path(prefix, token))]]
      ensures blobs == old(blobs)[Path(prefix, token) := data]
    {
      PerformKeepsValid(Abs(), Upload(id, prefix, data, token));
      var path := UploadPath(prefix, token);
      used := used + {token};
      blobs := blobs[path := data];
      artifacts := artifacts[id := Artifact(prefix, Some(path), |data|)];
      versions := versions[id := [Version(1, path)]];
      UploadInOneGo(old(Abs()), id, prefix, path, data);
    }

    method CreateNewVersion(id: Id, data: Bytes, token: nat) returns (created: Option<Version>)
      requires Valid(Abs()) && Fresh(Abs(), NewVersion(id, data, token))
      modifies this
      ensures Abs() == Performed(old(Abs()), NewVersion(id, data, token)) && Valid(Abs())
      ensures created.None? <==> id !in old(artifacts)
      ensures created.None? ==> artifacts == old(artifacts) && versions == old(versions) && blobs == old(blobs)
      ensures created.Some? ==>
        var number := |old(versions)[id]| + 1;
        var path := VersionPath(old(artifacts)[id].prefix, number, token);
        && created.value == Version(number, path)
        && versions == old(versions)[id := old(versions)[id] + [created.value]]
        && artifacts == old(artifacts)[id := old(artifacts)[id].(path := Some(path), size := |data|)]
        && blobs == old(blobs)[path := data]
    {
      PerformKeepsValid(Abs(), NewVersion(id, data, token));
      if id !in artifacts {
        return None;
      }
      assert ArtifactOk(Abs(), id);
      var next := NextNumber(versions[id]);
      if versions[id] != [] { LatestIsLast(versions[id]); }
      var path := VersionPath(artifacts[id].prefix, next, token);
      used := used + {token};
      blobs := blobs[path := data];
      versions := versions[id := versions[id] + [Version(next, path)]];
      artifacts := artifacts[id := artifacts[id].(path := Some(path), size := |data|)];
      created := Some(Version(next, path));
    }

    /** The deletion loop. */
    method DeleteBlobs(history: seq<Version>)
      modifies this`blobs
      ensures blobs == old(blobs) - PathsOf(history)
    {
      for i := 0 to |history|
        invariant blobs == old(blobs) - PathsOf(history[..i])
      {
        assert history[..i + 1] == history[..i] + [history[i]];
        assert PathsOf(history[..i + 1]) == PathsOf(history[..i]) + {history[i].path};
        blobs := blobs - {history[i].path};
      }
      assert history[..|history|] == history;
    }

    method DeleteArtifact(id: Id) returns (deleted: bool)
      requires Valid(Abs())
      modifies this
      ensures Abs() == Performed(old(Abs()), Delete(id)) && Valid(Abs())
      ensures deleted <==> id in old(artifacts)
      ensures artifacts == old(artifacts) - {id} && versions == old(versions) - {id}
      ensures deleted ==> blobs == old(blobs) - PathsOf(old(versions)[id])
      ensures !deleted ==> blobs == old(blobs)
    {
      PerformKeepsValid(Abs(), Delete(id));
      if id !in artifacts {
        return false;
      }
      assert ArtifactOk(Abs(), id);
      var history := versions[id];
      DeleteBlobs(history);
      if artifacts[id].path.Some? {
        assert history[|history| - 1] in history;
        blobs := blobs - {artifacts[id].path.value};
      }
      artifacts, versions := artifacts - {id}, versions - {id};
      deleted := true;
    }
  }
}
