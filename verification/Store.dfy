/**
 The tables behind releases and artifacts, and the transactions that change
 them. Every transaction is given twice: as a function on table values, which
 the lifecycle protocol uses, and as a method that updates the tables in place
 statement by statement.
 */
module Store {
  import opened Version
  import opened LatestVersion

  newtype byte = x: int | 0 <= x < 256
  type Bytes = seq<byte>

  /** A recorded checksum: the SHA-256 of some bytes, or text an upstream claims. */
  datatype Digest = NoDigest | Sha256(of: Bytes) | Claimed(text: string)

  datatype ModuleId = ModuleId(owner: string, name: string)
  datatype ReleaseId = ReleaseId(mod: ModuleId, version: string)

  /** Object names: a published artifact, an upstream cache entry, or anything else. */
  datatype Path = Artifact(id: ReleaseId, sha: Digest) | Cached(file: string) | Other(name: string)

  datatype Source = Local | Upstream

  datatype Row = Row(id: string, source: Source, sha: Digest, md5: string, size: nat, path: Option<Path>, uri: string)

  /** `deletions` is the outbox `artifact_deletions`, `tombstones` is `deleted_releases`. */
  datatype Tables = Tables(
    modules: map<ModuleId, string>,
    releases: map<ReleaseId, Row>,
    deletions: map<Path, ModuleId>,
    tombstones: set<ReleaseId>)

  function Versions(t: Tables, m: ModuleId): set<string>
  {
    set id | id in t.releases && id.mod == m :: id.version
  }

  predicate References(t: Tables, p: Path)
  {
    exists id :: id in t.releases && t.releases[id].path == Some(p)
  }

  /* ---------- transactions as functions ---------- */

  function Enqueue(deletions: map<Path, ModuleId>, p: Path, m: ModuleId): map<Path, ModuleId>
  {
    if p in deletions then deletions else deletions[p := m]
  }

  function UpsertModuleTx(t: Tables, m: ModuleId): Tables
  {
    if m in t.modules then t else t.(modules := t.modules[m := ""])
  }

  /** `on conflict (module_id, version) do update` leaves the row's id alone. */
  function StoredRow(t: Tables, id: ReleaseId, row: Row): Row
  {
    if id in t.releases then row.(id := t.releases[id].id) else row
  }

  function ReplacedArtifact(t: Tables, id: ReleaseId, row: Row): Option<Path>
  {
    if id in t.releases && t.releases[id].source == Local && t.releases[id].path.Some? && t.releases[id].path != row.path
    then t.releases[id].path else None
  }

  function QueueAfterCreate(t: Tables, id: ReleaseId, row: Row): map<Path, ModuleId>
  {
    var canceled := if row.source == Local && row.path.Some? then t.deletions - {row.path.value} else t.deletions;
    match ReplacedArtifact(t, id, row)
    case None => canceled
    case Some(p) => Enqueue(canceled, p, id.mod)
  }

  function CreateReleaseTx(t: Tables, id: ReleaseId, row: Row): Tables
    requires id.mod in t.modules
  {
    t.(releases := t.releases[id := StoredRow(t, id, row)],
       deletions := QueueAfterCreate(t, id, row),
       modules := t.modules[id.mod := WithCandidate(t.modules[id.mod], id.version)])
  }

  /** `latest` is the version recomputed from the remaining rows. */
  function DeleteReleaseTx(t: Tables, id: ReleaseId, latest: string): Tables
    requires id in t.releases
  {
    var row := t.releases[id];
    Tables(
      if Versions(t, id.mod) - {id.version} == {} then t.modules - {id.mod} else t.modules[id.mod := latest],
      t.releases - {id},
      if row.source == Local && row.path.Some? then Enqueue(t.deletions, row.path.value, id.mod) else t.deletions,
      if row.source == Upstream then t.tombstones + {id} else t.tombstones)
  }

  function LocalPaths(t: Tables, m: ModuleId): set<Path>
  {
    set id | id in t.releases && id.mod == m && t.releases[id].source == Local && t.releases[id].path.Some?
           :: t.releases[id].path.value
  }

  function DeleteModuleTx(t: Tables, m: ModuleId): Tables
  {
    Tables(
      t.modules - {m},
      map id | id in t.releases && id.mod != m :: t.releases[id],
      (map p | p in LocalPaths(t, m) :: m) + t.deletions,
      set id | id in t.tombstones && id.mod != m)
  }

  function DeleteModuleIfEmptyTx(t: Tables, m: ModuleId): Tables
  {
    if Versions(t, m) == {} then t.(modules := t.modules - {m}) else t
  }

  function UpdateChecksumsTx(t: Tables, id: ReleaseId, md5: string, sha: Digest, path: Option<Path>, size: nat): Tables
    requires id in t.releases
  {
    t.(releases := t.releases[id := t.releases[id].(md5 := md5, sha := sha, path := path, size := size)])
  }

  function CompleteDeletionTx(t: Tables, p: Path): Tables { t.(deletions := t.deletions - {p}) }

  /* ---------- what every transaction keeps ---------- */

  /** A local row names its own artifact and its size; an upstream row names a cache entry or nothing. */
  predicate WellFormedRow(id: ReleaseId, row: Row)
  {
    match row.source
    case Local => row.sha.Sha256? && row.path == Some(Artifact(id, row.sha)) && row.size == |row.sha.of|
    case Upstream => row.path.None? || row.path.value.Cached?
  }

  predicate RowsWellFormed(t: Tables)
  {
    forall id :: id in t.releases ==> id.mod in t.modules && WellFormedRow(id, t.releases[id])
  }

  predicate LatestVersionsRight(t: Tables)
  {
    forall m :: m in t.modules ==> IsLatest(t.modules[m], Versions(t, m))
  }

  /** Queued paths are artifacts, filed under their own module, and not referenced. */
  predicate QueueDisjoint(t: Tables)
  {
    forall p :: p in t.deletions ==> p.Artifact? && p.id.mod == t.deletions[p] && !References(t, p)
  }

  predicate Consistent(t: Tables) { RowsWellFormed(t) && LatestVersionsRight(t) && QueueDisjoint(t) }

  /** An artifact can only be referenced by the row of its own release. */
  lemma ArtifactReference(t: Tables, p: Path)
    requires RowsWellFormed(t) && p.Artifact?
    ensures References(t, p) <==> p.id in t.releases && t.releases[p.id].path == Some(p)
  {
  }

  lemma UpsertModuleConsistent(t: Tables, m: ModuleId)
    requires Consistent(t)
    ensures Consistent(UpsertModuleTx(t, m))
  {
    var t' := UpsertModuleTx(t, m);
    forall n | n in t'.modules ensures IsLatest(t'.modules[n], Versions(t', n)) {
      assert Versions(t', n) == Versions(t, n);
    }
    assert forall p :: References(t', p) ==> References(t, p);
  }

  lemma CreateReleaseConsistent(t: Tables, id: ReleaseId, row: Row)
    requires Consistent(t) && id.mod in t.modules && WellFormedRow(id, row)
    ensures Consistent(CreateReleaseTx(t, id, row))
  {
    var t' := CreateReleaseTx(t, id, row);
    LatestAfterCreate(t, id, row);
    forall p | p in t'.deletions ensures p.Artifact? && p.id.mod == t'.deletions[p] && !References(t', p) {
      QueueAfterCreateDisjoint(t, id, row, p);
    }
  }

  lemma LatestAfterCreate(t: Tables, id: ReleaseId, row: Row)
    requires LatestVersionsRight(t) && id.mod in t.modules
    ensures LatestVersionsRight(CreateReleaseTx(t, id, row))
  {
    var t' := CreateReleaseTx(t, id, row);
    CandidateKeepsLatest(t.modules[id.mod], Versions(t, id.mod), id.version);
    forall m | m in t'.modules ensures IsLatest(t'.modules[m], Versions(t', m)) {
      VersionsAfterCreate(t, t', id, m);
    }
  }

  lemma QueueAfterCreateDisjoint(t: Tables, id: ReleaseId, row: Row, p: Path)
    requires RowsWellFormed(t) && QueueDisjoint(t) && id.mod in t.modules && WellFormedRow(id, row)
    requires p in CreateReleaseTx(t, id, row).deletions
    ensures p.Artifact? && p.id.mod == CreateReleaseTx(t, id, row).deletions[p]
    ensures !References(CreateReleaseTx(t, id, row), p)
  {
    var t' := CreateReleaseTx(t, id, row);
    if p in t.deletions { assert !References(t, p); }
    assert p.Artifact?;
    assert RowsWellFormed(t');
    ArtifactReference(t', p);
    ArtifactReference(t, p);
  }

  lemma VersionsAfterCreate(t: Tables, t': Tables, id: ReleaseId, m: ModuleId)
    requires t'.releases.Keys == t.releases.Keys + {id}
    ensures Versions(t', m) == if m == id.mod then Versions(t, m) + {id.version} else Versions(t, m)
  {
    forall v | v in Versions(t, m) ensures v in Versions(t', m) { assert ReleaseId(m, v) in t'.releases; }
    assert id in t'.releases;
  }

  lemma VersionsAfterDelete(t: Tables, t': Tables, id: ReleaseId, m: ModuleId)
    requires t'.releases.Keys == t.releases.Keys - {id}
    ensures Versions(t', m) == if m == id.mod then Versions(t, m) - {id.version} else Versions(t, m)
  {
    forall v | v in Versions(t, m) && ReleaseId(m, v) != id ensures v in Versions(t', m) {
      assert ReleaseId(m, v) in t.releases && ReleaseId(m, v) in t'.releases;
    }
  }

  lemma DeleteReleaseConsistent(t: Tables, id: ReleaseId, latest: string)
    requires Consistent(t) && id in t.releases
    requires IsLatest(latest, Versions(t, id.mod) - {id.version})
    ensures Consistent(DeleteReleaseTx(t, id, latest))
  {
    var t' := DeleteReleaseTx(t, id, latest);
    forall m | m in t'.modules ensures IsLatest(t'.modules[m], Versions(t', m)) {
      VersionsAfterDelete(t, t', id, m);
    }
    forall other | other in t'.releases ensures other.mod in t'.modules {
      if other.mod == id.mod { assert other.version in Versions(t, id.mod) - {id.version}; }
    }
    QueueAfterDeleteDisjoint(t, id, latest);
  }

  lemma QueueAfterDeleteDisjoint(t: Tables, id: ReleaseId, latest: string)
    requires Consistent(t) && id in t.releases && RowsWellFormed(DeleteReleaseTx(t, id, latest))
    ensures QueueDisjoint(DeleteReleaseTx(t, id, latest))
  {
    var t' := DeleteReleaseTx(t, id, latest);
    forall p | p in t'.deletions ensures p.Artifact? && p.id.mod == t'.deletions[p] && !References(t', p) {
      ArtifactReference(t', p);
      ArtifactReference(t, p);
    }
  }

  lemma DeleteModuleConsistent(t: Tables, m: ModuleId)
    requires Consistent(t)
    ensures Consistent(DeleteModuleTx(t, m))
  {
    var t' := DeleteModuleTx(t, m);
    forall n | n in t'.modules ensures IsLatest(t'.modules[n], Versions(t', n)) {
      forall v | v in Versions(t, n) ensures v in Versions(t', n) { assert ReleaseId(n, v) in t'.releases; }
      assert Versions(t', n) == Versions(t, n);
    }
    forall p | p in t'.deletions ensures p.Artifact? && p.id.mod == t'.deletions[p] && !References(t', p) {
      if p in t.deletions { assert !References(t, p); }
      ArtifactReference(t', p);
    }
  }

  lemma DeleteModuleIfEmptyConsistent(t: Tables, m: ModuleId)
    requires Consistent(t)
    ensures Consistent(DeleteModuleIfEmptyTx(t, m))
  {
    var t' := DeleteModuleIfEmptyTx(t, m);
    forall id | id in t'.releases ensures id.mod in t'.modules { assert id.version in Versions(t, id.mod); }
    forall n | n in t'.modules ensures IsLatest(t'.modules[n], Versions(t', n)) {
      assert Versions(t', n) == Versions(t, n);
    }
    assert forall p :: References(t', p) ==> References(t, p);
  }

  lemma UpdateChecksumsConsistent(t: Tables, id: ReleaseId, md5: string, sha: Digest, path: Option<Path>, size: nat)
    requires Consistent(t) && id in t.releases
    requires WellFormedRow(id, t.releases[id].(sha := sha, path := path, size := size))
    requires t.releases[id].source == Local ==> path == t.releases[id].path
    ensures Consistent(UpdateChecksumsTx(t, id, md5, sha, path, size))
  {
    var t' := UpdateChecksumsTx(t, id, md5, sha, path, size);
    forall n | n in t'.modules ensures IsLatest(t'.modules[n], Versions(t', n)) {
      VersionsAfterCreate(t, t', id, n);
      assert id.mod == n ==> id.version in Versions(t, n);
      assert Versions(t', n) == Versions(t, n);
    }
    forall p | p in t'.deletions ensures !References(t', p) {
      ArtifactReference(t', p);
      ArtifactReference(t, p);
    }
  }

  lemma CompleteDeletionConsistent(t: Tables, p: Path)
    requires Consistent(t)
    ensures Consistent(CompleteDeletionTx(t, p))
  {
    var t' := CompleteDeletionTx(t, p);
    forall n | n in t'.modules ensures IsLatest(t'.modules[n], Versions(t', n)) {
      assert Versions(t', n) == Versions(t, n);
    }
    assert forall q :: References(t', q) ==> References(t, q);
  }

  /**
   DeleteReleaseIfAllowed refuses the stored latest version; any other deletion
   leaves the module in place with a latest version of the same precedence.
   */
  lemma AllowedDeletionKeepsPrecedence(t: Tables, id: ReleaseId, latest: string)
    requires Consistent(t) && id in t.releases && id.version != t.modules[id.mod]
    requires IsLatest(latest, Versions(t, id.mod) - {id.version})
    ensures var t' := DeleteReleaseTx(t, id, latest);
            && id.mod in t'.modules
            && ReleaseId(id.mod, t.modules[id.mod]) in t'.releases
            && CompareVersions(t'.modules[id.mod], t.modules[id.mod]) == 0
  {
    var vs := Versions(t, id.mod);
    assert id.version in vs;
    DroppingAnotherVersionKeepsThePrecedence(t.modules[id.mod], vs, id.version, latest);
    assert ReleaseId(id.mod, t.modules[id.mod]) in t.releases;
  }
}
