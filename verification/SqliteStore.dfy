/**
 The SQLite store: tables updated in place by transactions. A transaction works
 on its own copies and either commits all of them or none; a commit may also
 succeed while its reply is lost.
 */
module SqliteStore {
  import opened Version
  import opened LatestVersion
  import opened Store

  datatype Commit = Acknowledged | ReplyLost | RolledBack
  datatype Status = Done | Conflict | NotFound | Failed

  /** What the caller of a transaction that reached its commit is told. */
  function Reply(commit: Commit): (status: Status)
    ensures status in {Done, Failed} && (status == Done <==> commit == Acknowledged)
  {
    if commit == Acknowledged then Done else Failed
  }

  /** Checksums that leave the row well formed and a local row at its path. */
  predicate KeepsIdentity(id: ReleaseId, row: Row, sha: Digest, path: Option<Path>, size: nat)
  {
    WellFormedRow(id, row.(sha := sha, path := path, size := size)) && (row.source == Local ==> path == row.path)
  }

  class SqliteStore {
    var modules: map<ModuleId, string>
    var releases: map<ReleaseId, Row>
    var deletions: map<Path, ModuleId>
    var tombstones: set<ReleaseId>

    constructor ()
      ensures Contents() == Tables(map[], map[], map[], {}) && Consistent(Contents())
    {
      modules, releases, deletions, tombstones := map[], map[], map[], {};
    }

    function Contents(): Tables
      reads this
    {
      Tables(modules, releases, deletions, tombstones)
    }

    method UpsertModule(m: ModuleId, commit: Commit) returns (status: Status)
      modifies this
      ensures status == Reply(commit)
      ensures Contents() == if commit == RolledBack then old(Contents()) else UpsertModuleTx(old(Contents()), m)
      ensures Consistent(old(Contents())) ==> Consistent(Contents())
    {
      if Consistent(Contents()) { UpsertModuleConsistent(Contents(), m); }
      if commit != RolledBack && m !in modules {
        modules := modules[m := ""];
      }
      status := Reply(commit);
    }

    method CreateRelease(id: ReleaseId, row: Row, createOnly: bool, commit: Commit) returns (status: Status)
      modifies this
      ensures id.mod !in old(modules) ==> status == Failed && Contents() == old(Contents())
      ensures id.mod in old(modules) && createOnly && id in old(releases) ==>
                status == Conflict && Contents() == old(Contents())
      ensures id.mod in old(modules) && !(createOnly && id in old(releases)) ==>
                && status == Reply(commit)
                && Contents() == (if commit == RolledBack then old(Contents())
                                  else CreateReleaseTx(old(Contents()), id, row))
                && (commit != RolledBack ==>
                      releases == old(releases)[id := row.(id := if id in old(releases) then old(releases)[id].id else row.id)])
      ensures Consistent(old(Contents())) && WellFormedRow(id, row) ==> Consistent(Contents())
    {
      if Consistent(Contents()) && WellFormedRow(id, row) && id.mod in modules { CreateReleaseConsistent(Contents(), id, row); }
      var previous: Option<Row> := None;
      if !createOnly && id in releases {
        previous := Some(releases[id]);
      }
      if id.mod !in modules { return Failed; }
      var inserted;
      if id in releases {
        if createOnly { return Conflict; }
        inserted := releases[id := row.(id := releases[id].id)];
      } else {
        inserted := releases[id := row];
      }
      var queue := deletions;
      if row.source == Local && row.path.Some? {
        queue := queue - {row.path.value};
      }
      if previous.Some? && previous.value.source == Local && previous.value.path.Some? && previous.value.path != row.path {
        if previous.value.path.value !in queue {
          queue := queue[previous.value.path.value := id.mod];
        }
      }
      var latest := WithCandidate(modules[id.mod], id.version);
      if commit != RolledBack {
        releases, deletions, modules := inserted, queue, modules[id.mod := latest];
      }
      status := Reply(commit);
    }

    /** sqliteLatestVersion once the row is deleted; `none` when it was the module's last. */
    method LatestRemaining(id: ReleaseId) returns (latest: string, none: bool)
      ensures IsLatest(latest, Versions(Contents(), id.mod) - {id.version})
      ensures none <==> Versions(Contents(), id.mod) - {id.version} == {}
    {
      var remaining := releases - {id};
      var versions := set other | other in remaining && other.mod == id.mod :: other.version;
      VersionsAfterDelete(Contents(), Contents().(releases := remaining), id, id.mod);
      latest := LatestOfRows(versions);
      none := versions == {};
    }

    /** The statements of a deletion, on the transaction's own copies. */
    method DeletionStatements(id: ReleaseId) returns (next: Tables, latest: string)
      requires RowsWellFormed(Contents()) && id in releases
      ensures IsLatest(latest, Versions(Contents(), id.mod) - {id.version}) && next == DeleteReleaseTx(Contents(), id, latest)
      ensures next.tombstones == tombstones + if releases[id].source == Source.Upstream then {id} else {}
    {
      var row := releases[id];
      var queue := deletions;
      if row.source == Local && row.path.Some? && row.path.value !in queue {
        queue := queue[row.path.value := id.mod];
      }
      var tombs := tombstones;
      if row.source == Upstream {
        tombs := tombs + {id};
      }
      var none;
      latest, none := LatestRemaining(id);
      var kept := modules[id.mod := latest];
      if none {
        kept := kept - {id.mod};
        assert kept == modules - {id.mod};
      }
      next := Tables(kept, releases - {id}, queue, tombs);
    }

    method DeleteRelease(id: ReleaseId, commit: Commit) returns (status: Status, latest: string)
      requires RowsWellFormed(Contents())
      modifies this
      ensures id !in old(releases) ==> status == NotFound && Contents() == old(Contents())
      ensures id in old(releases) ==>
                && status == Reply(commit)
                && IsLatest(latest, Versions(old(Contents()), id.mod) - {id.version})
                && Contents() == (if commit == RolledBack then old(Contents())
                                  else DeleteReleaseTx(old(Contents()), id, latest))
                && (commit != RolledBack ==>
                      && releases == old(releases) - {id}
                      && tombstones == old(tombstones) + if old(releases)[id].source == Source.Upstream then {id} else {})
      ensures Consistent(old(Contents())) ==> Consistent(Contents())
    {
      if id !in releases { return NotFound, ""; }
      var next;
      next, latest := DeletionStatements(id);
      if Consistent(Contents()) { DeleteReleaseConsistent(Contents(), id, latest); }
      if commit != RolledBack {
        modules, releases, deletions, tombstones := next.modules, next.releases, next.deletions, next.tombstones;
      }
      status := Reply(commit);
    }

    method DeleteModule(m: ModuleId, commit: Commit) returns (status: Status)
      modifies this
      ensures m !in old(modules) ==> status == NotFound && Contents() == old(Contents())
      ensures m in old(modules) ==>
                && status == Reply(commit)
                && Contents() == if commit == RolledBack then old(Contents())
                                 else DeleteModuleTx(old(Contents()), m)
      ensures Consistent(old(Contents())) ==> Consistent(Contents())
    {
      if Consistent(Contents()) { DeleteModuleConsistent(Contents(), m); }
      var queue := (map p | p in LocalPaths(Contents(), m) :: m) + deletions;
      if m !in modules { return NotFound; }
      if commit != RolledBack {
        modules, releases, deletions, tombstones :=
          modules - {m}, (map id | id in releases && id.mod != m :: releases[id]),
          queue, (set id | id in tombstones && id.mod != m);
      }
      status := Reply(commit);
    }

    method DeleteModuleIfEmpty(m: ModuleId, commit: Commit) returns (status: Status)
      modifies this
      ensures status == Reply(commit)
      ensures Contents() == if commit == RolledBack then old(Contents()) else DeleteModuleIfEmptyTx(old(Contents()), m)
      ensures Consistent(old(Contents())) ==> Consistent(Contents())
    {
      if Consistent(Contents()) { DeleteModuleIfEmptyConsistent(Contents(), m); }
      if commit != RolledBack && Versions(Contents(), m) == {} {
        modules := modules - {m};
      }
      status := Reply(commit);
    }

    method UpdateReleaseChecksums(id: ReleaseId, md5: string, sha: Digest, path: Option<Path>, size: nat, commit: Commit)
      returns (status: Status)
      modifies this
      ensures id !in old(releases) ==>
                status == (if commit == Acknowledged then NotFound else Failed) && Contents() == old(Contents())
      ensures id in old(releases) ==>
                && status == Reply(commit)
                && Contents() == if commit == RolledBack then old(Contents())
                                 else UpdateChecksumsTx(old(Contents()), id, md5, sha, path, size)
      ensures Consistent(old(Contents())) && (id in old(releases) ==> KeepsIdentity(id, old(releases)[id], sha, path, size)) ==>
                Consistent(Contents())
    {
      if Consistent(Contents()) && id in releases && KeepsIdentity(id, releases[id], sha, path, size) {
        UpdateChecksumsConsistent(Contents(), id, md5, sha, path, size);
      }
      if id !in releases { return if commit == Acknowledged then NotFound else Failed; }
      if commit != RolledBack {
        releases := releases[id := releases[id].(md5 := md5, sha := sha, path := path, size := size)];
      }
      status := Reply(commit);
    }

    method CompleteArtifactDeletion(p: Path, commit: Commit) returns (status: Status)
      modifies this
      ensures status == Reply(commit)
      ensures Contents() == if commit == RolledBack then old(Contents()) else CompleteDeletionTx(old(Contents()), p)
      ensures Consistent(old(Contents())) ==> Consistent(Contents())
    {
      if Consistent(Contents()) { CompleteDeletionConsistent(Contents(), p); }
      if commit != RolledBack {
        deletions := deletions - {p};
      }
      status := Reply(commit);
    }

    method IsArtifactReferenced(p: Path) returns (referenced: bool)
      ensures referenced == References(Contents(), p)
    {
      referenced := exists id :: id in releases && releases[id].path == Some(p);
    }
  }
}
