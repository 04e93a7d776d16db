/** The migration runner of backend/apply_migrations.py: finding the versioned files, and applying
    them from any number of concurrent, crashing runners under one advisory lock. */
module Migrations {
  import opened Wrappers
  import opened Decimals
  import opened MigrationNames

  // ---------------------------------------------------------------- the files

  datatype Entry = Entry(name: string, isFile: bool, checksum: string)

  datatype Migration = Migration(version: nat, filename: string, checksum: string)

  ghost predicate IsMigration(e: Entry) {
    e.isFile && Version(e.name).Some?
  }

  function MigrationOf(e: Entry): Migration
    requires Version(e.name).Some?
  {
    Migration(Version(e.name).value, e.name, e.checksum)
  }

  ghost predicate Ascending(ms: seq<Migration>) {
    forall i, j :: 0 <= i < j < |ms| ==> ms[i].version < ms[j].version
  }

  function Insert(sorted: seq<Migration>, m: Migration): seq<Migration> {
    if sorted == [] || m.version < sorted[0].version then [m] + sorted
    else [sorted[0]] + Insert(sorted[1..], m)
  }

  /** Python's stable sort by version. */
  function Sorted(ms: seq<Migration>): seq<Migration> {
    if ms == [] then [] else Insert(Sorted(ms[..|ms| - 1]), ms[|ms| - 1])
  }

  lemma {:induction false} InsertKeepsOrder(sorted: seq<Migration>, m: Migration)
    requires Ascending(sorted) && forall x :: x in sorted ==> x.version != m.version
    ensures Ascending(Insert(sorted, m))
    ensures forall x :: x in Insert(sorted, m) <==> x == m || x in sorted
  {
    if !(sorted == [] || m.version < sorted[0].version) {
      assert sorted[0] in sorted;
      var rest := Insert(sorted[1..], m);
      InsertKeepsOrder(sorted[1..], m);
      forall k | 0 <= k < |rest| ensures sorted[0].version < rest[k].version {
        assert rest[k] in rest;
        assert rest[k] == m || rest[k] in sorted[1..];
      }
    }
  }

  lemma {:induction false} SortedIsAscending(ms: seq<Migration>)
    requires forall i, j :: 0 <= i < j < |ms| ==> ms[i].version != ms[j].version
    ensures Ascending(Sorted(ms)) && forall x :: x in Sorted(ms) <==> x in ms
  {
    if ms != [] {
      var earlier := ms[..|ms| - 1];
      SortedIsAscending(earlier);
      InsertKeepsOrder(Sorted(earlier), ms[|ms| - 1]);
    }
  }

  ghost predicate HasDuplicate(entries: seq<Entry>, version: nat) {
    exists i, j :: 0 <= i < j < |entries| && entries[i].isFile && entries[j].isFile
      && Version(entries[i].name) == Version(entries[j].name) == Some(version)
  }

  ghost predicate NoDuplicates(entries: seq<Entry>) {
    forall i, j :: 0 <= i < j < |entries| && entries[i].isFile && entries[j].isFile ==>
      Version(entries[i].name).None? || Version(entries[i].name) != Version(entries[j].name)
  }

  /** The migration is a file of the directory, under its name and checksum, whose name gives its version. */
  ghost predicate Holds(entries: seq<Entry>, m: Migration) {
    exists digits, title :: Names(m.filename, digits, title) && DecimalValue(digits) == m.version
      && Entry(m.filename, true, m.checksum) in entries
  }

  ghost predicate Lists(entries: seq<Entry>, m: Migration) {
    exists e :: e in entries && IsMigration(e) && m == MigrationOf(e)
  }

  lemma ListsMeansHolds(entries: seq<Entry>, m: Migration)
    ensures Lists(entries, m) <==> Holds(entries, m)
  {
    VersionsAreRead(m.filename, m.version);
    if Lists(entries, m) {
      var e :| e in entries && IsMigration(e) && m == MigrationOf(e);
      assert e == Entry(m.filename, true, m.checksum);
    }
    if Holds(entries, m) {
      assert IsMigration(Entry(m.filename, true, m.checksum));
    }
  }

  /** _migration_files: the versioned files in strictly ascending order, whatever order the directory
      is read in, or an error exactly when two of them have one version. */
  method MigrationFiles(entries: seq<Entry>) returns (r: Result<seq<Migration>, nat>)
    ensures r.Ok? ==> Ascending(r.value) && forall m :: m in r.value <==> Holds(entries, m)
    ensures r.Ok? ==> NoDuplicates(entries)
    ensures r.Err? ==> HasDuplicate(entries, r.error)
  {
    var migrations: seq<Migration> := [];
    var versions: set<nat> := {};
    var i := 0;
    while i < |entries|
      invariant 0 <= i <= |entries|
      invariant forall m :: m in migrations <==> Lists(entries[..i], m)
      invariant forall v :: v in versions <==> exists m :: m in migrations && m.version == v
      invariant forall a, b :: 0 <= a < b < |migrations| ==> migrations[a].version != migrations[b].version
      invariant NoDuplicates(entries[..i])
    {
      var e := entries[i];
      if e.isFile && Version(e.name).Some? {
        var version := Version(e.name).value;
        if version in versions {
          return Err(version);
        }
        NextIsNew(entries, i, migrations);
        versions := versions + {version};
        migrations := migrations + [MigrationOf(e)];
      } else {
        NextIsIgnored(entries, i);
      }
      i := i + 1;
    }
    assert entries[..i] == entries;
    SortedIsAscending(migrations);
    forall m ensures Lists(entries, m) <==> Holds(entries, m) {
      ListsMeansHolds(entries, m);
    }
    return Ok(Sorted(migrations));
  }

  lemma ListsNext(entries: seq<Entry>, i: nat, m: Migration)
    requires i < |entries|
    ensures Lists(entries[..i + 1], m)
        <==> Lists(entries[..i], m) || (IsMigration(entries[i]) && m == MigrationOf(entries[i]))
  {
    if Lists(entries[..i + 1], m) {
      var e :| e in entries[..i + 1] && IsMigration(e) && m == MigrationOf(e);
      assert e == entries[i] || e in entries[..i];
    }
    if Lists(entries[..i], m) {
      var e :| e in entries[..i] && IsMigration(e) && m == MigrationOf(e);
      assert e in entries[..i + 1];
    }
    if IsMigration(entries[i]) && m == MigrationOf(entries[i]) {
      assert entries[..i + 1][i] in entries[..i + 1];
    }
  }

  lemma NextIsNew(entries: seq<Entry>, i: nat, migrations: seq<Migration>)
    requires i < |entries| && IsMigration(entries[i])
    requires forall m :: m in migrations <==> Lists(entries[..i], m)
    requires forall m :: m in migrations ==> m.version != Version(entries[i].name).value
    requires NoDuplicates(entries[..i])
    ensures NoDuplicates(entries[..i + 1])
  {
    forall a | 0 <= a < i && IsMigration(entries[a]) ensures Version(entries[a].name) != Version(entries[i].name) {
      assert entries[..i][a] == entries[a] && entries[a] in entries[..i];
      assert Lists(entries[..i], MigrationOf(entries[a]));
    }
    forall a, b | 0 <= a < b < i && IsMigration(entries[a]) && IsMigration(entries[b])
      ensures Version(entries[a].name) != Version(entries[b].name)
    {
      assert entries[..i][a] == entries[a] && entries[..i][b] == entries[b];
    }
  }

  lemma NextIsIgnored(entries: seq<Entry>, i: nat)
    requires i < |entries| && !IsMigration(entries[i])
    requires NoDuplicates(entries[..i])
    ensures forall m :: Lists(entries[..i], m) <==> Lists(entries[..i + 1], m)
    ensures NoDuplicates(entries[..i + 1])
  {
    forall m ensures Lists(entries[..i], m) <==> Lists(entries[..i + 1], m) {
      ListsNext(entries, i, m);
    }
    forall a, b | 0 <= a < b < i + 1 && IsMigration(entries[a]) && IsMigration(entries[b])
      ensures Version(entries[a].name) != Version(entries[b].name)
    {
      assert entries[..i][a] == entries[a] && entries[..i][b] == entries[b];
    }
  }
}
