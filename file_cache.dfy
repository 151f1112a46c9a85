/**
 * FileCacheManager: a persistent table from a file's object id to the
 * local path holding a downloaded copy of it. A row only counts while its
 * path names a regular file; a stale row is dropped the first time it is
 * looked up.
 */
module FileCache {
  const FileCacheIdMax := 40
  const FileCachePathMax := 255

  /** The rows the manager can ever write: short ids, non-empty paths that fit. */
  predicate WellFormed(rows: map<string, string>)
  {
    forall oid :: oid in rows ==> |oid| <= FileCacheIdMax && 0 < |rows[oid]| <= FileCachePathMax
  }

  /**
   * get: the cached path of `oid`, or "" when the cache cannot answer. When
   * the stored path is empty or no longer a regular file the row is deleted.
   * `usable` says the cache is enabled and its database is open; `regular`
   * is the set of paths that are regular files. Returns the path and the
   * table afterwards.
   */
  function Lookup(usable: bool, rows: map<string, string>, regular: set<string>, oid: string)
    : (r: (string, map<string, string>))
    ensures r.0 != "" ==> usable && oid in rows && r.0 == rows[oid] && r.0 in regular && r.1 == rows
    ensures r.0 == "" ==> r.1 == rows || (oid in rows && r.1 == rows - {oid})
    ensures !usable || |oid| > FileCacheIdMax || oid !in rows ==> r == ("", rows)
    ensures usable && |oid| <= FileCacheIdMax && oid in rows &&
            rows[oid] != "" && rows[oid] in regular
      ==> r == (rows[oid], rows)
    ensures usable && |oid| <= FileCacheIdMax && oid in rows &&
            (rows[oid] == "" || rows[oid] !in regular)
      ==> r == ("", rows - {oid})
  {
    if !usable || |oid| > FileCacheIdMax then ("", rows)
    else if oid !in rows then ("", rows)
    else if rows[oid] == "" || rows[oid] !in regular then ("", rows - {oid})
    else (rows[oid], rows)
  }

  /**
   * set: records `loc` for `oid`. An unusable cache, an over-long id or an
   * over-long path leaves the table alone; a path that is empty or not a
   * regular file deletes the row instead.
   */
  function Store(usable: bool, rows: map<string, string>, regular: set<string>, oid: string,
                 loc: string): (r: map<string, string>)
    ensures r - {oid} == rows - {oid}
    ensures !usable || |oid| > FileCacheIdMax || |loc| > FileCachePathMax ==> r == rows
    ensures usable && |oid| <= FileCacheIdMax && |loc| <= FileCachePathMax ==>
      (oid in r <==> loc != "" && loc in regular) && (oid in r ==> r[oid] == loc)
  {
    if !usable || |oid| > FileCacheIdMax then rows
    else if |loc| > FileCachePathMax then rows
    else if loc == "" || loc !in regular then rows - {oid}
    else rows[oid := loc]
  }

  /** Every write keeps the table well formed. */
  lemma StoreWellFormed(usable: bool, rows: map<string, string>, regular: set<string>,
                        oid: string, loc: string)
    requires WellFormed(rows)
    ensures WellFormed(Store(usable, rows, regular, oid, loc))
    ensures WellFormed(Lookup(usable, rows, regular, oid).1)
  {
  }

  /** A path just stored for an id is what a lookup of that id returns,
      as long as the file is still there. */
  lemma StoreThenLookup(rows: map<string, string>, regular: set<string>, oid: string, loc: string)
    requires |oid| <= FileCacheIdMax && 0 < |loc| <= FileCachePathMax && loc in regular
    ensures var after := Store(true, rows, regular, oid, loc);
      Lookup(true, after, regular, oid) == (loc, after)
  {
  }

  /** Storing under one id does not change what a lookup of another returns. */
  lemma StoreOtherId(usable: bool, rows: map<string, string>, regular: set<string>,
                     oid: string, other: string, loc: string)
    requires other != oid
    ensures Lookup(usable, Store(usable, rows, regular, other, loc), regular, oid).0
         == Lookup(usable, rows, regular, oid).0
  {
    var after := Store(usable, rows, regular, other, loc);
    assert oid in after <==> oid in rows by {
      assert oid in after <==> oid in after - {other};
      assert oid in rows <==> oid in rows - {other};
    }
    if oid in rows {
      assert after[oid] == (after - {other})[oid] == (rows - {other})[oid] == rows[oid];
    }
  }

  /** A lookup repeated with the file system unchanged answers the same and
      changes nothing more. */
  lemma LookupIdempotent(usable: bool, rows: map<string, string>, regular: set<string>, oid: string)
    ensures var first := Lookup(usable, rows, regular, oid);
      Lookup(usable, first.1, regular, oid) == first
  {
  }

  /** A cache that is disabled, or whose database is not open, neither
      answers nor changes. */
  lemma UnusableInert(rows: map<string, string>, regular: set<string>, oid: string, loc: string)
    ensures Lookup(false, rows, regular, oid) == ("", rows)
    ensures Store(false, rows, regular, oid, loc) == rows
  {
  }

  class FileCacheManager {
    /** Cleared for good once the database fails to open. */
    var enabled: bool
    /** Set by the constructor and never cleared by any operation. */
    var closed: bool
    /** Whether the database connection is open, so that queries succeed. */
    var connected: bool
    /** The FileCache table, as persisted in the database file. */
    var rows: map<string, string>
    /** Set once close has deleted the database object and its path; the
        manager cannot be used after that. */
    var disposed: bool

    constructor (persisted: map<string, string>)
      ensures enabled && closed && !connected && !disposed && rows == persisted
    {
      enabled := true;
      closed := true;
      connected := false;
      disposed := false;
      rows := persisted;
    }

    /** open: `succeeds` says whether opening the database file succeeds.
        A failure disables the cache. */
    method Open(succeeds: bool)
      requires !disposed
      modifies this`enabled, this`connected
      ensures !old(closed) ==> enabled == old(enabled) && connected == old(connected)
      ensures old(closed) ==> connected == succeeds && enabled == (old(enabled) && succeeds)
    {
      if !closed {
        return;
      }
      connected := succeeds;
      if !succeeds {
        enabled := false;
        return;
      }
    }

    /** close: only a cache that is enabled and marked open shuts its
        database; the database object and its path are deleted on every call,
        after which the manager is disposed. */
    method Close()
      requires !disposed
      modifies this`connected, this`disposed
      ensures connected == (old(connected) && !(enabled && !closed))
      ensures disposed
    {
      if enabled && !closed {
        connected := false;
      }
      disposed := true;
    }

    /** remove: deletes the row; a query on a database that is not open fails
        and is ignored. Neither the enabled flag nor the id length is checked. */
    method Remove(oid: string)
      requires !disposed
      modifies this`rows
      ensures rows == if connected then old(rows) - {oid} else old(rows)
    {
      if !connected {
        return;
      }
      rows := rows - {oid};
    }

    method Get(oid: string, regular: set<string>) returns (loc: string)
      requires !disposed
      modifies this`rows
      ensures (loc, rows) == Lookup(enabled && connected, old(rows), regular, oid)
    {
      if !enabled || |oid| > FileCacheIdMax {
        return "";
      }
      if !connected || oid !in rows {
        return "";
      }
      var found := rows[oid];
      if found == "" || found !in regular {
        Remove(oid);
        return "";
      }
      return found;
    }

    method Set(oid: string, loc: string, regular: set<string>)
      requires !disposed
      modifies this`rows
      ensures rows == Store(enabled && connected, old(rows), regular, oid, loc)
    {
      if !enabled || |oid| > FileCacheIdMax {
        return;
      }
      if |loc| > FileCachePathMax {
        return;
      }
      if loc == "" || loc !in regular {
        Remove(oid);
        return;
      }
      if !connected {
        return;
      }
      rows := rows[oid := loc];
    }
  }
}
