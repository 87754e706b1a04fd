/**
 * The url-service's `url` table in PostgreSQL, as the controllers use it:
 * rows with a unique id and a unique shortcode, looked up by either,
 * created, and soft-deleted by clearing `isActive`.
 */
module UrlTable {
  import opened Wrappers
  import Lookup

  datatype UrlRecord = UrlRecord(id: string, shortcode: string, longUrl: string, isActive: bool, createdAt: int)

  /** `findUnique({ where: { shortcode } })`. */
  function FindByCode(rows: seq<UrlRecord>, code: string): (r: Option<UrlRecord>)
    ensures r.Some? ==> r.value in rows && r.value.shortcode == code
    ensures r.None? ==> forall i :: 0 <= i < |rows| ==> rows[i].shortcode != code
  {
    Lookup.FindFirst(rows, (rec: UrlRecord) => rec.shortcode == code)
  }

  /** `findUnique({ where: { id } })`. */
  function FindById(rows: seq<UrlRecord>, id: string): (r: Option<UrlRecord>)
    ensures r.Some? ==> r.value in rows && r.value.id == id
    ensures r.None? ==> forall i :: 0 <= i < |rows| ==> rows[i].id != id
  {
    Lookup.FindFirst(rows, (rec: UrlRecord) => rec.id == id)
  }

  /** The table's unique constraints on `id` and on `shortcode`. */
  predicate Unique(rows: seq<UrlRecord>) {
    forall i, j :: 0 <= i < j < |rows| ==> rows[i].id != rows[j].id && rows[i].shortcode != rows[j].shortcode
  }

  /** `update({ where: { id }, data: { isActive: false } })`: only that row's flag changes. */
  function Deactivated(rows: seq<UrlRecord>, id: string): (r: seq<UrlRecord>)
    ensures |r| == |rows|
    ensures forall i :: 0 <= i < |rows| ==>
      r[i] == if rows[i].id == id then rows[i].(isActive := false) else rows[i]
    decreases |rows|
  {
    if rows == [] then []
    else [if rows[0].id == id then rows[0].(isActive := false) else rows[0]] + Deactivated(rows[1..], id)
  }

  /** In a table that keeps its constraints, a lookup finds the one row with that shortcode. */
  lemma {:induction false} FindByCodeExact(rows: seq<UrlRecord>, i: nat)
    requires Unique(rows) && i < |rows|
    ensures FindByCode(rows, rows[i].shortcode) == Some(rows[i])
    decreases |rows|
  {
    if i > 0 {
      assert rows[0].shortcode != rows[i].shortcode;
      assert Unique(rows[1..]) by {
        forall a, b | 0 <= a < b < |rows[1..]|
          ensures rows[1..][a].id != rows[1..][b].id && rows[1..][a].shortcode != rows[1..][b].shortcode
        {
          assert rows[1..][a] == rows[a + 1] && rows[1..][b] == rows[b + 1];
        }
      }
      FindByCodeExact(rows[1..], i - 1);
      assert rows[1..][i - 1] == rows[i];
    }
  }

  /** Soft-deleting a row keeps the unique constraints. */
  lemma DeactivatedUnique(rows: seq<UrlRecord>, id: string)
    requires Unique(rows)
    ensures Unique(Deactivated(rows, id))
  {
    var d := Deactivated(rows, id);
    forall i, j | 0 <= i < j < |d| ensures d[i].id != d[j].id && d[i].shortcode != d[j].shortcode {
      assert d[i].id == rows[i].id && d[i].shortcode == rows[i].shortcode;
      assert d[j].id == rows[j].id && d[j].shortcode == rows[j].shortcode;
    }
  }

  /** Soft-deleting row `id` turns, for every shortcode, only the deleted row inactive. */
  lemma {:induction false} DeactivatedLookup(rows: seq<UrlRecord>, id: string, code: string)
    requires Unique(rows)
    ensures FindByCode(Deactivated(rows, id), code) ==
      match FindByCode(rows, code)
      case None => None
      case Some(rec) => Some(if rec.id == id then rec.(isActive := false) else rec)
  {
    var d := Deactivated(rows, id);
    DeactivatedUnique(rows, id);
    var f := FindByCode(rows, code);
    if f.Some? {
      var k :| 0 <= k < |rows| && rows[k] == f.value;
      FindByCodeExact(d, k);
      assert d[k].shortcode == code;
    }
  }

  /** The error a Prisma call raises while PostgreSQL cannot be reached. */
  const DB_UNREACHABLE: string := "Can't reach database server"

  /** The error `create` raises when the id or the shortcode is already taken. */
  const UNIQUE_VIOLATION: string := "Unique constraint failed"

  /** The error `update` raises when no row has the id. */
  const RECORD_NOT_FOUND: string := "Record to update not found"

  /** What a `findUnique` answers: the row found, or the error it raises while the database is unreachable. */
  function Query(reachable: bool, found: Option<UrlRecord>): Result<Option<UrlRecord>, string> {
    if reachable then Ok(found) else Err(DB_UNREACHABLE)
  }

  /**
   * The table. `lookups` counts the queries by shortcode that are sent to
   * the database; `reachable` is false during an outage, when every call
   * raises and changes nothing.
   */
  class Table {
    var rows: seq<UrlRecord>
    var lookups: nat
    var reachable: bool

    predicate Valid()
      reads this
    {
      Unique(rows)
    }

    constructor ()
      ensures Valid() && rows == [] && lookups == 0 && reachable
    {
      rows := [];
      lookups := 0;
      reachable := true;
    }

    /** `findUnique({ where: { shortcode } })`. */
    method FindUniqueByCode(code: string) returns (r: Result<Option<UrlRecord>, string>)
      modifies this`lookups
      ensures r == Query(reachable, FindByCode(rows, code))
      ensures lookups == old(lookups) + 1
    {
      if !reachable {
        r := Err(DB_UNREACHABLE);
      } else {
        r := Ok(FindByCode(rows, code));
      }
      lookups := lookups + 1;
    }

    /** `findUnique({ where: { id } })`. */
    method FindUniqueById(id: string) returns (r: Result<Option<UrlRecord>, string>)
      ensures r == Query(reachable, FindById(rows, id))
    {
      if !reachable {
        r := Err(DB_UNREACHABLE);
      } else {
        r := Ok(FindById(rows, id));
      }
    }

    /**
     * `create({ data: { shortcode, longUrl } })`: a new active row. It
     * raises while the database is unreachable, and when the id or the
     * shortcode is taken; then nothing changes.
     */
    method Create(id: string, code: string, longUrl: string, createdAt: int) returns (r: Result<UrlRecord, string>)
      requires Valid()
      modifies this`rows
      ensures Valid()
      ensures !reachable ==> r == Err(DB_UNREACHABLE)
      ensures r.Ok? <==> reachable && FindById(old(rows), id).None? && FindByCode(old(rows), code).None?
      ensures reachable && r.Err? ==> r.error == UNIQUE_VIOLATION
      ensures r.Ok? ==> r.value == UrlRecord(id, code, longUrl, true, createdAt) && rows == old(rows) + [r.value]
      ensures r.Err? ==> rows == old(rows)
    {
      if !reachable {
        return Err(DB_UNREACHABLE);
      }
      if FindById(rows, id).Some? || FindByCode(rows, code).Some? {
        return Err(UNIQUE_VIOLATION);
      }
      var rec := UrlRecord(id, code, longUrl, true, createdAt);
      rows := rows + [rec];
      r := Ok(rec);
    }

    /**
     * `update({ where: { id }, data: { isActive: false } })`. It raises and
     * changes nothing while the database is unreachable, and when no row
     * has that id.
     */
    method Deactivate(id: string) returns (r: Result<(), string>)
      requires Valid()
      modifies this`rows
      ensures Valid()
      ensures r == (if !reachable then Err(DB_UNREACHABLE) else if FindById(old(rows), id).None? then Err(RECORD_NOT_FOUND) else Ok(()))
      ensures rows == (if r.Ok? then Deactivated(old(rows), id) else old(rows))
    {
      if !reachable {
        return Err(DB_UNREACHABLE);
      }
      if FindById(rows, id).None? {
        return Err(RECORD_NOT_FOUND);
      }
      DeactivatedUnique(rows, id);
      rows := Deactivated(rows, id);
      r := Ok(());
    }

    /** An outage of the database starting or ending. */
    method SetReachable(up: bool)
      modifies this`reachable
      ensures reachable == up
    {
      reachable := up;
    }
  }
}
