// The document-table operations of `PostgresDB` (backend/database/postgres.py),
// over the `documents` table as a map from id to row. Every query may add the
// filter `user_id = :user_id`, and does so only when the user id given is truthy.
// A failure of the database (connection, SQL) is a boolean parameter: each
// operation either catches it and returns its fallback, or re-raises it.

module DocumentTable {
  import opened Values

  /** The stored document. Its fields besides the id live in the JSONB `data`
      column and round-trip through `to_henrydoc`; they are one metadata map here. */
  datatype HenryDoc = HenryDoc(id: string, data: Metadata)

  /** A `documents` row: its owner and its `data`. */
  datatype Row = Row(userId: string, doc: HenryDoc)

  /** The table, keyed by the primary key `id`. */
  type Table = map<string, Row>

  /** Why an insert is re-raised: the converter it calls does not exist, the
      primary key is taken, or the database failed. */
  datatype DbError = MissingConverter | DuplicateKey | DatabaseFailure

  /** `if user_id:` — None and the empty string add no filter. */
  predicate Truthy(userId: Option<string>)
  {
    userId.Some? && userId.value != ""
  }

  /** A row passes the optional tenancy filter. */
  predicate Visible(row: Row, userId: Option<string>)
  {
    !Truthy(userId) || row.userId == userId.value
  }

  /** `get_document` with one id: the row with that id if it passes the filter,
      None otherwise or when the database fails. */
  function GetDocument(t: Table, id: string, userId: Option<string>, fails: bool): (r: Option<HenryDoc>)
    ensures fails ==> r == None
    ensures !fails ==> (r.Some? <==> id in t && Visible(t[id], userId))
    ensures r.Some? ==> r.value == t[id].doc
  {
    if !fails && id in t && Visible(t[id], userId) then Some(t[id].doc) else None
  }

  /** `get_document` with a list: one query for all the ids, reassembled through a
      map from id to row, in request order. */
  function GetDocuments(t: Table, ids: seq<string>, userId: Option<string>, fails: bool): (r: seq<Option<HenryDoc>>)
    ensures |r| == |ids|
    ensures forall i :: 0 <= i < |ids| ==> r[i] == GetDocument(t, ids[i], userId, fails)
  {
    if fails then seq(|ids|, i => None)
    else
      var found := map id | id in ids && id in t && Visible(t[id], userId) :: t[id].doc;
      seq(|ids|, i requires 0 <= i < |ids| => if ids[i] in found then Some(found[ids[i]]) else None)
  }

  /** The ids `get_all_documents` returns a document for. */
  function VisibleIds(t: Table, userId: Option<string>): (s: set<string>)
    ensures forall id :: id in s <==> id in t && Visible(t[id], userId)
  {
    set id | id in t && Visible(t[id], userId)
  }

  /** `insert_document` as intended: the document is stored under its own id, where
      its owner reads it back, and its id is returned; a taken id or a failing
      database is re-raised and leaves the table as it was. */
  function Insert(t: Table, doc: HenryDoc, userId: string, fails: bool): (r: (Table, Result<string, DbError>))
    ensures r.1.Ok? <==> !fails && doc.id !in t
    ensures r.1.Ok? ==> r.1.value == doc.id && GetDocument(r.0, doc.id, Some(userId), false) == Some(doc)
    ensures forall id :: id != doc.id ==> GetDocument(r.0, id, None, false) == GetDocument(t, id, None, false)
    ensures forall id :: id != doc.id ==> (id in r.0 <==> id in t) && (id in t ==> r.0[id] == t[id])
    ensures r.1.Ok? ==> r.0[doc.id] == Row(userId, doc)
    ensures r.1.Err? ==> r.0 == t
  {
    if fails then (t, Err(DatabaseFailure))
    else if doc.id in t then (t, Err(DuplicateKey))
    else (t[doc.id := Row(userId, doc)], Ok(doc.id))
  }

  /** `insert_document` as written: `SQLDocument.from_simbadoc` is not defined (the
      model class has `from_henrydoc`), so the call raises before anything is added:
      the table never changes. Creating the session does not connect, so the
      converter fails first even when the database would have failed too. */
  function InsertAsWritten(t: Table, doc: HenryDoc, userId: string, fails: bool): (r: (Table, Result<string, DbError>))
    ensures r.0 == t
    ensures r.1 == Err(MissingConverter)
  {
    (t, Err(MissingConverter))
  }

  /** `update_document` as written: the `data` of the matching row is replaced in
      the session, which is closed without a commit, so the table keeps its old row.
      The answer is still whether a row matched, as the intended update's is. */
  function UpdateAsWritten(t: Table, id: string, doc: HenryDoc, userId: Option<string>, fails: bool): (r: (Table, bool))
    ensures r.1 == Update(t, id, doc, userId, fails).1
    ensures r.0 == t
  {
    (t, !fails && id in t && Visible(t[id], userId))
  }

  /** `update_document` with the commit it lacks: it answers true exactly when
      `get_document` would find the row; the matching row then reads back the new
      document and keeps its owner, and every other row stays as it was. A false
      answer (no row, another user's row, or a failure rolled back) changes nothing. */
  function Update(t: Table, id: string, doc: HenryDoc, userId: Option<string>, fails: bool): (r: (Table, bool))
    ensures r.1 <==> GetDocument(t, id, userId, fails).Some?
    ensures r.1 ==> GetDocument(r.0, id, userId, false) == Some(doc) && r.0[id].userId == t[id].userId
    ensures r.0.Keys == t.Keys && forall other :: other in t && other != id ==> r.0[other] == t[other]
    ensures !r.1 ==> r.0 == t
  {
    if !fails && id in t && Visible(t[id], userId) then (t[id := Row(t[id].userId, doc)], true)
    else (t, false)
  }

  /** `delete_document`: the matching row is deleted and committed, and the answer,
      true exactly when `get_document` would have found it, says whether one was. A
      failure is rolled back and answers false. No other row is touched. */
  function Delete(t: Table, id: string, userId: Option<string>, fails: bool): (r: (Table, bool))
    ensures r.1 <==> GetDocument(t, id, userId, fails).Some?
    ensures r.1 ==> forall u :: GetDocument(r.0, id, u, false) == None
    ensures !r.1 ==> r.0 == t
    ensures forall other :: other != id ==> (other in r.0 <==> other in t) && (other in t ==> r.0[other] == t[other])
  {
    if !fails && id in t && Visible(t[id], userId) then (t - {id}, true)
    else (t, false)
  }

  /** Why `PostgresDB()` raises: the connection pool cannot be created, or the
      schema method `__init__` calls does not exist. */
  datatype InitError = ConnectionFailed | MissingSchemaMethod

  /** `Base.metadata.create_all`: a missing `documents` table is created empty, an
      existing one is left as it is. */
  function CreateAll(existing: Option<Table>): (t: Table)
    ensures existing.Some? ==> t == existing.value
    ensures existing.None? ==> t == map[]
  {
    match existing
    case Some(t) => t
    case None => map[]
  }

  /** `PostgresDB()` with the schema step it evidently means (`_ensuer_chema`): the
      pool is created, or the constructor raises; then the schema is ensured. */
  function Open(existing: Option<Table>, fails: bool): (r: Result<Table, InitError>)
    ensures r.Ok? <==> !fails
    ensures fails ==> r == Err(ConnectionFailed)
    ensures r.Ok? ==> r.value == CreateAll(existing)
  {
    if fails then Err(ConnectionFailed) else Ok(CreateAll(existing))
  }

  /** `PostgresDB()` as written: `_initialize_sqlalchemy` already runs `create_all`,
      and then `self._ensure_schema()` raises, because only `_ensuer_chema` is
      defined. The first component is the table in the database afterwards. */
  function OpenAsWritten(existing: Option<Table>, fails: bool): (r: (Option<Table>, Result<Table, InitError>))
    ensures r.1.Err?
    ensures fails ==> r == (existing, Err(ConnectionFailed))
    ensures !fails ==> r == (Some(CreateAll(existing)), Err(MissingSchemaMethod))
  {
    if fails then (existing, Err(ConnectionFailed))
    else (Some(CreateAll(existing)), Err(MissingSchemaMethod))
  }

  /** The service object; `rows` stands for the `documents` table behind its sessions. */
  class PostgresDB {
    var rows: Table

    /** `PostgresDB()` when it succeeds, as `Open` describes it. */
    constructor(existing: Option<Table>)
      ensures Open(existing, false) == Ok(rows)
    {
      rows := CreateAll(existing);
    }

    /** `get_all_documents`: `query.all()` without ORDER BY, so the documents come in
        an order the database chooses, each visible row exactly once; `order` is the
        ids in that order. A failure answers []. */
    method GetAllDocuments(userId: Option<string>, fails: bool) returns (docs: seq<HenryDoc>, ghost order: seq<string>)
      ensures fails ==> docs == [] && order == []
      ensures !fails ==> |docs| == |VisibleIds(rows, userId)|
      ensures !fails ==> forall id :: id in rows && Visible(rows[id], userId) ==> rows[id].doc in docs
      ensures !fails ==> forall id :: id in order <==> id in rows && Visible(rows[id], userId)
      ensures !fails ==> Distinct(order) && |docs| == |order| == |VisibleIds(rows, userId)|
      ensures !fails ==> forall i :: 0 <= i < |order| ==> order[i] in rows && docs[i] == rows[order[i]].doc
    {
      docs := [];
      order := [];
      if fails {
        return;
      }
      var pending := rows.Keys;
      while pending != {}
        invariant pending <= rows.Keys
        invariant forall id :: id in order <==> id in rows && Visible(rows[id], userId) && id !in pending
        invariant Distinct(order) && |docs| == |order|
        invariant forall i :: 0 <= i < |order| ==> order[i] in rows && docs[i] == rows[order[i]].doc
        decreases |pending|
      {
        var id :| id in pending;
        if Visible(rows[id], userId) {
          docs := docs + [rows[id].doc];
          order := order + [id];
        }
        pending := pending - {id};
      }
      DistinctCovers(order, VisibleIds(rows, userId));
      forall id | id in rows && Visible(rows[id], userId) ensures rows[id].doc in docs {
        var i :| 0 <= i < |order| && order[i] == id;
        assert docs[i] == rows[id].doc;
      }
    }

    method InsertDocument(doc: HenryDoc, userId: string, fails: bool) returns (r: Result<string, DbError>)
      modifies this
      ensures (rows, r) == Insert(old(rows), doc, userId, fails)
    {
      if fails {
        r := Err(DatabaseFailure);
      } else if doc.id in rows {
        r := Err(DuplicateKey);
      } else {
        rows := rows[doc.id := Row(userId, doc)];
        r := Ok(doc.id);
      }
    }

    method UpdateDocument(id: string, doc: HenryDoc, userId: Option<string>, fails: bool) returns (updated: bool)
      modifies this
      ensures (rows, updated) == Update(old(rows), id, doc, userId, fails)
    {
      updated := !fails && id in rows && Visible(rows[id], userId);
      if updated {
        rows := rows[id := Row(rows[id].userId, doc)];
      }
    }

    method DeleteDocument(id: string, userId: Option<string>, fails: bool) returns (deleted: bool)
      modifies this
      ensures (rows, deleted) == Delete(old(rows), id, userId, fails)
    {
      deleted := !fails && id in rows && Visible(rows[id], userId);
      if deleted {
        rows := rows - {id};
      }
    }
  }

  // ---------------------------------------------------------------------
  // Properties

  /** With the filter off (no user id, or an empty one), every row is visible; with
      it on, a found document belongs to that user. */
  lemma UserFilter(t: Table, id: string, userId: Option<string>, fails: bool)
    ensures GetDocument(t, id, Some(""), fails) == GetDocument(t, id, None, fails)
    ensures !fails && id in t ==> GetDocument(t, id, None, fails) == Some(t[id].doc)
    ensures Truthy(userId) && GetDocument(t, id, userId, fails).Some? ==> t[id].userId == userId.value
  {
  }

  /** Every visible row is returned by `get_all_documents`, none twice, so there are
      as many documents as visible rows. */
  lemma {:induction false} DistinctCovers(order: seq<string>, s: set<string>)
    requires Distinct(order)
    requires forall id :: id in order <==> id in s
    ensures |order| == |s|
  {
    if order != [] {
      var last := order[|order| - 1];
      var init := order[..|order| - 1];
      assert forall id :: id in init <==> id in s - {last} by {
        forall id ensures id in init <==> id in s - {last} {
          if id in init {
            var j :| 0 <= j < |init| && init[j] == id;
            assert order[j] == id && j < |order| - 1;
          }
          if id in order && id != last {
            var j :| 0 <= j < |order| && order[j] == id;
            assert j != |order| - 1;
            assert init[j] == id;
          }
        }
      }
      DistinctCovers(init, s - {last});
    }
  }

  /** Into an empty table, the intended insert stores the document and the insert as
      written raises. */
  lemma InsertAsWrittenFailsOnEmptyTable(doc: HenryDoc)
    ensures Insert(map[], doc, "u", false).1 == Ok(doc.id)
    ensures InsertAsWritten(map[], doc, "u", false).1 == Err(MissingConverter)
    ensures GetDocument(InsertAsWritten(map[], doc, "u", false).0, doc.id, Some("u"), false) == None
  {
  }

  /** A row is reported updated and still reads back its old document. */
  lemma UpdateAsWrittenCounterexample()
    ensures var old_ := HenryDoc("a", map["title" := Str("draft")]);
            var new_ := HenryDoc("a", map["title" := Str("final")]);
            var t := map["a" := Row("u", old_)];
            var (t', updated) := UpdateAsWritten(t, "a", new_, Some("u"), false);
            updated && GetDocument(t', "a", Some("u"), false) == Some(old_) != Some(new_)
  {
    var old_ := HenryDoc("a", map["title" := Str("draft")]);
    var new_ := HenryDoc("a", map["title" := Str("final")]);
    assert old_.data["title"] != new_.data["title"];
  }

  /** Ensuring the schema twice is ensuring it once, and it never loses a row. */
  lemma OpenIdempotent(existing: Option<Table>)
    ensures Open(Some(Open(existing, false).value), false) == Open(existing, false)
    ensures existing.Some? ==> Open(existing, false) == Ok(existing.value)
  {
  }

  /** With a working database and no table yet, the corrected constructor gives an
      empty table to work on; the one as written creates that table and still raises. */
  lemma OpenAsWrittenCounterexample()
    ensures Open(None, false) == Ok(map[])
    ensures OpenAsWritten(None, false).0 == Some(map[])
    ensures OpenAsWritten(None, false).1 == Err(MissingSchemaMethod)
  {
  }
}
