/**
 * What DataBASED v1.0.5's operations promise together: a written document
 * reads back, the store stays well formed, the index files keep one entry per
 * document and property, and `query` returns exactly the documents whose
 * property satisfies the condition, in index order, capped by the limit.
 */
module DataBasedProperties {
  import opened Results
  import opened Json
  import opened Conditions
  import opened Paths
  import opened IndexFile
  import opened Disk
  import opened DataBased

  // ---------------------------------------------------------------------------
  // Round trip and well-formedness

  /** After a `setDoc` that passed the container checks, `getDoc` returns the document written. */
  lemma SetDocThenGetDoc(s: Store, db: string, col: string, name: string, doc: Doc, stamp: string)
    requires CheckContainers(s, Base(s.cwd), db, col) !in {ReportsDatabase, ReportsCollection}
    ensures GetDocAt(SetDocState(s, db, col, name, doc, stamp), Base(s.cwd), db, col, name) == Ok(Present(doc))
  {
  }

  /** The writes put the index files they create into existing index directories and keep their keys distinct. */
  lemma WriteIndexesWellFormed(s: Store, db: string, col: string, name: string, doc: Doc, stamp: string)
    requires WellFormed(s)
    ensures var w := WriteIndexes(s.indexes, (db, col) in s.indexDirs, db, col, name, doc, doc.Keys, stamp);
      && (forall x | x in w :: (x.0, x.1) in s.indexDirs)
      && (forall x | x in w && w[x].Parsed? :: DistinctKeys(w[x].data))
  {
    var w := WriteIndexes(s.indexes, (db, col) in s.indexDirs, db, col, name, doc, doc.Keys, stamp);
    forall x | x in w && w[x].Parsed? ensures DistinctKeys(w[x].data) {
      if x.0 == db && x.1 == col && x.2 in doc.Keys {
        var es := Content(s.indexes, x);
        RemoveFirstRefSpec(es, name);
        AssignKeys(RemoveFirstRef(es, name), stamp, Entry(x.2, doc[x.2], name));
      }
    }
  }

  lemma SetDocKeepsWellFormed(s: Store, db: string, col: string, name: string, doc: Doc, stamp: string)
    requires WellFormed(s)
    ensures WellFormed(SetDocState(s, db, col, name, doc, stamp))
  {
    WriteIndexesWellFormed(s, db, col, name, doc, stamp);
  }

  lemma UpdateDocKeepsWellFormed(s: Store, db: string, col: string, name: string, doc: Doc, stamp: string)
    requires WellFormed(s)
    ensures WellFormed(UpdateDocState(s, db, col, name, doc, stamp))
  {
    WriteIndexesWellFormed(s, db, col, name, doc, stamp);
  }

  lemma DeleteDocKeepsWellFormed(s: Store, db: string, col: string, name: string)
    requires WellFormed(s)
    ensures WellFormed(DeleteDocState(s, db, col, name))
  {
    var t := DeleteDocState(s, db, col, name);
    forall x | x in t.indexes && t.indexes[x].Parsed? ensures DistinctKeys(t.indexes[x].data) {
      if x in s.indexes && s.indexes[x].Parsed? {
        RemoveFirstRefSpec(s.indexes[x].data, name);
      }
    }
  }

  /** `setDoc`, `updateDoc` and `deleteDoc` keep the store well formed. */
  lemma WritesKeepWellFormed(s: Store, db: string, col: string, name: string, doc: Doc, stamp: string)
    requires WellFormed(s)
    ensures WellFormed(SetDocState(s, db, col, name, doc, stamp))
    ensures WellFormed(UpdateDocState(s, db, col, name, doc, stamp))
    ensures WellFormed(DeleteDocState(s, db, col, name))
  {
    SetDocKeepsWellFormed(s, db, col, name, doc, stamp);
    UpdateDocKeepsWellFormed(s, db, col, name, doc, stamp);
    DeleteDocKeepsWellFormed(s, db, col, name);
  }

  // ---------------------------------------------------------------------------
  // updateDoc

  /**
   * `updateDoc` stores the shallow merge of the stored document and `doc` (or
   * `doc` alone when there was none), and rewrites only the index files of
   * `doc`'s own properties.
   */
  lemma UpdateDocStoresMerge(s: Store, db: string, col: string, name: string, doc: Doc, stamp: string)
    requires CheckContainers(s, Base(s.cwd), db, col) !in {ReportsDatabase, ReportsCollection}
    requires (db, col, name) in s.documents ==> s.documents[(db, col, name)].Parsed?
    ensures var t := UpdateDocState(s, db, col, name, doc, stamp);
      var id := (db, col, name);
      && t.documents[id] == Parsed(if id in s.documents then Merge(s.documents[id].data, doc) else doc)
      && (forall i | i in s.documents && i != id :: i in t.documents && t.documents[i] == s.documents[i])
      && (forall x | x in s.indexes && !(x.0 == db && x.1 == col && x.2 in doc) :: x in t.indexes && t.indexes[x] == s.indexes[x])
  {
  }

  /**
   * When a property of `doc` has no index file but its index directory
   * exists, `updateDoc` creates the file holding the one new entry and still
   * fails with the ENOENT error of its first `fs.stat`.
   */
  lemma UpdateDocCreatesIndexThenFails(s: Store, db: string, col: string, name: string, doc: Doc, stamp: string,
                                       p: string, r: Result<()>)
    requires CheckContainers(s, Base(s.cwd), db, col) !in {ReportsDatabase, ReportsCollection}
    requires (db, col, name) in s.documents ==> s.documents[(db, col, name)].Parsed?
    requires p in doc && (db, col, p) !in s.indexes && (db, col) in s.indexDirs
    requires UpdateDocOutcome(s, db, col, name, doc, r)
    ensures UpdateDocState(s, db, col, name, doc, stamp).indexes[(db, col, p)] == Parsed([(stamp, Entry(p, doc[p], name))])
    ensures r.Err? && r.error.NoSuchFile? && r.error.syscall == Stat
  {
    assert p in MissingIndexes(s, db, col, doc);
  }

  // ---------------------------------------------------------------------------
  // The index invariant of one document

  /** `es` references `name` exactly once, with the entry `e`. */
  predicate RefersOnce(es: Entries, name: string, e: Entry) {
    CountRefs(es, name) == 1 && forall j | 0 <= j < |es| && es[j].1.document == name :: es[j].1 == e
  }

  /** The index files of collection `col` hold at most one entry for document `name`. */
  predicate AtMostOneRef(idx: map<IndexId, Blob<Entries>>, db: string, col: string, name: string) {
    forall x | x in idx && x.0 == db && x.1 == col && idx[x].Parsed? :: CountRefs(idx[x].data, name) <= 1
  }

  /** Each property of `d` has an index file whose one entry for `name` holds the property's value. */
  predicate PropertiesIndexed(idx: map<IndexId, Blob<Entries>>, db: string, col: string, name: string, d: Doc) {
    forall p | p in d :: (db, col, p) in idx && idx[(db, col, p)].Parsed? &&
                         RefersOnce(idx[(db, col, p)].data, name, Entry(p, d[p], name))
  }

  /** The index invariant of document `name`: at most one entry per index file, and one for each stored property. */
  predicate Indexed(s: Store, db: string, col: string, name: string) {
    && AtMostOneRef(s.indexes, db, col, name)
    && ((db, col, name) in s.documents && s.documents[(db, col, name)].Parsed? ==>
          PropertiesIndexed(s.indexes, db, col, name, s.documents[(db, col, name)].data))
  }

  /** `Date.now()` returned a stamp that no index file of the collection uses yet. */
  predicate FreshStamp(s: Store, db: string, col: string, stamp: string) {
    forall x | x in s.indexes && x.0 == db && x.1 == col && s.indexes[x].Parsed? :: stamp !in Stamps(s.indexes[x].data)
  }

  /** Reindexing a file that referenced `name` at most once leaves exactly the new entry for it. */
  lemma ReindexRefersOnce(s: Store, db: string, col: string, name: string, doc: Doc, stamp: string, p: string)
    requires WellFormed(s) && AtMostOneRef(s.indexes, db, col, name) && FreshStamp(s, db, col, stamp) && p in doc
    ensures var es := Reindexed(Content(s.indexes, (db, col, p)), p, doc[p], name, stamp);
      RefersOnce(es, name, Entry(p, doc[p], name))
  {
    var es := Content(s.indexes, (db, col, p));
    ReindexedSpec(es, p, doc[p], name, stamp);
  }

  /**
   * The index files after a write of `doc` hold one entry for `name` per
   * property of `doc`, and the files of other properties are untouched.
   */
  lemma WriteIndexesRefersOnce(s: Store, db: string, col: string, name: string, doc: Doc, stamp: string)
    requires WellFormed(s) && AtMostOneRef(s.indexes, db, col, name) && FreshStamp(s, db, col, stamp)
    requires (db, col) in s.indexDirs
    ensures var w := WriteIndexes(s.indexes, true, db, col, name, doc, doc.Keys, stamp);
      && AtMostOneRef(w, db, col, name)
      && PropertiesIndexed(w, db, col, name, doc)
      && (forall x | x in s.indexes && !(x.0 == db && x.1 == col && x.2 in doc) :: x in w && w[x] == s.indexes[x])
  {
    var w := WriteIndexes(s.indexes, true, db, col, name, doc, doc.Keys, stamp);
    forall x | x in w && x.0 == db && x.1 == col && w[x].Parsed? ensures CountRefs(w[x].data, name) <= 1 {
      if x.2 in doc {
        ReindexRefersOnce(s, db, col, name, doc, stamp, x.2);
      }
    }
    forall p | p in doc
      ensures (db, col, p) in w && w[(db, col, p)].Parsed?
      ensures RefersOnce(w[(db, col, p)].data, name, Entry(p, doc[p], name))
    {
      ReindexRefersOnce(s, db, col, name, doc, stamp, p);
    }
  }

  /**
   * `setDoc` keeps the invariant, given a fresh stamp and an existing index
   * directory: the new document's properties each have exactly one entry.
   */
  lemma SetDocKeepsIndexed(s: Store, db: string, col: string, name: string, doc: Doc, stamp: string)
    requires WellFormed(s) && Indexed(s, db, col, name) && FreshStamp(s, db, col, stamp)
    requires (db, col) in s.indexDirs
    ensures Indexed(SetDocState(s, db, col, name, doc, stamp), db, col, name)
  {
    WriteIndexesRefersOnce(s, db, col, name, doc, stamp);
  }

  /**
   * `updateDoc` keeps the invariant: the written properties are reindexed and
   * the stored properties it does not mention keep both value and entry.
   */
  lemma UpdateDocKeepsIndexed(s: Store, db: string, col: string, name: string, doc: Doc, stamp: string)
    requires WellFormed(s) && Indexed(s, db, col, name) && FreshStamp(s, db, col, stamp)
    requires (db, col) in s.indexDirs
    ensures Indexed(UpdateDocState(s, db, col, name, doc, stamp), db, col, name)
  {
    var cc := CheckContainers(s, Base(s.cwd), db, col);
    var id := (db, col, name);
    if cc != ReportsDatabase && cc != ReportsCollection && !(id in s.documents && s.documents[id].Blank?) {
      var t := UpdateDocState(s, db, col, name, doc, stamp);
      var w := WriteIndexes(s.indexes, true, db, col, name, doc, doc.Keys, stamp);
      WriteIndexesRefersOnce(s, db, col, name, doc, stamp);
      var stored := if id in s.documents then Merge(s.documents[id].data, doc) else doc;
      assert t.indexes == w && t.documents[id] == Parsed(stored);
      forall p | p in stored
        ensures (db, col, p) in w && w[(db, col, p)].Parsed?
        ensures RefersOnce(w[(db, col, p)].data, name, Entry(p, stored[p], name))
      {
        if p !in doc {
          assert PropertiesIndexed(s.indexes, db, col, name, s.documents[id].data);
        }
      }
    }
  }

  /**
   * `deleteDoc` keeps the invariant and cleans up: every property of the
   * deleted document is left with no entry referencing it.
   */
  lemma DeleteDocCleansUp(s: Store, db: string, col: string, name: string)
    requires WellFormed(s) && Indexed(s, db, col, name)
    ensures Indexed(DeleteDocState(s, db, col, name), db, col, name)
    ensures var id := (db, col, name);
      var t := DeleteDocState(s, db, col, name);
      t != s ==> id !in t.documents && forall p | p in s.documents[id].data ::
        (db, col, p) in t.indexes && CountRefs(t.indexes[(db, col, p)].data, name) == 0
  {
    var id := (db, col, name);
    var t := DeleteDocState(s, db, col, name);
    if t != s {
      var d := s.documents[id].data;
      var w := DropIndexes(s.indexes, db, col, name, d.Keys);
      assert t.indexes == w && id !in t.documents;
      forall x | x in w && x.0 == db && x.1 == col && w[x].Parsed? ensures CountRefs(w[x].data, name) <= 1 {
        RemoveFirstRefSpec(s.indexes[x].data, name);
      }
      forall p | p in d ensures (db, col, p) in w && CountRefs(w[(db, col, p)].data, name) == 0 {
        assert PropertiesIndexed(s.indexes, db, col, name, d);
        RemoveFirstRefSpec(s.indexes[(db, col, p)].data, name);
      }
    }
  }

  // ---------------------------------------------------------------------------
  // query against a reference definition

  /** The documents named by the entries of `es` that satisfy `c`, in index order. */
  function Matching(es: Entries, c: Condition): seq<string> {
    if es == [] then []
    else (if CheckWhereCondition(es[0].1, c) == Ok(true) then [es[0].1.document] else []) + Matching(es[1..], c)
  }

  /** Every name in `names` has a parsed document file in collection `col`. */
  predicate AllPresent(s: Store, db: string, col: string, names: seq<string>) {
    forall n | n in names :: (db, col, n) in s.documents && s.documents[(db, col, n)].Parsed?
  }

  /** The non-empty documents named by `names`, in order. */
  function Fetch(s: Store, db: string, col: string, names: seq<string>): seq<Doc> {
    if names == [] then []
    else
      var id := (db, col, names[0]);
      (if id in s.documents && s.documents[id].Parsed? then NonEmpty(s.documents[id].data) else [])
      + Fetch(s, db, col, names[1..])
  }

  /**
   * The names still read once `count` were counted against `bound`: at most
   * the remaining ones when a bound is set and not yet passed, all of them
   * otherwise.
   */
  function Cap(names: seq<string>, bound: Option<int>, count: nat): seq<string> {
    if bound.Some? && count <= bound.value then
      (if |names| <= bound.value - count then names else names[..bound.value - count])
    else names
  }

  /** The bound `query` enforces: `if (limit)` ignores a limit of 0. */
  function QueryBound(limit: Option<int>): Option<int> {
    if Truthy(limit) then limit else None
  }

  lemma CapCons(n: string, names: seq<string>, bound: Option<int>, count: nat)
    requires !(bound.Some? && count == bound.value)
    ensures Cap([n] + names, bound, count) == [n] + Cap(names, bound, count + 1)
  {
    if bound.Some? && count <= bound.value {
      if |names| > bound.value - count - 1 {
        assert ([n] + names)[..bound.value - count] == [n] + names[..bound.value - count - 1];
      }
    }
  }

  lemma {:induction false} MatchingTail(es: Entries, c: Condition, k: nat)
    requires k < |es|
    ensures Matching(es[k..], c) ==
      (if CheckWhereCondition(es[k].1, c) == Ok(true) then [es[k].1.document] else []) + Matching(es[k + 1..], c)
  {
    assert es[k..][1..] == es[k + 1..];
  }

  /**
   * With a supported operator and every matching document present, the scan
   * from entry `k` fetches the matching documents in index order, as many as
   * the limit still allows.
   */
  lemma {:induction false} QueryScanFetches(s: Store, db: string, col: string, es: Entries, c: Condition,
                                            limit: Option<int>, k: nat, count: nat)
    requires k <= |es| && c.operator in Operators
    requires AllPresent(s, db, col, Matching(es[k..], c))
    ensures QueryScan(s, db, col, es, c, limit, k, count) ==
      Done(Fetch(s, db, col, Cap(Matching(es[k..], c), QueryBound(limit), count)))
    decreases |es| - k
  {
    if k == |es| {
      assert es[k..] == [];
    } else {
      MatchingTail(es, c, k);
      var rest := Matching(es[k + 1..], c);
      if Truthy(limit) && count == limit.value {
        QueryScanFetches(s, db, col, es, c, limit, k + 1, count);
      } else if CheckWhereCondition(es[k].1, c) == Ok(true) {
        var n := es[k].1.document;
        assert n in Matching(es[k..], c);
        assert AllPresent(s, db, col, rest);
        QueryScanFetches(s, db, col, es, c, limit, k + 1, count + 1);
        CapCons(n, rest, QueryBound(limit), count);
        var capped := [n] + Cap(rest, QueryBound(limit), count + 1);
        assert capped[0] == n && capped[1..] == Cap(rest, QueryBound(limit), count + 1);
        assert Fetch(s, db, col, capped) ==
          NonEmpty(s.documents[(db, col, n)].data) + Fetch(s, db, col, Cap(rest, QueryBound(limit), count + 1));
      } else {
        assert CheckWhereCondition(es[k].1, c) == Ok(false);
        assert Matching(es[k..], c) == rest;
        QueryScanFetches(s, db, col, es, c, limit, k + 1, count);
      }
    }
  }

  /**
   * `query` against its reference: on an existing index file, with a
   * supported operator and the matching documents present, it returns the
   * documents of the matching entries in index order, the first `limit` of
   * them when the limit is positive, all of them when it is 0, absent or negative.
   */
  lemma QueryMatchesReference(s: Store, db: string, col: string, c: Condition, limit: Option<int>)
    requires db in s.databases && (db, col) in s.collections
    requires (db, col, c.property) in s.indexes && s.indexes[(db, col, c.property)].Parsed?
    requires c.operator in Operators
    requires AllPresent(s, db, col, Matching(s.indexes[(db, col, c.property)].data, c))
    ensures QueryResult(s, db, col, c, limit) ==
      Ok(Fetch(s, db, col, Cap(Matching(s.indexes[(db, col, c.property)].data, c), QueryBound(limit), 0)))
  {
    var es := s.indexes[(db, col, c.property)].data;
    assert es[0..] == es;
    QueryScanFetches(s, db, col, es, c, limit, 0, 0);
  }

  lemma {:induction false} QueryScanBounded(s: Store, db: string, col: string, es: Entries, c: Condition,
                                            limit: Option<int>, k: nat, count: nat)
    requires Truthy(limit) && count <= limit.value
    ensures QueryScan(s, db, col, es, c, limit, k, count).Done? ==>
      count + |QueryScan(s, db, col, es, c, limit, k, count).docs| <= limit.value
    ensures QueryScan(s, db, col, es, c, limit, k, count).Abort? ==>
      QueryScan(s, db, col, es, c, limit, k, count).result.Ok? ==>
      QueryScan(s, db, col, es, c, limit, k, count).result.value == []
    decreases |es| - k
  {
    if k < |es| {
      QueryScanBounded(s, db, col, es, c, limit, k + 1, count);
      if count < limit.value {
        QueryScanBounded(s, db, col, es, c, limit, k + 1, count + 1);
      }
    }
  }

  /** A positive limit bounds the number of documents `query` returns. */
  lemma QueryRespectsLimit(s: Store, db: string, col: string, c: Condition, n: int)
    requires n > 0 && QueryResult(s, db, col, c, Some(n)).Ok?
    ensures |QueryResult(s, db, col, c, Some(n)).value| <= n
  {
    var x := (db, col, c.property);
    if db in s.databases && (db, col) in s.collections && x in s.indexes && s.indexes[x].Parsed? {
      QueryScanBounded(s, db, col, s.indexes[x].data, c, Some(n), 0, 0);
    }
  }

  lemma {:induction false} QueryScanLimitZero(s: Store, db: string, col: string, es: Entries, c: Condition,
                                              k: nat, count: nat)
    ensures QueryScan(s, db, col, es, c, Some(0), k, count) == QueryScan(s, db, col, es, c, None, k, count)
    decreases |es| - k
  {
    if k < |es| {
      QueryScanLimitZero(s, db, col, es, c, k + 1, count);
      QueryScanLimitZero(s, db, col, es, c, k + 1, count + 1);
    }
  }

  /** `if (limit)` makes a limit of 0 the same as no limit at all. */
  lemma QueryLimitZero(s: Store, db: string, col: string, c: Condition)
    ensures QueryResult(s, db, col, c, Some(0)) == QueryResult(s, db, col, c, None)
  {
    var x := (db, col, c.property);
    if x in s.indexes && s.indexes[x].Parsed? {
      QueryScanLimitZero(s, db, col, s.indexes[x].data, c, 0, 0);
    }
  }

  /** Some entry from position `k` on is for property `p`. */
  predicate HasKey(es: Entries, p: string, k: nat) {
    exists j | k <= j < |es| :: es[j].1.key == p
  }

  lemma {:induction false} QueryScanUnsupported(s: Store, db: string, col: string, es: Entries, c: Condition,
                                                limit: Option<int>, k: nat)
    requires c.operator !in Operators
    ensures QueryScan(s, db, col, es, c, limit, k, 0) ==
      if HasKey(es, c.property, k) then Abort(Err(UnsupportedOperator(c.operator))) else Done([])
    decreases |es| - k
  {
    if k < |es| {
      QueryScanUnsupported(s, db, col, es, c, limit, k + 1);
      if es[k].1.key != c.property {
        if HasKey(es, c.property, k) {
          var j :| k <= j < |es| && es[j].1.key == c.property;
          assert HasKey(es, c.property, k + 1);
        }
      }
    }
  }

  /**
   * An unsupported operator fails the query exactly when the index file has an
   * entry to compare; on an index file with no entry for the property it goes
   * unnoticed and the query returns nothing.
   */
  lemma QueryUnsupportedOperator(s: Store, db: string, col: string, c: Condition, limit: Option<int>)
    requires db in s.databases && (db, col) in s.collections
    requires (db, col, c.property) in s.indexes && s.indexes[(db, col, c.property)].Parsed?
    requires c.operator !in Operators
    ensures QueryResult(s, db, col, c, limit) ==
      if HasKey(s.indexes[(db, col, c.property)].data, c.property, 0)
      then Err(UnsupportedOperator(c.operator)) else Ok([])
  {
    QueryScanUnsupported(s, db, col, s.indexes[(db, col, c.property)].data, c, limit, 0);
  }

  /**
   * A property that was never indexed has no index file; the ENOENT on it is
   * recognised by its `<property>.json` suffix and the query returns nothing,
   * unless the database name or the collection name happens to be a suffix of
   * the index file's path.
   */
  lemma QueryMissingIndex(s: Store, db: string, col: string, c: Condition, limit: Option<int>)
    requires db in s.databases && (db, col) in s.collections && (db, col, c.property) !in s.indexes
    requires var path := IndexPath(s.cwd, db, col, c.property);
      !EndsWith(path, db) && !EndsWith(path, col)
    ensures QueryResult(s, db, col, c, limit) == Ok([])
  {
    EndsWithAppend(s.cwd + "/databased/indexing/databases/" + db + "/collections/" + col + "/", c.property + ".json");
    JsonPathNeverNoDocuments(IndexPath(s.cwd, db, col, c.property), db, col, c.property);
  }

  /** A database called `json` is reported missing by a query on an unindexed property. */
  lemma QueryMissingIndexInJsonDatabase(s: Store, c: Condition, limit: Option<int>)
    requires "json" in s.databases && ("json", "users") in s.collections && ("json", "users", c.property) !in s.indexes
    ensures QueryResult(s, "json", "users", c, limit) == Err(DatabaseNotFound("json"))
  {
    var path := IndexPath(s.cwd, "json", "users", c.property);
    var prefix := s.cwd + "/databased/indexing/databases/json/collections/users/" + c.property + ".";
    assert path == prefix + "json";
    EndsWithAppend(prefix, "json");
  }

  /** The ENOENT handler never takes its `documents` branch for a path ending in `.json`. */
  lemma JsonPathNeverNoDocuments(path: string, db: string, col: string, prop: string)
    requires EndsWith(path, ".json")
    ensures QueryNoEntry(path, db, col, prop) != Err(NoDocuments(col))
  {
    assert path[|path| - 1] == 'n' by {
      assert path[|path| - 5..][4] == ".json"[4];
    }
    assert !EndsWith(path, "documents") by {
      assert "documents"[8] == 's';
    }
  }

  lemma {:induction false} QueryScanNeverReportsNoDocuments(s: Store, db: string, col: string, es: Entries,
                                                            c: Condition, limit: Option<int>, k: nat, count: nat)
    ensures var r := QueryScan(s, db, col, es, c, limit, k, count);
      r.Abort? ==> r.result != Err(NoDocuments(col))
    decreases |es| - k
  {
    if k < |es| {
      QueryScanNeverReportsNoDocuments(s, db, col, es, c, limit, k + 1, count);
      QueryScanNeverReportsNoDocuments(s, db, col, es, c, limit, k + 1, count + 1);
      var path := DocumentPath(Base(s.cwd), db, col, es[k].1.document);
      EndsWithAppend(DocumentsPath(Base(s.cwd), db, col) + "/" + es[k].1.document, ".json");
      JsonPathNeverNoDocuments(path, db, col, c.property);
    }
  }

  /**
   * The `documents` branch of `query`'s ENOENT handler is dead: the paths that
   * can fail end in the database name, the collection name, `<property>.json`
   * or `<name>.json`, and none of those ends in `documents`.
   */
  lemma QueryNeverReportsNoDocuments(s: Store, db: string, col: string, c: Condition, limit: Option<int>)
    ensures QueryResult(s, db, col, c, limit) != Err(NoDocuments(col))
  {
    PathsEndWithSegment(Base(s.cwd), db, col, "");
    EndsWithAppend(s.cwd + "/databased/indexing/databases/" + db + "/collections/" + col + "/" + c.property, ".json");
    JsonPathNeverNoDocuments(IndexPath(s.cwd, db, col, c.property), db, col, c.property);
    var x := (db, col, c.property);
    if x in s.indexes && s.indexes[x].Parsed? {
      QueryScanNeverReportsNoDocuments(s, db, col, s.indexes[x].data, c, limit, 0, 0);
    }
  }

  /**
   * A first matching entry whose document file is missing ends the query with
   * the ENOENT handler's verdict on the document's path: when neither the
   * database nor the collection name ends that path, the query returns `[]`
   * if the path ends in `<property>.json` (in particular when the document is
   * named like the queried property) and fails with `Unnamed` otherwise.
   */
  lemma QueryMissingDocument(s: Store, db: string, col: string, c: Condition, limit: Option<int>)
    requires db in s.databases && (db, col) in s.collections
    requires (db, col, c.property) in s.indexes && s.indexes[(db, col, c.property)].Parsed?
    requires var es := s.indexes[(db, col, c.property)].data;
      |es| > 0 && CheckWhereCondition(es[0].1, c) == Ok(true) && (db, col, es[0].1.document) !in s.documents
    requires var path := DocumentPath(Base(s.cwd), db, col, s.indexes[(db, col, c.property)].data[0].1.document);
      !EndsWith(path, db) && !EndsWith(path, col)
    ensures var n := s.indexes[(db, col, c.property)].data[0].1.document;
      var path := DocumentPath(Base(s.cwd), db, col, n);
      && QueryResult(s, db, col, c, limit) == (if EndsWith(path, c.property + ".json") then Ok([]) else Err(Unnamed))
      && (n == c.property ==> QueryResult(s, db, col, c, limit) == Ok([]))
  {
    var n := s.indexes[(db, col, c.property)].data[0].1.document;
    var path := DocumentPath(Base(s.cwd), db, col, n);
    EndsWithAppend(DocumentsPath(Base(s.cwd), db, col) + "/" + n, ".json");
    JsonPathNeverNoDocuments(path, db, col, c.property);
    PathsEndWithSegment(Base(s.cwd), db, col, n);
  }

  // ---------------------------------------------------------------------------
  // A consistent collection, and query on it

  /** Entry `e` of property `p`'s index file is for `p` and holds the referenced document's current value. */
  predicate Current(s: Store, db: string, col: string, p: string, e: Entry) {
    var id := (db, col, e.document);
    && e.key == p && id in s.documents && s.documents[id].Parsed?
    && p in s.documents[id].data && s.documents[id].data[p] == e.value
  }

  predicate EntriesCurrent(s: Store, db: string, col: string, p: string, es: Entries) {
    forall j | 0 <= j < |es| :: Current(s, db, col, p, es[j].1)
  }

  /**
   * The index files of collection `col` describe its documents exactly: every
   * entry is current, and every document satisfies the index invariant.
   */
  predicate Consistent(s: Store, db: string, col: string) {
    && (forall x | x in s.indexes && x.0 == db && x.1 == col && s.indexes[x].Parsed? ::
          EntriesCurrent(s, db, col, x.2, s.indexes[x].data))
    && (forall id | id in s.documents && id.0 == db && id.1 == col :: Indexed(s, db, col, id.2))
  }

  /** Document `n` of the collection has property `c.property` satisfying the condition. */
  predicate Satisfies(s: Store, db: string, col: string, c: Condition, n: string) {
    var id := (db, col, n);
    && id in s.documents && s.documents[id].Parsed? && c.property in s.documents[id].data
    && Evaluate(c.operator, s.documents[id].data[c.property], c.value) == Ok(true)
  }

  lemma {:induction false} MatchingMembers(es: Entries, c: Condition, n: string)
    ensures n in Matching(es, c) <==>
      exists j | 0 <= j < |es| :: es[j].1.document == n && CheckWhereCondition(es[j].1, c) == Ok(true)
  {
    if es != [] {
      MatchingMembers(es[1..], c, n);
      if n in Matching(es[1..], c) {
        var j :| 0 <= j < |es[1..]| && es[1..][j].1.document == n && CheckWhereCondition(es[1..][j].1, c) == Ok(true);
        assert es[j + 1] == es[1..][j];
      }
      if exists j | 0 <= j < |es| :: es[j].1.document == n && CheckWhereCondition(es[j].1, c) == Ok(true) {
        var j :| 0 <= j < |es| && es[j].1.document == n && CheckWhereCondition(es[j].1, c) == Ok(true);
        if j > 0 {
          assert es[1..][j - 1] == es[j];
        }
      }
    }
  }

  lemma {:induction false} MatchingCount(es: Entries, c: Condition, n: string)
    ensures multiset(Matching(es, c))[n] <= CountRefs(es, n)
  {
    if es != [] {
      MatchingCount(es[1..], c, n);
    }
  }

  /** A document's one entry for the queried property puts it among the matches when its value satisfies the condition. */
  lemma OnlyEntryMatches(es: Entries, c: Condition, e: Entry)
    requires RefersOnce(es, e.document, e) && e.key == c.property
    requires Evaluate(c.operator, e.value, c.value) == Ok(true)
    ensures e.document in Matching(es, c)
  {
    MatchingMembers(es, c, e.document);
    NoRefsNoRemoval(es, e.document);
    var j :| 0 <= j < |es| && es[j].1.document == e.document;
    assert CheckWhereCondition(es[j].1, c) == Ok(true);
  }

  /** On a consistent collection, `n` is matched exactly when document `n` satisfies the condition. */
  lemma ConsistentMember(s: Store, db: string, col: string, c: Condition, n: string)
    requires Consistent(s, db, col)
    requires (db, col, c.property) in s.indexes && s.indexes[(db, col, c.property)].Parsed?
    ensures n in Matching(s.indexes[(db, col, c.property)].data, c) <==> Satisfies(s, db, col, c, n)
  {
    var p := c.property;
    var es := s.indexes[(db, col, p)].data;
    assert EntriesCurrent(s, db, col, p, es);
    MatchingMembers(es, c, n);
    if Satisfies(s, db, col, c, n) {
      var d := s.documents[(db, col, n)].data;
      assert Indexed(s, db, col, n);
      OnlyEntryMatches(es, c, Entry(p, d[p], n));
    }
    if n in Matching(es, c) {
      var j :| 0 <= j < |es| && es[j].1.document == n && CheckWhereCondition(es[j].1, c) == Ok(true);
      assert Current(s, db, col, p, es[j].1);
    }
  }

  /** On a consistent collection, no name is matched twice. */
  lemma ConsistentOnce(s: Store, db: string, col: string, c: Condition, n: string)
    requires Consistent(s, db, col)
    requires (db, col, c.property) in s.indexes && s.indexes[(db, col, c.property)].Parsed?
    ensures multiset(Matching(s.indexes[(db, col, c.property)].data, c))[n] <= 1
  {
    var p := c.property;
    var es := s.indexes[(db, col, p)].data;
    MatchingCount(es, c, n);
    if (db, col, n) in s.documents {
      assert Indexed(s, db, col, n);
    } else {
      assert EntriesCurrent(s, db, col, p, es);
      forall j | 0 <= j < |es| ensures es[j].1.document != n {
        assert Current(s, db, col, p, es[j].1);
      }
      NoRefsNoRemoval(es, n);
    }
  }

  /**
   * On a consistent collection the matching entries of property `p`'s index
   * file name exactly the documents satisfying the condition, each once.
   */
  lemma ConsistentMatching(s: Store, db: string, col: string, c: Condition)
    requires Consistent(s, db, col)
    requires (db, col, c.property) in s.indexes && s.indexes[(db, col, c.property)].Parsed?
    ensures var ms := Matching(s.indexes[(db, col, c.property)].data, c);
      && (forall n :: n in ms <==> Satisfies(s, db, col, c, n))
      && (forall n :: multiset(ms)[n] <= 1)
  {
    var ms := Matching(s.indexes[(db, col, c.property)].data, c);
    forall n ensures n in ms <==> Satisfies(s, db, col, c, n) {
      ConsistentMember(s, db, col, c, n);
    }
    forall n ensures multiset(ms)[n] <= 1 {
      ConsistentOnce(s, db, col, c, n);
    }
  }

  /**
   * `query` is correct on a consistent collection: it returns the documents
   * that satisfy the condition, each once, in the order of their index
   * entries, capped by a positive limit.
   */
  lemma QueryOnConsistentStore(s: Store, db: string, col: string, c: Condition, limit: Option<int>)
    requires Consistent(s, db, col) && db in s.databases && (db, col) in s.collections
    requires (db, col, c.property) in s.indexes && s.indexes[(db, col, c.property)].Parsed?
    requires c.operator in Operators
    ensures var ms := Matching(s.indexes[(db, col, c.property)].data, c);
      && (forall n :: n in ms <==> Satisfies(s, db, col, c, n))
      && (forall n :: multiset(ms)[n] <= 1)
      && QueryResult(s, db, col, c, limit) == Ok(Fetch(s, db, col, Cap(ms, QueryBound(limit), 0)))
  {
    ConsistentMatching(s, db, col, c);
    QueryMatchesReference(s, db, col, c, limit);
  }

  // ---------------------------------------------------------------------------
  // getCollection against a reference definition

  /**
   * The scan from file `k` reads the listed documents in directory order, as
   * many as `limit` still allows, provided those it reads are present.
   */
  lemma {:induction false} CollectionScanFetches(s: Store, db: string, col: string, listing: seq<string>,
                                                 limit: Option<int>, k: nat, count: nat)
    requires k <= |listing| && AllPresent(s, db, col, Cap(listing[k..], limit, count))
    ensures CollectionScan(s, db, col, listing, limit, k, count) == Done(Fetch(s, db, col, Cap(listing[k..], limit, count)))
    decreases |listing| - k
  {
    if k == |listing| {
      assert listing[k..] == [];
    } else {
      var n := listing[k];
      var rest := listing[k + 1..];
      assert listing[k..] == [n] + rest;
      if limit.Some? && count == limit.value {
        CollectionScanFetches(s, db, col, listing, limit, k + 1, count);
      } else {
        CapCons(n, rest, limit, count);
        var capped := [n] + Cap(rest, limit, count + 1);
        assert capped[0] == n && capped[1..] == Cap(rest, limit, count + 1);
        assert n in capped;
        CollectionScanFetches(s, db, col, listing, limit, k + 1, count + 1);
      }
    }
  }

  /**
   * `getCollection` against its reference: on a collection whose containers
   * exist it returns the non-empty documents of the first `limit` listed
   * files (all of them with no limit), provided those files are present. A
   * limit of 0 returns nothing: unlike `query`, 0 is not "no limit".
   */
  lemma GetCollectionReadsListing(s: Store, db: string, col: string, listing: seq<string>, limit: Option<int>)
    requires CheckContainers(s, Base(s.cwd), db, col) == Ready
    requires AllPresent(s, db, col, Cap(listing, limit, 0))
    ensures GetCollectionResult(s, db, col, listing, limit) == Ok(Some(Fetch(s, db, col, Cap(listing, limit, 0))))
    ensures limit == Some(0) ==> GetCollectionResult(s, db, col, listing, limit) == Ok(Some([]))
  {
    assert listing[0..] == listing;
    CollectionScanFetches(s, db, col, listing, limit, 0, 0);
  }

  lemma {:induction false} CollectionScanBounded(s: Store, db: string, col: string, listing: seq<string>,
                                                 n: int, k: nat, count: nat)
    requires count <= n
    ensures var r := CollectionScan(s, db, col, listing, Some(n), k, count);
      && (r.Done? ==> count + |r.docs| <= n)
      && (r.Abort? ==> r.result == Ok(None) || r.result.Err?)
    decreases |listing| - k
  {
    if k < |listing| {
      CollectionScanBounded(s, db, col, listing, n, k + 1, count);
      if count < n {
        CollectionScanBounded(s, db, col, listing, n, k + 1, count + 1);
      }
    }
  }

  /** A limit that is not negative bounds the number of documents `getCollection` returns. */
  lemma GetCollectionRespectsLimit(s: Store, db: string, col: string, listing: seq<string>, n: int)
    requires n >= 0
    requires GetCollectionResult(s, db, col, listing, Some(n)).Ok?
    requires GetCollectionResult(s, db, col, listing, Some(n)).value.Some?
    ensures |GetCollectionResult(s, db, col, listing, Some(n)).value.value| <= n
  {
    CollectionScanBounded(s, db, col, listing, n, 0, 0);
  }

  /** Document `n` of collection `col` is a parsed, non-empty file: one that `getCollection` returns. */
  predicate Kept(s: Store, db: string, col: string, n: string) {
    (db, col, n) in s.documents && s.documents[(db, col, n)].Parsed? && s.documents[(db, col, n)].data != map[]
  }

  predicate Distinct(names: seq<string>) {
    forall i, j | 0 <= i < j < |names| :: names[i] != names[j]
  }

  /** `listing` is a directory listing of collection `col`: each of its documents, once. */
  ghost predicate ListsCollection(s: Store, db: string, col: string, listing: seq<string>) {
    && (forall n :: n in listing <==> (db, col, n) in s.documents)
    && Distinct(listing)
  }

  /** `Fetch` returns exactly the contents of the kept documents among `names`. */
  lemma {:induction false} FetchMembers(s: Store, db: string, col: string, names: seq<string>, d: Doc)
    ensures d in Fetch(s, db, col, names) <==>
      exists n | n in names :: Kept(s, db, col, n) && s.documents[(db, col, n)].data == d
  {
    if names != [] {
      FetchMembers(s, db, col, names[1..], d);
      assert names == [names[0]] + names[1..];
      if Kept(s, db, col, names[0]) && s.documents[(db, col, names[0])].data == d {
        assert d in Fetch(s, db, col, names);
      }
    }
  }

  /** The kept names among `names` are the first one, if kept, and the kept names after it. */
  lemma KeptNamesStep(s: Store, db: string, col: string, names: seq<string>)
    requires names != [] && names[0] !in names[1..]
    ensures |set n | n in names && Kept(s, db, col, n)| ==
      |set n | n in names[1..] && Kept(s, db, col, n)| + (if Kept(s, db, col, names[0]) then 1 else 0)
  {
    var all := set n | n in names && Kept(s, db, col, n);
    var later := set n | n in names[1..] && Kept(s, db, col, n);
    assert names == [names[0]] + names[1..];
    if Kept(s, db, col, names[0]) {
      assert all == later + {names[0]};
    } else {
      assert all == later;
    }
  }

  /** Over distinct names, `Fetch` returns one document per kept name. */
  lemma {:induction false} FetchLength(s: Store, db: string, col: string, names: seq<string>)
    requires Distinct(names)
    ensures |Fetch(s, db, col, names)| == |set n | n in names && Kept(s, db, col, n)|
  {
    if names != [] {
      var rest := names[1..];
      assert Distinct(rest) by {
        forall i, j | 0 <= i < j < |rest| ensures rest[i] != rest[j] {
          assert rest[i] == names[i + 1] && rest[j] == names[j + 1];
        }
      }
      assert names[0] !in rest by {
        forall j | 0 <= j < |rest| ensures rest[j] != names[0] {
          assert rest[j] == names[j + 1];
        }
      }
      FetchLength(s, db, col, rest);
      KeptNamesStep(s, db, col, names);
    }
  }

  /**
   * `getCollection` with no limit over a listing of the whole collection, every
   * file a parsed document: it returns the content of every non-empty
   * document and nothing else, one result per such document.
   */
  lemma GetCollectionReturnsCollection(s: Store, db: string, col: string, listing: seq<string>)
    requires CheckContainers(s, Base(s.cwd), db, col) == Ready
    requires ListsCollection(s, db, col, listing)
    requires forall n | (db, col, n) in s.documents :: s.documents[(db, col, n)].Parsed?
    ensures var r := GetCollectionResult(s, db, col, listing, None);
      && r.Ok? && r.value.Some?
      && (forall d :: d in r.value.value <==> exists n :: Kept(s, db, col, n) && s.documents[(db, col, n)].data == d)
      && |r.value.value| == |set n | n in listing && Kept(s, db, col, n)|
  {
    GetCollectionReadsListing(s, db, col, listing, None);
    forall d {
      FetchMembers(s, db, col, listing, d);
    }
    FetchLength(s, db, col, listing);
  }
}
