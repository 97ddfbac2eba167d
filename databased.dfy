/**
 * DataBASED v1.0.5: the document store with its per-property index files.
 * Documents live under `<cwd>/databased/databases`, index files under
 * `<cwd>/databased/indexing/databases/<db>/collections/<col>/<property>.json`.
 */
module DataBased {
  import opened Results
  import opened Json
  import opened Conditions
  import opened Paths
  import opened IndexFile
  import opened Disk

  function Base(cwd: string): string {
    cwd + "/databased/databases"
  }

  function IndexPath(cwd: string, db: string, col: string, prop: string): string {
    cwd + "/databased/indexing/databases/" + db + "/collections/" + col + "/" + prop + ".json"
  }

  // ---------------------------------------------------------------------------
  // Conditions

  /**
   * `checkWhereCondition(entry, condition)`: an entry for another property is
   * rejected before the operator is looked at, so an unsupported operator
   * fails only on entries of the queried property.
   */
  function CheckWhereCondition(e: Entry, c: Condition): (r: Result<bool>)
    ensures e.key != c.property ==> r == Ok(false)
    ensures r.Err? <==> e.key == c.property && c.operator !in Operators
    ensures r.Err? ==> r.error == UnsupportedOperator(c.operator)
    ensures r == Ok(true) ==> e.key == c.property
    ensures e.key == c.property ==> r == Evaluate(c.operator, e.value, c.value)
  {
    if e.key != c.property then Ok(false)
    else Evaluate(c.operator, e.value, c.value)
  }

  /** `if (limit)`: a limit of 0 or none at all is falsy. */
  predicate Truthy(limit: Option<int>) {
    limit.Some? && limit.value != 0
  }

  // ---------------------------------------------------------------------------
  // Index maintenance, store level

  /**
   * The index files after the reindex step has run for the properties
   * `props` of `doc`: each such property's file (read as `{}` when missing or
   * blank) gets the reindexed entries; a missing file is created only when its
   * directory exists; every other file is untouched.
   */
  function WriteIndexes(idx: map<IndexId, Blob<Entries>>, dirExists: bool, db: string, col: string,
                        name: string, doc: Doc, props: set<string>, stamp: string): map<IndexId, Blob<Entries>>
    requires props <= doc.Keys
  {
    map x | x in idx.Keys + (if dirExists then set p | p in props :: (db, col, p) else {}) ::
      if x.0 == db && x.1 == col && x.2 in props
      then Parsed(Reindexed(Content(idx, x), x.2, doc[x.2], name, stamp))
      else idx[x]
  }

  lemma WriteIndexesStep(idx: map<IndexId, Blob<Entries>>, dirExists: bool, db: string, col: string,
                         name: string, doc: Doc, props: set<string>, p: string, stamp: string)
    requires props <= doc.Keys && p in doc && p !in props
    ensures var x := (db, col, p);
      var w := WriteIndexes(idx, dirExists, db, col, name, doc, props, stamp);
      && (x in w <==> x in idx)
      && (x in idx ==> w[x] == idx[x])
      && WriteIndexes(idx, dirExists, db, col, name, doc, props + {p}, stamp) ==
         if x in idx || dirExists then w[x := Parsed(Reindexed(Content(idx, x), p, doc[p], name, stamp))] else w
  {
    var x := (db, col, p);
    var w := WriteIndexes(idx, dirExists, db, col, name, doc, props, stamp);
    var w' := WriteIndexes(idx, dirExists, db, col, name, doc, props + {p}, stamp);
    var e := if x in idx || dirExists then w[x := Parsed(Reindexed(Content(idx, x), p, doc[p], name, stamp))] else w;
    assert forall y :: y in w' <==> y in e;
  }

  /** The properties of `doc` that had no index file. */
  function MissingIndexes(s: Store, db: string, col: string, doc: Doc): set<string> {
    set p | p in doc.Keys && (db, col, p) !in s.indexes
  }

  /** The index files after `fromProps`' first references to `name` are deleted; blank or missing files are left alone. */
  function DropIndexes(idx: map<IndexId, Blob<Entries>>, db: string, col: string, name: string,
                       props: set<string>): map<IndexId, Blob<Entries>>
  {
    map x | x in idx :: if x.0 == db && x.1 == col && x.2 in props && idx[x].Parsed?
                        then Parsed(RemoveFirstRef(idx[x].data, name)) else idx[x]
  }

  lemma DropIndexesStep(idx: map<IndexId, Blob<Entries>>, db: string, col: string, name: string,
                        props: set<string>, p: string)
    requires p !in props
    ensures var x := (db, col, p);
      var w := DropIndexes(idx, db, col, name, props);
      && (x in idx ==> w[x] == idx[x])
      && DropIndexes(idx, db, col, name, props + {p}) ==
         if x in idx && idx[x].Parsed? then w[x := Parsed(RemoveFirstRef(idx[x].data, name))] else w
  {
    var x := (db, col, p);
    var w := DropIndexes(idx, db, col, name, props);
    var w' := DropIndexes(idx, db, col, name, props + {p});
    var e := if x in idx && idx[x].Parsed? then w[x := Parsed(RemoveFirstRef(idx[x].data, name))] else w;
    assert forall y :: y in w' <==> y in e;
  }

  /**
   * The per-property callbacks of `setDoc` and `updateDoc` run in turn. For
   * each property: read the index file (blank reads as `{}`), drop the first
   * entry for `name`, store the new entry under `stamp`, write the file back;
   * a missing file is created holding only the new entry. Returns the
   * properties whose index file was missing.
   */
  method IndexProperties(fs: FileSystem, db: string, col: string, name: string, doc: Doc, stamp: string)
    returns (missing: set<string>)
    modifies fs`indexes
    ensures fs.indexes == WriteIndexes(old(fs.indexes), (db, col) in fs.indexDirs, db, col, name, doc, doc.Keys, stamp)
    ensures missing == MissingIndexes(old(fs.State()), db, col, doc)
  {
    var dirExists := (db, col) in fs.indexDirs;
    var done: set<string> := {};
    var todo := doc.Keys;
    missing := {};
    while todo != {}
      invariant done + todo == doc.Keys && done !! todo
      invariant fs.indexes == WriteIndexes(old(fs.indexes), dirExists, db, col, name, doc, done, stamp)
      invariant missing == set p | p in done && (db, col, p) !in old(fs.indexes)
    {
      var p :| p in todo;
      var x := (db, col, p);
      WriteIndexesStep(old(fs.indexes), dirExists, db, col, name, doc, done, p, stamp);
      var e := Entry(p, doc[p], name);
      if x in fs.indexes {
        var data: Entries := [];
        if fs.indexes[x].Parsed? {
          data := DropFirstReference(fs.indexes[x].data, name);
        }
        data := Assign(data, stamp, e);
        fs.indexes := fs.indexes[x := Parsed(data)];
      } else {
        missing := missing + {p};
        if dirExists {
          fs.indexes := fs.indexes[x := Parsed(Assign([], stamp, e))];
        }
      }
      done, todo := done + {p}, todo - {p};
    }
  }

  /**
   * The per-property callbacks of `deleteDoc`: in each existing, non-blank
   * index file of `props`, delete the first entry for `name` (the file is
   * rewritten only when one was found). Returns the properties whose index
   * file was missing.
   */
  method DropReferences(fs: FileSystem, db: string, col: string, name: string, props: set<string>)
    returns (missing: set<string>)
    modifies fs`indexes
    ensures fs.indexes == DropIndexes(old(fs.indexes), db, col, name, props)
    ensures missing == set p | p in props && (db, col, p) !in old(fs.indexes)
  {
    var done: set<string> := {};
    var todo := props;
    missing := {};
    while todo != {}
      invariant done + todo == props && done !! todo
      invariant fs.indexes == DropIndexes(old(fs.indexes), db, col, name, done)
      invariant missing == set p | p in done && (db, col, p) !in old(fs.indexes)
    {
      var p :| p in todo;
      var x := (db, col, p);
      DropIndexesStep(old(fs.indexes), db, col, name, done, p);
      if x in fs.indexes {
        if fs.indexes[x].Parsed? {
          var data := DropFirstReference(fs.indexes[x].data, name);
          fs.indexes := fs.indexes[x := Parsed(data)];
        }
      } else {
        missing := missing + {p};
      }
      done, todo := done + {p}, todo - {p};
    }
  }

  // ---------------------------------------------------------------------------
  // setDoc, updateDoc, deleteDoc

  /** The store after `setDoc(db, col, name, doc)`. */
  function SetDocState(s: Store, db: string, col: string, name: string, doc: Doc, stamp: string): Store {
    match CheckContainers(s, Base(s.cwd), db, col)
    case ReportsDatabase => s
    case ReportsCollection => s
    case _ => s.(documentDirs := s.documentDirs + {(db, col)},
                 documents := s.documents[(db, col, name) := Parsed(doc)],
                 indexes := WriteIndexes(s.indexes, (db, col) in s.indexDirs, db, col, name, doc, doc.Keys, stamp))
  }

  /**
   * What `setDoc` may return: the named container errors, or the rejection of
   * a property whose index file could not be created because its index
   * directory is missing (any one of them, as `Promise.all` reports the first).
   */
  predicate SetDocOutcome(s: Store, db: string, col: string, doc: Doc, r: Result<()>) {
    match CheckContainers(s, Base(s.cwd), db, col)
    case ReportsDatabase => r == Err(DatabaseNotFound(db))
    case ReportsCollection => r == Err(CollectionNotFound(col))
    case _ =>
      if (db, col) in s.indexDirs || MissingIndexes(s, db, col, doc) == {} then r == Ok(())
      else exists p | p in MissingIndexes(s, db, col, doc) :: r == Err(NoSuchFile(Open, IndexPath(s.cwd, db, col, p)))
  }

  /** `setDoc(db, col, name, doc)`, with `stamp` standing for `Date.now()`. */
  method SetDoc(fs: FileSystem, db: string, col: string, name: string, doc: Doc, stamp: string)
    returns (r: Result<()>)
    modifies fs
    ensures fs.State() == SetDocState(old(fs.State()), db, col, name, doc, stamp)
    ensures SetDocOutcome(old(fs.State()), db, col, doc, r)
  {
    var c := CheckContainers(fs.State(), Base(fs.cwd), db, col);
    if c == ReportsDatabase {
      return Err(DatabaseNotFound(db));
    } else if c == ReportsCollection {
      return Err(CollectionNotFound(col));
    }
    // fs.mkdir of the documents directory when it is the one missing
    fs.documentDirs := fs.documentDirs + {(db, col)};
    fs.documents := fs.documents[(db, col, name) := Parsed(doc)];
    var missing := IndexProperties(fs, db, col, name, doc, stamp);
    if (db, col) in fs.indexDirs || missing == {} {
      r := Ok(());
    } else {
      var p :| p in missing;
      r := Err(NoSuchFile(Open, IndexPath(fs.cwd, db, col, p)));
    }
  }

  /** The store after `updateDoc(db, col, name, doc)`. */
  function UpdateDocState(s: Store, db: string, col: string, name: string, doc: Doc, stamp: string): Store {
    var id := (db, col, name);
    match CheckContainers(s, Base(s.cwd), db, col)
    case ReportsDatabase => s
    case ReportsCollection => s
    case _ =>
      var s1 := s.(documentDirs := s.documentDirs + {(db, col)});
      if id in s.documents && s.documents[id].Blank? then s1
      else
        var stored := if id in s.documents then Merge(s.documents[id].data, doc) else doc;
        s1.(documents := s.documents[id := Parsed(stored)],
            indexes := WriteIndexes(s.indexes, (db, col) in s.indexDirs, db, col, name, doc, doc.Keys, stamp))
  }

  /**
   * What `updateDoc` may return: the container errors, the parse error of a
   * blank document file, or, for a property whose index file was missing,
   * the ENOENT error rethrown after the file was created (or the error of
   * creating it when its directory is missing).
   */
  predicate UpdateDocOutcome(s: Store, db: string, col: string, name: string, doc: Doc, r: Result<()>) {
    var id := (db, col, name);
    match CheckContainers(s, Base(s.cwd), db, col)
    case ReportsDatabase => r == Err(DatabaseNotFound(db))
    case ReportsCollection => r == Err(CollectionNotFound(col))
    case _ =>
      if id in s.documents && s.documents[id].Blank? then r == Err(EmptyJson)
      else if MissingIndexes(s, db, col, doc) == {} then r == Ok(())
      else exists p | p in MissingIndexes(s, db, col, doc) ::
        r == Err(NoSuchFile(if (db, col) in s.indexDirs then Stat else Open, IndexPath(s.cwd, db, col, p)))
  }

  /** `updateDoc(db, col, name, doc)`, with `stamp` standing for `Date.now()`. */
  method UpdateDoc(fs: FileSystem, db: string, col: string, name: string, doc: Doc, stamp: string)
    returns (r: Result<()>)
    modifies fs
    ensures fs.State() == UpdateDocState(old(fs.State()), db, col, name, doc, stamp)
    ensures UpdateDocOutcome(old(fs.State()), db, col, name, doc, r)
  {
    var c := CheckContainers(fs.State(), Base(fs.cwd), db, col);
    if c == ReportsDatabase {
      return Err(DatabaseNotFound(db));
    } else if c == ReportsCollection {
      return Err(CollectionNotFound(col));
    }
    fs.documentDirs := fs.documentDirs + {(db, col)};
    var id := (db, col, name);
    if id in fs.documents {
      if fs.documents[id].Blank? {
        return Err(EmptyJson);
      }
      fs.documents := fs.documents[id := Parsed(Merge(fs.documents[id].data, doc))];
    } else {
      fs.documents := fs.documents[id := Parsed(doc)];
    }
    var missing := IndexProperties(fs, db, col, name, doc, stamp);
    if missing == {} {
      r := Ok(());
    } else {
      var p :| p in missing;
      r := Err(NoSuchFile(if (db, col) in fs.indexDirs then Stat else Open, IndexPath(fs.cwd, db, col, p)));
    }
  }

  /** The store after `deleteDoc(db, col, name)`. */
  function DeleteDocState(s: Store, db: string, col: string, name: string): Store {
    var id := (db, col, name);
    if CheckContainers(s, Base(s.cwd), db, col) != Ready || id !in s.documents || s.documents[id].Blank? then s
    else s.(documents := s.documents - {id},
            indexes := DropIndexes(s.indexes, db, col, name, s.documents[id].data.Keys))
  }

  /**
   * What `deleteDoc` may return: the container errors (a missing documents
   * directory reads as a missing document), the raw ENOENT of reading a
   * missing document file, a named error for a blank one, or "no index
   * reference" for a property of the document whose index file is missing.
   */
  predicate DeleteDocOutcome(s: Store, db: string, col: string, name: string, r: Result<()>) {
    var id := (db, col, name);
    match CheckContainers(s, Base(s.cwd), db, col)
    case ReportsDatabase => r == Err(DatabaseNotFound(db))
    case ReportsCollection => r == Err(CollectionNotFound(col))
    case ReportsDocuments => r == Err(DocumentNotFound(name))
    case Ready =>
      if id !in s.documents then r == Err(NoSuchFile(Open, DocumentPath(Base(s.cwd), db, col, name)))
      else if s.documents[id].Blank? then r == Err(DocumentNotFound(name))
      else
        var gone := set p | p in s.documents[id].data.Keys && (db, col, p) !in s.indexes;
        if gone == {} then r == Ok(())
        else exists p | p in gone :: r == Err(NoIndexReference(p))
  }

  /** `deleteDoc(db, col, name)`. */
  method DeleteDoc(fs: FileSystem, db: string, col: string, name: string) returns (r: Result<()>)
    modifies fs
    ensures fs.State() == DeleteDocState(old(fs.State()), db, col, name)
    ensures DeleteDocOutcome(old(fs.State()), db, col, name, r)
  {
    var c := CheckContainers(fs.State(), Base(fs.cwd), db, col);
    if c == ReportsDatabase {
      return Err(DatabaseNotFound(db));
    } else if c == ReportsCollection {
      return Err(CollectionNotFound(col));
    } else if c == ReportsDocuments {
      return Err(DocumentNotFound(name));
    }
    var id := (db, col, name);
    if id !in fs.documents {
      return Err(NoSuchFile(Open, DocumentPath(Base(fs.cwd), db, col, name)));
    }
    if fs.documents[id].Blank? {
      return Err(DocumentNotFound(name));
    }
    var stored := fs.documents[id].data;
    fs.documents := fs.documents - {id};
    var missing := DropReferences(fs, db, col, name, stored.Keys);
    if missing == {} {
      r := Ok(());
    } else {
      var p :| p in missing;
      r := Err(NoIndexReference(p));
    }
  }

  // ---------------------------------------------------------------------------
  // query and getCollection

  /**
   * The ENOENT handler of `query`: `endsWith` tests in the order database,
   * collection, `'documents'`, `<property>.json` (which makes the whole query
   * return `[]`); anything else throws an error with an empty message.
   */
  function QueryNoEntry(path: string, db: string, col: string, prop: string): Result<seq<Doc>> {
    if EndsWith(path, db) then Err(DatabaseNotFound(db))
    else if EndsWith(path, col) then Err(CollectionNotFound(col))
    else if EndsWith(path, "documents") then Err(NoDocuments(col))
    else if EndsWith(path, prop + ".json") then Ok([])
    else Err(Unnamed)
  }

  /**
   * The callbacks of `query` over the index entries from position `k`, run in
   * turn with the match counter at `count`: once a truthy limit is reached
   * every further slot is empty; otherwise a matching entry's document file is
   * read and becomes the slot's result, and the counter goes up.
   */
  function QueryScan(s: Store, db: string, col: string, es: Entries, c: Condition,
                     limit: Option<int>, k: nat, count: nat): Scan<Result<seq<Doc>>>
    decreases |es| - k
  {
    if k >= |es| then Done([])
    else if Truthy(limit) && count == limit.value then QueryScan(s, db, col, es, c, limit, k + 1, count)
    else match CheckWhereCondition(es[k].1, c)
      case Err(e) => Abort(Err(e))
      case Ok(false) => QueryScan(s, db, col, es, c, limit, k + 1, count)
      case Ok(true) =>
        var id := (db, col, es[k].1.document);
        if id !in s.documents then
          Abort(QueryNoEntry(DocumentPath(Base(s.cwd), db, col, es[k].1.document), db, col, c.property))
        else if s.documents[id].Blank? then Abort(Err(EmptyJson))
        else Prepend(NonEmpty(s.documents[id].data), QueryScan(s, db, col, es, c, limit, k + 1, count + 1))
  }

  /** What `query(db, col, condition, limit)` returns. */
  function QueryResult(s: Store, db: string, col: string, c: Condition, limit: Option<int>): Result<seq<Doc>> {
    var x := (db, col, c.property);
    if db !in s.databases then QueryNoEntry(DatabasePath(Base(s.cwd), db), db, col, c.property)
    else if (db, col) !in s.collections then QueryNoEntry(CollectionPath(Base(s.cwd), db, col), db, col, c.property)
    else if x !in s.indexes then QueryNoEntry(IndexPath(s.cwd, db, col, c.property), db, col, c.property)
    else if s.indexes[x].Blank? then Err(EmptyJson)
    else match QueryScan(s, db, col, s.indexes[x].data, c, limit, 0, 0)
      case Done(ds) => Ok(ds)
      case Abort(r) => r
  }

  /** `query(db, col, condition, limit)`, its callbacks run one after another. */
  method Query(fs: FileSystem, db: string, col: string, c: Condition, limit: Option<int>)
    returns (r: Result<seq<Doc>>)
    ensures r == QueryResult(fs.State(), db, col, c, limit)
  {
    var x := (db, col, c.property);
    if db !in fs.databases {
      return QueryNoEntry(DatabasePath(Base(fs.cwd), db), db, col, c.property);
    } else if (db, col) !in fs.collections {
      return QueryNoEntry(CollectionPath(Base(fs.cwd), db, col), db, col, c.property);
    } else if x !in fs.indexes {
      return QueryNoEntry(IndexPath(fs.cwd, db, col, c.property), db, col, c.property);
    } else if fs.indexes[x].Blank? {
      return Err(EmptyJson);
    }
    var es := fs.indexes[x].data;
    var results: seq<Doc> := [];
    var i: nat := 0;
    var k := 0;
    while k < |es|
      invariant 0 <= k <= |es|
      invariant QueryScan(fs.State(), db, col, es, c, limit, 0, 0) ==
                Prepend(results, QueryScan(fs.State(), db, col, es, c, limit, k, i))
    {
      if !(Truthy(limit) && i == limit.value) {
        var matched := CheckWhereCondition(es[k].1, c);
        if matched.Err? {
          return Err(matched.error);
        }
        if matched.value {
          var id := (db, col, es[k].1.document);
          if id !in fs.documents {
            return QueryNoEntry(DocumentPath(Base(fs.cwd), db, col, es[k].1.document), db, col, c.property);
          } else if fs.documents[id].Blank? {
            return Err(EmptyJson);
          }
          PrependPrepend(results, NonEmpty(fs.documents[id].data), QueryScan(fs.State(), db, col, es, c, limit, k + 1, i + 1));
          results := results + NonEmpty(fs.documents[id].data);
          i := i + 1;
        }
      }
      k := k + 1;
    }
    assert results + [] == results;
    r := Ok(results);
  }

  /**
   * The callbacks of `getCollection` over the listed files from position `k`:
   * `typeof limit !== null` always holds, so a slot is empty once the counter
   * equals the limit; otherwise the file is read (ENOENT makes the whole call
   * return undefined) and counted.
   */
  function CollectionScan(s: Store, db: string, col: string, listing: seq<string>,
                          limit: Option<int>, k: nat, count: nat): Scan<Result<Option<seq<Doc>>>>
    decreases |listing| - k
  {
    if k >= |listing| then Done([])
    else if limit.Some? && count == limit.value then CollectionScan(s, db, col, listing, limit, k + 1, count)
    else
      var id := (db, col, listing[k]);
      if id !in s.documents then Abort(Ok(None))
      else if s.documents[id].Blank? then Abort(Err(EmptyJson))
      else Prepend(NonEmpty(s.documents[id].data), CollectionScan(s, db, col, listing, limit, k + 1, count + 1))
  }

  /**
   * What `getCollection(db, col, limit)` returns when `fs.readdir` lists the
   * documents directory as `listing` (document names, in directory order);
   * `Ok(None)` is `undefined`.
   */
  function GetCollectionResult(s: Store, db: string, col: string, listing: seq<string>,
                               limit: Option<int>): Result<Option<seq<Doc>>> {
    match CheckContainers(s, Base(s.cwd), db, col)
    case ReportsDatabase => Err(DatabaseNotFound(db))
    case ReportsCollection => Err(CollectionNotFound(col))
    case ReportsDocuments => Err(NoDocuments(col))
    case Ready =>
      match CollectionScan(s, db, col, listing, limit, 0, 0)
      case Done(ds) => Ok(Some(ds))
      case Abort(r) => r
  }

  /** `getCollection(db, col, limit)`, its callbacks run one after another. */
  method GetCollection(fs: FileSystem, db: string, col: string, listing: seq<string>, limit: Option<int>)
    returns (r: Result<Option<seq<Doc>>>)
    ensures r == GetCollectionResult(fs.State(), db, col, listing, limit)
  {
    var c := CheckContainers(fs.State(), Base(fs.cwd), db, col);
    if c == ReportsDatabase {
      return Err(DatabaseNotFound(db));
    } else if c == ReportsCollection {
      return Err(CollectionNotFound(col));
    } else if c == ReportsDocuments {
      return Err(NoDocuments(col));
    }
    var results: seq<Doc> := [];
    var i: nat := 0;
    var k := 0;
    while k < |listing|
      invariant 0 <= k <= |listing|
      invariant CollectionScan(fs.State(), db, col, listing, limit, 0, 0) ==
                Prepend(results, CollectionScan(fs.State(), db, col, listing, limit, k, i))
    {
      if !(limit.Some? && i == limit.value) {
        var id := (db, col, listing[k]);
        if id !in fs.documents {
          return Ok(None);
        } else if fs.documents[id].Blank? {
          return Err(EmptyJson);
        }
        PrependPrepend(results, NonEmpty(fs.documents[id].data),
                       CollectionScan(fs.State(), db, col, listing, limit, k + 1, i + 1));
        results := results + NonEmpty(fs.documents[id].data);
        i := i + 1;
      }
      k := k + 1;
    }
    assert results + [] == results;
    r := Ok(Some(results));
  }
}
