/**
 * DataBASED v1.0.0: the same store without index files. Documents live under
 * `<cwd>/databases`; `query` reads every document of the collection and
 * tests its properties one by one.
 */
module DataBasedLegacy {
  import opened Results
  import opened Json
  import opened Conditions
  import opened Paths
  import opened Disk

  function Base(cwd: string): string {
    cwd + "/databases"
  }

  /** `getDoc(db, col, name)`, below this version's base directory. */
  function GetDoc(s: Store, db: string, col: string, name: string): (r: Result<Handle>)
    ensures db in s.databases && (db, col) in s.collections && (db, col, name) in s.documents ==>
      r == if s.documents[(db, col, name)].Blank? then Err(EmptyJson) else Ok(Present(s.documents[(db, col, name)].data))
    ensures db in s.databases && (db, col) in s.collections && (db, col, name) !in s.documents ==> r == Ok(Absent)
  {
    GetDocAt(s, Base(s.cwd), db, col, name)
  }

  // ---------------------------------------------------------------------------
  // Conditions

  /**
   * `checkWhereCondition({property: key, value}, condition)`: a property
   * other than the queried one is rejected before the operator is looked at.
   */
  function CheckWhereCondition(field: (string, Value), c: Condition): (r: Result<bool>)
    ensures field.0 != c.property ==> r == Ok(false)
    ensures r.Err? <==> field.0 == c.property && c.operator !in Operators
    ensures r.Err? ==> r.error == UnsupportedOperator(c.operator)
    ensures field.0 == c.property && c.operator in Operators ==> r == Evaluate(c.operator, field.1, c.value)
  {
    if field.0 != c.property then Ok(false)
    else Evaluate(c.operator, field.1, c.value)
  }

  /**
   * Whether the loop over a document's properties finds a match: only the
   * queried property can match, so the order of the properties does not
   * matter; an unsupported operator throws only when the document has the
   * queried property.
   */
  function DocMatches(d: Doc, c: Condition): (r: Result<bool>)
    ensures r == Ok(true) <==> exists k | k in d :: CheckWhereCondition((k, d[k]), c) == Ok(true)
    ensures r.Err? <==> exists k | k in d :: CheckWhereCondition((k, d[k]), c).Err?
    ensures r.Err? ==> r.error == UnsupportedOperator(c.operator)
  {
    if c.property in d then CheckWhereCondition((c.property, d[c.property]), c) else Ok(false)
  }

  /** `for (let key in fileData) if (checkWhereCondition(...)) { ...; break }`. */
  method MatchDocument(d: Doc, c: Condition) returns (r: Result<bool>)
    ensures r == DocMatches(d, c)
  {
    var todo := d.Keys;
    r := Ok(false);
    while todo != {}
      invariant todo <= d.Keys
      invariant r == if c.property in d && c.property !in todo then DocMatches(d, c) else Ok(false)
      decreases todo
    {
      var key :| key in todo;
      var m := CheckWhereCondition((key, d[key]), c);
      if m.Err? {
        return m;
      }
      if m.value {
        return m;
      }
      if key == c.property {
        r := m;
      }
      todo := todo - {key};
    }
  }

  // ---------------------------------------------------------------------------
  // query

  function SyscallName(call: Syscall): string {
    match call
    case Stat => "stat"
    case Scandir => "scandir"
    case Open => "open"
    case Unlink => "unlink"
  }

  /** The message of Node's ENOENT error for `call` on `path`. */
  function NoEntryMessage(call: Syscall, path: string): string {
    "ENOENT: no such file or directory, " + SyscallName(call) + " '" + path + "'"
  }

  /** The ENOENT handler of `query`: `err.message.includes(db)` picks the database error, anything else the collection error. */
  function QueryNoEntry(call: Syscall, path: string, db: string, col: string): Result<seq<Doc>> {
    if Contains(NoEntryMessage(call, path), db) then Err(DatabaseNotFound(db)) else Err(CollectionNotFound(col))
  }

  /**
   * The callbacks of `query` over the listed files from position `k`, run in
   * turn with the match counter at `count`: each file is read and parsed
   * first; then, once the counter equals the limit, the slot is empty;
   * otherwise a matching document becomes the slot's result and is counted.
   */
  function QueryScan(s: Store, db: string, col: string, listing: seq<string>, c: Condition,
                     limit: Option<int>, k: nat, count: nat): Scan<Result<seq<Doc>>>
    decreases |listing| - k
  {
    if k >= |listing| then Done([])
    else
      var id := (db, col, listing[k]);
      if id !in s.documents then Abort(QueryNoEntry(Open, DocumentPath(Base(s.cwd), db, col, listing[k]), db, col))
      else if s.documents[id].Blank? then Abort(Err(EmptyJson))
      else if limit.Some? && count == limit.value then QueryScan(s, db, col, listing, c, limit, k + 1, count)
      else match DocMatches(s.documents[id].data, c)
        case Err(e) => Abort(Err(e))
        case Ok(false) => QueryScan(s, db, col, listing, c, limit, k + 1, count)
        case Ok(true) =>
          Prepend(NonEmpty(s.documents[id].data), QueryScan(s, db, col, listing, c, limit, k + 1, count + 1))
  }

  /**
   * What `query(db, col, condition, limit)` returns when `fs.readdir` lists
   * the documents directory as `listing`.
   */
  function QueryResult(s: Store, db: string, col: string, c: Condition, limit: Option<int>,
                       listing: seq<string>): Result<seq<Doc>> {
    var base := Base(s.cwd);
    if db !in s.databases then QueryNoEntry(Stat, DatabasePath(base, db), db, col)
    else if (db, col) !in s.collections then QueryNoEntry(Stat, CollectionPath(base, db, col), db, col)
    else if (db, col) !in s.documentDirs then QueryNoEntry(Scandir, DocumentsPath(base, db, col), db, col)
    else match QueryScan(s, db, col, listing, c, limit, 0, 0)
      case Done(ds) => Ok(ds)
      case Abort(r) => r
  }

  /** `query(db, col, condition, limit)`, its callbacks run one after another. */
  method Query(fs: FileSystem, db: string, col: string, c: Condition, limit: Option<int>, listing: seq<string>)
    returns (r: Result<seq<Doc>>)
    ensures r == QueryResult(fs.State(), db, col, c, limit, listing)
  {
    var base := Base(fs.cwd);
    if db !in fs.databases {
      return QueryNoEntry(Stat, DatabasePath(base, db), db, col);
    } else if (db, col) !in fs.collections {
      return QueryNoEntry(Stat, CollectionPath(base, db, col), db, col);
    } else if (db, col) !in fs.documentDirs {
      return QueryNoEntry(Scandir, DocumentsPath(base, db, col), db, col);
    }
    var results: seq<Doc> := [];
    var i: nat := 0;
    var k := 0;
    while k < |listing|
      invariant 0 <= k <= |listing|
      invariant QueryScan(fs.State(), db, col, listing, c, limit, 0, 0) ==
                Prepend(results, QueryScan(fs.State(), db, col, listing, c, limit, k, i))
    {
      var id := (db, col, listing[k]);
      if id !in fs.documents {
        return QueryNoEntry(Open, DocumentPath(base, db, col, listing[k]), db, col);
      } else if fs.documents[id].Blank? {
        return Err(EmptyJson);
      }
      var d := fs.documents[id].data;
      if !(limit.Some? && i == limit.value) {
        var matched := MatchDocument(d, c);
        if matched.Err? {
          return Err(matched.error);
        }
        if matched.value {
          PrependPrepend(results, NonEmpty(d), QueryScan(fs.State(), db, col, listing, c, limit, k + 1, i + 1));
          results := results + NonEmpty(d);
          i := i + 1;
        }
      }
      k := k + 1;
    }
    assert results + [] == results;
    r := Ok(results);
  }

  // ---------------------------------------------------------------------------
  // setDoc, deleteDoc, getCollection

  /** The store after `setDoc(db, col, name, doc)`: the documents directory is created when it is the one missing. */
  function SetDocState(s: Store, db: string, col: string, name: string, doc: Doc): Store {
    match CheckContainers(s, Base(s.cwd), db, col)
    case ReportsDatabase => s
    case ReportsCollection => s
    case _ => s.(documentDirs := s.documentDirs + {(db, col)},
                 documents := s.documents[(db, col, name) := Parsed(doc)])
  }

  function SetDocOutcome(s: Store, db: string, col: string): Result<()> {
    match CheckContainers(s, Base(s.cwd), db, col)
    case ReportsDatabase => Err(DatabaseNotFound(db))
    case ReportsCollection => Err(CollectionNotFound(col))
    case _ => Ok(())
  }

  /** `setDoc(db, col, name, doc)`. */
  method SetDoc(fs: FileSystem, db: string, col: string, name: string, doc: Doc) returns (r: Result<()>)
    modifies fs
    ensures fs.State() == SetDocState(old(fs.State()), db, col, name, doc)
    ensures r == SetDocOutcome(old(fs.State()), db, col)
  {
    var c := CheckContainers(fs.State(), Base(fs.cwd), db, col);
    if c == ReportsDatabase {
      return Err(DatabaseNotFound(db));
    } else if c == ReportsCollection {
      return Err(CollectionNotFound(col));
    }
    fs.documentDirs := fs.documentDirs + {(db, col)};
    fs.documents := fs.documents[(db, col, name) := Parsed(doc)];
    r := Ok(());
  }

  /** The store after `deleteDoc(db, col, name)`: the file goes, whatever it holds. */
  function DeleteDocState(s: Store, db: string, col: string, name: string): Store {
    if CheckContainers(s, Base(s.cwd), db, col) == Ready then s.(documents := s.documents - {(db, col, name)})
    else s
  }

  /** What `deleteDoc` returns: the container errors; a missing document file is not an error. */
  function DeleteDocOutcome(s: Store, db: string, col: string, name: string): Result<()> {
    match CheckContainers(s, Base(s.cwd), db, col)
    case ReportsDatabase => Err(DatabaseNotFound(db))
    case ReportsCollection => Err(CollectionNotFound(col))
    case ReportsDocuments => Err(DocumentNotFound(name))
    case Ready => Ok(())
  }

  /** `deleteDoc(db, col, name)`. */
  method DeleteDoc(fs: FileSystem, db: string, col: string, name: string) returns (r: Result<()>)
    modifies fs
    ensures fs.State() == DeleteDocState(old(fs.State()), db, col, name)
    ensures r == DeleteDocOutcome(old(fs.State()), db, col, name)
  {
    var c := CheckContainers(fs.State(), Base(fs.cwd), db, col);
    if c == ReportsDatabase {
      return Err(DatabaseNotFound(db));
    } else if c == ReportsCollection {
      return Err(CollectionNotFound(col));
    } else if c == ReportsDocuments {
      return Err(DocumentNotFound(name));
    }
    // fs.unlink; ENOENT is swallowed
    fs.documents := fs.documents - {(db, col, name)};
    r := Ok(());
  }

  /**
   * The callbacks of `getCollection` over the listed files from position `k`:
   * each file is read and parsed first (ENOENT makes the whole call return
   * undefined); then the slot is empty once the counter equals the limit,
   * otherwise it holds the document and is counted.
   */
  function CollectionScan(s: Store, db: string, col: string, listing: seq<string>,
                          limit: Option<int>, k: nat, count: nat): Scan<Result<Option<seq<Doc>>>>
    decreases |listing| - k
  {
    if k >= |listing| then Done([])
    else
      var id := (db, col, listing[k]);
      if id !in s.documents then Abort(Ok(None))
      else if s.documents[id].Blank? then Abort(Err(EmptyJson))
      else if limit.Some? && count == limit.value then CollectionScan(s, db, col, listing, limit, k + 1, count)
      else Prepend(NonEmpty(s.documents[id].data), CollectionScan(s, db, col, listing, limit, k + 1, count + 1))
  }

  /** What `getCollection(db, col, limit)` returns when `fs.readdir` lists the documents directory as `listing`. */
  function GetCollectionResult(s: Store, db: string, col: string, listing: seq<string>,
                               limit: Option<int>): Result<Option<seq<Doc>>> {
    match CheckContainers(s, Base(s.cwd), db, col)
    case ReportsDatabase => Err(DatabaseNotFound(db))
    case ReportsCollection => Err(CollectionNotFound(col))
    case ReportsDocuments => Err(NoDocuments(col))
    case Ready =>
      match CollectionScan(s, db, col, listing, limit, 0, 0)
      case Done(ds) => Ok(Some(ds))
      case Abort(r) => r
  }

  /** `getCollection(db, col, limit)`, its callbacks run one after another. */
  method GetCollection(fs: FileSystem, db: string, col: string, listing: seq<string>, limit: Option<int>)
    returns (r: Result<Option<seq<Doc>>>)
    ensures r == GetCollectionResult(fs.State(), db, col, listing, limit)
  {
    var c := CheckContainers(fs.State(), Base(fs.cwd), db, col);
    if c == ReportsDatabase {
      return Err(DatabaseNotFound(db));
    } else if c == ReportsCollection {
      return Err(CollectionNotFound(col));
    } else if c == ReportsDocuments {
      return Err(NoDocuments(col));
    }
    var results: seq<Doc> := [];
    var i: nat := 0;
    var k := 0;
    while k < |listing|
      invariant 0 <= k <= |listing|
      invariant CollectionScan(fs.State(), db, col, listing, limit, 0, 0) ==
                Prepend(results, CollectionScan(fs.State(), db, col, listing, limit, k, i))
    {
      var id := (db, col, listing[k]);
      if id !in fs.documents {
        return Ok(None);
      } else if fs.documents[id].Blank? {
        return Err(EmptyJson);
      }
      if !(limit.Some? && i == limit.value) {
        PrependPrepend(results, NonEmpty(fs.documents[id].data),
                       CollectionScan(fs.State(), db, col, listing, limit, k + 1, i + 1));
        results := results + NonEmpty(fs.documents[id].data);
        i := i + 1;
      }
      k := k + 1;
    }
    assert results + [] == results;
    r := Ok(Some(results));
  }
}
