/**
 * The filesystem the store works on, abstracted to the directories it tests
 * and the files it reads and writes, plus the existence checks and the
 * `endsWith` error classification that both versions of the store share.
 */
module Disk {
  import opened Results
  import opened Json
  import opened IndexFile
  import opened Paths

  /** A file's content: blank (empty or white space) or a parsed JSON value. */
  datatype Blob<+T> = Blank | Parsed(data: T)

  /** A document file, by database, collection and document name. */
  type DocId = (string, string, string)

  /** An index file, by database, collection and property name. */
  type IndexId = (string, string, string)

  /** A snapshot of the filesystem below the working directory `cwd`. */
  datatype Store = Store(
    cwd: string,
    databases: set<string>,
    collections: set<(string, string)>,
    documentDirs: set<(string, string)>,
    documents: map<DocId, Blob<Doc>>,
    indexDirs: set<(string, string)>,
    indexes: map<IndexId, Blob<Entries>>)

  /**
   * Directories form a tree (a file lives in an existing directory) and every
   * parsed index file, being a JSON object, has distinct keys.
   */
  predicate WellFormed(s: Store) {
    && (forall c | c in s.collections :: c.0 in s.databases)
    && s.documentDirs <= s.collections
    && (forall d | d in s.documents :: (d.0, d.1) in s.documentDirs)
    && (forall x | x in s.indexes :: (x.0, x.1) in s.indexDirs)
    && (forall x | x in s.indexes && s.indexes[x].Parsed? :: DistinctKeys(s.indexes[x].data))
  }

  /** The parsed content of an index file; a missing or blank file reads as `{}`. */
  function Content(idx: map<IndexId, Blob<Entries>>, x: IndexId): Entries {
    if x in idx && idx[x].Parsed? then idx[x].data else []
  }

  /** What the `endsWith` chain `db`, `col`, `'documents'` reports after the three `fs.stat` calls. */
  datatype Containers = Ready | ReportsDatabase | ReportsCollection | ReportsDocuments

  /**
   * `fs.stat` of the database, collection and documents directory in turn;
   * the path of the first one that fails is classified by the `endsWith`
   * tests in the order database name, collection name, `'documents'`.
   */
  function CheckContainers(s: Store, base: string, db: string, col: string): (c: Containers)
    ensures c == Ready <==> db in s.databases && (db, col) in s.collections && (db, col) in s.documentDirs
    ensures db !in s.databases ==> c == ReportsDatabase
    ensures c == ReportsCollection ==>
      db in s.databases && ((db, col) !in s.collections || (db, col) !in s.documentDirs)
    ensures c == ReportsDocuments ==>
      db in s.databases && (db, col) in s.collections && (db, col) !in s.documentDirs
    ensures db in s.databases && (db, col) !in s.collections ==>
      c == if EndsWith(CollectionPath(base, db, col), db) then ReportsDatabase else ReportsCollection
  {
    PathsEndWithSegment(base, db, col, "");
    if db !in s.databases then
      Classify(DatabasePath(base, db), db, col)
    else if (db, col) !in s.collections then
      Classify(CollectionPath(base, db, col), db, col)
    else if (db, col) !in s.documentDirs then
      Classify(DocumentsPath(base, db, col), db, col)
    else Ready
  }

  /** The `endsWith` chain on a failing container path. */
  function Classify(path: string, db: string, col: string): (c: Containers)
    ensures c != Ready
    ensures EndsWith(path, db) <==> c == ReportsDatabase
    ensures c == ReportsCollection <==> !EndsWith(path, db) && EndsWith(path, col)
  {
    if EndsWith(path, db) then ReportsDatabase
    else if EndsWith(path, col) then ReportsCollection
    else ReportsDocuments
  }

  /**
   * The classification is by name, not by which directory is missing: a
   * missing collection whose name ends with the database's name is reported
   * as a missing database, and so is a missing documents directory when the
   * database's name is a suffix of `documents`.
   */
  lemma ClassificationByName(s: Store, base: string)
    requires s.databases == {"shop", "ents"} && s.collections == {("ents", "users")}
    requires s.documentDirs == {}
    ensures CheckContainers(s, base, "shop", "myshop") == ReportsDatabase
    ensures CheckContainers(s, base, "shop", "orders") == ReportsCollection
    ensures CheckContainers(s, base, "shop", "shop2") == ReportsCollection
    ensures CheckContainers(s, base, "ents", "users") == ReportsDatabase
  {
    PathsEndWithSegment(base, "shop", "myshop", "");
    EndsWithTail(CollectionPath(base, "shop", "myshop"), "myshop", "shop");
    assert "myshop"[2..] == "shop";
    PathsEndWithSegment(base, "shop", "orders", "");
    EndsWithTail(CollectionPath(base, "shop", "orders"), "orders", "shop");
    PathsEndWithSegment(base, "shop", "shop2", "");
    EndsWithTail(CollectionPath(base, "shop", "shop2"), "shop2", "shop");
    PathsEndWithSegment(base, "ents", "users", "");
    EndsWithTail(DocumentsPath(base, "ents", "users"), "documents", "ents");
  }

  /** A handle as `getDoc` returns it: `exists()` and, when it exists, `data()`. */
  datatype Handle = Absent | Present(data: Doc) {
    predicate Exists() { Present? }
  }

  /**
   * `getDoc` (identical in both versions but for the base directory):
   * `fs.stat` of database, collection and document file; a failing path is
   * classified by `endsWith` in the order `<name>.json`, database,
   * collection, and anything else rethrows the raw error. Every path it
   * stats ends with one of those names, so the contract has a named outcome
   * for every input and the raw rethrow is never reached.
   */
  function GetDocAt(s: Store, base: string, db: string, col: string, name: string): (r: Result<Handle>)
    ensures db in s.databases && (db, col) in s.collections ==>
      r == if (db, col, name) !in s.documents then Ok(Absent)
           else if s.documents[(db, col, name)].Blank? then Err(EmptyJson)
           else Ok(Present(s.documents[(db, col, name)].data))
    ensures db !in s.databases ==>
      r == if EndsWith(DatabasePath(base, db), name + ".json") then Ok(Absent) else Err(DatabaseNotFound(db))
    ensures db in s.databases && (db, col) !in s.collections ==>
      r == if EndsWith(CollectionPath(base, db, col), name + ".json") then Ok(Absent)
           else if EndsWith(CollectionPath(base, db, col), db) then Err(DatabaseNotFound(db))
           else Err(CollectionNotFound(col))
  {
    PathsEndWithSegment(base, db, col, name);
    var failed :=
      if db !in s.databases then Some(DatabasePath(base, db))
      else if (db, col) !in s.collections then Some(CollectionPath(base, db, col))
      else if (db, col, name) !in s.documents then Some(DocumentPath(base, db, col, name))
      else None;
    match failed
    case Some(p) =>
      if EndsWith(p, name + ".json") then Ok(Absent)
      else if EndsWith(p, db) then Err(DatabaseNotFound(db))
      else if EndsWith(p, col) then Err(CollectionNotFound(col))
      else Err(NoSuchFile(Stat, p))
    case None =>
      match s.documents[(db, col, name)]
      case Blank => Err(EmptyJson)
      case Parsed(d) => Ok(Present(d))
  }

  /** The filter `Object.keys(result).length !== 0` applied to one result slot. */
  function NonEmpty(d: Doc): (r: seq<Doc>)
    ensures r == [] <==> d == map[]
    ensures d != map[] ==> r == [d]
  {
    if d == map[] then [] else [d]
  }

  /**
   * A scan over files or index entries: either it ran to the end, having
   * collected `docs`, or a step ended the whole call with `result`.
   */
  datatype Scan<+R> = Done(docs: seq<Doc>) | Abort(result: R)

  function Prepend<R>(ds: seq<Doc>, rest: Scan<R>): Scan<R> {
    match rest
    case Done(more) => Done(ds + more)
    case Abort(r) => Abort(r)
  }

  lemma PrependPrepend<R>(a: seq<Doc>, b: seq<Doc>, rest: Scan<R>)
    ensures Prepend(a, Prepend(b, rest)) == Prepend(a + b, rest)
  {
    if rest.Done? {
      assert a + (b + rest.docs) == (a + b) + rest.docs;
    }
  }

  /** The filesystem, updated in place by the store's writes. */
  class FileSystem {
    const cwd: string
    var databases: set<string>
    var collections: set<(string, string)>
    var documentDirs: set<(string, string)>
    var documents: map<DocId, Blob<Doc>>
    var indexDirs: set<(string, string)>
    var indexes: map<IndexId, Blob<Entries>>

    function State(): Store
      reads this
    {
      Store(cwd, databases, collections, documentDirs, documents, indexDirs, indexes)
    }

    /** A filesystem holding exactly the snapshot `s`. */
    constructor Load(s: Store)
      ensures State() == s
    {
      cwd := s.cwd;
      databases := s.databases;
      collections := s.collections;
      documentDirs := s.documentDirs;
      documents := s.documents;
      indexDirs := s.indexDirs;
      indexes := s.indexes;
    }
  }
}
