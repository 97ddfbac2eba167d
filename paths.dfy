/**
 * Path construction (`path.join` as plain `/` concatenation) and the string
 * tests the error handlers apply to `err.path` and `err.message`.
 */
module Paths {
  import opened Results

  /** `s.endsWith(suffix)`. */
  predicate EndsWith(s: string, suffix: string) {
    |suffix| <= |s| && s[|s| - |suffix|..] == suffix
  }

  /** `part` occurs in `s` starting at position `i`. */
  predicate OccursAt(s: string, part: string, i: int) {
    0 <= i <= |s| - |part| && s[i..i + |part|] == part
  }

  /** `s.includes(part)`. */
  predicate Contains(s: string, part: string) {
    exists i | 0 <= i <= |s| :: OccursAt(s, part, i)
  }

  lemma EndsWithAppend(prefix: string, suffix: string)
    ensures EndsWith(prefix + suffix, suffix)
  {
    assert (prefix + suffix)[|prefix|..] == suffix;
  }

  lemma ContainsMiddle(prefix: string, part: string, rest: string)
    ensures Contains(prefix + part + rest, part)
  {
    var s := prefix + part + rest;
    assert s[|prefix|..|prefix| + |part|] == part;
    assert OccursAt(s, part, |prefix|);
  }

  /** What a string contains, any string around it contains too. */
  lemma ContainsWithin(prefix: string, s: string, suffix: string, part: string)
    requires Contains(s, part)
    ensures Contains(prefix + s + suffix, part)
  {
    var i :| 0 <= i <= |s| && OccursAt(s, part, i);
    var t := prefix + s + suffix;
    assert t[|prefix| + i..|prefix| + i + |part|] == s[i..i + |part|];
    assert OccursAt(t, part, |prefix| + i);
  }

  /** A suffix of a suffix is a suffix; and a short enough suffix of `s` is one of `t` exactly when `t` ends `s`. */
  lemma EndsWithTail(s: string, t: string, u: string)
    requires EndsWith(s, t) && |u| <= |t|
    ensures EndsWith(s, u) <==> EndsWith(t, u)
  {
    assert s[|s| - |u|..] == t[|t| - |u|..];
  }

  /** `path.join(base, db)` */
  function DatabasePath(base: string, db: string): string {
    base + "/" + db
  }

  /** `path.join(base, db, 'collections', col)` */
  function CollectionPath(base: string, db: string, col: string): string {
    DatabasePath(base, db) + "/collections/" + col
  }

  /** `path.join(base, db, 'collections', col, 'documents')` */
  function DocumentsPath(base: string, db: string, col: string): string {
    CollectionPath(base, db, col) + "/documents"
  }

  /** The file of document `name`: `<documents>/<name>.json`. */
  function DocumentPath(base: string, db: string, col: string, name: string): string {
    DocumentsPath(base, db, col) + "/" + name + ".json"
  }

  /** Every path of a database's tree contains the database's name. */
  lemma PathsContainDatabase(base: string, db: string, col: string, name: string)
    ensures Contains(DatabasePath(base, db), db)
    ensures Contains(CollectionPath(base, db, col), db)
    ensures Contains(DocumentsPath(base, db, col), db)
    ensures Contains(DocumentPath(base, db, col, name), db)
  {
    ContainsMiddle(base + "/", db, "");
    assert DatabasePath(base, db) == base + "/" + db + "";
    ContainsMiddle(base + "/", db, "/collections/" + col);
    assert CollectionPath(base, db, col) == base + "/" + db + ("/collections/" + col);
    ContainsMiddle(base + "/", db, "/collections/" + col + "/documents");
    assert DocumentsPath(base, db, col) == base + "/" + db + ("/collections/" + col + "/documents");
    ContainsMiddle(base + "/", db, "/collections/" + col + "/documents/" + name + ".json");
    assert DocumentPath(base, db, col, name) == base + "/" + db + ("/collections/" + col + "/documents/" + name + ".json");
  }

  /** Each path ends with its own last segment. */
  lemma PathsEndWithSegment(base: string, db: string, col: string, name: string)
    ensures EndsWith(DatabasePath(base, db), db)
    ensures EndsWith(CollectionPath(base, db, col), col)
    ensures EndsWith(DocumentsPath(base, db, col), "documents")
    ensures EndsWith(DocumentPath(base, db, col, name), name + ".json")
  {
    EndsWithAppend(base + "/", db);
    EndsWithAppend(DatabasePath(base, db) + "/collections/", col);
    EndsWithAppend(CollectionPath(base, db, col) + "/", "documents");
    assert DocumentPath(base, db, col, name) == (DocumentsPath(base, db, col) + "/") + (name + ".json");
    EndsWithAppend(DocumentsPath(base, db, col) + "/", name + ".json");
  }
}
