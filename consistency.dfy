/**
 * The index files stay an exact description of a collection under
 * `updateDoc` and `deleteDoc`; `setDoc` keeps them exact only when it does
 * not drop a stored property, because it never deletes the dropped
 * property's entry.
 */
module DataBasedConsistency {
  import opened Results
  import opened Json
  import opened IndexFile
  import opened Disk
  import opened DataBased
  import opened DataBasedProperties

  /** A document that is not stored has no entry in a consistent collection. */
  lemma AbsentIsIndexed(s: Store, db: string, col: string, name: string)
    requires Consistent(s, db, col) && (db, col, name) !in s.documents
    ensures forall x | x in s.indexes && x.0 == db && x.1 == col && s.indexes[x].Parsed? ::
      CountRefs(s.indexes[x].data, name) == 0
    ensures Indexed(s, db, col, name)
  {
    forall x | x in s.indexes && x.0 == db && x.1 == col && s.indexes[x].Parsed?
      ensures CountRefs(s.indexes[x].data, name) == 0
    {
      var es := s.indexes[x].data;
      forall j | 0 <= j < |es| ensures es[j].1.document != name {
        assert Current(s, db, col, x.2, es[j].1);
      }
      NoRefsNoRemoval(es, name);
    }
  }

  /** Every document other than `name` is stored in `t` exactly as in `s`. */
  ghost predicate OthersUnchanged(s: Store, t: Store, db: string, col: string, name: string) {
    forall m | m != name ::
      && ((db, col, m) in t.documents <==> (db, col, m) in s.documents)
      && ((db, col, m) in s.documents ==> t.documents[(db, col, m)] == s.documents[(db, col, m)])
  }

  /**
   * The entries `r` of a rewritten index file are current when those for
   * other documents were there before and those for `name` are current.
   */
  lemma EntriesStayCurrent(s: Store, t: Store, db: string, col: string, name: string, p: string, es: Entries, r: Entries)
    requires EntriesCurrent(s, db, col, p, es) && OthersUnchanged(s, t, db, col, name)
    requires forall y | y in r && y.1.document != name :: y in es
    requires forall y | y in r && y.1.document == name :: Current(t, db, col, p, y.1)
    ensures EntriesCurrent(t, db, col, p, r)
  {
    forall j | 0 <= j < |r| ensures Current(t, db, col, p, r[j].1) {
      assert r[j] in r;
      if r[j].1.document != name {
        var i :| 0 <= i < |es| && es[i] == r[j];
        assert Current(s, db, col, p, es[i].1);
      }
    }
  }

  /** The entries `r` for `m` of a rewritten index file are the old ones for `m`, as many as before. */
  lemma RefersOnceCarriesOver(es: Entries, r: Entries, m: string, e: Entry)
    requires RefersOnce(es, m, e) && CountRefs(r, m) == CountRefs(es, m)
    requires forall y | y in r && y.1.document == m :: y in es
    ensures RefersOnce(r, m, e)
  {
    forall j | 0 <= j < |r| && r[j].1.document == m ensures r[j].1 == e {
      assert r[j] in r;
      var i :| 0 <= i < |es| && es[i] == r[j];
    }
  }

  /** One index file after a write of `doc` to document `name`. */
  lemma WriteIndexesAt(idx: map<IndexId, Blob<Entries>>, db: string, col: string, name: string, doc: Doc,
                       stamp: string, x: IndexId)
    ensures var w := WriteIndexes(idx, true, db, col, name, doc, doc.Keys, stamp);
      && (x in w <==> x in idx || (x.0 == db && x.1 == col && x.2 in doc))
      && (x in w ==> w[x] == if x.0 == db && x.1 == col && x.2 in doc
                             then Parsed(Reindexed(Content(idx, x), x.2, doc[x.2], name, stamp)) else idx[x])
  {
  }

  /**
   * After a write of `doc` to document `name`, stored as `stored` (the write
   * wins on its own properties, the stored document's other properties are
   * kept), the entries of index file `x` are current.
   */
  lemma WrittenEntriesCurrent(s: Store, t: Store, db: string, col: string, name: string, doc: Doc,
                              stored: Doc, stamp: string, x: IndexId)
    requires WellFormed(s) && Consistent(s, db, col) && FreshStamp(s, db, col, stamp)
    requires AtMostOneRef(s.indexes, db, col, name) && OthersUnchanged(s, t, db, col, name)
    requires (db, col, name) in t.documents && t.documents[(db, col, name)] == Parsed(stored)
    requires t.indexes == WriteIndexes(s.indexes, true, db, col, name, doc, doc.Keys, stamp)
    requires forall p | p in doc :: p in stored && stored[p] == doc[p]
    requires var id := (db, col, name);
      id in s.documents && s.documents[id].Parsed? ==>
        forall p | p in s.documents[id].data && p !in doc :: p in stored && stored[p] == s.documents[id].data[p]
    requires x in t.indexes && x.0 == db && x.1 == col && t.indexes[x].Parsed?
    ensures EntriesCurrent(t, db, col, x.2, t.indexes[x].data)
  {
    WriteIndexesAt(s.indexes, db, col, name, doc, stamp, x);
    var r := t.indexes[x].data;
    var es := Content(s.indexes, x);
    assert EntriesCurrent(s, db, col, x.2, es);
    if x.2 in doc {
      ReindexedOthers(es, x.2, doc[x.2], name, stamp);
    } else {
      forall y | y in r && y.1.document == name ensures Current(t, db, col, x.2, y.1) {
        var j :| 0 <= j < |es| && es[j] == y;
        assert Current(s, db, col, x.2, es[j].1);
      }
    }
    EntriesStayCurrent(s, t, db, col, name, x.2, es, r);
  }

  /** A write to document `name` leaves every other document's index invariant intact. */
  lemma WriteKeepsOthersIndexed(s: Store, t: Store, db: string, col: string, name: string, doc: Doc,
                                stamp: string, m: string)
    requires WellFormed(s) && FreshStamp(s, db, col, stamp)
    requires AtMostOneRef(s.indexes, db, col, name) && Indexed(s, db, col, m)
    requires t.indexes == WriteIndexes(s.indexes, true, db, col, name, doc, doc.Keys, stamp)
    requires m != name && (db, col, m) in s.documents && (db, col, m) in t.documents
    requires t.documents[(db, col, m)] == s.documents[(db, col, m)]
    ensures Indexed(t, db, col, m)
  {
    forall x | x in t.indexes && x.0 == db && x.1 == col && t.indexes[x].Parsed?
      ensures CountRefs(t.indexes[x].data, m) <= 1
    {
      WriteIndexesAt(s.indexes, db, col, name, doc, stamp, x);
      if x.2 in doc {
        ReindexedOthers(Content(s.indexes, x), x.2, doc[x.2], name, stamp);
      }
    }
    if s.documents[(db, col, m)].Parsed? {
      var dm := s.documents[(db, col, m)].data;
      forall p | p in dm
        ensures (db, col, p) in t.indexes && t.indexes[(db, col, p)].Parsed?
        ensures RefersOnce(t.indexes[(db, col, p)].data, m, Entry(p, dm[p], m))
      {
        var x := (db, col, p);
        WriteIndexesAt(s.indexes, db, col, name, doc, stamp, x);
        var es := s.indexes[x].data;
        if p in doc {
          ReindexedOthers(es, p, doc[p], name, stamp);
          RefersOnceCarriesOver(es, t.indexes[x].data, m, Entry(p, dm[p], m));
        }
      }
    }
  }

  /**
   * `updateDoc` keeps a collection consistent, given a fresh stamp and an
   * existing index directory; so `query` stays correct after any number of
   * updates.
   */
  lemma UpdateDocKeepsConsistent(s: Store, db: string, col: string, name: string, doc: Doc, stamp: string)
    requires WellFormed(s) && Consistent(s, db, col) && FreshStamp(s, db, col, stamp)
    requires (db, col) in s.indexDirs
    ensures Consistent(UpdateDocState(s, db, col, name, doc, stamp), db, col)
  {
    var cc := CheckContainers(s, Base(s.cwd), db, col);
    var id := (db, col, name);
    var t := UpdateDocState(s, db, col, name, doc, stamp);
    if cc == ReportsDatabase || cc == ReportsCollection || (id in s.documents && s.documents[id].Blank?) {
      assert t.documents == s.documents && t.indexes == s.indexes;
    } else {
      if id !in s.documents {
        AbsentIsIndexed(s, db, col, name);
      }
      assert Indexed(s, db, col, name);
      var stored := if id in s.documents then Merge(s.documents[id].data, doc) else doc;
      assert t.documents == s.documents[id := Parsed(stored)];
      UpdateDocKeepsIndexed(s, db, col, name, doc, stamp);
      forall x | x in t.indexes && x.0 == db && x.1 == col && t.indexes[x].Parsed?
        ensures EntriesCurrent(t, db, col, x.2, t.indexes[x].data)
      {
        WrittenEntriesCurrent(s, t, db, col, name, doc, stored, stamp, x);
      }
      forall i | i in t.documents && i.0 == db && i.1 == col ensures Indexed(t, db, col, i.2) {
        if i.2 != name {
          WriteKeepsOthersIndexed(s, t, db, col, name, doc, stamp, i.2);
        }
      }
    }
  }

  /**
   * `setDoc` keeps a collection consistent when the new document keeps every
   * property of the one it replaces.
   */
  lemma SetDocKeepsConsistent(s: Store, db: string, col: string, name: string, doc: Doc, stamp: string)
    requires WellFormed(s) && Consistent(s, db, col) && FreshStamp(s, db, col, stamp)
    requires (db, col) in s.indexDirs
    requires var id := (db, col, name);
      id in s.documents && s.documents[id].Parsed? ==> s.documents[id].data.Keys <= doc.Keys
    ensures Consistent(SetDocState(s, db, col, name, doc, stamp), db, col)
  {
    var cc := CheckContainers(s, Base(s.cwd), db, col);
    var id := (db, col, name);
    var t := SetDocState(s, db, col, name, doc, stamp);
    if cc != ReportsDatabase && cc != ReportsCollection {
      if id !in s.documents {
        AbsentIsIndexed(s, db, col, name);
      }
      assert Indexed(s, db, col, name);
      SetDocKeepsIndexed(s, db, col, name, doc, stamp);
      forall x | x in t.indexes && x.0 == db && x.1 == col && t.indexes[x].Parsed?
        ensures EntriesCurrent(t, db, col, x.2, t.indexes[x].data)
      {
        WrittenEntriesCurrent(s, t, db, col, name, doc, doc, stamp, x);
      }
      forall i | i in t.documents && i.0 == db && i.1 == col ensures Indexed(t, db, col, i.2) {
        if i.2 != name {
          WriteKeepsOthersIndexed(s, t, db, col, name, doc, stamp, i.2);
        }
      }
    }
  }

  /**
   * `setDoc` without a stored property leaves that property's entry behind:
   * the index still says the document has the old value, which it no longer
   * has, so a query on it returns a document that does not satisfy it.
   */
  lemma SetDocLeavesStaleEntry(s: Store, db: string, col: string, name: string, doc: Doc, stamp: string, p: string)
    requires WellFormed(s) && Consistent(s, db, col)
    requires CheckContainers(s, Base(s.cwd), db, col) == Ready
    requires (db, col, name) in s.documents && s.documents[(db, col, name)].Parsed?
    requires p in s.documents[(db, col, name)].data && p !in doc
    ensures var t := SetDocState(s, db, col, name, doc, stamp);
      && t.indexes[(db, col, p)] == s.indexes[(db, col, p)]
      && RefersOnce(t.indexes[(db, col, p)].data, name, Entry(p, s.documents[(db, col, name)].data[p], name))
      && p !in t.documents[(db, col, name)].data
      && !Consistent(t, db, col)
  {
    var t := SetDocState(s, db, col, name, doc, stamp);
    var d := s.documents[(db, col, name)].data;
    var x := (db, col, p);
    assert Indexed(s, db, col, name);
    assert PropertiesIndexed(s.indexes, db, col, name, d);
    var es := s.indexes[x].data;
    assert RefersOnce(es, name, Entry(p, d[p], name));
    assert t.documents[(db, col, name)] == Parsed(doc);
    assert t.indexes == WriteIndexes(s.indexes, (db, col) in s.indexDirs, db, col, name, doc, doc.Keys, stamp);
    assert t.indexes[x] == s.indexes[x];
    NoRefsNoRemoval(es, name);
    var j :| 0 <= j < |es| && es[j].1.document == name;
    assert !Current(t, db, col, p, es[j].1);
    assert !EntriesCurrent(t, db, col, p, t.indexes[x].data);
  }

  /**
   * After `deleteDoc` removed document `name`, stored as `d`, the entries of
   * index file `x` are current: the file either lost its one entry for `name`
   * or never had one.
   */
  lemma DroppedEntriesCurrent(s: Store, t: Store, db: string, col: string, name: string, d: Doc, x: IndexId)
    requires Consistent(s, db, col) && OthersUnchanged(s, t, db, col, name)
    requires (db, col, name) in s.documents && s.documents[(db, col, name)] == Parsed(d)
    requires t.indexes == DropIndexes(s.indexes, db, col, name, d.Keys)
    requires x in t.indexes && x.0 == db && x.1 == col && t.indexes[x].Parsed?
    ensures EntriesCurrent(t, db, col, x.2, t.indexes[x].data)
  {
    var es := s.indexes[x].data;
    var r := t.indexes[x].data;
    assert EntriesCurrent(s, db, col, x.2, es);
    if x.2 in d {
      assert Indexed(s, db, col, name);
      RemoveOnlyRef(es, name);
    } else {
      forall y | y in r ensures y.1.document != name {
        var j :| 0 <= j < |es| && es[j] == y;
        assert Current(s, db, col, x.2, es[j].1);
      }
    }
    EntriesStayCurrent(s, t, db, col, name, x.2, es, r);
  }

  /**
   * `deleteDoc` keeps a collection consistent: the deleted document's entries
   * go and nothing else changes.
   */
  lemma DeleteDocKeepsConsistent(s: Store, db: string, col: string, name: string)
    requires WellFormed(s) && Consistent(s, db, col)
    ensures Consistent(DeleteDocState(s, db, col, name), db, col)
  {
    var id := (db, col, name);
    var t := DeleteDocState(s, db, col, name);
    if t != s {
      var d := s.documents[id].data;
      assert t.documents == s.documents - {id};
      assert OthersUnchanged(s, t, db, col, name);
      forall x | x in t.indexes && x.0 == db && x.1 == col && t.indexes[x].Parsed?
        ensures EntriesCurrent(t, db, col, x.2, t.indexes[x].data)
      {
        DroppedEntriesCurrent(s, t, db, col, name, d, x);
      }
      forall i | i in t.documents && i.0 == db && i.1 == col ensures Indexed(t, db, col, i.2) {
        assert Indexed(s, db, col, i.2);
        DeleteKeepsOthersIndexed(s, t, db, col, name, i.2);
      }
    }
  }

  /** Dropping the first entry of `name` leaves the one entry of another document `m` in place. */
  lemma DropKeepsRefersOnce(es: Entries, name: string, m: string, e: Entry)
    requires m != name && RefersOnce(es, m, e)
    ensures RefersOnce(RemoveFirstRef(es, name), m, e)
  {
    RemoveFirstRefKeepsOthers(es, name);
    RefersOnceCarriesOver(es, RemoveFirstRef(es, name), m, e);
  }

  /** Dropping document `name`'s references keeps every other stored document `m` indexed. */
  lemma DeleteKeepsOthersIndexed(s: Store, t: Store, db: string, col: string, name: string, m: string)
    requires Indexed(s, db, col, m)
    requires (db, col, name) in s.documents && s.documents[(db, col, name)].Parsed?
    requires t.indexes == DropIndexes(s.indexes, db, col, name, s.documents[(db, col, name)].data.Keys)
    requires m != name && (db, col, m) in s.documents && (db, col, m) in t.documents
    requires t.documents[(db, col, m)] == s.documents[(db, col, m)]
    ensures Indexed(t, db, col, m)
  {
    var d := s.documents[(db, col, name)].data;
    forall x | x in t.indexes && x.0 == db && x.1 == col && t.indexes[x].Parsed?
      ensures CountRefs(t.indexes[x].data, m) <= 1
    {
      if x.2 in d && s.indexes[x].Parsed? {
        RemoveFirstRefKeepsOthers(s.indexes[x].data, name);
      }
    }
    if s.documents[(db, col, m)].Parsed? {
      var dm := s.documents[(db, col, m)].data;
      forall p | p in dm
        ensures (db, col, p) in t.indexes && t.indexes[(db, col, p)].Parsed?
        ensures RefersOnce(t.indexes[(db, col, p)].data, m, Entry(p, dm[p], m))
      {
        if p in d {
          DropKeepsRefersOnce(s.indexes[(db, col, p)].data, name, m, Entry(p, dm[p], m));
        }
      }
    }
  }
}
