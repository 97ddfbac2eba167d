/**
 * What DataBASED v1.0.0 promises, and where it differs from v1.0.5: its
 * query scans the documents directory, reports every ENOENT as a missing
 * database, reads every file even past the limit, and its deleteDoc is
 * idempotent.
 */
module LegacyProperties {
  import opened Results
  import opened Json
  import opened Conditions
  import opened Paths
  import opened IndexFile
  import opened Disk
  import DataBased
  import opened DataBasedProperties
  import opened DataBasedLegacy

  // ---------------------------------------------------------------------------
  // query

  /** Every path the legacy `query` touches names the database, so its ENOENT message does too. */
  lemma NoEntryNamesDatabase(call: Syscall, s: Store, db: string, col: string, name: string)
    ensures var base := DataBasedLegacy.Base(s.cwd);
      && DataBasedLegacy.QueryNoEntry(call, DatabasePath(base, db), db, col) == Err(DatabaseNotFound(db))
      && DataBasedLegacy.QueryNoEntry(call, CollectionPath(base, db, col), db, col) == Err(DatabaseNotFound(db))
      && DataBasedLegacy.QueryNoEntry(call, DocumentsPath(base, db, col), db, col) == Err(DatabaseNotFound(db))
      && DataBasedLegacy.QueryNoEntry(call, DocumentPath(base, db, col, name), db, col) == Err(DatabaseNotFound(db))
  {
    var base := DataBasedLegacy.Base(s.cwd);
    var prefix := "ENOENT: no such file or directory, " + SyscallName(call) + " '";
    PathsContainDatabase(base, db, col, name);
    ContainsWithin(prefix, DatabasePath(base, db), "'", db);
    ContainsWithin(prefix, CollectionPath(base, db, col), "'", db);
    ContainsWithin(prefix, DocumentsPath(base, db, col), "'", db);
    ContainsWithin(prefix, DocumentPath(base, db, col, name), "'", db);
  }

  lemma {:induction false} ScanNeverReportsCollection(s: Store, db: string, col: string, listing: seq<string>,
                                                      c: Condition, limit: Option<int>, k: nat, count: nat)
    ensures var r := DataBasedLegacy.QueryScan(s, db, col, listing, c, limit, k, count);
      r.Abort? ==> r.result.Err? && !r.result.error.CollectionNotFound?
    decreases |listing| - k
  {
    if k < |listing| {
      NoEntryNamesDatabase(Open, s, db, col, listing[k]);
      ScanNeverReportsCollection(s, db, col, listing, c, limit, k + 1, count);
      ScanNeverReportsCollection(s, db, col, listing, c, limit, k + 1, count + 1);
    }
  }

  /**
   * The legacy `query` reports every missing directory or file as a missing
   * database, since its handler tests whether the error message mentions the
   * database, and every path does; its collection error is unreachable.
   */
  lemma QueryReportsMissingDatabase(s: Store, db: string, col: string, c: Condition, limit: Option<int>,
                                    listing: seq<string>)
    ensures var r := DataBasedLegacy.QueryResult(s, db, col, c, limit, listing);
      && !(r.Err? && r.error.CollectionNotFound?)
      && (db !in s.databases || (db, col) !in s.collections || (db, col) !in s.documentDirs ==>
            r == Err(DatabaseNotFound(db)))
  {
    NoEntryNamesDatabase(Stat, s, db, col, "");
    NoEntryNamesDatabase(Scandir, s, db, col, "");
    ScanNeverReportsCollection(s, db, col, listing, c, limit, 0, 0);
  }

  /** The listed documents that match the condition, in directory order. */
  function Selected(s: Store, db: string, col: string, listing: seq<string>, c: Condition): seq<string> {
    if listing == [] then []
    else
      var id := (db, col, listing[0]);
      (if id in s.documents && s.documents[id].Parsed? && DocMatches(s.documents[id].data, c) == Ok(true)
       then [listing[0]] else [])
      + Selected(s, db, col, listing[1..], c)
  }

  /** The selection from position `k` is the selection of `listing[k]` followed by that of the rest. */
  lemma SelectedTail(s: Store, db: string, col: string, listing: seq<string>, c: Condition, k: nat)
    requires k < |listing|
    ensures var id := (db, col, listing[k]);
      Selected(s, db, col, listing[k..], c) ==
        (if id in s.documents && s.documents[id].Parsed? && DocMatches(s.documents[id].data, c) == Ok(true)
         then [listing[k]] else []) + Selected(s, db, col, listing[k + 1..], c)
  {
    assert listing[k..][1..] == listing[k + 1..];
  }

  /** Presence of the listed documents from position `k` covers `listing[k]` and the rest. */
  lemma AllPresentTail(s: Store, db: string, col: string, listing: seq<string>, k: nat)
    requires k < |listing| && AllPresent(s, db, col, listing[k..])
    ensures (db, col, listing[k]) in s.documents && s.documents[(db, col, listing[k])].Parsed?
    ensures AllPresent(s, db, col, listing[k + 1..])
  {
    assert listing[k] == listing[k..][0];
    forall m | m in listing[k + 1..] ensures m in listing[k..] {
      assert listing[k..][1..] == listing[k + 1..];
    }
  }

  lemma {:induction false} LegacyScanFetches(s: Store, db: string, col: string, listing: seq<string>,
                                             c: Condition, limit: Option<int>, k: nat, count: nat)
    requires k <= |listing| && c.operator in Operators && AllPresent(s, db, col, listing[k..])
    ensures DataBasedLegacy.QueryScan(s, db, col, listing, c, limit, k, count) ==
      Done(Fetch(s, db, col, Cap(Selected(s, db, col, listing[k..], c), limit, count)))
    decreases |listing| - k
  {
    if k == |listing| {
      assert listing[k..] == [];
    } else {
      var n := listing[k];
      AllPresentTail(s, db, col, listing, k);
      SelectedTail(s, db, col, listing, c, k);
      var rest := Selected(s, db, col, listing[k + 1..], c);
      var d := s.documents[(db, col, n)].data;
      if limit.Some? && count == limit.value {
        LegacyScanFetches(s, db, col, listing, c, limit, k + 1, count);
      } else if DocMatches(d, c) == Ok(true) {
        LegacyScanFetches(s, db, col, listing, c, limit, k + 1, count + 1);
        CapCons(n, rest, limit, count);
        var capped := [n] + Cap(rest, limit, count + 1);
        assert capped[0] == n && capped[1..] == Cap(rest, limit, count + 1);
        assert Fetch(s, db, col, capped) == NonEmpty(d) + Fetch(s, db, col, Cap(rest, limit, count + 1));
      } else {
        assert DocMatches(d, c) == Ok(false);
        assert Selected(s, db, col, listing[k..], c) == rest;
        LegacyScanFetches(s, db, col, listing, c, limit, k + 1, count);
      }
    }
  }

  /**
   * The legacy `query` against its reference: with its directories present,
   * every listed file a parsed document and a supported operator, it returns
   * the matching documents in directory order, as many as the limit allows;
   * any limit counts, so a limit of 0 returns nothing.
   */
  lemma LegacyQueryMatchesReference(s: Store, db: string, col: string, c: Condition, limit: Option<int>,
                                    listing: seq<string>)
    requires db in s.databases && (db, col) in s.collections && (db, col) in s.documentDirs
    requires c.operator in Operators && AllPresent(s, db, col, listing)
    ensures DataBasedLegacy.QueryResult(s, db, col, c, limit, listing) ==
      Ok(Fetch(s, db, col, Cap(Selected(s, db, col, listing, c), limit, 0)))
    ensures limit == Some(0) ==> DataBasedLegacy.QueryResult(s, db, col, c, limit, listing) == Ok([])
  {
    assert listing[0..] == listing;
    LegacyScanFetches(s, db, col, listing, c, limit, 0, 0);
  }

  /**
   * The legacy `query` with no limit over a listing of the whole collection,
   * every file a parsed document and the operator supported: it returns the
   * content of every non-empty document that satisfies the condition, and
   * nothing else.
   */
  lemma LegacyQueryReturnsMatching(s: Store, db: string, col: string, c: Condition, listing: seq<string>)
    requires db in s.databases && (db, col) in s.collections && (db, col) in s.documentDirs
    requires c.operator in Operators && ListsCollection(s, db, col, listing)
    requires forall n | (db, col, n) in s.documents :: s.documents[(db, col, n)].Parsed?
    ensures var r := DataBasedLegacy.QueryResult(s, db, col, c, None, listing);
      && r.Ok?
      && forall d :: d in r.value <==>
           exists n :: Kept(s, db, col, n) && s.documents[(db, col, n)].data == d && DocMatches(d, c) == Ok(true)
  {
    LegacyQueryMatchesReference(s, db, col, c, None, listing);
    var chosen := Selected(s, db, col, listing, c);
    forall n {
      SelectedMembers(s, db, col, listing, c, n);
    }
    forall d {
      FetchMembers(s, db, col, chosen, d);
    }
  }

  lemma {:induction false} SelectedMembers(s: Store, db: string, col: string, listing: seq<string>, c: Condition,
                                           n: string)
    ensures n in Selected(s, db, col, listing, c) <==>
      n in listing && (db, col, n) in s.documents && s.documents[(db, col, n)].Parsed? &&
      DocMatches(s.documents[(db, col, n)].data, c) == Ok(true)
  {
    if listing != [] {
      SelectedMembers(s, db, col, listing[1..], c, n);
      assert listing == [listing[0]] + listing[1..];
    }
  }

  /**
   * The index entry v1.0.5 compares and the property v1.0.0 finds by scanning
   * a document give the same verdict.
   */
  lemma EntryAgreesWithScan(d: Doc, c: Condition, name: string)
    requires c.property in d
    ensures DataBased.CheckWhereCondition(Entry(c.property, d[c.property], name), c) == DocMatches(d, c)
  {
  }

  /**
   * On a consistent collection whose directory listing names exactly its
   * documents, both versions' queries select the same documents: the index
   * only changes the order (index order against directory order).
   */
  lemma VersionsSelectAlike(s: Store, db: string, col: string, c: Condition, listing: seq<string>)
    requires Consistent(s, db, col)
    requires (db, col, c.property) in s.indexes && s.indexes[(db, col, c.property)].Parsed?
    requires forall n :: n in listing <==> (db, col, n) in s.documents
    ensures forall n :: n in Matching(s.indexes[(db, col, c.property)].data, c) <==> n in Selected(s, db, col, listing, c)
  {
    ConsistentMatching(s, db, col, c);
    forall n ensures n in Matching(s.indexes[(db, col, c.property)].data, c) <==> n in Selected(s, db, col, listing, c) {
      SelectedMembers(s, db, col, listing, c, n);
      var id := (db, col, n);
      if id in s.documents && s.documents[id].Parsed? && c.property in s.documents[id].data {
        EntryAgreesWithScan(s.documents[id].data, c, n);
      }
    }
  }

  // ---------------------------------------------------------------------------
  // The writes and getCollection

  /** After a legacy `setDoc` that passed the container checks, `getDoc` returns the document written. */
  lemma LegacySetDocThenGetDoc(s: Store, db: string, col: string, name: string, doc: Doc)
    requires CheckContainers(s, DataBasedLegacy.Base(s.cwd), db, col) !in {ReportsDatabase, ReportsCollection}
    ensures DataBasedLegacy.GetDoc(DataBasedLegacy.SetDocState(s, db, col, name, doc), db, col, name) == Ok(Present(doc))
  {
  }

  /** The legacy `deleteDoc` is idempotent: a second call changes nothing and answers as the first. */
  lemma LegacyDeleteDocIdempotent(s: Store, db: string, col: string, name: string)
    ensures var t := DataBasedLegacy.DeleteDocState(s, db, col, name);
      && DataBasedLegacy.DeleteDocState(t, db, col, name) == t
      && DataBasedLegacy.DeleteDocOutcome(t, db, col, name) == DataBasedLegacy.DeleteDocOutcome(s, db, col, name)
      && (DataBasedLegacy.DeleteDocOutcome(s, db, col, name).Ok? ==> (db, col, name) !in t.documents)
  {
    var t := DataBasedLegacy.DeleteDocState(s, db, col, name);
    assert t.databases == s.databases && t.collections == s.collections && t.documentDirs == s.documentDirs;
  }

  /**
   * v1.0.5's `deleteDoc` is not idempotent: it reads the document before
   * unlinking it, so a second call fails with the raw ENOENT of the read.
   */
  lemma DeleteDocTwiceFails(s: Store, db: string, col: string, name: string, r: Result<()>)
    requires CheckContainers(s, DataBased.Base(s.cwd), db, col) == Ready
    requires (db, col, name) in s.documents && s.documents[(db, col, name)].Parsed?
    requires DataBased.DeleteDocOutcome(DataBased.DeleteDocState(s, db, col, name), db, col, name, r)
    ensures r == Err(NoSuchFile(Open, DocumentPath(DataBased.Base(s.cwd), db, col, name)))
  {
    var t := DataBased.DeleteDocState(s, db, col, name);
    assert t.databases == s.databases && t.collections == s.collections && t.documentDirs == s.documentDirs;
  }

  lemma {:induction false} LegacyCollectionScanFetches(s: Store, db: string, col: string, listing: seq<string>,
                                                       limit: Option<int>, k: nat, count: nat)
    requires k <= |listing| && AllPresent(s, db, col, listing[k..])
    ensures DataBasedLegacy.CollectionScan(s, db, col, listing, limit, k, count) ==
      Done(Fetch(s, db, col, Cap(listing[k..], limit, count)))
    decreases |listing| - k
  {
    if k == |listing| {
      assert listing[k..] == [];
    } else {
      var n := listing[k];
      var rest := listing[k + 1..];
      assert listing[k..] == [n] + rest;
      assert n in listing[k..];
      if limit.Some? && count == limit.value {
        LegacyCollectionScanFetches(s, db, col, listing, limit, k + 1, count);
      } else {
        CapCons(n, rest, limit, count);
        var capped := [n] + Cap(rest, limit, count + 1);
        assert capped[0] == n && capped[1..] == Cap(rest, limit, count + 1);
        LegacyCollectionScanFetches(s, db, col, listing, limit, k + 1, count + 1);
      }
    }
  }

  /**
   * The legacy `getCollection` against its reference: with every listed file
   * a parsed document it returns the non-empty documents of the first `limit`
   * files, in directory order (all of them with no limit).
   */
  lemma LegacyGetCollectionReadsListing(s: Store, db: string, col: string, listing: seq<string>, limit: Option<int>)
    requires CheckContainers(s, DataBasedLegacy.Base(s.cwd), db, col) == Ready
    requires AllPresent(s, db, col, listing)
    ensures DataBasedLegacy.GetCollectionResult(s, db, col, listing, limit) ==
      Ok(Some(Fetch(s, db, col, Cap(listing, limit, 0))))
  {
    assert listing[0..] == listing;
    LegacyCollectionScanFetches(s, db, col, listing, limit, 0, 0);
  }

  /**
   * The legacy `getCollection` with no limit over a listing of the whole
   * collection, every file a parsed document: it returns the content of every
   * non-empty document and nothing else, one result per such document.
   */
  lemma LegacyGetCollectionReturnsCollection(s: Store, db: string, col: string, listing: seq<string>)
    requires CheckContainers(s, DataBasedLegacy.Base(s.cwd), db, col) == Ready
    requires ListsCollection(s, db, col, listing)
    requires forall n | (db, col, n) in s.documents :: s.documents[(db, col, n)].Parsed?
    ensures var r := DataBasedLegacy.GetCollectionResult(s, db, col, listing, None);
      && r.Ok? && r.value.Some?
      && (forall d :: d in r.value.value <==> exists n :: Kept(s, db, col, n) && s.documents[(db, col, n)].data == d)
      && |r.value.value| == |set n | n in listing && Kept(s, db, col, n)|
  {
    LegacyGetCollectionReadsListing(s, db, col, listing, None);
    forall d {
      FetchMembers(s, db, col, listing, d);
    }
    FetchLength(s, db, col, listing);
  }

  lemma {:induction false} LegacyCollectionScanBounded(s: Store, db: string, col: string, listing: seq<string>,
                                                       n: int, k: nat, count: nat)
    requires count <= n
    ensures var r := DataBasedLegacy.CollectionScan(s, db, col, listing, Some(n), k, count);
      && (r.Done? ==> count + |r.docs| <= n)
      && (r.Abort? ==> r.result == Ok(None) || r.result.Err?)
    decreases |listing| - k
  {
    if k < |listing| {
      LegacyCollectionScanBounded(s, db, col, listing, n, k + 1, count);
      if count < n {
        LegacyCollectionScanBounded(s, db, col, listing, n, k + 1, count + 1);
      }
    }
  }

  /** A limit that is not negative bounds the number of documents the legacy `getCollection` returns. */
  lemma LegacyGetCollectionRespectsLimit(s: Store, db: string, col: string, listing: seq<string>, n: int)
    requires n >= 0
    requires DataBasedLegacy.GetCollectionResult(s, db, col, listing, Some(n)).Ok?
    requires DataBasedLegacy.GetCollectionResult(s, db, col, listing, Some(n)).value.Some?
    ensures |DataBasedLegacy.GetCollectionResult(s, db, col, listing, Some(n)).value.value| <= n
  {
    LegacyCollectionScanBounded(s, db, col, listing, n, 0, 0);
  }

  lemma {:induction false} LegacyQueryScanBounded(s: Store, db: string, col: string, listing: seq<string>,
                                                  c: Condition, n: int, k: nat, count: nat)
    requires count <= n
    ensures var r := DataBasedLegacy.QueryScan(s, db, col, listing, c, Some(n), k, count);
      && (r.Done? ==> count + |r.docs| <= n)
      && (r.Abort? ==> r.result.Err?)
    decreases |listing| - k
  {
    if k < |listing| {
      LegacyQueryScanBounded(s, db, col, listing, c, n, k + 1, count);
      if count < n {
        LegacyQueryScanBounded(s, db, col, listing, c, n, k + 1, count + 1);
      }
    }
  }

  /** A limit that is not negative bounds the number of documents the legacy `query` returns. */
  lemma LegacyQueryRespectsLimit(s: Store, db: string, col: string, c: Condition, listing: seq<string>, n: int)
    requires n >= 0
    requires DataBasedLegacy.QueryResult(s, db, col, c, Some(n), listing).Ok?
    ensures |DataBasedLegacy.QueryResult(s, db, col, c, Some(n), listing).value| <= n
  {
    LegacyQueryScanBounded(s, db, col, listing, c, n, 0, 0);
  }

  /**
   * The legacy `getCollection` reads a file before looking at the limit, so a
   * blank file fails the call even past the limit; v1.0.5 checks the limit
   * first and never reads it.
   */
  lemma LimitCheckedBeforeRead(s: Store, db: string, col: string, name: string)
    requires CheckContainers(s, DataBasedLegacy.Base(s.cwd), db, col) == Ready
    requires CheckContainers(s, DataBased.Base(s.cwd), db, col) == Ready
    requires (db, col, name) in s.documents && s.documents[(db, col, name)].Blank?
    ensures DataBasedLegacy.GetCollectionResult(s, db, col, [name], Some(0)) == Err(EmptyJson)
    ensures DataBased.GetCollectionResult(s, db, col, [name], Some(0)) == Ok(Some([]))
  {
    assert DataBased.CollectionScan(s, db, col, [name], Some(0), 1, 0) == Done([]);
  }
}
