/**
 * One property's index file: an object whose keys are entry stamps and whose
 * values are `{key, value, document}` records, kept in JavaScript property
 * order (stamps are too large to be array indices, so this is insertion order).
 */
module IndexFile {
  import opened Json

  /** An index entry: the property name, its value and the referencing document. */
  datatype Entry = Entry(key: string, value: Value, document: string)

  /** A parsed index file as `(stamp, entry)` pairs in property order. */
  type Entries = seq<(string, Entry)>

  /** A parsed JSON object never repeats a key. */
  predicate DistinctKeys(es: Entries) {
    forall i, j :: 0 <= i < j < |es| ==> es[i].0 != es[j].0
  }

  function Stamps(es: Entries): set<string> {
    set i | 0 <= i < |es| :: es[i].0
  }

  /** Number of entries that reference document `name`. */
  function CountRefs(es: Entries, name: string): nat {
    if es == [] then 0
    else (if es[0].1.document == name then 1 else 0) + CountRefs(es[1..], name)
  }

  /** The entries that reference some other document, in order. */
  function Others(es: Entries, name: string): Entries {
    if es == [] then []
    else (if es[0].1.document == name then [] else [es[0]]) + Others(es[1..], name)
  }

  /** Position of the first entry referencing `name`, if any. */
  predicate IsFirstRef(es: Entries, name: string, i: int) {
    0 <= i < |es| && es[i].1.document == name &&
    forall j :: 0 <= j < i ==> es[j].1.document != name
  }

  /**
   * `for (k in data) if (data[k].document === name) { delete data[k]; break }`:
   * drops the first entry that references `name`.
   */
  function RemoveFirstRef(es: Entries, name: string): Entries {
    if es == [] then []
    else if es[0].1.document == name then es[1..]
    else [es[0]] + RemoveFirstRef(es[1..], name)
  }

  /** `data[stamp] = e`: replaces the value in place if the key exists, else appends. */
  function Assign(es: Entries, stamp: string, e: Entry): Entries {
    if es == [] then [(stamp, e)]
    else if es[0].0 == stamp then [(stamp, e)] + es[1..]
    else [es[0]] + Assign(es[1..], stamp, e)
  }

  /** The reindex step for a write of `value` to property `prop` of document `name`. */
  function Reindexed(es: Entries, prop: string, value: Value, name: string, stamp: string): Entries {
    Assign(RemoveFirstRef(es, name), stamp, Entry(prop, value, name))
  }

  // ---------------------------------------------------------------------------
  // The loop of the reindex step

  /** The `for…in` loop with `delete` and `break`, run on the parsed file. */
  method DropFirstReference(es: Entries, name: string) returns (data: Entries)
    ensures data == RemoveFirstRef(es, name)
    ensures CountRefs(es, name) == 0 ==> data == es
  {
    data := es;
    var i := 0;
    while i < |es|
      invariant 0 <= i <= |es|
      invariant forall j :: 0 <= j < i ==> es[j].1.document != name
    {
      if es[i].1.document == name {
        RemoveAtFirstRef(es, name, i);
        NoRefsNoRemoval(es, name);
        data := es[..i] + es[i + 1..];
        return;
      }
      i := i + 1;
    }
    NoRefsNoRemoval(es, name);
  }

  // ---------------------------------------------------------------------------
  // What the pieces do

  lemma {:induction false} RemoveAtFirstRef(es: Entries, name: string, i: int)
    requires IsFirstRef(es, name, i)
    ensures RemoveFirstRef(es, name) == es[..i] + es[i + 1..]
  {
    if i > 0 {
      RemoveAtFirstRef(es[1..], name, i - 1);
      assert es[1..][..i - 1] == es[1..i];
      assert [es[0]] + es[1..i] == es[..i];
      assert es[1..][i..] == es[i + 1..];
    }
  }

  /** With no reference to `name`, nothing is removed; `CountRefs` counts exactly the references. */
  lemma {:induction false} NoRefsNoRemoval(es: Entries, name: string)
    ensures CountRefs(es, name) == 0 <==> forall j :: 0 <= j < |es| ==> es[j].1.document != name
    ensures CountRefs(es, name) == 0 ==> RemoveFirstRef(es, name) == es
  {
    if es != [] {
      NoRefsNoRemoval(es[1..], name);
      if CountRefs(es, name) == 0 {
        assert es == [es[0]] + es[1..];
      } else if es[0].1.document != name {
        var j :| 0 <= j < |es[1..]| && es[1..][j].1.document == name;
        assert es[j + 1].1.document == name;
      }
    }
  }

  /**
   * Removing the first reference lowers the count by one when there is one,
   * keeps every entry of other documents in order, and keeps the keys distinct.
   */
  lemma {:induction false} RemoveFirstRefSpec(es: Entries, name: string)
    ensures CountRefs(RemoveFirstRef(es, name), name) ==
      if CountRefs(es, name) > 0 then CountRefs(es, name) - 1 else 0
    ensures Others(RemoveFirstRef(es, name), name) == Others(es, name)
    ensures Stamps(RemoveFirstRef(es, name)) <= Stamps(es)
    ensures DistinctKeys(es) ==> DistinctKeys(RemoveFirstRef(es, name))
  {
    if es != [] {
      RemoveFirstRefSpec(es[1..], name);
      var r := RemoveFirstRef(es, name);
      if es[0].1.document == name {
        assert Others(es, name) == Others(es[1..], name);
      } else {
        var t := RemoveFirstRef(es[1..], name);
        assert r == [es[0]] + t && r[1..] == t;
        forall x | x in Stamps(r) ensures x in Stamps(es) {
          var i :| 0 <= i < |r| && r[i].0 == x;
          if i > 0 { assert t[i - 1].0 == x && x in Stamps(es[1..]); var k :| 0 <= k < |es[1..]| && es[1..][k].0 == x; assert es[k + 1].0 == x; }
          else { assert es[0].0 == x; }
        }
        if DistinctKeys(es) {
          assert DistinctKeys(es[1..]);
          forall i, j | 0 <= i < j < |r| ensures r[i].0 != r[j].0 {
            if i == 0 {
              assert r[j].0 in Stamps(t);
              assert r[j].0 in Stamps(es[1..]) by { RemoveFirstRefSpec(es[1..], name); }
              var k :| 0 <= k < |es[1..]| && es[1..][k].0 == r[j].0;
              assert es[k + 1].0 == r[j].0;
            }
          }
        }
      }
    }
  }

  lemma StampsTail(es: Entries)
    requires es != []
    ensures Stamps(es) == {es[0].0} + Stamps(es[1..])
  {
    forall x | x in Stamps(es[1..]) ensures x in Stamps(es) {
      var k :| 0 <= k < |es[1..]| && es[1..][k].0 == x;
      assert es[k + 1].0 == x;
    }
  }

  /** Dropping `name`'s first entry keeps only entries that were there and every other document's count. */
  lemma {:induction false} RemoveFirstRefKeepsOthers(es: Entries, name: string)
    ensures forall y | y in RemoveFirstRef(es, name) :: y in es
    ensures forall m | m != name :: CountRefs(RemoveFirstRef(es, name), m) == CountRefs(es, m)
  {
    if es != [] && es[0].1.document != name {
      RemoveFirstRefKeepsOthers(es[1..], name);
      assert ([es[0]] + RemoveFirstRef(es[1..], name))[1..] == RemoveFirstRef(es[1..], name);
    }
  }

  /**
   * Dropping the first entry of a document referenced at most once leaves no
   * entry for it.
   */
  lemma RemoveOnlyRef(es: Entries, name: string)
    requires CountRefs(es, name) <= 1
    ensures forall y | y in RemoveFirstRef(es, name) :: y in es && y.1.document != name
  {
    RemoveFirstRefKeepsOthers(es, name);
    RemoveFirstRefSpec(es, name);
    NoRefsNoRemoval(RemoveFirstRef(es, name), name);
  }

  /** An assignment under a fresh key appends the entry at the end. */
  lemma {:induction false} AssignFresh(es: Entries, stamp: string, e: Entry)
    requires stamp !in Stamps(es)
    ensures Assign(es, stamp, e) == es + [(stamp, e)]
  {
    if es != [] {
      StampsTail(es);
      AssignFresh(es[1..], stamp, e);
    }
  }

  /** Assignment keeps the keys distinct and adds `stamp` to them. */
  lemma {:induction false} AssignKeys(es: Entries, stamp: string, e: Entry)
    requires DistinctKeys(es)
    ensures DistinctKeys(Assign(es, stamp, e))
    ensures Stamps(Assign(es, stamp, e)) == Stamps(es) + {stamp}
  {
    if es == [] {
      StampsTail(Assign(es, stamp, e));
      assert Stamps(es) == {};
    } else {
      StampsTail(es);
      assert DistinctKeys(es[1..]);
      var r := Assign(es, stamp, e);
      if es[0].0 == stamp {
        assert r[1..] == es[1..];
        StampsTail(r);
        forall i, j | 0 <= i < j < |r| ensures r[i].0 != r[j].0 {
          if i == 0 { assert r[j] == es[j]; }
        }
      } else {
        AssignKeys(es[1..], stamp, e);
        assert r[1..] == Assign(es[1..], stamp, e);
        StampsTail(r);
        forall i, j | 0 <= i < j < |r| ensures r[i].0 != r[j].0 {
          if i == 0 {
            assert r[j].0 in Stamps(r[1..]);
          }
        }
      }
    }
  }

  lemma {:induction false} CountAppend(es: Entries, x: (string, Entry), name: string)
    ensures CountRefs(es + [x], name) == CountRefs(es, name) + (if x.1.document == name then 1 else 0)
    ensures Others(es + [x], name) == Others(es, name) + (if x.1.document == name then [] else [x])
  {
    if es != [] {
      assert (es + [x])[1..] == es[1..] + [x];
      CountAppend(es[1..], x, name);
    } else {
      assert [x][1..] == [];
    }
  }

  /**
   * The reindex invariant. With a fresh stamp the write removes only the first
   * entry referencing `name`, keeps every other document's entries in order and
   * appends one new entry; so the count of references becomes the old count
   * with the first one replaced: at most one before means exactly one after,
   * holding the written value.
   */
  lemma ReindexedSpec(es: Entries, prop: string, value: Value, name: string, stamp: string)
    requires DistinctKeys(es) && stamp !in Stamps(es)
    ensures Reindexed(es, prop, value, name, stamp) == RemoveFirstRef(es, name) + [(stamp, Entry(prop, value, name))]
    ensures CountRefs(Reindexed(es, prop, value, name, stamp), name) ==
      if CountRefs(es, name) > 0 then CountRefs(es, name) else 1
    ensures Others(Reindexed(es, prop, value, name, stamp), name) == Others(es, name)
    ensures DistinctKeys(Reindexed(es, prop, value, name, stamp))
    ensures CountRefs(es, name) <= 1 ==>
      var r := Reindexed(es, prop, value, name, stamp);
      forall j :: 0 <= j < |r| && r[j].1.document == name ==> r[j] == (stamp, Entry(prop, value, name))
  {
    var e := Entry(prop, value, name);
    var d := RemoveFirstRef(es, name);
    RemoveFirstRefSpec(es, name);
    AssignFresh(d, stamp, e);
    CountAppend(d, (stamp, e), name);
    var r := d + [(stamp, e)];
    forall i, j | 0 <= i < j < |r| ensures r[i].0 != r[j].0 {
      if j == |d| { assert r[i].0 in Stamps(d); }
    }
    if CountRefs(es, name) <= 1 {
      NoRefsNoRemoval(d, name);
      forall j | 0 <= j < |r| && r[j].1.document == name ensures r[j] == (stamp, e) {
        assert j == |d|;
      }
    }
  }

  /**
   * With a fresh stamp the write keeps every other document's entries and
   * their count; of `name`'s entries, only the new one remains when there was
   * at most one before.
   */
  lemma ReindexedOthers(es: Entries, prop: string, value: Value, name: string, stamp: string)
    requires DistinctKeys(es) && stamp !in Stamps(es) && CountRefs(es, name) <= 1
    ensures forall y | y in Reindexed(es, prop, value, name, stamp) ::
      y == (stamp, Entry(prop, value, name)) || (y in es && y.1.document != name)
    ensures forall m | m != name :: CountRefs(Reindexed(es, prop, value, name, stamp), m) == CountRefs(es, m)
  {
    var d := RemoveFirstRef(es, name);
    ReindexedSpec(es, prop, value, name, stamp);
    RemoveOnlyRef(es, name);
    RemoveFirstRefKeepsOthers(es, name);
    forall m | m != name ensures CountRefs(Reindexed(es, prop, value, name, stamp), m) == CountRefs(es, m) {
      CountAppend(d, (stamp, Entry(prop, value, name)), m);
    }
  }

  /**
   * Without a fresh stamp the write silently overwrites the entry stored under
   * that stamp, even one that references another document.
   */
  lemma CollidingStampLosesEntry()
    ensures var before := [("1700000000000", Entry("age", Int(30), "alice"))];
      var r := Reindexed(before, "age", Int(41), "bob", "1700000000000");
      r == [("1700000000000", Entry("age", Int(41), "bob"))] &&
      CountRefs(before, "alice") == 1 && CountRefs(r, "alice") == 0
  {
  }

  /** Only the first reference goes: a duplicated reference survives the write. */
  lemma OnlyFirstReferenceRemoved()
    ensures var before := [("1", Entry("age", Int(1), "bob")), ("2", Entry("age", Int(2), "bob"))];
      Reindexed(before, "age", Int(3), "bob", "3") ==
        [("2", Entry("age", Int(2), "bob")), ("3", Entry("age", Int(3), "bob"))]
  {
  }
}
