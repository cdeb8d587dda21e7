/**
 * The snapshot mapping (section key to stored record), how a mapping is built from
 * a list of sections, and the two stand-alone helpers that work on such mappings:
 * `normalize_data` and `count_billboards`.
 */
module Snapshot {
  import opened Common
  import opened Sorting
  import opened Shop

  /** Index `i` holds the last item of `items` whose key is `key(items[i])`. */
  ghost predicate IsLastWithKey<T, K>(items: seq<T>, key: T -> K, i: int) {
    0 <= i < |items| && forall j :: i < j < |items| ==> key(items[j]) != key(items[i])
  }

  /** A dictionary filled item by item with `d[key(item)] = val(item)`. */
  function IndexBy<T, K(==), V>(items: seq<T>, key: T -> K, val: T -> V): map<K, V> {
    if items == [] then map[]
    else IndexBy(items[..|items| - 1], key, val)[key(items[|items| - 1]) := val(items[|items| - 1])]
  }

  /** The keys of the dictionary are exactly the keys of the items. */
  lemma {:induction false} IndexByKeys<T, K, V>(items: seq<T>, key: T -> K, val: T -> V)
    ensures forall k :: k in IndexBy(items, key, val) <==> exists i :: 0 <= i < |items| && key(items[i]) == k
  {
    if items != [] {
      var n := |items| - 1;
      IndexByKeys(items[..n], key, val);
      assert forall i :: 0 <= i < n ==> items[..n][i] == items[i];
    }
  }

  /** Each key maps to the value of the last item carrying it: a later duplicate replaces an earlier one. */
  lemma {:induction false} IndexByLast<T, K, V>(items: seq<T>, key: T -> K, val: T -> V, i: int)
    requires IsLastWithKey(items, key, i)
    ensures key(items[i]) in IndexBy(items, key, val)
    ensures IndexBy(items, key, val)[key(items[i])] == val(items[i])
  {
    var n := |items| - 1;
    if i < n {
      assert IsLastWithKey(items[..n], key, i) by {
        assert forall j :: 0 <= j < n ==> items[..n][j] == items[j];
      }
      IndexByLast(items[..n], key, val, i);
    }
  }

  /** The last item with a given key exists whenever some item has that key. */
  lemma LastWithKeyExists<T, K>(items: seq<T>, key: T -> K, i: int) returns (last: int)
    requires 0 <= i < |items|
    ensures IsLastWithKey(items, key, last) && key(items[last]) == key(items[i])
  {
    last := i;
    while exists j :: last < j < |items| && key(items[j]) == key(items[i])
      invariant i <= last < |items| && key(items[last]) == key(items[i])
      decreases |items| - last
    {
      var next :| last < next < |items| && key(items[next]) == key(items[i]);
      last := next;
    }
  }

  /** A stored record whose `contexts` and `release_dates`, when present, are lists of strings. */
  predicate ListShaped(rec: Record) {
    (ContextsKey in rec ==> rec[ContextsKey].Strs?) && (DatesKey in rec ==> rec[DatesKey].Strs?)
  }

  /**
   * One record as `normalize_data` leaves it: `contexts` deduplicated and sorted,
   * `release_dates` sorted, and nothing else touched.
   */
  function NormalizeRecord(rec: Record): (r: Record)
    requires ListShaped(rec)
    ensures r.Keys == rec.Keys
    ensures forall k :: k in rec && k != ContextsKey && k != DatesKey ==> r[k] == rec[k]
    ensures ListShaped(r)
    ensures ContextsKey in rec ==>
      StrictlySorted(r[ContextsKey].items) &&
      forall c :: c in r[ContextsKey].items <==> c in rec[ContextsKey].items
    ensures DatesKey in rec ==>
      Sorted(r[DatesKey].items) && multiset(r[DatesKey].items) == multiset(rec[DatesKey].items)
  {
    var withContexts := if ContextsKey in rec then rec[ContextsKey := Strs(SortUnique(rec[ContextsKey].items))] else rec;
    if DatesKey in withContexts then withContexts[DatesKey := Strs(Sort(withContexts[DatesKey].items))] else withContexts
  }

  /** Normalising a record twice is the same as normalising it once. */
  lemma NormalizeRecordIdempotent(rec: Record)
    requires ListShaped(rec)
    ensures NormalizeRecord(NormalizeRecord(rec)) == NormalizeRecord(rec)
  {
    var once := NormalizeRecord(rec);
    if ContextsKey in rec {
      SortUniqueOfStrictlySorted(once[ContextsKey].items);
    }
    if DatesKey in rec {
      SortOfSorted(once[DatesKey].items);
    }
  }

  /** Every record the tracker itself stores is already normalised. */
  lemma NormalizeRecordOfStored(n: NormalizedSection)
    requires StrictlySorted(n.contexts) && Sorted(n.releaseDates)
    ensures NormalizeRecord(ToRecord(n)) == ToRecord(n)
  {
    SortUniqueOfStrictlySorted(n.contexts);
    SortOfSorted(n.releaseDates);
  }

  predicate AllListShaped(data: map<string, Record>) {
    forall k :: k in data ==> ListShaped(data[k])
  }

  /** The whole mapping as `normalize_data` leaves it. */
  function NormalizeSnapshot(data: map<string, Record>): (r: map<string, Record>)
    requires AllListShaped(data)
    ensures r.Keys == data.Keys
    ensures AllListShaped(r)
  {
    map k | k in data :: NormalizeRecord(data[k])
  }

  lemma NormalizeSnapshotIdempotent(data: map<string, Record>)
    requires AllListShaped(data)
    ensures NormalizeSnapshot(NormalizeSnapshot(data)) == NormalizeSnapshot(data)
  {
    forall k | k in data
      ensures NormalizeSnapshot(NormalizeSnapshot(data))[k] == NormalizeSnapshot(data)[k]
    {
      NormalizeRecordIdempotent(data[k]);
    }
  }

  /** A snapshot mapping held in a mutable dictionary, as `normalize_data` receives it. */
  class SnapshotData {
    var sections: map<string, Record>

    constructor (data: map<string, Record>)
      ensures sections == data
    {
      sections := data;
    }

    /** `normalize_data`: normalises every record of the dictionary in place. */
    method NormalizeData()
      requires AllListShaped(sections)
      modifies this
      ensures sections == NormalizeSnapshot(old(sections))
    {
      var pending := sections.Keys;
      while pending != {}
        invariant pending <= sections.Keys == old(sections).Keys
        invariant forall k :: k in pending ==> sections[k] == old(sections)[k]
        invariant forall k :: k in sections && k !in pending ==> sections[k] == NormalizeRecord(old(sections)[k])
        decreases pending
      {
        var sectionId :| sectionId in pending;
        sections := sections[sectionId := NormalizeRecord(sections[sectionId])];
        pending := pending - {sectionId};
      }
    }
  }

  /** `count_billboards` as a function: the billboard count per raw sectionID, later duplicates winning. */
  function BillboardCounts(sections: seq<RawSection>): map<Option<string>, nat> {
    IndexBy(sections, (s: RawSection) => s.sectionId, (s: RawSection) => BillboardCount(s.offerGroups))
  }

  /**
   * `count_billboards`: the number of billboard offer groups of each section, keyed by
   * its sectionID (None when it has none); a later section with the same ID replaces
   * an earlier one.
   */
  method CountBillboards(sections: seq<RawSection>) returns (counts: map<Option<string>, nat>)
    ensures counts == BillboardCounts(sections)
    ensures forall k :: k in counts <==> exists i :: 0 <= i < |sections| && sections[i].sectionId == k
    ensures forall i :: 0 <= i < |sections| && (forall j :: i < j < |sections| ==> sections[j].sectionId != sections[i].sectionId) ==>
      counts[sections[i].sectionId] == BillboardCount(sections[i].offerGroups) <= |sections[i].offerGroups|
  {
    counts := map[];
    for i := 0 to |sections|
      invariant counts == BillboardCounts(sections[..i])
    {
      var section := sections[i];
      var sectionId := section.sectionId;
      var billboardCount := BillboardCount(section.offerGroups);
      assert sections[..i + 1] == sections[..i] + [section];
      counts := counts[sectionId := billboardCount];
    }
    assert sections[..|sections|] == sections;
    var key, val := (s: RawSection) => s.sectionId, (s: RawSection) => BillboardCount(s.offerGroups);
    IndexByKeys(sections, key, val);
    forall i | 0 <= i < |sections| && (forall j :: i < j < |sections| ==> sections[j].sectionId != sections[i].sectionId)
      ensures counts[sections[i].sectionId] == BillboardCount(sections[i].offerGroups)
    {
      IndexByLast(sections, key, val, i);
    }
  }
}
