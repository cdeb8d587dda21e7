/**
 * One poll cycle after a successful fetch: normalise every fetched section, build the
 * new snapshot mapping, collect a message for every new or updated section, and
 * decide whether the snapshot must be saved.
 */
module Cycle {
  import opened Common
  import opened Shop
  import opened Embed
  import opened Snapshot

  /** `old_data.get(section_id)`. */
  function Lookup(previous: map<string, Record>, id: string): Option<Record> {
    if id in previous then Some(previous[id]) else None
  }

  /** The stored dictionary of a section's canonical record. */
  function RecordOf(s: RawSection): Record {
    ToRecord(Normalize(s))
  }

  /** The mapping built by the cycle: one record per section key, later duplicates winning. */
  function NewSnapshot(sections: seq<RawSection>): map<string, Record> {
    IndexBy(sections, SectionKey, RecordOf)
  }

  /** Whether the cycle reports section `s` against the previous snapshot `previous`. */
  predicate Notifies(previous: map<string, Record>, s: RawSection) {
    Changed(Lookup(previous, SectionKey(s)), Normalize(s))
  }

  /** The items satisfying `keep`, in their original order. */
  function Filter<T>(items: seq<T>, keep: T -> bool): seq<T> {
    if items == [] then []
    else
      var n := |items| - 1;
      Filter(items[..n], keep) + (if keep(items[n]) then [items[n]] else [])
  }

  /** A filter keeps exactly the items satisfying its predicate, and is empty when none does. */
  lemma {:induction false} FilterMembers<T>(items: seq<T>, keep: T -> bool)
    ensures var r := Filter(items, keep);
      |r| <= |items| &&
      (forall x :: x in r <==> x in items && keep(x)) &&
      (r == [] <==> forall i :: 0 <= i < |items| ==> !keep(items[i]))
  {
    if items != [] {
      var n := |items| - 1;
      FilterMembers(items[..n], keep);
      assert items == items[..n] + [items[n]];
      assert forall x :: x in items <==> x in items[..n] || x == items[n];
    }
  }

  /** A property of every kept item holds of every item the predicate accepts. */
  lemma FilterKeepsAll<T>(items: seq<T>, keep: T -> bool, p: T -> bool)
    requires forall x :: x in Filter(items, keep) ==> p(x)
    ensures forall i :: 0 <= i < |items| && keep(items[i]) ==> p(items[i])
  {
    FilterMembers(items, keep);
  }

  /** The sections the cycle reports, in fetch order. */
  function Notified(previous: map<string, Record>, sections: seq<RawSection>): seq<RawSection> {
    Filter(sections, s => Notifies(previous, s))
  }

  /** Whether the release dates of a section can be rendered (every date parses). */
  predicate Renders(s: RawSection, epochOf: string -> Option<int>) {
    RenderDates(Normalize(s).releaseDates, epochOf).Some?
  }

  /** `embed` is the message for section `s`: its release dates render and the fields follow the layout. */
  predicate IsMessage(embed: seq<Field>, s: RawSection, epochOf: string -> Option<int>) {
    Renders(s, epochOf) &&
    IsEmbedFor(embed, s, Normalize(s), RenderDates(Normalize(s).releaseDates, epochOf).value)
  }

  /** `embeds[j]` is the message for `reported[j]`, for every j. */
  predicate MessagesFor(embeds: seq<seq<Field>>, reported: seq<RawSection>, epochOf: string -> Option<int>) {
    |embeds| == |reported| && forall j :: 0 <= j < |reported| ==> IsMessage(embeds[j], reported[j], epochOf)
  }

  lemma MessagesForAppend(embeds: seq<seq<Field>>, reported: seq<RawSection>, embed: seq<Field>, s: RawSection, epochOf: string -> Option<int>)
    requires MessagesFor(embeds, reported, epochOf)
    requires IsMessage(embed, s, epochOf)
    ensures MessagesFor(embeds + [embed], reported + [s], epochOf)
  {
  }

  /** Extending the fetched list by one section extends the reported list by it exactly when it changed. */
  lemma NotifiedSnoc(previous: map<string, Record>, sections: seq<RawSection>, i: int)
    requires 0 <= i < |sections|
    ensures Notified(previous, sections[..i + 1]) ==
      Notified(previous, sections[..i]) + (if Notifies(previous, sections[i]) then [sections[i]] else [])
  {
    assert sections[..i + 1][..i] == sections[..i];
  }

  /** Extending the fetched list by one section overwrites that section's key in the mapping. */
  lemma NewSnapshotSnoc(sections: seq<RawSection>, i: int)
    requires 0 <= i < |sections|
    ensures NewSnapshot(sections[..i + 1]) == NewSnapshot(sections[..i])[SectionKey(sections[i]) := RecordOf(sections[i])]
  {
    assert sections[..i + 1][..i] == sections[..i];
  }

  /** When every reported section has its message, every changed section renders. */
  lemma ReportedRender(previous: map<string, Record>, sections: seq<RawSection>, embeds: seq<seq<Field>>, epochOf: string -> Option<int>)
    requires MessagesFor(embeds, Notified(previous, sections), epochOf)
    ensures forall i :: 0 <= i < |sections| && Notifies(previous, sections[i]) ==> Renders(sections[i], epochOf)
  {
    var reported := Notified(previous, sections);
    var renders := (s: RawSection) => Renders(s, epochOf);
    forall x | x in reported ensures renders(x) {
      var j :| 0 <= j < |reported| && reported[j] == x;
      assert IsMessage(embeds[j], x, epochOf);
    }
    FilterKeepsAll(sections, s => Notifies(previous, s), renders);
  }

  datatype CycleResult =
    | Aborted
    | Completed(snapshot: map<string, Record>, embeds: seq<seq<Field>>, save: bool)

  /**
   * One pass of the loop for one fetched section: its stored record, whether it is
   * reported, and, when it is, its message or None when its release dates fail to render.
   */
  method VisitSection(previous: map<string, Record>, section: RawSection, epochOf: string -> Option<int>)
    returns (record: Record, notify: bool, embed: Option<seq<Field>>)
    ensures record == RecordOf(section)
    ensures notify == Notifies(previous, section)
    ensures notify ==> (embed.Some? <==> Renders(section, epochOf))
    ensures notify && embed.Some? ==> IsMessage(embed.value, section, epochOf)
  {
    var sectionId := SectionKey(section);
    var newSection := Normalize(section);
    record := ToRecord(newSection);
    var oldSection := Lookup(previous, sectionId);
    notify := Changed(oldSection, newSection);
    embed := None;
    if notify {
      embed := CreateEmbed(section, newSection, epochOf);
    }
  }

  /**
   * One cycle over the fetched `sections` with previous snapshot `previous`. The cycle is
   * aborted, with nothing sent and nothing saved, exactly when some reported section
   * has a release date that does not parse. Otherwise it yields the new mapping, one
   * message per reported section in fetch order, and whether to save: exactly when
   * the new mapping differs from the old one, release dates included.
   */
  method ProcessCycle(previous: map<string, Record>, sections: seq<RawSection>, epochOf: string -> Option<int>)
    returns (result: CycleResult)
    ensures result.Aborted? <==> exists i :: 0 <= i < |sections| && Notifies(previous, sections[i]) && !Renders(sections[i], epochOf)
    ensures result.Completed? ==> result.snapshot == NewSnapshot(sections)
    ensures result.Completed? ==> result.save == (previous != NewSnapshot(sections))
    ensures result.Completed? ==> MessagesFor(result.embeds, Notified(previous, sections), epochOf)
  {
    var newData := map[];
    var embeds := [];
    for i := 0 to |sections|
      invariant newData == NewSnapshot(sections[..i])
      invariant MessagesFor(embeds, Notified(previous, sections[..i]), epochOf)
    {
      var record, notify, embed := VisitSection(previous, sections[i], epochOf);
      NewSnapshotSnoc(sections, i);
      NotifiedSnoc(previous, sections, i);
      newData := newData[SectionKey(sections[i]) := record];
      if notify {
        if embed.None? {
          return Aborted;
        }
        MessagesForAppend(embeds, Notified(previous, sections[..i]), embed.value, sections[i], epochOf);
        embeds := embeds + [embed.value];
      }
    }
    assert sections[..|sections|] == sections;
    ReportedRender(previous, sections, embeds, epochOf);
    result := Completed(newData, embeds, previous != newData);
  }

  /** A filter whose predicate accepts every item keeps the whole list. */
  lemma {:induction false} FilterAll<T>(items: seq<T>, keep: T -> bool)
    requires forall i :: 0 <= i < |items| ==> keep(items[i])
    ensures Filter(items, keep) == items
  {
    if items != [] {
      var n := |items| - 1;
      FilterAll(items[..n], keep);
      assert items == items[..n] + [items[n]];
    }
  }

  /** With no previous snapshot (a first run, or an unreadable file), every section is reported. */
  lemma EmptySnapshotNotifiesAll(sections: seq<RawSection>)
    ensures Notified(map[], sections) == sections
  {
    forall i | 0 <= i < |sections| ensures Notifies(map[], sections[i]) {
      AbsentEntryChanged(Normalize(sections[i]));
    }
    FilterAll(sections, s => Notifies(map[], s));
  }

  /**
   * The keys of the new mapping are exactly the section keys of the fetched list, and
   * the last section carrying a key supplies its record.
   */
  lemma NewSnapshotKeys(sections: seq<RawSection>)
    ensures forall id :: id in NewSnapshot(sections) <==> exists i :: 0 <= i < |sections| && SectionKey(sections[i]) == id
    ensures forall i :: IsLastWithKey(sections, SectionKey, i) ==>
      SectionKey(sections[i]) in NewSnapshot(sections) && NewSnapshot(sections)[SectionKey(sections[i])] == RecordOf(sections[i])
  {
    IndexByKeys(sections, SectionKey, RecordOf);
    forall i | IsLastWithKey(sections, SectionKey, i)
      ensures SectionKey(sections[i]) in NewSnapshot(sections) && NewSnapshot(sections)[SectionKey(sections[i])] == RecordOf(sections[i])
    {
      IndexByLast(sections, SectionKey, RecordOf, i);
    }
  }

  /** Each key of the new mapping holds the record of the last fetched section with that key. */
  lemma NewSnapshotEntry(sections: seq<RawSection>, id: string) returns (last: int)
    requires id in NewSnapshot(sections)
    ensures IsLastWithKey(sections, SectionKey, last) && SectionKey(sections[last]) == id
    ensures NewSnapshot(sections)[id] == RecordOf(sections[last])
  {
    IndexByKeys(sections, SectionKey, RecordOf);
    var i :| 0 <= i < |sections| && SectionKey(sections[i]) == id;
    last := LastWithKeyExists(sections, SectionKey, i);
    IndexByLast(sections, SectionKey, RecordOf, last);
  }

  /**
   * Against the mapping it built itself, the last section carrying each key is never
   * reported again.
   */
  lemma LastOccurrenceQuiet(sections: seq<RawSection>, i: int)
    requires IsLastWithKey(sections, SectionKey, i)
    ensures !Notifies(NewSnapshot(sections), sections[i])
  {
    IndexByLast(sections, SectionKey, RecordOf, i);
    ChangedIff(Normalize(sections[i]), Normalize(sections[i]));
  }

  /**
   * Steady state: when the fetched sections have distinct keys, fetching the same list
   * again after a completed cycle reports nothing.
   */
  lemma SteadyState(sections: seq<RawSection>)
    requires forall i, j :: 0 <= i < j < |sections| ==> SectionKey(sections[i]) != SectionKey(sections[j])
    ensures Notified(NewSnapshot(sections), sections) == []
  {
    forall i | 0 <= i < |sections| ensures !Notifies(NewSnapshot(sections), sections[i]) {
      LastOccurrenceQuiet(sections, i);
    }
    FilterMembers(sections, s => Notifies(NewSnapshot(sections), s));
  }

  /** A section whose key holds another section's record is reported iff the two differ outside the dates. */
  lemma NotifiesAgainst(previous: map<string, Record>, s: RawSection, t: RawSection)
    requires Lookup(previous, SectionKey(s)) == Some(RecordOf(t))
    ensures Notifies(previous, s) <==> !SameExceptDates(Normalize(t), Normalize(s))
  {
    ChangedIff(Normalize(t), Normalize(s));
  }

  /**
   * Without distinct keys there is no steady state: of two sections sharing an ID whose
   * records differ outside the release dates, the earlier one is compared with the later
   * one's stored record and is reported on every cycle, while the later one is not.
   */
  lemma DuplicateKeysRenotify(a: RawSection, b: RawSection)
    requires SectionKey(a) == SectionKey(b)
    requires !SameExceptDates(Normalize(b), Normalize(a))
    ensures Notified(NewSnapshot([a, b]), [a, b]) == [a]
  {
    var snapshot := NewSnapshot([a, b]);
    assert Notifies(snapshot, a) by {
      assert IsLastWithKey([a, b], SectionKey, 1);
      IndexByLast([a, b], SectionKey, RecordOf, 1);
      NotifiesAgainst(snapshot, a, b);
    }
    assert !Notifies(snapshot, b) by {
      LastOccurrenceQuiet([a, b], 1);
    }
    FilterPair(a, b, s => Notifies(snapshot, s));
  }

  /** Of two items, a filter keeps exactly the first when only the first is accepted. */
  lemma FilterPair<T>(a: T, b: T, keep: T -> bool)
    requires keep(a) && !keep(b)
    ensures Filter([a, b], keep) == [a]
  {
    assert [a, b][..1] == [a] && [a][..0] == [];
    assert Filter([a], keep) == Filter([], keep) + [a];
    assert Filter([a, b], keep) == Filter([a], keep) + [];
  }

  /**
   * `count_billboards` and the `billboard` field of the new mapping agree for every
   * section ID: the same IDs are present and carry the same count. (A section without
   * an ID is keyed None by one and "N/A" by the other, so "N/A" is excluded.)
   */
  lemma BillboardsAgree(sections: seq<RawSection>, id: string)
    requires id != Missing
    ensures Some(id) in BillboardCounts(sections) <==> id in NewSnapshot(sections)
    ensures id in NewSnapshot(sections) ==>
      BillboardKey in NewSnapshot(sections)[id] &&
      NewSnapshot(sections)[id][BillboardKey] == Int(BillboardCounts(sections)[Some(id)])
  {
    var sectionIdOf := (s: RawSection) => s.sectionId;
    var countOf := (s: RawSection) => BillboardCount(s.offerGroups);
    assert forall s :: SectionKey(s) == id <==> sectionIdOf(s) == Some(id);
    IndexByKeys(sections, sectionIdOf, countOf);
    IndexByKeys(sections, SectionKey, RecordOf);
    if id in NewSnapshot(sections) {
      var last := NewSnapshotEntry(sections, id);
      assert IsLastWithKey(sections, sectionIdOf, last);
      IndexByLast(sections, sectionIdOf, countOf, last);
    }
  }

  /** `normalize_data` leaves every mapping the cycle builds unchanged. */
  lemma NormalizeSnapshotOfNew(sections: seq<RawSection>)
    ensures AllListShaped(NewSnapshot(sections))
    ensures NormalizeSnapshot(NewSnapshot(sections)) == NewSnapshot(sections)
  {
    var data := NewSnapshot(sections);
    forall id | id in data ensures ListShaped(data[id]) && NormalizeRecord(data[id]) == data[id] {
      var last := NewSnapshotEntry(sections, id);
      NormalizeRecordOfStored(Normalize(sections[last]));
    }
  }
}
