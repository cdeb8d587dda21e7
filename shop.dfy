/**
 * A shop section as the content API returns it, the canonical record the tracker
 * derives from it, and the comparison that decides whether a section is new or changed.
 */
module Shop {
  import opened Common
  import opened Strings
  import opened Sorting

  /** One entry of `metadata.offerGroups`; only its `displayType` is read. */
  datatype OfferGroup = OfferGroup(displayType: Option<string>)

  /** One entry of `metadata.stackRanks`. */
  datatype StackRank = StackRank(context: Option<string>, startDate: Option<string>)

  /**
   * One element of `shopData.sections`. A missing key is None; a missing `metadata`
   * block reads like an empty one, so its parts are flattened in here:
   * `customTexture` is `metadata.background.customTexture`.
   */
  datatype RawSection = RawSection(
    sectionId: Option<string>,
    displayName: Option<string>,
    category: Option<string>,
    customTexture: Option<string>,
    offerGroups: seq<OfferGroup>,
    stackRanks: seq<StackRank>)

  const Missing := "N/A"
  const NoBackground := "No Background"
  const UnknownContext := "Unknown"
  const BillboardType := "billboard"

  /** The canonical comparison record kept for a section in the snapshot. */
  datatype NormalizedSection = NormalizedSection(
    displayName: string,
    category: Option<string>,
    backgroundUrl: string,
    groupCount: nat,
    billboard: nat,
    contexts: seq<string>,
    releaseDates: seq<string>)

  /** The snapshot key of a section: its sectionID, or "N/A" when it has none. */
  function SectionKey(s: RawSection): string {
    s.sectionId.GetOr(Missing)
  }

  /** Number of offer groups whose displayType is exactly "billboard". */
  function BillboardCount(groups: seq<OfferGroup>): (r: nat)
    ensures r <= |groups|
    ensures r == 0 <==> forall i :: 0 <= i < |groups| ==> groups[i].displayType != Some(BillboardType)
  {
    if groups == [] then 0
    else (if groups[0].displayType == Some(BillboardType) then 1 else 0) + BillboardCount(groups[1..])
  }

  /** `rank.get("context", "Unknown")`. */
  function ContextOf(rank: StackRank): string {
    rank.context.GetOr(UnknownContext)
  }

  /** The context of every rank, in order, with duplicates. */
  function RankContexts(ranks: seq<StackRank>): (r: seq<string>)
    ensures |r| == |ranks|
    ensures forall i :: 0 <= i < |ranks| ==> r[i] == ContextOf(ranks[i])
  {
    if ranks == [] then [] else [ContextOf(ranks[0])] + RankContexts(ranks[1..])
  }

  /** The `startDate` of every rank that has a non-empty one, in order. */
  function RankDates(ranks: seq<StackRank>): (r: seq<string>)
    ensures forall d :: d in r <==> d != "" && exists k :: 0 <= k < |ranks| && ranks[k].startDate == Some(d)
  {
    if ranks == [] then []
    else if Truthy(ranks[0].startDate) then [ranks[0].startDate.value] + RankDates(ranks[1..])
    else RankDates(ranks[1..])
  }

  /** The positions, from `lo` on, of the ranks that have a non-empty `startDate`. */
  function DatedRanks(ranks: seq<StackRank>, lo: nat): set<int> {
    set k | lo <= k < |ranks| && Truthy(ranks[k].startDate)
  }

  /** The dates kept from `lo` on are as many as the ranks with a non-empty `startDate`. */
  lemma {:induction false} RankDatesCountFrom(ranks: seq<StackRank>, lo: nat)
    requires lo <= |ranks|
    ensures |RankDates(ranks[lo..])| == |DatedRanks(ranks, lo)|
    decreases |ranks| - lo
  {
    if lo == |ranks| {
      assert DatedRanks(ranks, lo) == {};
    } else {
      assert ranks[lo..][1..] == ranks[lo + 1..];
      RankDatesCountFrom(ranks, lo + 1);
      var rest := DatedRanks(ranks, lo + 1);
      assert lo !in rest;
      if Truthy(ranks[lo].startDate) {
        assert DatedRanks(ranks, lo) == {lo} + rest;
      } else {
        assert DatedRanks(ranks, lo) == rest;
      }
    }
  }

  /** One date is kept per rank with a non-empty `startDate`. */
  lemma RankDatesCount(ranks: seq<StackRank>)
    ensures |RankDates(ranks)| == |set k | 0 <= k < |ranks| && Truthy(ranks[k].startDate)|
  {
    RankDatesCountFrom(ranks, 0);
    assert ranks[0..] == ranks;
  }

  /** The canonical record of a raw section. */
  function Normalize(s: RawSection): (n: NormalizedSection)
    ensures n.displayName == s.displayName.GetOr(Missing)
    ensures n.category.Some? <==> Truthy(s.category)
    ensures n.category.Some? ==> n.category == s.category
    ensures Truthy(s.customTexture) ==> n.backgroundUrl == s.customTexture.value
    ensures !Truthy(s.customTexture) ==> n.backgroundUrl == NoBackground
    ensures n.groupCount == |s.offerGroups|
    ensures n.billboard == BillboardCount(s.offerGroups) <= n.groupCount
    ensures StrictlySorted(n.contexts)
    ensures forall c :: c in n.contexts <==> exists k :: 0 <= k < |s.stackRanks| && ContextOf(s.stackRanks[k]) == c
    ensures Sorted(n.releaseDates)
    ensures multiset(n.releaseDates) == multiset(RankDates(s.stackRanks))
    ensures forall d :: d in n.releaseDates ==> d != ""
  {
    var contexts := RankContexts(s.stackRanks);
    assert forall c :: c in contexts <==> exists k :: 0 <= k < |s.stackRanks| && ContextOf(s.stackRanks[k]) == c by {
      forall c | c in contexts ensures exists k :: 0 <= k < |s.stackRanks| && ContextOf(s.stackRanks[k]) == c {
        var k :| 0 <= k < |contexts| && contexts[k] == c;
      }
    }
    var kept := RankDates(s.stackRanks);
    var dates := Sort(kept);
    assert forall d :: d in dates ==> d != "" by {
      forall d | d in dates ensures d != "" {
        assert d in multiset(kept);
        assert d in kept;
      }
    }
    NormalizedSection(
      s.displayName.GetOr(Missing),
      if Truthy(s.category) then s.category else None,
      if Truthy(s.customTexture) then s.customTexture.value else NoBackground,
      |s.offerGroups|,
      BillboardCount(s.offerGroups),
      SortUnique(contexts),
      dates)
  }

  /** A JSON value as the tracker writes it into a snapshot record. */
  datatype Value = Null | Int(n: int) | Str(s: string) | Strs(items: seq<string>)

  /** A snapshot record: a JSON object from field name to value. */
  type Record = map<string, Value>

  const DisplayNameKey := "display_name"
  const CategoryKey := "category"
  const BackgroundKey := "background_url"
  const GroupCountKey := "group_count"
  const BillboardKey := "billboard"
  const ContextsKey := "contexts"
  const DatesKey := "release_dates"

  /** The dictionary form of a canonical record, as it is compared and stored. */
  function ToRecord(n: NormalizedSection): (r: Record)
    ensures r.Keys == {DisplayNameKey, CategoryKey, BackgroundKey, GroupCountKey, BillboardKey, ContextsKey, DatesKey}
  {
    map[
      DisplayNameKey := Str(n.displayName),
      CategoryKey := if n.category.Some? then Str(n.category.value) else Null,
      BackgroundKey := Str(n.backgroundUrl),
      GroupCountKey := Int(n.groupCount),
      BillboardKey := Int(n.billboard),
      ContextsKey := Strs(n.contexts),
      DatesKey := Strs(n.releaseDates)]
  }

  /** The dictionary with its `release_dates` key dropped. */
  function WithoutDates(r: Record): (d: Record)
    ensures d.Keys == r.Keys - {DatesKey}
    ensures forall k :: k in d ==> d[k] == r[k]
  {
    r - {DatesKey}
  }

  /** Two canonical records that agree on every field except the release dates. */
  predicate SameExceptDates(a: NormalizedSection, b: NormalizedSection) {
    a.(releaseDates := b.releaseDates) == b
  }

  /** The stored dictionary of a record determines the record. */
  lemma ToRecordInjective(a: NormalizedSection, b: NormalizedSection)
    ensures ToRecord(a) == ToRecord(b) <==> a == b
  {
    if ToRecord(a) == ToRecord(b) {
      assert ToRecord(a)[CategoryKey] == ToRecord(b)[CategoryKey];
      assert ToRecord(a)[DisplayNameKey] == ToRecord(b)[DisplayNameKey];
      assert ToRecord(a)[BackgroundKey] == ToRecord(b)[BackgroundKey];
      assert ToRecord(a)[GroupCountKey] == ToRecord(b)[GroupCountKey];
      assert ToRecord(a)[BillboardKey] == ToRecord(b)[BillboardKey];
      assert ToRecord(a)[ContextsKey] == ToRecord(b)[ContextsKey];
      assert ToRecord(a)[DatesKey] == ToRecord(b)[DatesKey];
    }
  }

  /**
   * Whether a section is new or updated: its previous snapshot entry (an absent one
   * reads as the empty dictionary) and its new record differ once both drop
   * `release_dates`.
   */
  predicate Changed(oldEntry: Option<Record>, n: NormalizedSection) {
    WithoutDates(oldEntry.GetOr(map[])) != WithoutDates(ToRecord(n))
  }

  /** A section with no previous entry, or an empty one, is always reported. */
  lemma AbsentEntryChanged(n: NormalizedSection)
    ensures Changed(None, n)
    ensures Changed(Some(map[]), n)
  {
    assert DisplayNameKey in WithoutDates(ToRecord(n));
  }

  /** Against a previous record, a section is reported iff some field other than the dates differs. */
  lemma ChangedIff(a: NormalizedSection, b: NormalizedSection)
    ensures Changed(Some(ToRecord(a)), b) <==> !SameExceptDates(a, b)
  {
    var wa, wb := WithoutDates(ToRecord(a)), WithoutDates(ToRecord(b));
    if wa == wb {
      assert wa[CategoryKey] == wb[CategoryKey];
      assert wa[DisplayNameKey] == wb[DisplayNameKey];
      assert wa[BackgroundKey] == wb[BackgroundKey];
      assert wa[GroupCountKey] == wb[GroupCountKey];
      assert wa[BillboardKey] == wb[BillboardKey];
      assert wa[ContextsKey] == wb[ContextsKey];
    }
    if SameExceptDates(a, b) {
      assert wa == wb;
    }
  }

  /** Records that differ only in their release dates never trigger a report. */
  lemma DatesNeverNotify(a: NormalizedSection, b: NormalizedSection)
    requires SameExceptDates(a, b)
    ensures !Changed(Some(ToRecord(a)), b)
  {
    ChangedIff(a, b);
  }
}
