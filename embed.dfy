/** The notification message for a new or updated section: an ordered list of named fields. */
module Embed {
  import opened Common
  import opened Strings
  import opened Shop

  /** The eight kinds of field a message can carry. */
  datatype FieldKind = DisplayName | SectionId | Category | Background | GroupCount | Billboard | Contexts | ReleaseDates

  /** The field's name as the message shows it. */
  function Title(k: FieldKind): string {
    match k
    case DisplayName => "**Display Name**"
    case SectionId => "**Section ID**"
    case Category => "**Category**"
    case Background => "**Background**"
    case GroupCount => "**Group Count**"
    case Billboard => "**Billboard**"
    case Contexts => "**Context(s)**"
    case ReleaseDates => "**Possible Release Dates**"
  }

  /** The kind of field a name belongs to, if any. */
  function KindOfTitle(name: string): Option<FieldKind> {
    if name == Title(DisplayName) then Some(DisplayName)
    else if name == Title(SectionId) then Some(SectionId)
    else if name == Title(Category) then Some(Category)
    else if name == Title(Background) then Some(Background)
    else if name == Title(GroupCount) then Some(GroupCount)
    else if name == Title(Billboard) then Some(Billboard)
    else if name == Title(Contexts) then Some(Contexts)
    else if name == Title(ReleaseDates) then Some(ReleaseDates)
    else None
  }

  /** A field's name gives its kind back. */
  lemma KindOfTitleOfTitle(k: FieldKind)
    ensures KindOfTitle(Title(k)) == Some(k)
  {
    match k
    case Background => assert Title(Background)[2] != Title(SectionId)[2];
    case Contexts =>
      assert Title(Contexts)[2] != Title(SectionId)[2];
      assert Title(Contexts)[2] != Title(Background)[2];
    case _ =>
  }

  /** Distinct kinds show distinct names, so a field's name identifies its kind. */
  lemma TitleInjective(j: FieldKind, k: FieldKind)
    requires j != k
    ensures Title(j) != Title(k)
  {
    KindOfTitleOfTitle(j);
    KindOfTitleOfTitle(k);
  }

  /** One entry of the message's `fields` list. */
  datatype Field = Field(kind: FieldKind, value: string, inline: bool) {
    function Name(): string { Title(kind) }
  }

  const NoContext := "No Context"
  const NoReleaseDates := "No Release Dates"

  /** The platform's relative-time marker for a Unix time in whole seconds. */
  function DiscordTimestamp(unixTs: int): (r: string)
    ensures |r| >= 7 && r[..3] == "<t:" && r[|r| - 3..] == ":R>"
    ensures r[3..|r| - 3] == IntToString(unixTs)
    ensures '\n' !in r
  {
    var digits := IntToString(unixTs);
    assert forall i :: 0 <= i < |digits| ==> digits[i] != '\n' by {
      if unixTs < 0 {
        assert digits == "-" + NatToString(-unixTs);
        forall i | 0 < i < |digits| ensures digits[i] != '\n' {
          assert digits[i] == NatToString(-unixTs)[i - 1];
        }
      }
    }
    "<t:" + digits + ":R>"
  }

  /**
   * The rendered marker of every non-empty date, in order; None when some date does
   * not parse (`epochOf` stands for ISO-8601 parsing and the conversion to seconds).
   */
  function Stamps(dates: seq<string>, epochOf: string -> Option<int>): (r: Option<seq<string>>)
    ensures r.None? <==> exists i :: 0 <= i < |dates| && dates[i] != "" && epochOf(dates[i]).None?
    ensures r.Some? ==> forall i :: 0 <= i < |r.value| ==> r.value[i] != [] && r.value[i][0] == '<' && '\n' !in r.value[i]
  {
    if dates == [] then Some([])
    else
      var rest := Stamps(dates[1..], epochOf);
      assert forall i :: 1 <= i < |dates| ==> dates[i] == dates[1..][i - 1];
      if dates[0] == "" then rest
      else match epochOf(dates[0])
        case None => None
        case Some(t) =>
          if rest.None? then None
          else
            var stamp := DiscordTimestamp(t);
            assert stamp[0] == stamp[..3][0];
            Some([stamp] + rest.value)
  }

  /** A non-empty first date that renders contributes its marker ahead of the rest. */
  lemma StampsCons(dates: seq<string>, epochOf: string -> Option<int>)
    requires dates != [] && dates[0] != ""
    requires Stamps(dates, epochOf).Some?
    ensures epochOf(dates[0]).Some? && Stamps(dates[1..], epochOf).Some?
    ensures Stamps(dates, epochOf).value == [DiscordTimestamp(epochOf(dates[0]).value)] + Stamps(dates[1..], epochOf).value
  {
  }

  /** Without empty dates, there is exactly one marker per date, in order. */
  lemma {:induction false} StampsOneEach(dates: seq<string>, epochOf: string -> Option<int>)
    requires Stamps(dates, epochOf).Some?
    requires forall i :: 0 <= i < |dates| ==> dates[i] != ""
    ensures var stamps := Stamps(dates, epochOf).value;
      |stamps| == |dates| && forall i :: 0 <= i < |dates| ==> stamps[i] == DiscordTimestamp(epochOf(dates[i]).value)
  {
    if dates != [] {
      var tail := dates[1..];
      StampsCons(dates, epochOf);
      StampsOneEach(tail, epochOf);
      var stamps, rest := Stamps(dates, epochOf).value, Stamps(tail, epochOf).value;
      forall i | 0 < i < |dates| ensures stamps[i] == DiscordTimestamp(epochOf(dates[i]).value) {
        assert stamps[i] == rest[i - 1] && dates[i] == tail[i - 1];
      }
    }
  }

  /**
   * The markers joined one per line never read as the "No Release Dates" sentinel, and
   * splitting the text at line breaks gives the markers back.
   */
  lemma StampsText(stamps: seq<string>)
    requires forall i :: 0 <= i < |stamps| ==> stamps[i] != [] && stamps[i][0] == '<' && '\n' !in stamps[i]
    ensures Join(stamps, "\n") != NoReleaseDates
    ensures stamps != [] ==> Split(Join(stamps, "\n"), '\n') == stamps
  {
    if stamps != [] {
      JoinHead(stamps, "\n");
      SplitJoin(stamps, '\n');
    }
  }

  /** The value of the Possible Release Dates field; None when rendering raises. */
  function RenderDates(dates: seq<string>, epochOf: string -> Option<int>): (r: Option<string>)
    ensures r.None? <==> exists i :: 0 <= i < |dates| && dates[i] != "" && epochOf(dates[i]).None?
    ensures r == Some(NoReleaseDates) <==> dates == []
    ensures r.Some? && dates != [] && (forall i :: 0 <= i < |dates| ==> dates[i] != "") ==>
      var parts := Split(r.value, '\n');
      |parts| == |dates| && forall i :: 0 <= i < |dates| ==> parts[i] == DiscordTimestamp(epochOf(dates[i]).value)
  {
    if dates == [] then Some(NoReleaseDates)
    else
      var stamps := Stamps(dates, epochOf);
      if stamps.None? then None
      else
        StampsText(stamps.value);
        assert (forall i :: 0 <= i < |dates| ==> dates[i] != "") ==>
          |stamps.value| == |dates| && forall i :: 0 <= i < |dates| ==> stamps.value[i] == DiscordTimestamp(epochOf(dates[i]).value) by {
          if forall i :: 0 <= i < |dates| ==> dates[i] != "" {
            StampsOneEach(dates, epochOf);
          }
        }
        Some(Join(stamps.value, "\n"))
  }

  /** The Background field's value: a link to the texture, or the sentinel. */
  function BackgroundText(url: Option<string>): (r: string)
    ensures r == NoBackground <==> !Truthy(url)
    ensures Truthy(url) ==> |r| == |url.value| + 14 && r[13..|r| - 1] == url.value
    ensures Truthy(url) ==> r[..13] == "[Background](" && r[|r| - 1] == ')'
  {
    if Truthy(url) then
      var link := "[Background](" + url.value + ")";
      assert link[0] != NoBackground[0];
      assert link[13..13 + |url.value|] == url.value;
      link
    else NoBackground
  }

  /** The Context(s) field's value: the contexts one per line, or the sentinel. */
  function ContextsText(contexts: seq<string>): (r: string)
    ensures r == NoContext <==> contexts == [] || contexts == [NoContext]
    ensures contexts != [] && (forall i :: 0 <= i < |contexts| ==> '\n' !in contexts[i]) ==> Split(r, '\n') == contexts
  {
    if contexts == [] then NoContext
    else
      var text := Join(contexts, "\n");
      assert |contexts| >= 2 ==> text != NoContext by {
        if |contexts| >= 2 {
          JoinHasSeparator(contexts, '\n');
          assert '\n' !in NoContext;
        }
      }
      assert (forall i :: 0 <= i < |contexts| ==> '\n' !in contexts[i]) ==> Split(text, '\n') == contexts by {
        if forall i :: 0 <= i < |contexts| ==> '\n' !in contexts[i] {
          SplitJoin(contexts, '\n');
        }
      }
      text
  }

  /** Position of a kind of field in the one order every message follows. */
  function Position(k: FieldKind): nat {
    match k
    case DisplayName => 0
    case SectionId => 1
    case Category => 2
    case Background => 3
    case GroupCount => 4
    case Billboard => 5
    case Contexts => 6
    case ReleaseDates => 7
  }

  /** The kinds of the first row: Display Name, Section ID, then Category or else Background. */
  function FirstRowKinds(hasCategory: bool): seq<FieldKind> {
    [DisplayName, SectionId] + (if hasCategory then [Category] else [Background])
  }

  /** The kinds of the second row: Background after a Category, Group Count, then Billboard if any. */
  function SecondRowKinds(hasCategory: bool, hasBillboard: bool): seq<FieldKind> {
    (if hasCategory then [Background] else []) + [GroupCount] + (if hasBillboard then [Billboard] else [])
  }

  /** The kinds of a message's fields, row by row. */
  function Layout(hasCategory: bool, hasBillboard: bool): seq<FieldKind> {
    FirstRowKinds(hasCategory) + SecondRowKinds(hasCategory, hasBillboard) + [Contexts, ReleaseDates]
  }

  /**
   * Every kind except Category (present only with a truthy category) and Billboard
   * (present only with a positive count) appears exactly once, in the canonical
   * order; the third field is Category when there is one and Background otherwise.
   */
  lemma LayoutContract(hasCategory: bool, hasBillboard: bool)
    ensures var kinds := Layout(hasCategory, hasBillboard);
      && |kinds| == 6 + (if hasCategory then 1 else 0) + (if hasBillboard then 1 else 0)
      && (forall i, j :: 0 <= i < j < |kinds| ==> Position(kinds[i]) < Position(kinds[j]))
      && (forall k :: k in kinds <==> (k == Category ==> hasCategory) && (k == Billboard ==> hasBillboard))
      && kinds[2] == (if hasCategory then Category else Background)
  {
    var kinds := Layout(hasCategory, hasBillboard);
    forall k ensures k in kinds <==> (k == Category ==> hasCategory) && (k == Billboard ==> hasBillboard) {
      match k
      case DisplayName => assert kinds[0] == k;
      case SectionId => assert kinds[1] == k;
      case Category => if hasCategory { assert kinds[2] == k; }
      case Background => if hasCategory { assert kinds[3] == k; } else { assert kinds[2] == k; }
      case GroupCount => if hasCategory { assert kinds[4] == k; } else { assert kinds[3] == k; }
      case Billboard => if hasBillboard { assert kinds[if hasCategory then 5 else 4] == k; }
      case Contexts => assert kinds[|kinds| - 2] == k;
      case ReleaseDates => assert kinds[|kinds| - 1] == k;
    }
  }

  /** What the field of a given kind shows for a section. */
  function FieldValue(k: FieldKind, s: RawSection, n: NormalizedSection, datesText: string): string {
    match k
    case DisplayName => s.displayName.GetOr(Missing)
    case SectionId => s.sectionId.GetOr(Missing)
    case Category => s.category.GetOr("")
    case Background => BackgroundText(s.customTexture)
    case GroupCount => IntToString(n.groupCount)
    case Billboard => IntToString(n.billboard)
    case Contexts => ContextsText(n.contexts)
    case ReleaseDates => datesText
  }

  /** The field of a given kind for a section; only Context(s) and Possible Release Dates are not inline. */
  function MakeField(k: FieldKind, s: RawSection, n: NormalizedSection, datesText: string): Field {
    Field(k, FieldValue(k, s, n, datesText), k != Contexts && k != ReleaseDates)
  }

  /** `fields` holds, position by position, the field of each kind in `kinds`. */
  predicate FieldsFor(fields: seq<Field>, kinds: seq<FieldKind>, s: RawSection, n: NormalizedSection, datesText: string) {
    |fields| == |kinds| && forall i :: 0 <= i < |fields| ==> fields[i] == MakeField(kinds[i], s, n, datesText)
  }

  lemma FieldsForAppend(a: seq<Field>, ka: seq<FieldKind>, b: seq<Field>, kb: seq<FieldKind>,
                        s: RawSection, n: NormalizedSection, datesText: string)
    requires FieldsFor(a, ka, s, n, datesText) && FieldsFor(b, kb, s, n, datesText)
    ensures FieldsFor(a + b, ka + kb, s, n, datesText)
  {
  }

  /** `fields` is the message for section `s` with record `n`: one field per kind of `Layout`, in order. */
  predicate IsEmbedFor(fields: seq<Field>, s: RawSection, n: NormalizedSection, datesText: string) {
    FieldsFor(fields, Layout(Truthy(s.category), n.billboard > 0), s, n, datesText)
  }

  /** The names of a message's fields are pairwise distinct, in the canonical order. */
  lemma EmbedNamesDistinct(fields: seq<Field>, s: RawSection, n: NormalizedSection, datesText: string)
    requires IsEmbedFor(fields, s, n, datesText)
    ensures forall i, j :: 0 <= i < j < |fields| ==> fields[i].Name() != fields[j].Name()
  {
    var kinds := Layout(Truthy(s.category), n.billboard > 0);
    LayoutContract(Truthy(s.category), n.billboard > 0);
    forall i, j | 0 <= i < j < |fields| ensures fields[i].Name() != fields[j].Name() {
      assert fields[i].kind == kinds[i] && fields[j].kind == kinds[j];
      TitleInjective(kinds[i], kinds[j]);
    }
  }

  /**
   * The first row of the message: Display Name, Section ID, then Category when the
   * category is truthy and Background otherwise.
   */
  method FirstRow(s: RawSection, n: NormalizedSection, backgroundText: string, ghost datesText: string)
    returns (row: seq<Field>)
    requires backgroundText == BackgroundText(s.customTexture)
    ensures FieldsFor(row, FirstRowKinds(Truthy(s.category)), s, n, datesText)
  {
    var third := if Truthy(s.category) then Field(Category, s.category.value, true) else Field(Background, backgroundText, true);
    row := [Field(DisplayName, s.displayName.GetOr(Missing), true), Field(SectionId, s.sectionId.GetOr(Missing), true), third];
    ghost var kinds := FirstRowKinds(Truthy(s.category));
    assert row[2] == MakeField(kinds[2], s, n, datesText);
  }

  /**
   * The second row of the message: Background (only when the first row showed the
   * category), Group Count, and Billboard (only for a positive count).
   */
  method SecondRow(s: RawSection, n: NormalizedSection, backgroundText: string, ghost datesText: string)
    returns (row: seq<Field>)
    requires backgroundText == BackgroundText(s.customTexture)
    ensures FieldsFor(row, SecondRowKinds(Truthy(s.category), n.billboard > 0), s, n, datesText)
  {
    row := [];
    ghost var kinds := [];
    if Truthy(s.category) {
      row, kinds := [Field(Background, backgroundText, true)], [Background];
    }
    var groupCount := [Field(GroupCount, IntToString(n.groupCount), true)];
    FieldsForAppend(row, kinds, groupCount, [GroupCount], s, n, datesText);
    row, kinds := row + groupCount, kinds + [GroupCount];
    if n.billboard > 0 {
      var billboard := [Field(Billboard, IntToString(n.billboard), true)];
      FieldsForAppend(row, kinds, billboard, [Billboard], s, n, datesText);
      row, kinds := row + billboard, kinds + [Billboard];
    }
  }

  /** Assembles the message from the already rendered field values, row by row. */
  method AssembleFields(s: RawSection, n: NormalizedSection, backgroundText: string, contextsText: string, datesText: string)
    returns (fields: seq<Field>)
    requires backgroundText == BackgroundText(s.customTexture)
    requires contextsText == ContextsText(n.contexts)
    ensures IsEmbedFor(fields, s, n, datesText)
  {
    ghost var kinds := FirstRowKinds(Truthy(s.category));
    ghost var secondKinds := SecondRowKinds(Truthy(s.category), n.billboard > 0);
    var firstRow := FirstRow(s, n, backgroundText, datesText);
    var secondRow := SecondRow(s, n, backgroundText, datesText);
    FieldsForAppend(firstRow, kinds, secondRow, secondKinds, s, n, datesText);
    fields, kinds := firstRow + secondRow, kinds + secondKinds;

    var lastRows := [Field(Contexts, contextsText, false), Field(ReleaseDates, datesText, false)];
    FieldsForAppend(fields, kinds, lastRows, [Contexts, ReleaseDates], s, n, datesText);
    fields, kinds := fields + lastRows, kinds + [Contexts, ReleaseDates];
  }

  /** Builds the message for a new or updated section; None when a release date fails to parse. */
  method CreateEmbed(s: RawSection, n: NormalizedSection, epochOf: string -> Option<int>) returns (embed: Option<seq<Field>>)
    ensures embed.None? <==> RenderDates(n.releaseDates, epochOf).None?
    ensures embed.Some? ==> IsEmbedFor(embed.value, s, n, RenderDates(n.releaseDates, epochOf).value)
  {
    var backgroundText := BackgroundText(s.customTexture);
    var contextsText := ContextsText(n.contexts);
    var datesText := RenderDates(n.releaseDates, epochOf);
    if datesText.None? {
      return None;
    }
    var fields := AssembleFields(s, n, backgroundText, contextsText, datesText.value);
    embed := Some(fields);
  }
}
