# Shop-Sections-Tracker, modelled in Dafny

The tracker polls a game-shop catalogue. On each cycle it turns every shop section into a
canonical record: display name, category, background, group count, billboard count,
sorted unique contexts and sorted release dates. It compares that record with the
snapshot saved by the previous cycle, ignoring release dates, and posts one chat
message for each new or changed section. It saves the new snapshot when the whole
mapping differs, release dates included.

This project models that core and proves the properties it relies on:

- `strings.dfy` (module `Strings`): Python's string order (`<` on `str`), `"\n".join`
  and its inverse split, and `str()` on integers.
- `sorting.dfy` (module `Sorting`): `sorted(xs)` and `sorted(set(xs))`. It proves they
  are sorted, keep the right elements, and are the only such lists.
- `shop.dfy` (module `Shop`): the raw section, its canonical record, the stored
  dictionary form, and the per-section change test.
- `embed.dfy` (module `Embed`): `create_embed_for_section` as a method that builds the
  field list append by append, and proves it against a layout specification.
- `snapshot.dfy` (module `Snapshot`): the dictionary built key by key, and the two
  stand-alone helpers.
  - `normalize_data` is a class whose method normalises its mapping in place.
  - `count_billboards` is a loop filling a dictionary.
- `cycle.dfy` (module `Cycle`): the body of `process_shop_data` after the fetch, as a
  method with a loop. It is proved against the new mapping, the list of reported
  sections and the message for each one.

How Python's data is represented:

- A JSON key that may be missing is an `Option`; Python's truthiness of such a value
  is `Truthy` (None or "" is false).
- A stored record is a `map<string, Value>`.
- Parsing a release date and converting it to Unix seconds is a parameter
  `epochOf: string -> Option<int>`. `None` stands for a date on which parsing
  (`datetime.fromisoformat`) or conversion (`dt.timestamp()`) raises.

## Model

| member | source | states |
|---|---|---|
| Strings.Less | main.py:154-155 | reference definition of Python's `<` on `str` (code-point lexicographic order), the comparison behind `sorted`; its order laws are the next six rows |
| Strings.LessIrreflexive | main.py:154-155 | no string is below itself under Python's string order |
| Strings.LessTransitive | main.py:154-155 | Python's string order is transitive |
| Strings.LessTotal | main.py:154-155 | any two distinct strings are ordered one way or the other |
| Strings.LessAsymmetric | main.py:154-155 | two strings are never each below the other |
| Strings.LessEqTransitive | main.py:154-155 | the non-strict order is transitive |
| Strings.LessEqAntisymmetric | main.py:154-155 | strings below each other in the non-strict order are equal |
| Strings.Join | main.py:69-72 | reference definition of `"\n".join`, characterised by `Strings.SplitJoin`, `Strings.JoinHead` and `Strings.JoinHasSeparator` |
| Strings.Split | main.py:69-72 | the inverse of the join (the source only joins): splitting at a character always yields at least one part |
| Strings.SplitJoin | main.py:69-72 | joining parts free of the separator with it, then splitting at it, gives the parts back |
| Strings.JoinHead | main.py:69-72 | a joined text starts with the first character of its first part |
| Strings.JoinHasSeparator | main.py:69 | joining two or more parts puts the separator into the text |
| Strings.NatToString | main.py:88 | `str(n)` of a natural number is a non-empty string of digits without a leading zero |
| Strings.IntToString | main.py:41 | `str(i)` is non-empty and starts with '-' exactly when i is negative |
| Strings.ParseNatToString | main.py:88 | reading the decimal text of `str(n)` gives n back |
| Sorting.Insert | main.py:155 | inserting adds exactly one copy of the element |
| Sorting.InsertSorted | main.py:155 | insertion into a sorted list keeps it sorted |
| Sorting.Sort | main.py:155 | `sorted(xs)` is non-decreasing and a permutation of xs (same multiset) |
| Sorting.InsertUnique | main.py:154 | the result holds the inserted element and the old ones, and nothing else |
| Sorting.InsertUniqueStrictlySorted | main.py:154 | inserting into a strictly increasing list keeps it strictly increasing |
| Sorting.SortUnique | main.py:154 | `sorted(set(xs))` is strictly increasing and holds exactly the elements of xs |
| Sorting.StrictlySortedUnique | main.py:154 | two strictly increasing lists with the same elements are equal, so the result does not depend on the algorithm |
| Sorting.SortedHeadIsLeast | main.py:155 | the head of a sorted list is below or equal to each of its elements |
| Sorting.TailMultiset | main.py:155 | dropping the head of a list removes exactly one copy of it |
| Sorting.SortedUnique | main.py:155 | two sorted lists with the same multiset are equal, so the result does not depend on the algorithm |
| Sorting.SortOfSorted | main.py:107 | sorting a sorted list changes nothing |
| Sorting.SortUniqueOfStrictlySorted | main.py:105 | deduplicating and sorting a strictly increasing list changes nothing |
| Shop.SectionKey | main.py:142 | reference definition of the snapshot key `section.get("sectionID", "N/A")` (also the Section ID value at main.py:65); `Cycle.NewSnapshotKeys` characterises the keys it yields |
| Shop.BillboardCount | main.py:153 | the billboard count is at most the group count, and zero exactly when no group has displayType "billboard" |
| Shop.ContextOf | main.py:154 | reference definition of `rank.get("context", "Unknown")`; `Shop.RankContexts` and `Shop.Normalize` state the contexts in its terms |
| Shop.RankContexts | main.py:154 | one context per stack rank, in order, with a missing context read as "Unknown" |
| Shop.RankDates | main.py:155 | a date is kept if and only if it is non-empty and is the `startDate` of some rank |
| Shop.RankDatesCount | main.py:155 | exactly one date is kept per rank with a non-empty `startDate` |
| Shop.RankDatesCountFrom | main.py:155 | the same count, from any rank position on |
| Shop.Normalize | main.py:142-156 | the canonical record's contents: display name or "N/A"; category only when truthy; background URL or "No Background"; group count = number of offer groups; billboard = number of billboard groups, at most the group count; contexts strictly increasing and equal as a set to the ranks' contexts ("Unknown" when missing); release dates sorted, a permutation of the non-empty start dates, none empty |
| Shop.ToRecord | main.py:148-156 | the stored dictionary has exactly the seven keys the tracker writes |
| Shop.ToRecordInjective | main.py:148-158 | two canonical records have the same stored dictionary if and only if they are equal |
| Shop.WithoutDates | main.py:162-163 | dropping `release_dates` removes only that key and keeps every other value |
| Shop.Changed | main.py:161-165 | reference definition of the comparison: the previous entry (or `{}`) and the new record differ once `release_dates` is dropped from both; characterised by `Shop.ChangedIff` and `Shop.AbsentEntryChanged` |
| Shop.AbsentEntryChanged | main.py:161-165 | a section with no previous entry (read as `{}`) is always reported |
| Shop.ChangedIff | main.py:160-165 | against a previous record, a section is reported if and only if some field other than the release dates differs |
| Shop.DatesNeverNotify | main.py:160-165 | records that differ only in release dates never cause a report |
| Embed.Title | main.py:75-97 | reference definition of the eight field names; `Embed.KindOfTitleOfTitle` and `Embed.TitleInjective` show each name identifies its kind |
| Embed.KindOfTitleOfTitle | main.py:74-97 | every field name gives its field kind back |
| Embed.TitleInjective | main.py:74-97 | distinct field kinds have distinct field names |
| Embed.DiscordTimestamp | main.py:39-41 | the marker is `<t:` + `str(unix_ts)` + `:R>` (the decimal text `Strings.IntToString`, read back by `Strings.ParseNatToString`) and contains no line break |
| Embed.Stamps | main.py:70-72 | fails exactly when a non-empty date does not parse; otherwise every marker is non-empty, starts with '<' and has no line break |
| Embed.StampsOneEach | main.py:70-72 | without empty dates, there is exactly one marker per date, in order, for that date's Unix time |
| Embed.StampsText | main.py:70-72 | the joined markers never equal "No Release Dates", and, for a non-empty list of markers, splitting them at line breaks gives the markers back |
| Embed.RenderDates | main.py:70-72 | "No Release Dates" exactly for an empty list; fails exactly when a non-empty date does not parse; otherwise the text splits at line breaks back into one marker per date |
| Embed.BackgroundText | main.py:68 | "No Background" if and only if the texture is missing or empty; otherwise exactly `[Background](` + URL + `)` |
| Embed.ContextsText | main.py:69 | "No Context" if and only if the list is empty or is just ["No Context"]; otherwise the text splits back into the contexts |
| Embed.FirstRowKinds | main.py:74-82 | reference definition of the first row's kinds; `Embed.FirstRow` builds it and `Embed.LayoutContract` characterises the whole layout |
| Embed.SecondRowKinds | main.py:84-92 | reference definition of the second row's kinds; `Embed.SecondRow` builds it and `Embed.LayoutContract` characterises the whole layout |
| Embed.Layout | main.py:74-97 | reference definition of the message's field kinds, row by row; characterised by `Embed.LayoutContract` |
| Embed.LayoutContract | main.py:74-97 | 6 fields, plus one for a truthy category and one for a positive billboard count; kinds strictly in the order Display Name, Section ID, Category, Background, Group Count, Billboard, Context(s), Possible Release Dates; each kind present except Category and Billboard under those conditions; the third field is Category or else Background |
| Embed.EmbedNamesDistinct | main.py:74-97 | the field names of every message are pairwise distinct |
| Embed.FieldValue | main.py:64-92 | reference definition of each field's value: name or ID ("N/A" when missing), category, background text, `str()` of the counts, contexts text, dates text; `Embed.FirstRow`, `Embed.SecondRow` and `Embed.CreateEmbed` are proved against it |
| Embed.MakeField | main.py:75-97 | reference definition of a field: its kind, its `Embed.FieldValue` and `inline` false only for Context(s) and Possible Release Dates; `Embed.CreateEmbed` is proved against it |
| Embed.FieldsForAppend | main.py:85-97 | appending field lists appends their layouts |
| Embed.FirstRow | main.py:74-82 | the first row is Display Name, Section ID, then Category when the category is truthy and Background otherwise, each with its value ("N/A" for a missing name or ID) |
| Embed.SecondRow | main.py:84-92 | the second row is Background (only with a truthy category), Group Count, then Billboard (only when positive), each with its value |
| Embed.AssembleFields | main.py:74-97 | the assembled rows are exactly the layout's fields, in order, with their values |
| Embed.CreateEmbed | main.py:60-99 | fails exactly when the release dates fail to render; otherwise every field of the layout is present, in order, with its value and inline flag |
| Snapshot.IndexBy | main.py:115-119 | reference definition of a dictionary filled item by item, later keys overwriting (also line 158); characterised by `Snapshot.IndexByKeys` and `Snapshot.IndexByLast` |
| Snapshot.IndexByKeys | main.py:115-119 | a dictionary filled item by item has exactly the items' keys |
| Snapshot.IndexByLast | main.py:115-119 | each key holds the value of the last item with that key |
| Snapshot.LastWithKeyExists | main.py:115-119 | every key that occurs has a last item carrying it |
| Snapshot.NormalizeRecord | main.py:103-107 | same keys; only `contexts` and `release_dates` change, and only when present; contexts become strictly increasing with the same elements; dates become sorted with the same multiset |
| Snapshot.NormalizeRecordIdempotent | main.py:102-108 | normalising a record twice equals normalising it once |
| Snapshot.NormalizeRecordOfStored | main.py:102-108 | normalising leaves every record the tracker itself writes unchanged |
| Snapshot.NormalizeSnapshot | main.py:102-108 | normalising a mapping keeps its keys and its record shapes |
| Snapshot.NormalizeSnapshotIdempotent | main.py:102-108 | `normalize_data` is idempotent |
| Snapshot.SnapshotData.NormalizeData | main.py:102-108 | the in-place loop leaves the mapping equal to the normalised old mapping |
| Snapshot.BillboardCounts | main.py:111-121 | reference definition of `count_billboards`' result, the last-wins dictionary from the raw `sectionID` to the billboard count; `Snapshot.CountBillboards` computes it and `Cycle.BillboardsAgree` relates it to the new mapping |
| Snapshot.CountBillboards | main.py:111-121 | the loop computes exactly the billboard-count dictionary; its keys are the sections' IDs (None when missing); each ID holds the billboard count of the last section with that ID, at most that section's group count |
| Cycle.Lookup | main.py:161 | reference definition of `old_data.get(section_id)`, absent as None; `Shop.AbsentEntryChanged` reads None as `{}` |
| Cycle.RecordOf | main.py:148-158 | reference definition of the record stored for a section; `Shop.Normalize` and `Shop.ToRecord` state its contents |
| Cycle.Notifies | main.py:160-165 | reference definition of the per-section decision; characterised by `Cycle.NotifiesAgainst`, `Shop.ChangedIff` and `Shop.AbsentEntryChanged` |
| Cycle.Notified | main.py:165-168 | reference definition of the reported sections in fetch order; characterised by `Cycle.FilterMembers`, `Cycle.FilterAll` and `Cycle.NotifiedSnoc` |
| Cycle.FilterMembers | main.py:165-167 | the reported list holds exactly the changed sections and is empty exactly when none changed |
| Cycle.FilterKeepsAll | main.py:165-167 | a property of every reported item holds for every changed section |
| Cycle.FilterAll | main.py:165-167 | when every section changes, all are reported in fetch order |
| Cycle.MessagesForAppend | main.py:166-167 | adding a message for a newly reported section keeps messages and sections paired |
| Cycle.NotifiedSnoc | main.py:141-167 | one more fetched section adds it to the reported list exactly when it changed |
| Cycle.NewSnapshotSnoc | main.py:141-158 | one more fetched section sets its key in the new mapping to its record |
| Cycle.ReportedRender | main.py:165-167 | if every reported section has its message, every changed section has dates that render |
| Cycle.VisitSection | main.py:142-167 | one pass of the loop yields the section's stored record; it reports the section exactly when it changed; a reported section gets its message exactly when its dates render |
| Cycle.ProcessCycle | main.py:141-177 | aborts (nothing sent, nothing saved) exactly when some changed section has a date that does not parse; otherwise returns the new mapping, the message for each reported section in fetch order, and save = the old mapping differs from the new one, release dates included |
| Cycle.EmptySnapshotNotifiesAll | main.py:161-167 | against an empty previous snapshot (first run, missing or corrupt file) every section is reported, in fetch order |
| Cycle.NewSnapshot | main.py:142-158 | reference definition of the new mapping, each section's record stored under its key in fetch order; characterised by `Cycle.NewSnapshotKeys` and `Cycle.NewSnapshotEntry` |
| Cycle.NewSnapshotKeys | main.py:142-158 | the new mapping's keys are exactly the section keys ("N/A" for a missing ID), and the last section with a key supplies its record |
| Cycle.NewSnapshotEntry | main.py:142-158 | each entry of the new mapping is the record of the last section with that key |
| Cycle.LastOccurrenceQuiet | main.py:158-166 | against the mapping it built, the last section with each key is not reported again |
| Cycle.SteadyState | main.py:141-177 | with distinct section keys, a second cycle on the same fetch reports nothing |
| Cycle.NotifiesAgainst | main.py:161-165 | a section whose key holds another section's record is reported if and only if the two records differ outside the release dates |
| Cycle.FilterPair | main.py:165-167 | of two sections, only the first is reported when only the first changed |
| Cycle.DuplicateKeysRenotify | main.py:158-166 | for any two sections sharing an ID whose records differ outside the release dates, the earlier one is reported again, and the later one is not, even against the mapping the same fetch produced |
| Cycle.BillboardsAgree | main.py:111-121 | `count_billboards` and the new mapping agree on every ID other than "N/A": the same IDs are present and carry the same billboard count |
| Cycle.NormalizeSnapshotOfNew | main.py:102-108 | `normalize_data` leaves every mapping the cycle builds unchanged |

## Behaviour worth knowing

These are properties of the program as written, not defects claimed against it:

- Sections that share a `sectionID` overwrite each other in the new mapping. Only the
  last one is stored, so the earlier ones are compared with it, and if their records
  differ outside the release dates they are reported on every cycle (`Cycle.DuplicateKeysRenotify`).
- A section without a `sectionID` is stored under "N/A". It shares that key with a
  section whose ID is literally "N/A". `count_billboards` keys it None instead, which
  is why `Cycle.BillboardsAgree` excludes "N/A".
- The Context(s) field reads "No Context" in two cases: when there are no contexts,
  and when the only context is the literal "No Context" (`Embed.ContextsText`).
- `normalize_data` and `count_billboards` are defined but never called by the cycle.
  They are modelled on their own, and `Cycle.NormalizeSnapshotOfNew` and
  `Cycle.BillboardsAgree` relate them to it.

## Left out

- The HTTP fetch, its status check and JSON decoding (main.py:127-134, 179-182) are
  network I/O. The model starts from the fetched list of sections. Reading
  `shopData.sections` out of the response body is not modelled.
- Sending to the webhook, the request envelope, the one-second sleep and
  `asyncio.gather` (main.py:44-57, 170-171) are network I/O and timing. The messages
  are returned in order; all of them are sent after the loop.
- `read_old_data` and `save_data` (main.py:21-36) are file I/O. The previous snapshot
  is an input, and saving is the `save` flag. A missing or corrupt file reads as the
  empty mapping; `Cycle.EmptySnapshotNotifiesAll` covers that case.
- `datetime.fromisoformat`, `dt.timestamp()` and the truncation to whole seconds
  (main.py:39-41, 71) are library date arithmetic, represented by the parameter
  `epochOf`.
  - A date that raises makes the exception escape to the catch-all at main.py:183-184.
    The model then returns `Aborted`: no message is sent, because sending happens only
    after the loop, and nothing is saved.
- Logging and the other exception handlers (main.py:179-184) have no effect on data.
- JSON `null` stored under a key that is present is not modelled. This covers
  `"displayName": null`, `"metadata": null`, `"background": null` and a null
  `displayType`. A missing key is modelled as `None`.
- Values of other JSON types are not modelled; IDs, names, categories, contexts and
  dates are strings.
- `count_billboards` takes the section list directly; reading `data.get("sections")`
  from the dictionary is not modelled.
- Snapshot.NormalizeRecord: it requires `contexts` and `release_dates`, when present,
  to be lists of strings. Those are the shapes the tracker writes; a hand-edited file
  with other shapes is not modelled.
- Snapshot.NormalizeSnapshot: it requires the same list shapes of every record.
- Snapshot.NormalizeSnapshotIdempotent: it requires the same list shapes of every record.
- Snapshot.SnapshotData.NormalizeData: it requires the same list shapes of every record
  in the mapping it normalises.
- Embed.StampsOneEach: the one-marker-per-date correspondence is stated only for lists
  with no empty date. Those are the only lists the cycle passes, because normalised
  dates are never empty.
- Embed.RenderDates: the same restriction as `Embed.StampsOneEach` applies to the round trip
  through splitting.
- Embed.ContextsText: the round trip through splitting is stated only when no context
  contains a line break.
