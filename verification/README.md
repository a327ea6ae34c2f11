# VK community tool — a verified model of its reconciliation core

The tool copies a source account's VK communities to the user's own account.
It collects the source's open communities into a groups file and its closed or
deactivated ones into a text file. It then subscribes the user to one
1000-record block of the groups file at a time. The subscription set is
cached on disk so that communities already joined are skipped.

This project models the deterministic logic under the API calls. The VK
service is replaced by the sequence of answers it gives:

- `Paging` holds the two pagination loops. `Collect` is the loop of
  `get_all_groups` and `get_closed`, which stops after three consecutive empty
  pages or at an exception. `Subscriptions` is the loop of `get_current_subs`,
  which stops at the first short page or at an exception. The remote is a
  finite sequence of page responses indexed by call number. A call past its
  end gets an empty page.
- `Directory` holds the three collections built on those loops: open groups,
  closed-community lines and subscribed ids.
- `Groups` holds the entry and record types and the canonical id `abs(id)`.
  It also holds the open/closed predicates and the text the tool writes: the
  default name `id{id}`, the public/club link, the closed line
  `name — url` and the failure line `name (id N)`. Each line has a reader, and
  a round-trip lemma shows the line determines what it was made from.
- `Join` holds `join_groups` as a fold over the block. Join replies are
  consumed one per attempted group.
- `Cache` holds `load_cache` and `save_cache` over the id array the cache
  file holds.
- `Blocks` holds the block count and block slicing of the subscribe menu
  item.
- `Decimal` renders and parses integers the way the f-strings do. `Options`
  holds `Option` and `Result`.

Points where the code's behaviour is easy to misread:

- After a successful join the code does not sleep; only failures pause, twice
  the delay after a `VkApiError` and three times after any other error.
- The "already in this community" error also pauses twice the delay.
- An entry whose `is_closed` is missing and whose `deactivated` is missing or
  empty is in neither list. The open test defaults a missing `is_closed` to 1
  and the closed test defaults it to 0, so the two lists do not cover every
  entry.
- A malformed cache file is not a separate error here: the code lets the JSON
  exception escape, and JSON decoding is not modelled.

## Model

| member | source | states |
|---|---|---|
| Decimal.NatToString | vk_community_tool.py:142 | the rendering of `{gid}`: non-empty, all digits, with a leading zero only for 0; Decimal.ParseNatToString carries its inverse |
| Decimal.ParseNatToString | vk_community_tool.py:142 | the decimal text of a non-negative id parses back to that id, so `{gid}` loses nothing |
| Decimal.IntToString | vk_community_tool.py:89 | the rendering of `{id}`: non-empty, starting with a minus sign exactly for a negative id; ParseIntToString and IntToStringInjective show it loses nothing |
| Decimal.ParseIntToString | vk_community_tool.py:89 | the decimal text of a signed id, minus sign included, parses back to that id |
| Decimal.IntToStringInjective | vk_community_tool.py:89 | two ids render to the same text only if they are equal |
| Groups.Canon | vk_community_tool.py:128 | the canonical id is the id or its negation, and is non-negative |
| Groups.CanonSign | vk_community_tool.py:128 | an id and its negation have the same canonical id (-500 and 500 are one membership) |
| Groups.IsOpen | vk_community_tool.py:91 | the open test `not g.get("is_closed", 1) and not g.get("deactivated")`; its contract is carried by Groups.Classification and Directory.OpenGroupsMembers |
| Groups.IsClosed | vk_community_tool.py:189 | the closed test `g.get("is_closed", 0) or g.get("deactivated")`; its contract is carried by Groups.Classification and Directory.ClosedLinesMembers |
| Groups.Classification | vk_community_tool.py:91 | open iff `is_closed` is present and zero and there is no deactivation reason; closed iff `is_closed` is non-zero or there is a reason; never both; neither iff `is_closed` is missing and `deactivated` is missing or empty |
| Groups.DefaultName | vk_community_tool.py:89 | the default name begins with "id" and has more after it; DefaultNameRoundTrip shows the rest is the id |
| Groups.DefaultNameRoundTrip | vk_community_tool.py:190 | the id can be read back from a default name, sign included |
| Groups.NameOf | vk_community_tool.py:89 | the entry's name, or the default `id{id}` when it has none; Groups.ClosedLineRoundTrip and Groups.DefaultNameRoundTrip carry its contract |
| Groups.ToGroup | vk_community_tool.py:87-90 | the `{id, name}` record of an entry; Directory.OpenGroupsMembers carries its contract (the record of an entry is listed iff the entry is open) |
| Groups.Url | vk_community_tool.py:191 | the link is a public-page link exactly when the id is positive and a club link otherwise |
| Groups.UrlRoundTrip | vk_community_tool.py:191 | the signed id can be read back from the link: public{id} for a positive id, club{abs(id)} otherwise |
| Groups.UrlInjective | vk_community_tool.py:191 | distinct ids get distinct links |
| Groups.ClosedLine | vk_community_tool.py:190-192 | the closed line `name — url`; Groups.ClosedLineParts and Groups.ClosedLineRoundTrip carry its contract |
| Groups.FailureLine | vk_community_tool.py:142-147 | the failure line `name (id gid)`; Groups.FailureLineRoundTrip carries its contract |
| Groups.SplitDigits | vk_community_tool.py:191 | a text ending in a non-digit followed by a digit string has exactly that string as its trailing run of digits, so the digits of an id are found after the link prefix |
| Groups.ParseAssembled | vk_community_tool.py:190-192 | a line made of a name, the separator, a public or club prefix and a digit string reads back as the name and the number, negated after the club prefix |
| Groups.ClosedLineParts | vk_community_tool.py:190-192 | proof helper unfolding Groups.ClosedLine: a closed line is the name, the separator, the prefix chosen by the id's sign and the digits of abs(id) |
| Groups.ClosedLineRoundTrip | vk_community_tool.py:190-192 | a closed line splits back into the entry's name, with the default when it has none, and its signed id |
| Groups.FailureLineRoundTrip | vk_community_tool.py:142 | a failure line splits back into the group's name and canonical id |
| Paging.CollectFrom | vk_community_tool.py:69-97 | the paging loop of `get_all_groups` and `get_closed` from a given call on; each turn makes one request, so the request list grows. Paging.CollectOffsets, Paging.CollectItems and Paging.CollectStops carry the rest of its contract |
| Paging.CollectOffsets | vk_community_tool.py:79-93 | from any call on, the loop keeps the k-th request at offset 1000*k, after empty and non-empty pages alike |
| Paging.CollectItems | vk_community_tool.py:84-92 | from any call on, the items collected are those of every response received, in order; empty pages add nothing |
| Paging.CollectStops | vk_community_tool.py:79-97 | from any call on, the loop ends at the first call that raises or completes three consecutive empty pages, and at no earlier call |
| Paging.Collect | vk_community_tool.py:67-97 | the k-th request goes to offset 1000*k, after empty and non-empty pages alike; the result holds the items of every page received, in order; the loop stops at the first exception or at the first third consecutive empty page, and at no earlier call |
| Paging.ThirdEmptyRun | vk_community_tool.py:79-85 | on an empty page the counter reaches three exactly when the two previous pages were empty too, because a non-empty page resets it |
| Paging.TwoEmptyPagesThenData | vk_community_tool.py:79-85 | empty pages at offsets 0 and 1000 followed by data at 2000 do not stop the collection, and the data is kept |
| Paging.ThreeEmptyPagesStop | vk_community_tool.py:79-84 | empty pages at offsets 0, 1000 and 2000 stop the collection after three requests with nothing collected |
| Paging.FaultKeepsPartial | vk_community_tool.py:95-97 | an exception ends the collection and keeps everything received before it |
| Paging.SubscriptionsFrom | vk_community_tool.py:107-114 | one turn of the subscription loop adds the absolute values of the page's items before testing the page length |
| Paging.Subscriptions | vk_community_tool.py:103-118 | the k-th request goes to offset 1000*k; every page before the last was full and the last was short or an exception; the ids are the absolute values of all items received, the last short page included |
| Directory.Keep | vk_community_tool.py:86-92 | the in-order filter-and-map both collection loops perform; it never yields more values than entries |
| Directory.KeepAppend | vk_community_tool.py:86-92 | filtering two runs of entries is filtering the first, then the second, so the output keeps input order and repetitions |
| Directory.KeepMembers | vk_community_tool.py:86-92 | a value is in the output iff it is the image of an entry the test keeps |
| Directory.OpenGroups | vk_community_tool.py:86-92 | the open records in input order; Directory.OpenGroupsMembers and Directory.OpenGroupsAppend carry its contract |
| Directory.OpenGroupsMembers | vk_community_tool.py:86-92 | an entry's `{id, name}` record is listed iff the entry is open |
| Directory.OpenGroupsAppend | vk_community_tool.py:86-92 | the open list of two runs of entries is the first run's list followed by the second's, so the file keeps input order and repetitions |
| Directory.ClosedLines | vk_community_tool.py:188-192 | the closed lines in input order; Directory.ClosedLinesMembers and Directory.ClosedLinesAppend carry its contract |
| Directory.ClosedLinesMembers | vk_community_tool.py:188-192 | an entry's closed line is listed iff the entry is closed or deactivated |
| Directory.ClosedLinesAppend | vk_community_tool.py:188-192 | the closed lines of two runs of entries are the first run's lines followed by the second's |
| Directory.ClassificationPartition | vk_community_tool.py:189 | open records, closed lines and unclassified entries together number exactly the entries |
| Directory.GetAllGroups | vk_community_tool.py:65-100 | the groups file holds the record of every open entry of every page collected, and nothing else |
| Directory.GetClosed | vk_community_tool.py:167-201 | the closed file holds the line of every closed or deactivated entry of every page collected, and nothing else |
| Directory.FilesByPage | vk_community_tool.py:86-92 | each response appends its open records and its closed lines after those of the earlier responses |
| Directory.GetCurrentSubs | vk_community_tool.py:103-118 | the subscription set holds the absolute value of every item received, and nothing else |
| Join.Contains | vk_community_tool.py:140 | Python's substring test `"Access denied: …" in msg`; Join.Judge carries its contract (only a message containing it goes unlogged) |
| Join.Judge | vk_community_tool.py:133-149 | only a successful call joins; every error is a failure and never a skip; only the already-member message goes unlogged; a failure pauses at least twice the delay |
| Join.JoinGroups | vk_community_tool.py:122-149 | every group gets one record; the three counters add up to the block size; there is one failure line per failure; one reply is consumed per attempted group; the set only grows |
| Join.CountersCountSteps | vk_community_tool.py:123-148 | success, failed and skipped count the joined, failed and skipped records |
| Join.FailedLinesInOrder | vk_community_tool.py:142-147 | the failure list is the failure line of each failed group, in input order |
| Join.Visit | vk_community_tool.py:127-149 | one iteration of the join loop; Join.VisitFacts carries its contract |
| Join.NextGroup | vk_community_tool.py:127-132 | proof helper: groups are handled in input order: each is judged on the state the groups before it left |
| Join.VisitFacts | vk_community_tool.py:127-149 | proof helper unfolding Join.Visit: one group appends one record; it is skipped iff its canonical id is in the set, and otherwise judged on the next reply; only a join grows the set and the success counter; only a failure adds a failure line |
| Join.PrefixSteps | vk_community_tool.py:127-149 | handling more groups keeps the records made for the earlier ones |
| Join.PrefixSubs | vk_community_tool.py:127-149 | handling more groups never shrinks the set |
| Join.StepAt | vk_community_tool.py:128-137 | group i is skipped iff its canonical id is in the set the groups before it left, and is otherwise judged on the next unused reply; the set gains its id only on a join |
| Join.SkipRule | vk_community_tool.py:128-132 | a group is skipped iff its canonical id is in the set when its turn comes |
| Join.ReplyOrder | vk_community_tool.py:133-149 | an attempted group is judged on the reply after those used by the attempts before it |
| Join.SubsMonotone | vk_community_tool.py:135 | the set after the first i groups is contained in the set after the first j >= i |
| Join.JoinedAdds | vk_community_tool.py:134-135 | a successful join puts the canonical id into the set |
| Join.SubsGained | vk_community_tool.py:134-137 | the final set is the initial set plus exactly the canonical ids of successful joins |
| Join.JoinedOnce | vk_community_tool.py:128-137 | after a successful join every later group with the same canonical id is skipped, so each id is joined at most once per block |
| Join.FailureAddsNothing | vk_community_tool.py:138-149 | a failed group leaves the set unchanged, and its canonical id is not in the set after its turn |
| Join.KeptInSet | vk_community_tool.py:128-135 | a group that was joined or skipped ends the run with its canonical id in the set |
| Join.Rerun | vk_community_tool.py:251-252 | rerunning a block with the set the first run left skips every group the first run joined or skipped |
| Join.RerunJoinsOnlyFailed | vk_community_tool.py:128-137 | in a rerun with the set the first run left, only groups that failed the first time can be joined |
| Join.RerunCount | vk_community_tool.py:251-252 | the second run joins no more groups than the first one failed |
| Join.ExampleBlock | vk_community_tool.py:127-137 | ids 1, -2 and 3 with set {2} and successful calls give joined, skipped, joined: 2 successes, 1 skip, 0 failures |
| Join.BackoffOrdering | vk_community_tool.py:144-149 | the pause after another error exceeds the pause after a declared API error, and a success joins |
| Cache.LoadCache | vk_community_tool.py:54-58 | a missing file loads as the empty set; a present one loads as the set of its ids |
| Cache.SaveCache | vk_community_tool.py:60-62 | the saved array is strictly ascending, holds exactly the set's ids and is as long as the set |
| Cache.LoadSave | vk_community_tool.py:54-62 | loading what was saved gives back the same set |
| Cache.AscendingUnique | vk_community_tool.py:62 | two strictly ascending arrays with the same ids are equal, so the saved form depends only on the set |
| Cache.SaveLoad | vk_community_tool.py:54-62 | a file in saved form is written back unchanged after a load and a save |
| Blocks.TotalBlocks | vk_community_tool.py:232 | the block count is the ceiling of n/1000 |
| Blocks.Slice | vk_community_tool.py:243 | Python slicing clamps its bounds to the list |
| Blocks.SelectBlock | vk_community_tool.py:234-243 | an index is accepted iff 0 <= b < block count; the block is the records from 1000*b on, between 1 and 1000 of them, and it is short only at the end of the list |
| Blocks.FirstBlocksPrefix | vk_community_tool.py:243 | the first k blocks laid end to end are the first 1000*k records |
| Blocks.BlocksPartition | vk_community_tool.py:232-243 | all blocks laid end to end are exactly the list |
| Blocks.BlockOfIndex | vk_community_tool.py:243 | record i is at position i mod 1000 of block i div 1000 |

## Left out

- Authorization, the `vk_api` session and every API call. They are replaced by sequences of page responses and join replies.
- A remote whose pages never end. Its responses are a finite sequence followed by empty pages, so the model of the paging loops always terminates.
- The CAPTCHA handler. It opens a browser and reads operator input.
- The run log: timestamps and appending to a file. The model records only whether a failure would be logged.
- `smart_sleep`, `time.sleep` and the elapsed time. These are floating-point wall-clock arithmetic; the model records only the pause multiplier after a failure.
- File reading and writing and JSON encoding and decoding. This includes the summary line `Total failed: X, success: Y` of the failure file; its two numbers are the `failed` and `success` counters.
- Cache contents other than integers, and a corrupt cache file. The JSON exception is not modelled.
- `is_closed` values other than integers (JSON booleans or null) and `deactivated` values other than strings.
- Malformed entries. Every modelled entry carries an integer id, and its name is a string or absent, so a failure is modelled for whole pages only (`Fault`), never part-way through one. In the code, an entry without an id raises a `KeyError` at line 88 (`"id": g["id"]`), whether or not it is open. In `get_closed` it raises at line 190 only for a closed entry, because the f-string default there is evaluated even when the entry has a name. An id that is not a number raises only at the comparison `g['id'] > 0` on line 191, again only for a closed entry; a float id does not raise. A non-numeric item raises in `map(abs, items)` at line 110. Each of these exceptions ends its loop and keeps what the same page had already added. A `name` that is present but null is written as null or "None".
- Groups-file records whose id is not a number (a string or null). `get_all_groups` writes such an entry unchanged, and `abs(group["id"])` at line 128 then raises outside any `try`. The exception leaves `main`, so line 252 never saves the cache. A float or boolean id does not raise: id 5.0 is skipped or joined like id 5, and id 5.5 is sent to `groups.join`.
- Groups-file records without a `name` field. The code reads `group["name"]` outside its `try` and would stop there; every modelled record has a name.
- The menu loop and the parsing of the block number with `int(input())`. Only the range check on the parsed index is modelled.
- The cache refresh in the subscribe operation (lines 245-249), which fetches subscriptions when the loaded cache is empty. This is orchestration around file I/O; its parts are modelled as `LoadCache`, `GetCurrentSubs` and `SaveCache`.
- Directory.GetAllGroups: its own contract states membership in both directions only. The file order is stated by Directory.FilesByPage and Directory.OpenGroupsAppend, together with Paging.Collect.
- Directory.GetClosed: its own contract states membership in both directions only. The line order is stated by Directory.FilesByPage and Directory.ClosedLinesAppend, together with Paging.Collect.
