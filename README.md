# Influencer overlap metrics

A Dafny model of the counting and grouping routines of `task3.py`. The script
compares pairs of social-media influencers through their follow records and
their engagement records.

* `calculate_fraction_of_followers` / `calculate_fraction_of_engangers`
  (`Fractions.FractionOfFollowers`, `Fractions.FractionOfEngagers`): go once
  over the records and skip those that fail the routine's filter. For each
  kept record:
  * its follower counts as *shared* when the follower id is already in the
    seen set, and is added to the seen set otherwise;
  * the record counts for influencer 1 when its influencer is influencer 1,
    and for influencer 2 otherwise.

  The result is `shared / min(count1, count2)`, or 0 when that minimum is 0.
  The two routines differ only in their filter. The loop they share in the
  source is modelled once, as `Fractions.CountRecords`, with the filter passed
  in.
* `create_influencer_map` (`Grouping.CreateInfluencerMap`): builds a map from
  influencer id to its list of follower ids. The first record of an
  influencer inserts the key with an empty list and does not append its
  follower.
* `get_overlap` (`Overlap.GetOverlap`, with one method per nested loop):
  * for every pair of keys i < j in insertion order, each follower of list i
    that also occurs in list j, repeats included, is converted to an integer
    and appended;
  * the conversion fails on an id that is not a decimal number.

Each loop of the source is a method with loop invariants (the two calculators
share `CountRecords` and add no loop of their own). These methods are proved
against pure specification functions:

* `Kept` (the records that pass a filter);
* `Repeats`, `Elements` and `Occurrences`;
* `FirstAppearances` and `FollowersOf`;
* `Common`, `RowOverlap` and `OverlapIds`.

Lemmas then prove the promised properties about those functions.

Representation choices:

* Ids are strings. The map is a value `InfluencerMap(keys, lists)`: `keys` is
  the dictionary's insertion order, and `lists` its contents.
* Timestamps are the already-parsed `DateTime` values, ordered like `datetime`
  values. The followers routine compares only the first ten characters of the
  follow timestamp, which is `Truncate` (midnight of the same day).
* The fractions are exact `real`s.
* `int(follower)` is modelled on non-empty ASCII digit strings. `None` stands
  for the error raised on anything else.

Three points where the code does something other than what one would expect.
The model follows the code in each case:

* **Followers filter precedence.** Python binds `and` tighter than `or`, so
  the filter (task3.py:34) reads `date > cutoff or (influencer != i1 and
  influencer != i2)`. A follow after 2022-04-30 is skipped for every
  influencer, including the two compared ones (`FollowCountedIff`). One could
  read the precedence as letting late follows of the two influencers through,
  but the code does not do that.
* **Engagers date clause.** The clause `dt < 2022-04-22 and dt > 2022-04-30`
  (task3.py:70) can never hold, so only the influencer test filters
  (`EngagementCountedIff`).
* **Fractions above 1.** The seen set is shared by both influencers, and
  repeated `(influencer, follower)` pairs count as shared too. So a fraction
  in [0, 1] is promised only when no pair repeats (`FollowersFractionAtMostOne`,
  `EngagersFractionAtMostOne`). `RepeatedFollowerExample` gives 2.0 on
  (A, f1), (A, f1), (B, f1).

## Model

| member | source | states |
|---|---|---|
| Dates.Truncate | task3.py:34 | the `[0:10]` slice of the follow timestamp: the same day at midnight, the time of day dropped |
| Dates.TruncatedAfter | task3.py:34 | comparing the midnight of the follow day against the midnight of the cutoff is comparing the two days |
| Dates.BeforeIsStrictOrder | task3.py:70 | the timestamp order is irreflexive, transitive and total, as the `datetime` comparisons assume |
| Fractions.FollowSkipped | task3.py:34 | skips a follow whose truncated date is after the 2022-04-30 cutoff, or whose influencer is neither id (`and` binding tighter than `or`) |
| Fractions.EngagementSkipped | task3.py:70 | skips an engagement dated both before 2022-04-22 and after 2022-04-30, or whose influencer is neither id (`and` binding tighter than `or`) |
| Fractions.FollowCountedIff | task3.py:24-35 | a follow is counted exactly when its day is on or before 2022-04-30 and its influencer is influencer 1 or influencer 2 |
| Fractions.EngagementCountedIff | task3.py:58-71 | an engagement is counted exactly when its influencer is influencer 1 or influencer 2; the lower/upper-bound date clause never skips a record |
| Fractions.KeptMembers | task3.py:31-35 | the records that reach the counting part of the loop are exactly the input records that pass the filter |
| Fractions.CountRecords | task3.py:31-47 | after the loop, for the kept records: the seen set is exactly their distinct follower ids; shared counts the records whose follower was seen earlier; count1 counts the records of influencer 1; count1 + count2 is their number; shared + size of the seen set is their number (the engagers loop, task3.py:65-83, is the same) |
| Fractions.FractionOfFollowers | task3.py:23-55 | returns the fraction of the records kept by the followers filter, and it is never negative |
| Fractions.FractionOfEngagers | task3.py:57-91 | returns the fraction of the records kept by the engagers filter, and it is never negative |
| Fractions.Ratio | task3.py:49-55 | the result is non-negative, 0 when the smaller count is 0, and otherwise the number that times the smaller count gives the shared count |
| Fractions.RatioIsZero | task3.py:51-55 | the fraction is 0 exactly when the smaller count is 0 or nothing is shared |
| Fractions.RepeatsAndElements | task3.py:37-41 | repeated followers plus distinct followers equals the number of kept records |
| Fractions.CountsPartition | task3.py:43-47 | when every kept record belongs to one of the two influencers, the records not counted for influencer 1 are exactly those of influencer 2 (none when both ids are equal) |
| Fractions.FollowersSplit | task3.py:37-47 | the distinct followers of the kept records are the union of those of influencer 1 and of influencer 2 |
| Fractions.KeptDistinct | task3.py:31-35 | filtering keeps the absence of repeated (influencer, follower) pairs |
| Fractions.DistinctFollowersOf | task3.py:37-41 | without repeated pairs, no follower repeats within one influencer's records |
| Fractions.SharedAtMostLeast | task3.py:37-49 | without repeated pairs, the shared count is at most the smaller per-influencer count |
| Fractions.AtMostOne | task3.py:49-55 | without repeated pairs among records of the two influencers, the fraction is at most 1 |
| Fractions.FollowersFractionAtMostOne | task3.py:23-55 | without repeated pairs in the input, the followers fraction is at most 1 |
| Fractions.EngagersFractionAtMostOne | task3.py:57-91 | without repeated pairs in the input, the engagers fraction is at most 1 |
| Fractions.SharedFollowerExample | task3.py:23-55 | follows (A, f1), (A, f2), (B, f1) in April give 1.0 |
| Fractions.RepeatedFollowerExample | task3.py:37-55 | follows (A, f1), (A, f1), (B, f1) give 2.0, above 1 |
| Fractions.LateFollowsExample | task3.py:34-35 | follows dated after the cutoff give 0.0 |
| Grouping.FirstAppearances | task3.py:100-103 | the keys are distinct and are exactly the influencer ids of the input |
| Grouping.GroupStep | task3.py:99-103 | one record more: a known influencer's list grows by the follower; a new influencer is appended to the keys with an empty list |
| Grouping.CreateInfluencerMap | task3.py:95-105 | the keys are the distinct influencer ids, in order of first appearance; each list holds the influencer's followers in input order without the first; its length is the influencer's record count minus 1 |
| Grouping.FirstAppearancesOrdered | task3.py:97-105 | a key inserted earlier first appears earlier in the input |
| Grouping.GroupingExample | task3.py:95-105 | records (A, f1), (A, f2), (B, f3) give keys [A, B] with A: [f2] and B: [] |
| Overlap.GetOverlap | task3.py:107-120 | fails exactly when some overlapping id is not a decimal number, and otherwise returns the integers of the ids of every pair i < j of keys, pair by pair in key order |
| Overlap.AppendRow | task3.py:113-118 | for key i, appends the converted common followers of pairs (i, i+1), ..., (i, n-1) in order, or fails when one of them is not a number |
| Overlap.AppendCommon | task3.py:114-118 | appends the converted followers of list i that occur in list j, in list i's order with repeats, or fails when one of them is not a number |
| Overlap.NotAllDigits | task3.py:116-118 | a common follower that is not a number makes the pair's conversion fail |
| Overlap.PairSpoilsRow | task3.py:113-118 | a failing pair makes the whole row fail |
| Overlap.RowSpoilsOverlap | task3.py:112-118 | a failing row makes the whole overlap fail |
| Overlap.CommonMembers | task3.py:114-116 | a follower is in the pair's result exactly when it is in both lists |
| Overlap.CommonMultiplicity | task3.py:114-118 | a follower of list j appears in the pair's result as many times as in list i; one not in list j does not appear |
| Overlap.RowMembers | task3.py:113-118 | an id is in row i exactly when list i and some later list both hold it |
| Overlap.BeforeSound | task3.py:112-118 | an id in the first rows is held by two lists a < b |
| Overlap.BeforeComplete | task3.py:112-118 | an id held by two lists a < b is in the overlap of every prefix of rows that includes row a |
| Overlap.OverlapMembers | task3.py:112-118 | an id is in the overlap exactly when the lists of two different keys, hence of two distinct influencers, both hold it |
| Overlap.FewerThanTwoKeys | task3.py:112-113 | a map with fewer than two keys has an empty overlap |
| Overlap.IsDigitString | task3.py:118 | the ids `int(follower)` is modelled as accepting: non-empty strings of ASCII decimal digits |
| Overlap.DecimalValue | task3.py:118 | the integer `int(follower)` yields for such an id, read digit by digit in base 10 |
| Overlap.DecimalsAppend | task3.py:118 | converting two lists one after the other is converting their concatenation |
| Overlap.DecimalString | task3.py:118 | the decimal digits of a natural number form a valid number string |
| Overlap.DecimalRoundTrip | task3.py:118 | converting the digits of a natural number gives back the number |
| Overlap.LeadingZero | task3.py:118 | a leading zero does not change the converted value |
| Overlap.PairExample | task3.py:112-118 | for two keys with lists [x1, x2, x3] and [x2, x3, x4], the overlap is [x2, x3] |
| Overlap.OverlapExample | task3.py:107-120 | the map {A: ["1", "2", "3"], B: ["2", "3", "4"]} converts to [2, 3] |

## Left out

- `get_data_from_json` (task3.py:11-13): reading and decoding the JSON files is I/O. Records arrive as a sequence of `Record` values.
- `convert_to_datetime_obj` (task3.py:15-21): string parsing. Timestamps arrive already parsed, and a badly formatted timestamp string, which raises in the source, is not modelled.
- Engagement and follow records share one `Record` type. Its `stamp` stands for `engaged_dt` or for `follow_timestamp`.
- A record without an `influencer_uid`, `follower_uid` or timestamp field is not modelled. In the source such a record can raise `KeyError`, depending on where it is read:
  - the calculators read the timestamp and then the influencer id (task3.py:34, :67-70);
  - the followers calculator reads no influencer id for a late record, because the `or` short-circuits (task3.py:34);
  - both calculators read the follower id only after the `continue` (task3.py:38, :74);
  - `create_influencer_map` reads no timestamp, and reads the follower id only for a key it has already seen (task3.py:100-103).
- `plotHistogram` and `perform_and_plot_OLS_regression` (task3.py:122-149): plotting and floating-point regression by external libraries.
- `main` (task3.py:152-205): fixed file paths and ids, console output and plots.
- FractionOfFollowers, FractionOfEngagers: return an exact rational instead of a floating-point quotient. The source returns the integer 0 in the zero case; here it is `0.0`.
- GetOverlap: `int` also accepts surrounding whitespace, a sign, underscores between digits and non-ASCII decimal digits. Such ids make the model fail with `None`, where Python would convert them. The model stops at the first failing id; the source raises there.
- InfluencerMap: the dictionary's hashing is not modelled. A key's insertion order is an explicit sequence.
- GetOverlap: the map is passed by value, so "the input map is left unchanged" holds by construction rather than by a frame proof.
