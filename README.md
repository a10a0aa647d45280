# trackDb generation for the P. falciparum chromatin-state track hub

This project is a Dafny model of the three generators in
`hub-scripts/makeTrackHubs.py`. Each one reads a list of data-file paths
and prints UCSC trackDb stanzas for one composite track:

- `create_chrom_state_trackdb`: chromatin-state bigBed files, one subtrack
  per file whose name starts with a timepoint such as `10hpi`.
- `create_signal_trackdb`: histone-mark and ATAC bigWig files named
  `MARK_TIMEPOINT_SOURCE_ID.bw`, with a timepoint subgroup and a
  mark-source subgroup.
- `create_tf_trackdb`: TF ChIP-seq signal (`.bw`) and peak
  (`.narrowPeak.bb`) files named `FACTOR_TIMEPOINT_SOURCE_ID<suffix>`, with
  view, timepoint and factor-source subgroups.

The model is split into modules that follow the source:

- `Text`: the string operations the script relies on. These are `strip`,
  `os.path.basename`, `replace`, the `re.sub` character filters, slicing,
  `str(int)` and the ASCII character classes.
- `Order`: Python's string order and a stable sort.
- `FileNames`: the three regular expressions. Each is written as an
  explicit split of the file name, and a search picks the match that
  Python's lazy `(.*?)` would choose.
- `Tags`: the `t…`, `ms…` and `fs…` subgroup tags and the sort keys. It
  also holds the sorted subgroup declarations.
- `Display`: the colour and visibility rule of signal subtracks and the
  signal and TF track ids.
- `Blocks`: what is printed. A comment line or a stanza is a `Block`, and
  `Render` gives the exact text lines of each.
- `FirstPass`: the first pass the signal and TF generators share. It
  keeps the records and warnings and fills two sets: the timepoints, and
  the mark-source keys or the factor-source pairs.
- `ChromStates`, `Signals`, `Tfs`: one module per generator.

Each generator module has the same structure:

- A specification function (`ChromStateTrackDb`, `SignalTrackDb`,
  `TfTrackDb`) gives the whole output as a sequence of blocks.
- An imperative method (`CreateChromStateTrackDb`, `CreateSignalTrackDb`,
  `CreateTfTrackDb`) walks the lines with the source's loops, counters and
  sets. It is proved to produce exactly that sequence.
- Lemmas state what the output promises:
  - one block per non-blank line;
  - priorities with no gaps from the category's base (1, 21, 1);
  - every subtrack's `subGroups` tags declared by the parent;
  - subgroup values declared once each, in sorted order;
  - the notice and no parent stanza when nothing parsed.

The file list is an input value: either `Missing`, which models
`FileNotFoundError`, or the list of its lines. `print` is modelled as
appending to the returned sequence.

Some details of the code worth noting:

- Mark-source keys are sorted in plain, case-sensitive string order.
  Factor-source pairs are compared lower-cased.
- Only the INPUT and ATAC tests of the colour rule ignore letter case. The
  histone-mark substrings are matched as written, and TF subtracks do not
  use the rule at all: they get a fixed colour per view.
- The timepoint tag removes only a lower-case `hpi`, so `10HPI` is tagged
  `t10HPI`.
- The mark-source tag filters the whole key `mark_source`, underscore
  included.
- Neither the mark-source tag nor the factor-source tag is injective. The
  source does not detect the resulting collisions
  (`Tags.MarkSourceTagCollides`, `Tags.FactorSourceTagCollides`).
- The TF track id removes characters outside `[A-Za-z0-9_]` from the
  factor and source, rather than replacing them. It leaves the parent id
  and timepoint as they are.
- The signal mark may itself contain `_`, because it is the shortest prefix
  that lets the rest of the name match. The source is the text up to the
  next `_` and may be empty.

## Model

| member | source | states |
|---|---|---|
| Text.Strip | hub-scripts/makeTrackHubs.py:35 | `line.strip()`: the result is a run of the line surrounded only by whitespace, and it neither starts nor ends with whitespace |
| Text.Basename | hub-scripts/makeTrackHubs.py:40 | `os.path.basename`: the result is a suffix of the path with no `/`, preceded by `/` when shorter than the path |
| Text.ReplaceChar | hub-scripts/makeTrackHubs.py:110 | `replace` of one character: same length, every occurrence of the old character holds the new one, the old character no longer occurs, every other character kept in place |
| Text.Filter | hub-scripts/makeTrackHubs.py:148 | `re.sub` with a negated class: every kept character is in the class, and a string made only of class characters is unchanged |
| Text.FilterOne | hub-scripts/makeTrackHubs.py:148 | one character is kept exactly when it is in the class and dropped otherwise |
| Text.FilterAppend | hub-scripts/makeTrackHubs.py:148 | filtering a concatenation is concatenating the filtered parts; with `Text.FilterOne` this fixes the result on every string as the class characters in order |
| Text.ContainsIff | hub-scripts/makeTrackHubs.py:196-203 | `sub in s` holds exactly when `sub` occurs at some position of `s` |
| Text.RemoveAll | hub-scripts/makeTrackHubs.py:147 | `replace(p, '')`: never longer, every character not in `p` kept as often as it occurs, and the string unchanged when `p` does not occur in it |
| Text.RemoveAllFirst | hub-scripts/makeTrackHubs.py:147 | `replace(p, '')` removes the leftmost occurrence of `p`, keeps the text before it and resumes after it; with the clause for a string without `p` this fixes the result on every string |
| Text.Take | hub-scripts/makeTrackHubs.py:212 | slice `[:n]`: a prefix of length `min(len, n)` |
| Text.NatToString | hub-scripts/makeTrackHubs.py:67 | `str(priority)`: a non-empty digit string whose decimal value is the number, with no leading zero (`0` only for zero) |
| Order.StrLeIsTotalPreorder | hub-scripts/makeTrackHubs.py:144 | Python's string comparison is total and transitive (a total preorder, and antisymmetric by `Order.StrLeAntisymmetric`) |
| Order.StrLeAntisymmetric | hub-scripts/makeTrackHubs.py:144 | two strings each `<=` the other are equal |
| Order.SortBy | hub-scripts/makeTrackHubs.py:143-144 | `sorted`: the result is a permutation of the input (same multiset) |
| Order.SortBySorted | hub-scripts/makeTrackHubs.py:143-144 | `sorted` under a total preorder key yields a sequence ordered by that key |
| Order.SortByNoDup | hub-scripts/makeTrackHubs.py:143-144 | sorting distinct values keeps them distinct and keeps exactly the same members |
| FileNames.ChromStateId | hub-scripts/makeTrackHubs.py:43-49 | `^(\d+hpi)` under IGNORECASE: a found id is a timepoint that starts the name, and none is found exactly when no leading `\d+hpi` token exists |
| FileNames.TimepointAtUnique | hub-scripts/makeTrackHubs.py:43 | a leading `\d+hpi` token has only one possible length, so the match is determined |
| FileNames.ParseSignal | hub-scripts/makeTrackHubs.py:104-113 | `^(.*?)_(\d+hpi)_(.*?)_(.*?)\.bw$` under IGNORECASE: a result is a valid split of the name with the shortest mark over all valid splits; no result exactly when no split exists |
| FileNames.SignalSplitUnique | hub-scripts/makeTrackHubs.py:104 | two splits with marks of the same length are the same split, so the lazy match is determined by the mark |
| FileNames.ViewOf | hub-scripts/makeTrackHubs.py:264-272 | `.narrowPeak.bb` (tested first, case-sensitive) gives Peaks, `.bw` gives Signal, anything else gives no view |
| FileNames.TfAtSound | hub-scripts/makeTrackHubs.py:274-287 | a match the TF pattern finds for a given factor length is a valid split of the name with a factor of that length |
| FileNames.ParseTf | hub-scripts/makeTrackHubs.py:274-287 | the strict pattern, then the relaxed one: a result is a valid split (non-empty alphanumeric source, `\d+hpi` timepoint, suffix matched ignoring case) with the shortest factor; no result exactly when no split exists |
| FileNames.TfTail | hub-scripts/makeTrackHubs.py:274-279 | the strict pattern's lazy fourth group and the relaxed pattern's greedy one both end exactly where the extension starts, and match only when the name ends in the extension ignoring case |
| FileNames.TfPositions | hub-scripts/makeTrackHubs.py:274-279 | the positions a TF pattern matches at fit its groups: underscores around a `\d+hpi` timepoint, an alphanumeric source, the extension at the end |
| FileNames.TfPositionsFinds | hub-scripts/makeTrackHubs.py:274-279 | whatever positions fit the pattern for a factor length are the ones the match takes, so the match is determined by the factor length |
| FileNames.TfFromSpec | hub-scripts/makeTrackHubs.py:274-279 | the lazy `(.*?)` first group: the search from a length finds a split whose factor is at least that long and no longer than that of any such split |
| FileNames.RelaxedPatternAgrees | hub-scripts/makeTrackHubs.py:274-279 | the relaxed pattern with a greedy fourth group finds the same groups as the strict one on every name |
| FileNames.TfSplitUnique | hub-scripts/makeTrackHubs.py:274 | two TF splits with factors of the same length are equal |
| Tags.TimepointTag | hub-scripts/makeTrackHubs.py:147 | the timepoint tag starts with `t`, is at most one longer than the timepoint, and is `t` + timepoint when that holds no `hpi` |
| Tags.TimepointTagShape | hub-scripts/makeTrackHubs.py:147 | the timepoint tag is `t`, the digits, and the `hpi` unless that was written in lower case |
| Tags.TimepointTagEndsInDigit | hub-scripts/makeTrackHubs.py:147 | a timepoint tag ends in a digit exactly when its `hpi` was lower case |
| Tags.TimepointTagInjective | hub-scripts/makeTrackHubs.py:147 | distinct timepoints get distinct tags |
| Tags.TimepointTagAlnum | hub-scripts/makeTrackHubs.py:146-147 | every timepoint tag is alphanumeric |
| Tags.MarkSourceTag | hub-scripts/makeTrackHubs.py:148 | the mark-source tag is `ms` followed by the key's alphanumeric characters in order (fixed by `Text.FilterOne` and `Text.FilterAppend`), so it is alphanumeric and at most two longer than the key |
| Tags.MarkSourceTagOfKey | hub-scripts/makeTrackHubs.py:148 | for a key `mark_source` with alphanumeric mark and source the tag is `ms` + mark + source: only the `_` is dropped |
| Tags.MarkSourceTagCollides | hub-scripts/makeTrackHubs.py:148 | a key and the same key with a `.` inserted are distinct but share a tag |
| Tags.FactorSourceTag | hub-scripts/makeTrackHubs.py:326-329 | the factor-source tag is `fs`, the first 10 alphanumerics of the factor and the first 5 of the source, so it is alphanumeric and 2 to 17 characters long |
| Tags.FactorSourceTagOfParts | hub-scripts/makeTrackHubs.py:326-329 | an alphanumeric factor of at most 10 and source of at most 5 characters appear in the tag in full |
| Tags.FactorSourceTagCollides | hub-scripts/makeTrackHubs.py:326-329 | once a factor has ten alphanumerics, anything appended to it leaves the tag unchanged |
| Tags.TimepointNumber | hub-scripts/makeTrackHubs.py:143 | the sort key of a timepoint is the value of its digits before `hpi` |
| Tags.TimepointNumberOfNat | hub-scripts/makeTrackHubs.py:143 | the sort key of `str(n)` followed by any spelling of `hpi` is `n` |
| Tags.TimepointLeIsTotalPreorder | hub-scripts/makeTrackHubs.py:143 | ordering timepoints by their integer is a total preorder |
| Tags.FactorSourceLeIsTotalPreorder | hub-scripts/makeTrackHubs.py:321 | the lower-cased `(factor, source)` tuple order is a total preorder |
| Tags.SortedTimepointsSpec | hub-scripts/makeTrackHubs.py:143 | the declared timepoints are the distinct timepoints seen, each once, in ascending order of their integer |
| Tags.SortedMarkSourcesSpec | hub-scripts/makeTrackHubs.py:144 | the declared mark-source keys are the distinct keys seen, each once, in strictly ascending string order |
| Tags.SortedFactorSourcesSpec | hub-scripts/makeTrackHubs.py:321 | the declared factor-source pairs are the distinct pairs seen, each once, ordered by lower-cased factor then lower-cased source |
| Tags.TimepointItems | hub-scripts/makeTrackHubs.py:165 | one `tag=value` item per declared timepoint, in declaration order, its value the timepoint and its tag that timepoint's tag |
| Tags.MarkSourceItems | hub-scripts/makeTrackHubs.py:168 | one item per declared mark-source key, in declaration order, its value the key and its tag the key's tag |
| Tags.FactorSourceItems | hub-scripts/makeTrackHubs.py:349 | one item per declared pair, in declaration order, its value `factor_source` and its tag the pair's tag |
| Tags.TimepointDeclared | hub-scripts/makeTrackHubs.py:165-188 | the tag of every timepoint seen is among the declared timepoint tags, so the lookup never fails |
| Tags.MarkSourceDeclared | hub-scripts/makeTrackHubs.py:168-189 | the tag of every mark-source key seen is among the declared mark-source tags |
| Tags.FactorSourceDeclared | hub-scripts/makeTrackHubs.py:349-373 | the tag of every factor-source pair seen is among the declared factor-source tags |
| Display.SignalStyle | hub-scripts/makeTrackHubs.py:192-204 | a signal subtrack is shown `full` exactly when its upper-cased mark is not `INPUT` and contains `ATAC`, and `hide` otherwise |
| Display.SignalStyleMatchesTable | hub-scripts/makeTrackHubs.py:192-204 | the `if`/`elif` chain equals the first matching rule of the ordered rule table INPUT, ATAC, acetylation, methylation, H2A.Z, default grey |
| Display.InputBeatsAtacOnlyWhenExact | hub-scripts/makeTrackHubs.py:194-198 | a mark that is `INPUT` in any case is grey 150; `ATAC_INPUT` is shown as ATAC |
| Display.SafeChar | hub-scripts/makeTrackHubs.py:212 | a character of `[\w-]` is kept; any other becomes `_`, which is in `[\w-]` |
| Display.SignalTrackId | hub-scripts/makeTrackHubs.py:210-212 | the signal track id has length `min(len, 50)` of `parent_mark(.→z)_tp_source`, is made of `[\w-]`, keeps every `[\w-]` character in place and has `_` for every other |
| Display.SignalTrackIdKeepsParent | hub-scripts/makeTrackHubs.py:211-212 | a clean parent id shorter than 50 characters survives, followed by `_`, at the head of every signal track id |
| Display.TfTrackId | hub-scripts/makeTrackHubs.py:376-379 | the TF track id is the prefix of `parent_factor_source_tp_view` (factor and source filtered to `\w`) of length exactly `min(len, 60)` |
| Display.TfTrackIdChars | hub-scripts/makeTrackHubs.py:376-379 | when the parent, timepoint and view tag are `\w` strings, so is the TF track id |
| Blocks.AddNew | hub-scripts/makeTrackHubs.py:117-118 | `set.add`: the members are the old ones plus the new value, no duplicates are introduced, and an existing value changes nothing |
| Blocks.ChromParentLines | hub-scripts/makeTrackHubs.py:18-27 | the chromatin-state parent stanza is non-empty lines closed by one blank line |
| Blocks.ChromChildLines | hub-scripts/makeTrackHubs.py:58-68 | a chromatin-state subtrack stanza is non-empty lines closed by one blank line |
| Blocks.JoinItems | hub-scripts/makeTrackHubs.py:165-168 | the joined text is empty exactly when there are no items, and a single item gives its `tag=value` |
| Blocks.JoinItemsAppend | hub-scripts/makeTrackHubs.py:165-168 | joining two non-empty runs of items is joining each with one space between |
| Blocks.StanzaAt | hub-scripts/makeTrackHubs.py:178-220 | one stanza per record: the i-th is made from the i-th record and numbered from the start plus i |
| Blocks.StanzaPriorities | hub-scripts/makeTrackHubs.py:177-230 | when each stanza carries the number it is given, the stanzas carry priorities `p, p+1, …`, one per record |
| Blocks.SignalParentLines | hub-scripts/makeTrackHubs.py:151-174 | the signal parent stanza is non-empty lines closed by one blank line |
| Blocks.SignalChildLines | hub-scripts/makeTrackHubs.py:217-229 | a signal subtrack stanza is non-empty lines closed by one blank line |
| Blocks.TfParentLines | hub-scripts/makeTrackHubs.py:334-357 | the TF parent stanza is non-empty lines closed by one blank line |
| Blocks.TfViewLines | hub-scripts/makeTrackHubs.py:392-403 | the view-specific lines of a TF subtrack are non-empty |
| Blocks.TfChildLines | hub-scripts/makeTrackHubs.py:387-408 | a TF subtrack stanza is non-empty lines closed by one blank line |
| Blocks.RenderIsStanza | hub-scripts/makeTrackHubs.py:58-68 | a comment prints as its one line; every other block prints as a stanza closed by a blank line |
| Blocks.RenderAllAppend | hub-scripts/makeTrackHubs.py:15-27 | the text of consecutive blocks is the concatenation of their texts |
| ChromStates.ClassifyChromSpec | hub-scripts/makeTrackHubs.py:35-49 | a line is skipped silently exactly when it strips to nothing; it is warned about exactly when its file name has no leading `\d+hpi`; otherwise it yields a timepoint id that starts the file name |
| ChromStates.CreateChromStateTrackDb | hub-scripts/makeTrackHubs.py:15-75 | the loop over the lines prints exactly `ChromStateTrackDb`: header, parent stanza, then per line a warning or a subtrack, or the missing-file error |
| ChromStates.ChromPriorities | hub-scripts/makeTrackHubs.py:31-70 | subtrack priorities are `p, p+1, …`, one per recognised file, in line order; blank and skipped lines consume none |
| ChromStates.ChromEntriesInOrder | hub-scripts/makeTrackHubs.py:31-70 | the subtracks printed are exactly the stanzas of the recognised files in line order, numbered from `p`, and the warnings printed are exactly those of the skipped lines, in line order |
| ChromStates.ChromSubtrackAt | hub-scripts/makeTrackHubs.py:49-66 | the k-th subtrack printed is the stanza of the k-th recognised file, numbered `p + k`, and there is one subtrack per recognised file |
| ChromStates.ChromOneBlockPerLine | hub-scripts/makeTrackHubs.py:34-70 | every non-blank line prints exactly one block, blank lines none |
| ChromStates.ClassifyAllValid | hub-scripts/makeTrackHubs.py:43-49 | every record classification yields has a timepoint id that starts its file name |
| ChromStates.ChromEntriesWellFormed | hub-scripts/makeTrackHubs.py:49-66 | each printed block is a warning or a subtrack whose id is `parent_id`, whose parent is the parent id and whose URL is `base/` + a name starting with the id |
| ChromStates.ChromStateTrackDbSpec | hub-scripts/makeTrackHubs.py:15-70 | for a list that exists: `2 + non-blank lines` blocks, the header and parent stanza first (printed whatever the list holds), priorities `1..n` with no gaps, every other block a warning or a well-formed subtrack, the subtracks being the recognised files' stanzas and the warnings the skipped lines', each in line order |
| Signals.NormaliseMark | hub-scripts/makeTrackHubs.py:110 | every `-` of the mark becomes `.`, every other character stays in place, and no `-` is left |
| Signals.NormaliseMarkIdempotent | hub-scripts/makeTrackHubs.py:110 | normalising twice is normalising once |
| Signals.ClassifySignalSpec | hub-scripts/makeTrackHubs.py:99-114 | blank exactly when the line strips to nothing; skipped with the warning exactly when no split of the file name exists; otherwise the record built from the groups `FileNames.ParseSignal` finds, which are the split with the shortest mark, its mark normalised and its key `mark_source` |
| FirstPass.ScanLinesInvariant | hub-scripts/makeTrackHubs.py:116-118 | after the first pass the timepoints and keys gathered (mark-source keys here, factor-source pairs at lines 292-294) are distinct and are exactly those of the records kept |
| FirstPass.ScanLinesRecords | hub-scripts/makeTrackHubs.py:137-139 | the first pass keeps no record exactly when no line parsed (the TF check is at lines 314-316) |
| FirstPass.ScanLinesCounts | hub-scripts/makeTrackHubs.py:98-128 | one record per parsed line and one warning per skipped line (the TF loop is at lines 256-305) |
| FirstPass.ScanLinesInOrder | hub-scripts/makeTrackHubs.py:98-128 | the records kept are exactly those of the parsed lines and the warnings printed exactly those of the skipped lines, each in line order (the TF loop is at lines 256-305) |
| Signals.ScanSignalLines | hub-scripts/makeTrackHubs.py:96-128 | the first-pass loop gathers exactly the records, warnings, timepoints and keys of `SignalScan` |
| Signals.SignalSubtracks | hub-scripts/makeTrackHubs.py:177-230 | the second-pass loop, looking tags up in the tag tables, prints exactly one subtrack per record numbered from 21 |
| Signals.CreateSignalTrackDb | hub-scripts/makeTrackHubs.py:89-230 | the two passes print exactly `SignalTrackDb`: header, warnings, then the no-data notice or the parent stanza and subtracks, or the missing-file error |
| Signals.SignalPriorities | hub-scripts/makeTrackHubs.py:177-230 | subtrack priorities are `p, p+1, …`, one per record, in record order |
| Signals.SignalEntriesOfRecords | hub-scripts/makeTrackHubs.py:178-220 | one subtrack per record, in order: the i-th is the stanza of the i-th record, with that record's timepoint and mark-source tags, its URL, and number start + i |
| Signals.SignalSubgroupsDeclared | hub-scripts/makeTrackHubs.py:165-189 | every subtrack's timepoint and mark-source tags are declared by the parent stanza |
| Signals.SignalNoData | hub-scripts/makeTrackHubs.py:137-139 | when no line parses, the output is the header, the warnings and the notice, with no parent stanza |
| Signals.SignalTailSpec | hub-scripts/makeTrackHubs.py:137-230 | after the warnings: one block more than the records, priorities `21..` one per record |
| Signals.SignalTrackDbSpec | hub-scripts/makeTrackHubs.py:89-230 | for a list that exists: `2 + non-blank lines` blocks, the header first, priorities `21..` with no gaps, one per parsed line |
| Signals.SignalTrackDbInOrder | hub-scripts/makeTrackHubs.py:98-230 | the warnings follow the header in line order; when some line parsed, the subtracks follow the parent stanza, the stanza of the k-th parsed line being the k-th, numbered from 21 |
| Tfs.ClassifyTfSpec | hub-scripts/makeTrackHubs.py:257-290 | blank exactly when the line strips to nothing; unknown type exactly when neither suffix matches; unparsed exactly when the suffix picks a view but no split exists; otherwise the view of the suffix and the record built from the groups `FileNames.ParseTf` finds for that view, which are the split with the shortest factor |
| Tfs.ScanTfLines | hub-scripts/makeTrackHubs.py:254-305 | the first-pass loop gathers exactly the records, warnings, timepoints and pairs of `TfScan` |
| Tfs.TfSubtracks | hub-scripts/makeTrackHubs.py:361-409 | the second-pass loop, looking tags up in the tag tables, prints exactly one subtrack per record numbered from 1 |
| Tfs.CreateTfTrackDb | hub-scripts/makeTrackHubs.py:244-409 | the two passes print exactly `TfTrackDb`: header, warnings, then the no-data notice or the parent stanza and subtracks, or the missing-file error |
| Tfs.RecordsKeyed | hub-scripts/makeTrackHubs.py:290 | every record's factor-source key is its own `(factor, source)` |
| FirstPass.ScanRecordsParsed | hub-scripts/makeTrackHubs.py:297-305 | every record the first pass keeps comes from a line that parsed |
| Tfs.TfPriorities | hub-scripts/makeTrackHubs.py:361-409 | subtrack priorities are `p, p+1, …`, one per record, in record order |
| Tfs.TfEntriesOfRecords | hub-scripts/makeTrackHubs.py:362-405 | one subtrack per record, in order: the i-th is the stanza of the i-th record, with that record's view, factor-source and timepoint tags, its URL, and number start + i |
| Tfs.TfSubgroupsDeclared | hub-scripts/makeTrackHubs.py:346-374 | every subtrack's factor-source and timepoint tags are declared by the parent stanza |
| Tfs.TfViewFromSuffix | hub-scripts/makeTrackHubs.py:264-269 | every subtrack's view is the one its file's suffix selects |
| Tfs.TfNoData | hub-scripts/makeTrackHubs.py:314-316 | when no line parses, the output is the header, the warnings and the notice, with no parent stanza |
| Tfs.TfTailSpec | hub-scripts/makeTrackHubs.py:314-409 | after the warnings: one block more than the records, priorities `1..` one per record |
| Tfs.TfTrackDbSpec | hub-scripts/makeTrackHubs.py:244-409 | for a list that exists: `2 + non-blank lines` blocks, the header first, priorities `1..` with no gaps, one per parsed line |
| Tfs.TfTrackDbInOrder | hub-scripts/makeTrackHubs.py:256-409 | the warnings follow the header in line order; when some line parsed, the subtracks follow the parent stanza, the stanza of the k-th parsed line being the k-th, numbered from 1 |

## Left out

- The `argparse` command line and the `__main__` block
  (hub-scripts/makeTrackHubs.py:413-448). They choose which generators to
  call and with which paths.
- Opening and reading the list file. The list is an input value, and a
  missing file is the `Missing` case. Other I/O failures (the generic
  `except Exception` branches and their messages) are not modelled.
- `print` as a transport. The output is a returned sequence of blocks, and
  `Render`/`RenderAll` give its text lines.
- Unicode semantics of the regular expressions. `\d`, `\w`, `[a-zA-Z0-9]`,
  IGNORECASE, `upper()` and `lower()` are modelled on ASCII only, so
  Unicode digits and special case foldings (such as the Kelvin sign
  matching `k`) are not captured. `strip()` uses Python's whitespace set
  within the Basic Multilingual Plane.
- The regex `$` also matching before a final newline. A file name comes
  from a stripped line, so it never ends in a newline.
- Python's set iteration order. The model keeps each set as its values in
  the order first added. Only the relative order of equal sort keys (such
  as `10hpi` and `10HPI`) could differ from a real run.
- Tags.SortedTimepointsSpec: states only that timepoints are in
  non-decreasing order of their integer. The order of two spellings of the
  same number is not fixed by the source.
- Tags.TimepointNumber: reads the leading digit run instead of searching
  with `re.search(r'\d+', …)`. The two agree on every timepoint, since a
  timepoint starts with its digits.
- The literal lines of each stanza are modelled in `Render`, but no lemma
  states more about them than that each stanza is well formed.
