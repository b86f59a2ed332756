# MergeContent merge step, modelled in Dafny

This project models the merge step of the MiNiFi C++ `MergeContent`
processor (`extensions/libarchive/MergeContent.cpp`). The binning layer
groups incoming flow files into bins by a group key. When a bin is ready,
`processBin` handles it in this order:

- It checks the merge strategy.
- Under the *Defragment* strategy it checks that every member carries the
  first member's fragment identifier and count and an index in
  `[0, count)`, then sorts the members by fragment index.
- It reconciles the members' attributes onto a newly created unit, by
  *Keep Only Common Attributes* or *Keep All Unique Attributes*.
- It writes the merged content: a binary concatenation with header,
  demarcator and footer, or a TAR or ZIP archive. It also sets the mime type
  and the filename.
- It stamps `fragment.count` with the number of members.
- It routes the merged unit to `merged` and every member to `original`.

Before any of this, at scheduling time, `validatePropertyOptions` checks the
four string-valued options.

Modules, one per file:

- `Wrappers` (`wrappers.dfy`): `Option` and `Outcome`.
- `Stoi` (`stoi.dfy`): `std::stoi` as the code uses it, and `std::to_string`
  for non-negative counts.
  - `ParseInt` skips leading white space and accepts one sign.
  - It reads the longest digit run and ignores what follows.
  - It fails without digits or outside the 32-bit `int` range.
- `FlowFiles` (`flow_files.dfy`): a flow file as attributes plus content
  bytes, the attribute names and the option values.
  - Reading a missing attribute leaves the output string as it was.
- `Config` (`config.dfy`): the option set and `validatePropertyOptions`.
- `GroupKey` (`group_key.dfy`): `getGroupId`.
- `Defragment` (`defragment.dfy`): `checkDefragment`, a method over the bin
  held in an array.
  - The reordering is an in-place insertion sort on that array. It is proved
    to sort by fragment index and to permute the bin.
- `AttributeMerge` (`attribute_merge.dfy`): the two attribute mergers.
  - Keep-Only-Common is a fold of pair-wise map intersections.
  - Keep-All-Unique is a class: the merger object keeps its list of removed
    keys as a field, which `ProcessFlowFile` updates.
  - Both are related to a characterisation over the whole bin.
- `ContentMerge` (`content_merge.dfy`): the three mergers' content, mime
  types and filename rule.
- `ProcessBin` (`process_bin.dfy`): `processBin` as a method over the bin
  array and a session object that records the routed units in order.

## Model

| member | source | states |
|---|---|---|
| Stoi.ParseInt | extensions/libarchive/MergeContent.cpp:228-233 | a parsed value always lies in the 32-bit `int` range; anything outside it is a failure, as `std::stoi` throws |
| Stoi.ToDecimal | extensions/libarchive/MergeContent.cpp:319 | `std::to_string` of a count is a non-empty run of decimal digits without a leading zero |
| Stoi.ParseToDecimal | extensions/libarchive/MergeContent.cpp:319 | every count up to `INT_MAX` written by `std::to_string` parses back to itself |
| Stoi.DecimalValueOfToDecimal | extensions/libarchive/MergeContent.cpp:319 | the digits written for `n` denote `n` |
| Stoi.DigitPrefixOfDigits | extensions/libarchive/MergeContent.cpp:228-233 | on an all-digit string the digit run `std::stoi` reads is the whole string |
| Stoi.ParseIntSkipsSpace | extensions/libarchive/MergeContent.cpp:228-233 | any run of leading white space is skipped: `w + t` parses as `t` does |
| Stoi.ParseIntIgnoresTrailing | extensions/libarchive/MergeContent.cpp:246-249 | whatever follows a run of digits, up to its first non-digit, is ignored: `d + t` parses as `d` does |
| Stoi.ParseIntSign | extensions/libarchive/MergeContent.cpp:246-249 | one leading sign is accepted: `+` followed by digits parses as the digits do, and `-` followed by digits parses to their negated value whenever that fits an `int` (so `"+1"` is index 1 and `"-0"` is index 0) |
| Stoi.ParseIntRejects | extensions/libarchive/MergeContent.cpp:228-233 | every string with no digit after its white space and optional sign fails to parse, as `std::stoi` throws an invalid-argument error |
| Config.ValidatePropertyOptionsAsWritten | extensions/libarchive/MergeContent.cpp:176-201 | passes iff strategy, format, delimiter strategy and attribute strategy are each one of their allowed values; a bad strategy fails with a message built from the attribute strategy |
| Config.ValidatePropertyOptions | extensions/libarchive/MergeContent.cpp:176-201 | passes iff all four options are allowed; otherwise fails with the first bad option's own message, in the order strategy, format, delimiter, attribute strategy |
| Config.ValidationAgrees | extensions/libarchive/MergeContent.cpp:176-201 | the corrected check accepts exactly what the code accepts, and differs only in the strategy message |
| Config.MergeStrategyMessageNamesWrongOption | extensions/libarchive/MergeContent.cpp:180 | for a bad strategy and a different attribute strategy, the message the code builds does not name the bad strategy, while the corrected one does |
| Config.DefaultsAreValid | extensions/libarchive/MergeContent.cpp:44-74 | the default option values pass the check |
| GroupKey.GetGroupId | extensions/libarchive/MergeContent.cpp:203-215 | a configured, present and non-empty correlation value is the key; otherwise, under Defragment, the fragment identifier if present; otherwise the empty key; a key is always empty or one of the unit's attribute values |
| GroupKey.FragmentsOfOneUnitShareKey | extensions/libarchive/MergeContent.cpp:210-213 | under Defragment without a correlation attribute, two fragments get the same group key iff their identifiers agree |
| GroupKey.BinPackIgnoresFragmentId | extensions/libarchive/MergeContent.cpp:206-213 | under Bin-Packing the fragment identifier never affects the key |
| Defragment.CheckDefragment | extensions/libarchive/MergeContent.cpp:217-260 | returns true iff the bin is non-empty, its first member has an identifier and a count `std::stoi` accepts, and every member has the same identifier and count strings and an index that parses into `[0, count)` |
| Defragment.SortByFragmentIndex | extensions/libarchive/MergeContent.cpp:278-289 | the bin ends sorted by parsed fragment index, as a permutation of the bin it started as |
| Defragment.InsertIntoSortedPrefix | extensions/libarchive/MergeContent.cpp:278-289 | one insertion pass extends the sorted prefix by one member and keeps the bin a permutation |
| Defragment.SwapAdjacent | extensions/libarchive/MergeContent.cpp:278-289 | exchanging two neighbours changes only those two cells and keeps the multiset of members |
| Defragment.ValidBinHasIndices | extensions/libarchive/MergeContent.cpp:246-253 | every member of a valid bin has a parseable index in `[0, count)`, so the sort's comparator never throws on it |
| Defragment.PermutationKeepsValidity | extensions/libarchive/MergeContent.cpp:270-289 | any reordering of a valid bin is still valid |
| Defragment.IncreasingIndicesAreExact | extensions/libarchive/MergeContent.cpp:278-289 | `n` strictly increasing values in `[0, n)` are exactly `0 .. n-1` |
| Defragment.SortedCompleteBinIsInOrder | extensions/libarchive/MergeContent.cpp:270-289 | a valid, sorted bin with as many distinct indices as its count holds fragment `i` at position `i` |
| Defragment.ValidatorIgnoresDuplicates | extensions/libarchive/MergeContent.cpp:234-256 | the check does not reject a bin that repeats a fragment: a valid bin stays valid with any of its members appended again |
| Defragment.ValidPrefix | extensions/libarchive/MergeContent.cpp:234-256 | the check does not reject a bin missing fragments: every non-empty prefix of a valid bin is valid, as when two of three fragments are merged |
| Defragment.MissingCountInvalidates | extensions/libarchive/MergeContent.cpp:240-241 | any member without a count attribute makes the bin invalid |
| AttributeMerge.Intersect | extensions/libarchive/MergeContent.cpp:400-406 | Keep-Only-Common's step keeps exactly the (key, value) pairs both maps hold |
| AttributeMerge.KeepCommonFoldKeepsSharedPairs | extensions/libarchive/MergeContent.cpp:390-406 | folding the intersection over the rest of the bin keeps exactly the pairs of the running map held by every remaining member |
| AttributeMerge.KeepOnlyCommonIsCommonPairs | extensions/libarchive/MergeContent.cpp:390-406 | an empty bin gives no attributes; otherwise a key is kept iff every member carries it with the first member's value, and it keeps that value |
| AttributeMerge.KeepCommonFold | extensions/libarchive/MergeContent.cpp:397-406 | the `std::accumulate` of intersections yields a sub-dictionary of its start and of every member folded in |
| AttributeMerge.KeepOnlyCommon | extensions/libarchive/MergeContent.cpp:390-406 | `getMergedAttributes` under Keep-Only-Common: an empty bin gives no attributes, and every kept pair is held by every member |
| AttributeMerge.UniqueStep | extensions/libarchive/MergeContent.cpp:408-422 | one Keep-All-Unique step never forgets an excluded key, never brings back an excluded key, and adds only keys of the new member |
| AttributeMerge.UniqueFold | extensions/libarchive/MergeContent.cpp:397-422 | the `std::accumulate` of Keep-All-Unique steps never forgets an excluded key, never brings one back, and keeps only keys of the start or of a member folded in |
| AttributeMerge.KeepAllUnique | extensions/libarchive/MergeContent.cpp:390-422 | `getMergedAttributes` under Keep-All-Unique: an empty bin gives no attributes, and every kept key is carried by some member |
| AttributeMerge.UniqueInvariantStep | extensions/libarchive/MergeContent.cpp:408-422 | if before a step exactly the conflicting keys are excluded and exactly the carried, non-conflicting keys are kept with their agreed value, the same holds after it |
| AttributeMerge.UniqueInvariantFold | extensions/libarchive/MergeContent.cpp:390-398 | that invariant holds after folding the whole rest of the bin |
| AttributeMerge.KeepAllUniqueIsUnconflictedKeys | extensions/libarchive/MergeContent.cpp:390-422 | a key is kept iff some member carries it and no two members give it different values; its value is every carrier's value |
| AttributeMerge.ConflictIsPermanent | extensions/libarchive/MergeContent.cpp:417-420 | a key that conflicts within any prefix of the bin is absent from the result |
| AttributeMerge.KeepAllUniqueAttributesMerger.ProcessFlowFile | extensions/libarchive/MergeContent.cpp:408-422 | the merger's loop over the member's attributes leaves the running map and the removed keys as one `UniqueStep`, and the removed list only grows |
| AttributeMerge.KeepAllUniqueAttributesMerger.GetMergedAttributes | extensions/libarchive/MergeContent.cpp:390-398 | empty bin gives no attributes and leaves the removed list as it was; otherwise the result and the removed keys are the fold from the first member's attributes over the rest; the removed list only grows |
| AttributeMerge.MergeAllUnique | extensions/libarchive/MergeContent.cpp:295 | a fresh merger yields exactly the carried, non-conflicting keys |
| ContentMerge.FormatOf | extensions/libarchive/MergeContent.cpp:301-311 | each of the three format values selects its merger, and no other value selects any |
| ContentMerge.MimeType | extensions/libarchive/MergeContent.cpp:76-78 | concatenation declares `application/octet-stream`, TAR `application/tar`, ZIP `application/zip`, and these are distinct |
| ContentMerge.MergedFilename | extensions/libarchive/MergeContent.cpp:338-381 | the name comes from the first member's filename (one member) or original segment name (several); empty means no filename; archives append `.tar`/`.zip` and, when the member lacks the attribute, fall back on the unit's own filename |
| ContentMerge.JoinLength | libminifi/test/archive-tests/MergeFileTests.cpp:266-298 | the joined body is the contents' total length plus one demarcator between each two |
| ContentMerge.JoinPlacesParts | libminifi/test/archive-tests/MergeFileTests.cpp:281-295 | content `i` sits unchanged at its offset, followed by the demarcator unless it is the last |
| ContentMerge.ConcatContent | libminifi/test/archive-tests/MergeFileTests.cpp:266-298 | the merged content begins with the header and ends with the footer |
| ContentMerge.ConcatLength | libminifi/test/archive-tests/MergeFileTests.cpp:339-354 | header, contents, demarcators and footer add up to the merged length (6 + 96 + 20 + 6 = 128 for the three fragments of 32 bytes) |
| ContentMerge.ConcatPlacesMember | libminifi/test/archive-tests/MergeFileTests.cpp:281-297 | member `i`'s content follows the header at its offset in the body |
| ContentMerge.PlainConcatenation | libminifi/test/archive-tests/MergeFileTests.cpp:194-263 | with no header, footer or demarcator the merged content is the members' contents in bin order |
| ContentMerge.Merge | extensions/libarchive/MergeContent.cpp:332-382 | the merger writes the concatenation or the archive bytes, sets the format's mime type, sets the derived filename when there is one, and leaves every other attribute as it was |
| ProcessBin.MergedUnit | extensions/libarchive/MergeContent.cpp:291-319 | a unit exists iff the attribute strategy and format are supported; it carries `fragment.count` as the member count, the format's mime type and the format's content; every reconciled pair other than mime type, filename and count is on it with its reconciled value, and every attribute of the new unit not reconciled or overwritten survives; its filename is the derived name when there is one and is otherwise untouched; it has no other keys |
| ProcessBin.Reconcile | extensions/libarchive/MergeContent.cpp:292-299 | the attribute strategy is dispatched iff it is one of the two supported; every reconciled pair is some member's pair, and a pair every member of a non-empty bin carries is always kept |
| ProcessBin.BuildUnit | extensions/libarchive/MergeContent.cpp:291-319 | reconciling, dispatching on format, merging and stamping builds exactly `MergedUnit` |
| ProcessBin.OrderBin | extensions/libarchive/MergeContent.cpp:267-289 | continues iff the strategy is known and, under Defragment, the bin is valid; a valid defragment bin ends sorted and still valid; a rejected defragment bin and a bin-packed bin are untouched; always a permutation |
| ProcessBin.Route | extensions/libarchive/MergeContent.cpp:321-326 | the session receives the merged unit on `merged`, then each member in bin order on `original` |
| ProcessBin.ProcessBin | extensions/libarchive/MergeContent.cpp:266-330 | succeeds iff strategy, defragment validity, attribute strategy and format all pass and the merger does not throw; on failure nothing is routed; a rejected defragment bin and a bin-packed bin keep their order; on success the merged unit of the (sorted) bin and all originals are routed |
| ProcessBin.CountAttributeReadsBack | extensions/libarchive/MergeContent.cpp:319 | the stamped `fragment.count` parses back to the number of members |
| ProcessBin.ValidatedSettingsRejectOnlyBadFragments | extensions/libarchive/MergeContent.cpp:176-201 | with options that passed the scheduling check, the checks `processBin` makes before merging reject a bin only when it is an invalid defragment bin; the only other way it declines is a merger that throws |
| ProcessBin.DefragmentedConcatRestoresOrder | libminifi/test/archive-tests/MergeFileTests.cpp:194-263 | a complete, distinct, sorted fragment set concatenates fragment `i` at the `i`-th place: the original content is reassembled in order |

## Left out

- Reading the header, footer and demarcator files, `onSchedule` and the
  property look-ups are left out. They are file I/O; the model takes the
  option values and the three byte strings as inputs.
- The TAR and ZIP encodings are left out. They are written by libarchive,
  which is a foreign library. `ProcessBin` takes the archive bytes as a
  parameter, and a merger that throws is a boolean parameter.
- `BinFiles` and the bin manager are left out: queueing, bin sizes, ages and
  timeouts, and the `onTrigger` loop. They are not part of the merge step.
  Bins are given, and never empty, as they are when the binning layer hands
  them over.
- The session is modelled only as an ordered log of routed units.
  - Creating, writing and committing units are not modelled.
  - Neither is the created unit that is never routed when the attribute
    strategy or the format is not supported.
  - Logging is left out.
- `std::sort` is not stable, and its order among equal indices is
  unspecified.
  - `Defragment.SortByFragmentIndex`: promises the sorted-and-permuted
    result, as `std::sort` does. Its specific insertion order among equal
    indices is one of the orders `std::sort` may produce.
- `AttributeMerge.KeepAllUniqueAttributesMerger.ProcessFlowFile` keeps the
  removed keys as a list, but only which keys it holds is stated, not their
  order. The code only ever searches that list, so order is unobservable.
- `FlowFile::getAttribute` is not part of this model. The model relies on the
  upstream behaviour: a missing key returns false and leaves the output
  string unchanged. That behaviour is why an archive merger keeps the unit's
  own filename when the first member lacks the source attribute.
- `MergeContent.h`, `BinFiles.h` and `SpecialFlowAttribute` are not part of
  this model. The option values and attribute names are their upstream
  literals.
- `Stoi.ToDecimal`: covers only non-negative counts, which is all
  `processBin` writes. `std::to_string`'s `size_t` range beyond `INT_MAX` is
  not related back through `ParseInt`.
- `GroupKey.GetGroupId`: follows the code where the prose description
  differs. An empty correlation value also falls back to the fragment
  identifier, because the code tests `groupId.empty()`.
- The validator (`Defragment.CheckDefragment`) accepts duplicate indices and
  bins smaller than the fragment count. This is the code's behaviour, and the
  model keeps it (see `Defragment.ValidatorIgnoresDuplicates` and
  `Defragment.ValidPrefix`). Binning by count happens outside the merge
  step.

## Findings

| source | as written | input that shows it | evidently intended | confidence | as-written member | corrected member |
|---|---|---|---|---|---|---|
| extensions/libarchive/MergeContent.cpp:180 | the error for an unsupported merge strategy is built from `attributeStrategy_` | merge strategy `Bogus` with attribute strategy `Keep Only Common Attributes` gives "Invalid merge strategy: Keep Only Common Attributes" | the message names the rejected merge strategy, "Invalid merge strategy: Bogus", as the log line above it and the three other checks do | not executed | Config.ValidatePropertyOptionsAsWritten, Config.MergeStrategyMessageNamesWrongOption | Config.ValidatePropertyOptions |
