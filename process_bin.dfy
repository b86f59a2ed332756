/** `MergeContent::processBin`: check the configured strategy, validate and
    reorder a defragment bin, reconcile the members' attributes, merge their
    contents, stamp the member count and route the merged unit and the
    originals. */
module ProcessBin {
  import opened Wrappers
  import opened Stoi
  import opened FlowFiles
  import opened Config
  import opened Defragment
  import opened AttributeMerge
  import opened ContentMerge

  datatype Relationship = Merged | Original

  /** The part of a processing session this step drives: the units it has
      routed, in order, with their relationships. */
  class Session {
    var transfers: seq<(FlowFile, Relationship)>

    constructor()
      ensures transfers == []
    {
      transfers := [];
    }

    method Transfer(f: FlowFile, rel: Relationship)
      modifies this
      ensures transfers == old(transfers) + [(f, rel)]
    {
      transfers := transfers + [(f, rel)];
    }
  }

  /** The attributes the configured strategy keeps, or `None` when the
      strategy is not one of the two supported. */
  function Reconcile(attributeStrategy: string, flows: seq<FlowFile>): (r: Option<Attributes>)
    ensures r.Some? <==> attributeStrategy == ATTRIBUTE_STRATEGY_KEEP_COMMON
                         || attributeStrategy == ATTRIBUTE_STRATEGY_KEEP_ALL_UNIQUE
    ensures r.Some? ==> forall k :: k in r.value ==>
      exists i :: 0 <= i < |flows| && k in flows[i].attributes && flows[i].attributes[k] == r.value[k]
    ensures r.Some? && flows != [] ==> forall k, v :: OnAll(flows, k, v) ==> k in r.value && r.value[k] == v
  {
    if attributeStrategy == ATTRIBUTE_STRATEGY_KEEP_COMMON then
      KeepOnlyCommonIsCommonPairs(flows);
      Some(KeepOnlyCommon(flows))
    else if attributeStrategy == ATTRIBUTE_STRATEGY_KEEP_ALL_UNIQUE then
      KeepAllUniqueIsUnconflictedKeys(flows);
      UnanimousPairsAreUnconflicted(flows);
      Some(KeepAllUnique(flows))
    else None
  }

  /** A pair every member of a non-empty bin carries is carried and never
      conflicting. */
  lemma UnanimousPairsAreUnconflicted(flows: seq<FlowFile>)
    ensures forall k, v :: flows != [] && OnAll(flows, k, v) ==> Carried(flows, k) && !Conflicting(flows, k)
  {
    forall k, v | flows != [] && OnAll(flows, k, v)
      ensures Carried(flows, k) && !Conflicting(flows, k)
    {
      assert k in flows[0].attributes;
    }
  }

  /** Every check `processBin` makes before it merges passes. */
  predicate Mergeable(s: Settings, flows: seq<FlowFile>) {
    && StrategyAllowed(s)
    && (s.mergeStrategy == MERGE_STRATEGY_DEFRAGMENT ==> ValidFragmentBin(flows))
    && AttributeStrategyAllowed(s)
    && FormatAllowed(s)
  }

  /** The merged unit built from the bin's members in their final order,
      starting from the attributes of a freshly created unit. */
  function MergedUnit(s: Settings, flows: seq<FlowFile>, created: Attributes, header: seq<byte>,
                      footer: seq<byte>, demarcator: seq<byte>, archiveBytes: seq<byte>): (r: Option<FlowFile>)
    requires |flows| > 0
    ensures r.Some? <==> AttributeStrategyAllowed(s) && FormatAllowed(s)
    ensures r.Some? ==>
      && FRAGMENT_COUNT_ATTRIBUTE in r.value.attributes
      && r.value.attributes[FRAGMENT_COUNT_ATTRIBUTE] == ToDecimal(|flows|)
      && MIME_TYPE in r.value.attributes
      && r.value.attributes[MIME_TYPE] == MimeType(FormatOf(s.mergeFormat).value)
    ensures r.Some? ==>
      r.value.content == if s.mergeFormat == MERGE_FORMAT_CONCAT_VALUE
                         then ConcatContent(header, footer, demarcator, Contents(flows))
                         else archiveBytes
    ensures r.Some? ==> forall k :: k in r.value.attributes ==>
      k in created || k in Reconcile(s.attributeStrategy, flows).value
      || k == MIME_TYPE || k == FILENAME || k == FRAGMENT_COUNT_ATTRIBUTE
    ensures r.Some? ==>
      var reconciled := Reconcile(s.attributeStrategy, flows).value;
      forall k :: k in reconciled && k != MIME_TYPE && k != FILENAME && k != FRAGMENT_COUNT_ATTRIBUTE ==>
        k in r.value.attributes && r.value.attributes[k] == reconciled[k]
    ensures r.Some? ==>
      var reconciled := Reconcile(s.attributeStrategy, flows).value;
      forall k :: k in created && k !in reconciled && k != MIME_TYPE && k != FILENAME && k != FRAGMENT_COUNT_ATTRIBUTE ==>
        k in r.value.attributes && r.value.attributes[k] == created[k]
    ensures r.Some? ==>
      var start := created + Reconcile(s.attributeStrategy, flows).value;
      var name := MergedFilename(FormatOf(s.mergeFormat).value, flows, start);
      && (name.Some? ==> FILENAME in r.value.attributes && r.value.attributes[FILENAME] == name.value)
      && (name.None? ==> (FILENAME in r.value.attributes <==> FILENAME in start)
                         && (FILENAME in start ==> r.value.attributes[FILENAME] == start[FILENAME]))
  {
    var reconciled := Reconcile(s.attributeStrategy, flows);
    var format := FormatOf(s.mergeFormat);
    if reconciled.None? || format.None? then None
    else
      var merged := Merge(format.value, flows, header, footer, demarcator, archiveBytes,
                          FlowFile(created + reconciled.value, []));
      Some(FlowFile(merged.attributes[FRAGMENT_COUNT_ATTRIBUTE := ToDecimal(|flows|)], merged.content))
  }

  function Originals(flows: seq<FlowFile>): (r: seq<(FlowFile, Relationship)>)
    ensures |r| == |flows| && forall i :: 0 <= i < |flows| ==> r[i] == (flows[i], Original)
  {
    seq(|flows|, i requires 0 <= i < |flows| => (flows[i], Original))
  }

  /** `processBin`. `created` stands for the attributes of the unit the
      session creates, `archiveBytes` for the encoding the archive library
      would write, and `mergeThrows` for a merger that fails with an
      exception. The bin is never empty when the binning layer hands it
      over; the mergers read its first member. */
  method ProcessBin(s: Settings, bin: array<FlowFile>, session: Session, created: Attributes,
                    header: seq<byte>, footer: seq<byte>, demarcator: seq<byte>,
                    archiveBytes: seq<byte>, mergeThrows: bool) returns (ok: bool)
    requires bin.Length > 0
    modifies bin, session
    ensures ok <==> Mergeable(s, old(bin[..])) && !mergeThrows
    ensures !ok ==> session.transfers == old(session.transfers)
    ensures multiset(bin[..]) == multiset(old(bin[..]))
    ensures s.mergeStrategy != MERGE_STRATEGY_DEFRAGMENT ==> bin[..] == old(bin[..])
    ensures s.mergeStrategy == MERGE_STRATEGY_DEFRAGMENT && !ValidFragmentBin(old(bin[..])) ==> bin[..] == old(bin[..])
    ensures s.mergeStrategy == MERGE_STRATEGY_DEFRAGMENT && ValidFragmentBin(old(bin[..])) ==>
      AllIndexed(bin[..]) && SortedByIndex(bin[..])
    ensures ok ==>
      var unit := MergedUnit(s, bin[..], created, header, footer, demarcator, archiveBytes);
      unit.Some? && session.transfers == old(session.transfers) + [(unit.value, Merged)] + Originals(bin[..])
  {
    ok := OrderBin(s, bin);
    if !ok {
      return;
    }
    var unit := BuildUnit(s, bin[..], created, header, footer, demarcator, archiveBytes);
    if unit.None? || mergeThrows {
      return false;
    }
    Route(session, unit.value, bin);
    return true;
  }

  /** The middle of `processBin`: reconcile the members' attributes onto the
      new unit with the configured strategy, pick the merger for the
      configured format, merge, and stamp the member count; `None` when
      either option is not supported. */
  method BuildUnit(s: Settings, flows: seq<FlowFile>, created: Attributes, header: seq<byte>,
                   footer: seq<byte>, demarcator: seq<byte>, archiveBytes: seq<byte>) returns (unit: Option<FlowFile>)
    requires |flows| > 0
    ensures unit == MergedUnit(s, flows, created, header, footer, demarcator, archiveBytes)
  {
    var reconciled: Attributes;
    if s.attributeStrategy == ATTRIBUTE_STRATEGY_KEEP_COMMON {
      reconciled := KeepOnlyCommon(flows);
    } else if s.attributeStrategy == ATTRIBUTE_STRATEGY_KEEP_ALL_UNIQUE {
      reconciled := MergeAllUnique(flows);
    } else {
      return None;
    }
    var format: Format;
    if s.mergeFormat == MERGE_FORMAT_CONCAT_VALUE {
      format := Concat;
    } else if s.mergeFormat == MERGE_FORMAT_TAR_VALUE {
      format := Tar;
    } else if s.mergeFormat == MERGE_FORMAT_ZIP_VALUE {
      format := Zip;
    } else {
      return None;
    }
    var merged := Merge(format, flows, header, footer, demarcator, archiveBytes,
                        FlowFile(created + reconciled, []));
    return Some(FlowFile(merged.attributes[FRAGMENT_COUNT_ATTRIBUTE := ToDecimal(|flows|)], merged.content));
  }

  /** The first half of `processBin`: reject an unknown strategy or an
      invalid defragment bin, and sort a valid one by fragment index. */
  method OrderBin(s: Settings, bin: array<FlowFile>) returns (ok: bool)
    modifies bin
    ensures ok <==> StrategyAllowed(s) && (s.mergeStrategy == MERGE_STRATEGY_DEFRAGMENT ==> ValidFragmentBin(old(bin[..])))
    ensures multiset(bin[..]) == multiset(old(bin[..]))
    ensures s.mergeStrategy != MERGE_STRATEGY_DEFRAGMENT ==> bin[..] == old(bin[..])
    ensures s.mergeStrategy == MERGE_STRATEGY_DEFRAGMENT && !ValidFragmentBin(old(bin[..])) ==> bin[..] == old(bin[..])
    ensures s.mergeStrategy == MERGE_STRATEGY_DEFRAGMENT && ValidFragmentBin(old(bin[..])) ==>
      AllIndexed(bin[..]) && SortedByIndex(bin[..]) && ValidFragmentBin(bin[..])
  {
    if s.mergeStrategy != MERGE_STRATEGY_DEFRAGMENT && s.mergeStrategy != MERGE_STRATEGY_BIN_PACK {
      return false;
    }
    if s.mergeStrategy == MERGE_STRATEGY_DEFRAGMENT {
      ok := CheckDefragment(bin);
      if !ok {
        return;
      }
      ghost var before := bin[..];
      ValidBinHasIndices(before);
      SortByFragmentIndex(bin);
      PermutationKeepsValidity(before, bin[..]);
    }
    return true;
  }

  /** The last step of `processBin`: the merged unit goes to the merged
      relationship, then every member, in bin order, to the originals. */
  method Route(session: Session, unit: FlowFile, bin: array<FlowFile>)
    modifies session
    ensures session.transfers == old(session.transfers) + [(unit, Merged)] + Originals(bin[..])
  {
    session.Transfer(unit, Merged);
    ghost var routed := session.transfers;
    var i := 0;
    while i < bin.Length
      invariant 0 <= i <= bin.Length
      invariant session.transfers == routed + Originals(bin[..i])
    {
      assert bin[..i + 1] == bin[..i] + [bin[i]];
      session.Transfer(bin[i], Original);
      i := i + 1;
    }
    assert bin[..bin.Length] == bin[..];
  }

  /** The count stamped on the merged unit reads back as the number of
      members merged. */
  lemma CountAttributeReadsBack(s: Settings, flows: seq<FlowFile>, created: Attributes, header: seq<byte>,
                                footer: seq<byte>, demarcator: seq<byte>, archiveBytes: seq<byte>)
    requires 0 < |flows| <= INT_MAX
    requires AttributeStrategyAllowed(s) && FormatAllowed(s)
    ensures var unit := MergedUnit(s, flows, created, header, footer, demarcator, archiveBytes).value;
      FRAGMENT_COUNT_ATTRIBUTE in unit.attributes
      && ParseInt(unit.attributes[FRAGMENT_COUNT_ATTRIBUTE]) == Some(|flows|)
  {
    ParseToDecimal(|flows|);
  }

  /** With options that passed the configuration check, the checks before
      the merge reject a bin only when it is a defragment bin the validator
      rejects; the only other way `processBin` declines is a merger that
      throws. */
  lemma ValidatedSettingsRejectOnlyBadFragments(s: Settings, flows: seq<FlowFile>)
    requires ValidatePropertyOptions(s).Pass?
    ensures Mergeable(s, flows) <==>
      (s.mergeStrategy == MERGE_STRATEGY_DEFRAGMENT ==> ValidFragmentBin(flows))
  {
  }

  /** Reassembly: when a defragment bin holds each index of its fragment
      count exactly once, the concatenated content carries fragment `i` at
      the `i`-th place after sorting. */
  lemma DefragmentedConcatRestoresOrder(flows: seq<FlowFile>, header: seq<byte>, footer: seq<byte>,
                                        demarcator: seq<byte>)
    requires ValidFragmentBin(flows) && |flows| == FragmentCount(flows)
    requires forall i, j :: 0 <= i < j < |flows| ==> FragmentIndex(flows[i]) != FragmentIndex(flows[j])
    requires SortedByIndex(flows)
    ensures forall i :: 0 <= i < |flows| ==>
      var r := ConcatContent(header, footer, demarcator, Contents(flows));
      var at := |header| + Offset(demarcator, Contents(flows), i);
      FragmentIndex(flows[i]) == i
      && at + |flows[i].content| <= |r| && r[at..at + |flows[i].content|] == flows[i].content
  {
    SortedCompleteBinIsInOrder(flows);
    forall i | 0 <= i < |flows|
      ensures var r := ConcatContent(header, footer, demarcator, Contents(flows));
        var at := |header| + Offset(demarcator, Contents(flows), i);
        at + |flows[i].content| <= |r| && r[at..at + |flows[i].content|] == flows[i].content
    {
      ConcatPlacesMember(header, footer, demarcator, Contents(flows), i);
    }
  }
}
