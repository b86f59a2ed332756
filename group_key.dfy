/** The key a flow unit is binned under (`MergeContent::getGroupId`). */
module GroupKey {
  import opened FlowFiles
  import opened Config

  /** The correlation attribute's value, when one is configured and the unit
      carries it with a non-empty value; under the defragment strategy
      otherwise the fragment identifier, when the unit carries one; otherwise
      the empty key. Resolution never fails. */
  function GetGroupId(s: Settings, f: FlowFile): (key: string)
    ensures var corr := s.correlationAttributeName;
      corr != "" && corr in f.attributes && f.attributes[corr] != "" ==> key == f.attributes[corr]
    ensures var corr := s.correlationAttributeName;
      !(corr != "" && corr in f.attributes && f.attributes[corr] != "") ==>
        key == (if s.mergeStrategy == MERGE_STRATEGY_DEFRAGMENT && FRAGMENT_ID_ATTRIBUTE in f.attributes
                then f.attributes[FRAGMENT_ID_ATTRIBUTE] else "")
    ensures key == "" || key in f.attributes.Values
  {
    var corr := s.correlationAttributeName;
    var byCorrelation := if corr != "" then ReadInto(f, corr, "") else "";
    if byCorrelation == "" && s.mergeStrategy == MERGE_STRATEGY_DEFRAGMENT then
      ReadInto(f, FRAGMENT_ID_ATTRIBUTE, byCorrelation)
    else
      byCorrelation
  }

  /** Under the defragment strategy with no correlation attribute configured,
      the fragments of one original unit share a key and fragments of
      different originals do not. */
  lemma FragmentsOfOneUnitShareKey(s: Settings, f: FlowFile, g: FlowFile)
    requires s.mergeStrategy == MERGE_STRATEGY_DEFRAGMENT && s.correlationAttributeName == ""
    requires FRAGMENT_ID_ATTRIBUTE in f.attributes && FRAGMENT_ID_ATTRIBUTE in g.attributes
    ensures GetGroupId(s, f) == GetGroupId(s, g)
      <==> f.attributes[FRAGMENT_ID_ATTRIBUTE] == g.attributes[FRAGMENT_ID_ATTRIBUTE]
  {
  }

  /** Under bin-packing the fragment identifier plays no part: only the
      correlation attribute decides the key. */
  lemma BinPackIgnoresFragmentId(s: Settings, f: FlowFile, g: FlowFile)
    requires s.mergeStrategy == MERGE_STRATEGY_BIN_PACK
    requires s.correlationAttributeName != FRAGMENT_ID_ATTRIBUTE
    requires g.attributes == f.attributes - {FRAGMENT_ID_ATTRIBUTE}
    ensures GetGroupId(s, f) == GetGroupId(s, g)
  {
  }
}
