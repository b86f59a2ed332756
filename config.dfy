/** The processor's configuration and its set-up time check
    (`MergeContent::validatePropertyOptions`). */
module Config {
  import opened Wrappers
  import opened FlowFiles

  /** The string-valued options the merge step reads after scheduling. */
  datatype Settings = Settings(
    mergeStrategy: string,
    mergeFormat: string,
    correlationAttributeName: string,
    delimiterStrategy: string,
    attributeStrategy: string)

  predicate StrategyAllowed(s: Settings) {
    s.mergeStrategy == MERGE_STRATEGY_DEFRAGMENT || s.mergeStrategy == MERGE_STRATEGY_BIN_PACK
  }

  predicate FormatAllowed(s: Settings) {
    s.mergeFormat == MERGE_FORMAT_CONCAT_VALUE || s.mergeFormat == MERGE_FORMAT_TAR_VALUE
    || s.mergeFormat == MERGE_FORMAT_ZIP_VALUE
  }

  predicate DelimiterAllowed(s: Settings) {
    s.delimiterStrategy == DELIMITER_STRATEGY_FILENAME || s.delimiterStrategy == DELIMITER_STRATEGY_TEXT
  }

  predicate AttributeStrategyAllowed(s: Settings) {
    s.attributeStrategy == ATTRIBUTE_STRATEGY_KEEP_COMMON
    || s.attributeStrategy == ATTRIBUTE_STRATEGY_KEEP_ALL_UNIQUE
  }

  /** The configuration check as the source writes it: the four options are
      checked in order and the first bad one throws. The message of the first
      check names the attribute strategy's value, not the merge strategy's. */
  function ValidatePropertyOptionsAsWritten(s: Settings): (r: Outcome<string>)
    ensures r.Pass? <==>
      StrategyAllowed(s) && FormatAllowed(s) && DelimiterAllowed(s) && AttributeStrategyAllowed(s)
    ensures !StrategyAllowed(s) ==> r == Fail("Invalid merge strategy: " + s.attributeStrategy)
  {
    if !StrategyAllowed(s) then Fail("Invalid merge strategy: " + s.attributeStrategy)
    else if !FormatAllowed(s) then Fail("Invalid merge format: " + s.mergeFormat)
    else if !DelimiterAllowed(s) then Fail("Invalid delimiter strategy: " + s.delimiterStrategy)
    else if !AttributeStrategyAllowed(s) then Fail("Invalid attribute strategy: " + s.attributeStrategy)
    else Pass
  }

  /** The configuration check with every error message naming the offending value. */
  function ValidatePropertyOptions(s: Settings): (r: Outcome<string>)
    ensures r.Pass? <==>
      StrategyAllowed(s) && FormatAllowed(s) && DelimiterAllowed(s) && AttributeStrategyAllowed(s)
    ensures !StrategyAllowed(s) ==> r == Fail("Invalid merge strategy: " + s.mergeStrategy)
    ensures StrategyAllowed(s) && !FormatAllowed(s) ==> r == Fail("Invalid merge format: " + s.mergeFormat)
    ensures StrategyAllowed(s) && FormatAllowed(s) && !DelimiterAllowed(s) ==>
      r == Fail("Invalid delimiter strategy: " + s.delimiterStrategy)
    ensures StrategyAllowed(s) && FormatAllowed(s) && DelimiterAllowed(s) && !AttributeStrategyAllowed(s) ==>
      r == Fail("Invalid attribute strategy: " + s.attributeStrategy)
    ensures r.Fail? ==> r == ValidatePropertyOptionsAsWritten(s) || !StrategyAllowed(s)
  {
    if !StrategyAllowed(s) then Fail("Invalid merge strategy: " + s.mergeStrategy)
    else ValidatePropertyOptionsAsWritten(s)
  }

  /** The two checks accept exactly the same settings; they differ only in
      the message given for a bad merge strategy. */
  lemma ValidationAgrees(s: Settings)
    ensures ValidatePropertyOptions(s).Pass? == ValidatePropertyOptionsAsWritten(s).Pass?
    ensures StrategyAllowed(s) ==> ValidatePropertyOptions(s) == ValidatePropertyOptionsAsWritten(s)
  {
  }

  /** The message the source throws for a bad merge strategy does not report
      that strategy: whenever the two options differ (always so when the
      attribute strategy is itself valid), the message names the wrong value. */
  lemma MergeStrategyMessageNamesWrongOption(s: Settings)
    requires !StrategyAllowed(s) && s.attributeStrategy != s.mergeStrategy
    ensures ValidatePropertyOptionsAsWritten(s).Fail?
    ensures ValidatePropertyOptionsAsWritten(s).error != "Invalid merge strategy: " + s.mergeStrategy
    ensures ValidatePropertyOptions(s).error == "Invalid merge strategy: " + s.mergeStrategy
  {
    var prefix := "Invalid merge strategy: ";
    var written := prefix + s.attributeStrategy;
    var intended := prefix + s.mergeStrategy;
    assert written[|prefix|..] == s.attributeStrategy;
    assert intended[|prefix|..] == s.mergeStrategy;
  }

  /** The defaults the option declarations give pass the check. */
  lemma DefaultsAreValid()
    ensures ValidatePropertyOptions(Settings(MERGE_STRATEGY_DEFRAGMENT, MERGE_FORMAT_CONCAT_VALUE, "",
                                             DELIMITER_STRATEGY_FILENAME, ATTRIBUTE_STRATEGY_KEEP_COMMON)).Pass?
  {
  }
}
