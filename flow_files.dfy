/** Flow units as the merge step sees them, and the names it uses.

    A flow unit carries a dictionary of string attributes and its content
    bytes. The attribute names and configuration values below are the
    literals the processor's headers define. */
module FlowFiles {
  import opened Wrappers

  newtype byte = x: int | 0 <= x < 256

  type Attributes = map<string, string>

  datatype FlowFile = FlowFile(attributes: Attributes, content: seq<byte>)

  // Attribute names read or written by the merge step.
  const FRAGMENT_ID_ATTRIBUTE: string := "fragment.identifier"
  const FRAGMENT_INDEX_ATTRIBUTE: string := "fragment.index"
  const FRAGMENT_COUNT_ATTRIBUTE: string := "fragment.count"
  const SEGMENT_ORIGINAL_FILENAME: string := "segment.original.filename"
  const FILENAME: string := "filename"
  const MIME_TYPE: string := "mime.type"

  // Allowed values of the processor's configuration options.
  const MERGE_STRATEGY_DEFRAGMENT: string := "Defragment"
  const MERGE_STRATEGY_BIN_PACK: string := "Bin-Packing Algorithm"
  const MERGE_FORMAT_CONCAT_VALUE: string := "Binary Concatenation"
  const MERGE_FORMAT_TAR_VALUE: string := "TAR"
  const MERGE_FORMAT_ZIP_VALUE: string := "ZIP"
  const DELIMITER_STRATEGY_FILENAME: string := "Filename"
  const DELIMITER_STRATEGY_TEXT: string := "Text"
  const ATTRIBUTE_STRATEGY_KEEP_COMMON: string := "Keep Only Common Attributes"
  const ATTRIBUTE_STRATEGY_KEEP_ALL_UNIQUE: string := "Keep All Unique Attributes"

  /** The string a `getAttribute(key, out)` call leaves in `out`: the value
      when the key is present, otherwise whatever `out` held before. */
  function ReadInto(f: FlowFile, key: string, out: string): string {
    if key in f.attributes then f.attributes[key] else out
  }
}
