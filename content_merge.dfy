/** The three content mergers (`BinaryConcatenationMerge`, `TarMerge`,
    `ZipMerge`): the content each writes, the mime type it sets and the
    filename it derives for the merged unit. */
module ContentMerge {
  import opened Wrappers
  import opened FlowFiles

  datatype Format = Concat | Tar | Zip

  /** The merger `processBin` picks for a configured format value, if any. */
  function FormatOf(value: string): (r: Option<Format>)
    ensures r == Some(Concat) <==> value == MERGE_FORMAT_CONCAT_VALUE
    ensures r == Some(Tar) <==> value == MERGE_FORMAT_TAR_VALUE
    ensures r == Some(Zip) <==> value == MERGE_FORMAT_ZIP_VALUE
  {
    if value == MERGE_FORMAT_CONCAT_VALUE then Some(Concat)
    else if value == MERGE_FORMAT_TAR_VALUE then Some(Tar)
    else if value == MERGE_FORMAT_ZIP_VALUE then Some(Zip)
    else None
  }

  /** The mime type each merger declares. */
  function MimeType(format: Format): (m: string)
    ensures format == Concat <==> m == "application/octet-stream"
    ensures format == Tar <==> m == "application/tar"
    ensures format == Zip <==> m == "application/zip"
  {
    match format
    case Concat => "application/octet-stream"
    case Tar => "application/tar"
    case Zip => "application/zip"
  }

  /** The suffix an archive merger appends to the derived filename. */
  function Extension(format: Format): string {
    match format
    case Concat => ""
    case Tar => ".tar"
    case Zip => ".zip"
  }

  /** The attribute of the first member the filename is taken from: its own
      filename when it is alone in the bin, otherwise the name of the unit it
      was split from. */
  function FilenameSource(flows: seq<FlowFile>): string {
    if |flows| == 1 then FILENAME else SEGMENT_ORIGINAL_FILENAME
  }

  /** The filename `merge` writes on the merged unit, or `None` when the
      derived name is empty and no filename is written. `current` holds the
      merged unit's attributes at that point: the archive mergers start from
      its own filename and keep it when the first member lacks the source
      attribute. */
  function MergedFilename(format: Format, flows: seq<FlowFile>, current: Attributes): (r: Option<string>)
    requires |flows| > 0
    ensures var src := FilenameSource(flows);
      src in flows[0].attributes ==>
        r == if flows[0].attributes[src] == "" then None else Some(flows[0].attributes[src] + Extension(format))
    ensures var src := FilenameSource(flows);
      src !in flows[0].attributes && format == Concat ==> r == None
    ensures var src := FilenameSource(flows);
      src !in flows[0].attributes && format != Concat ==>
        r == if FILENAME in current && current[FILENAME] != "" then Some(current[FILENAME] + Extension(format)) else None
    ensures r.Some? ==> (|r.value| > |Extension(format)|
      && r.value[|r.value| - |Extension(format)|..] == Extension(format))
  {
    var seed := if format != Concat && FILENAME in current then current[FILENAME] else "";
    var name := ReadInto(flows[0], FilenameSource(flows), seed);
    if name == "" then None else Some(name + Extension(format))
  }

  /** The contents `parts` with `sep` between each two neighbours. */
  function Join(sep: seq<byte>, parts: seq<seq<byte>>): seq<byte>
    decreases |parts|
  {
    if |parts| == 0 then []
    else if |parts| == 1 then parts[0]
    else parts[0] + sep + Join(sep, parts[1..])
  }

  function TotalLength(parts: seq<seq<byte>>): nat
    decreases |parts|
  {
    if parts == [] then 0 else |parts[0]| + TotalLength(parts[1..])
  }

  /** Where part `i` starts inside `Join(sep, parts)`. */
  function Offset(sep: seq<byte>, parts: seq<seq<byte>>, i: nat): nat
    requires i <= |parts|
  {
    TotalLength(parts[..i]) + i * |sep|
  }

  /** The joined content is as long as the parts plus one separator between
      each two of them. */
  lemma {:induction false} JoinLength(sep: seq<byte>, parts: seq<seq<byte>>)
    ensures |Join(sep, parts)| == TotalLength(parts) + (if parts == [] then 0 else (|parts| - 1) * |sep|)
    decreases |parts|
  {
    if |parts| == 1 {
      assert parts[1..] == [];
    } else if |parts| > 1 {
      JoinLength(sep, parts[1..]);
    }
  }

  lemma SliceOfAppend(a: seq<byte>, b: seq<byte>, lo: nat, hi: nat)
    requires |a| <= lo <= hi <= |a| + |b|
    ensures (a + b)[lo..hi] == b[lo - |a|..hi - |a|]
  {
  }

  lemma OffsetStep(sep: seq<byte>, parts: seq<seq<byte>>, i: nat)
    requires 0 < i <= |parts|
    ensures Offset(sep, parts, i) == |parts[0]| + |sep| + Offset(sep, parts[1..], i - 1)
  {
    assert parts[..i][1..] == parts[1..][..i - 1];
    assert parts[..i][0] == parts[0];
  }

  lemma JoinPlacesFirst(sep: seq<byte>, parts: seq<seq<byte>>)
    requires |parts| > 0
    ensures Offset(sep, parts, 0) == 0
    ensures |parts[0]| <= |Join(sep, parts)| && Join(sep, parts)[..|parts[0]|] == parts[0]
    ensures |parts| > 1 ==>
      |parts[0]| + |sep| <= |Join(sep, parts)| && Join(sep, parts)[|parts[0]|..|parts[0]| + |sep|] == sep
  {
    assert parts[..0] == [];
    if |parts| > 1 {
      var head := parts[0] + sep;
      assert Join(sep, parts) == head + Join(sep, parts[1..]);
      assert head[..|parts[0]|] == parts[0];
      assert head[|parts[0]|..|parts[0]| + |sep|] == sep;
    }
  }

  /** Part `i` sits unchanged at its offset in the joined content, and a
      separator follows every part but the last. */
  lemma {:induction false} JoinPlacesParts(sep: seq<byte>, parts: seq<seq<byte>>, i: nat)
    requires i < |parts|
    ensures Offset(sep, parts, i) + |parts[i]| <= |Join(sep, parts)|
    ensures Join(sep, parts)[Offset(sep, parts, i)..Offset(sep, parts, i) + |parts[i]|] == parts[i]
    ensures i < |parts| - 1 ==>
      var end := Offset(sep, parts, i) + |parts[i]|;
      end + |sep| <= |Join(sep, parts)| && Join(sep, parts)[end..end + |sep|] == sep
    decreases |parts|
  {
    JoinLength(sep, parts);
    if i == 0 {
      JoinPlacesFirst(sep, parts);
    } else {
      var rest := parts[1..];
      var head := parts[0] + sep;
      JoinPlacesParts(sep, rest, i - 1);
      JoinLength(sep, rest);
      OffsetStep(sep, parts, i);
      assert Join(sep, parts) == head + Join(sep, rest);
      assert rest[i - 1] == parts[i];
      var off := Offset(sep, rest, i - 1);
      SliceOfAppend(head, Join(sep, rest), |head| + off, |head| + off + |parts[i]|);
      if i < |parts| - 1 {
        var end := off + |parts[i]|;
        SliceOfAppend(head, Join(sep, rest), |head| + end, |head| + end + |sep|);
      }
    }
  }

  /** `BinaryConcatenationMerge`'s content: the header, the members' contents
      in bin order with the demarcator between each two, then the footer. */
  function ConcatContent(header: seq<byte>, footer: seq<byte>, demarcator: seq<byte>, contents: seq<seq<byte>>): (r: seq<byte>)
    ensures |r| >= |header| + |footer|
    ensures r[..|header|] == header && r[|r| - |footer|..] == footer
  {
    var r := header + Join(demarcator, contents) + footer;
    assert r[..|header|] == header;
    assert r[|r| - |footer|..] == footer;
    r
  }

  /** The merged content is as long as header, contents, demarcators and
      footer together. */
  lemma ConcatLength(header: seq<byte>, footer: seq<byte>, demarcator: seq<byte>, contents: seq<seq<byte>>)
    ensures |ConcatContent(header, footer, demarcator, contents)| == |header| + TotalLength(contents)
      + (if contents == [] then 0 else (|contents| - 1) * |demarcator|) + |footer|
  {
    JoinLength(demarcator, contents);
  }

  /** Member `i`'s content sits unchanged after the header at its offset in
      the joined body. */
  lemma ConcatPlacesMember(header: seq<byte>, footer: seq<byte>, demarcator: seq<byte>, contents: seq<seq<byte>>, i: nat)
    requires i < |contents|
    ensures var r := ConcatContent(header, footer, demarcator, contents);
      var at := |header| + Offset(demarcator, contents, i);
      at + |contents[i]| <= |r| && r[at..at + |contents[i]|] == contents[i]
  {
    var body := Join(demarcator, contents);
    JoinPlacesParts(demarcator, contents, i);
    var off := Offset(demarcator, contents, i);
    assert ConcatContent(header, footer, demarcator, contents) == header + (body + footer);
    SliceOfAppend(header, body + footer, |header| + off, |header| + off + |contents[i]|);
    assert (body + footer)[off..off + |contents[i]|] == body[off..off + |contents[i]|];
  }

  function Contents(flows: seq<FlowFile>): (c: seq<seq<byte>>)
    ensures |c| == |flows| && forall i :: 0 <= i < |flows| ==> c[i] == flows[i].content
  {
    seq(|flows|, i requires 0 <= i < |flows| => flows[i].content)
  }

  /** With no header, footer or demarcator, concatenation is the plain
      succession of the members' contents. */
  lemma {:induction false} PlainConcatenation(flows: seq<FlowFile>)
    ensures ConcatContent([], [], [], Contents(flows)) == Flatten(Contents(flows))
  {
    JoinIsFlattenWithoutSeparator(Contents(flows));
  }

  function Flatten(parts: seq<seq<byte>>): seq<byte>
    decreases |parts|
  {
    if parts == [] then [] else parts[0] + Flatten(parts[1..])
  }

  lemma {:induction false} JoinIsFlattenWithoutSeparator(parts: seq<seq<byte>>)
    ensures Join([], parts) == Flatten(parts)
    decreases |parts|
  {
    if |parts| == 1 {
      assert parts[1..] == [];
      assert Flatten(parts) == parts[0] + Flatten([]);
    } else if |parts| > 1 {
      JoinIsFlattenWithoutSeparator(parts[1..]);
    }
  }

  /** `MergeBin::merge` on values: the merged unit after the merger has
      written its content, its mime type and, when one is derived, its
      filename. The archive encodings are produced by a library outside this
      model, so their bytes are an input here. */
  function Merge(format: Format, flows: seq<FlowFile>, header: seq<byte>, footer: seq<byte>,
                 demarcator: seq<byte>, archiveBytes: seq<byte>, merged: FlowFile): (r: FlowFile)
    requires |flows| > 0
    ensures r.content == if format == Concat then ConcatContent(header, footer, demarcator, Contents(flows))
                         else archiveBytes
    ensures MIME_TYPE in r.attributes && r.attributes[MIME_TYPE] == MimeType(format)
    ensures var name := MergedFilename(format, flows, merged.attributes);
      name.Some? ==> FILENAME in r.attributes && r.attributes[FILENAME] == name.value
    ensures forall k :: k in merged.attributes && k != MIME_TYPE && k != FILENAME ==>
      k in r.attributes && r.attributes[k] == merged.attributes[k]
    ensures r.attributes.Keys <= merged.attributes.Keys + {MIME_TYPE, FILENAME}
    ensures MergedFilename(format, flows, merged.attributes).None? ==>
      (FILENAME in r.attributes <==> FILENAME in merged.attributes)
      && (FILENAME in merged.attributes ==> r.attributes[FILENAME] == merged.attributes[FILENAME])
  {
    var content := if format == Concat then ConcatContent(header, footer, demarcator, Contents(flows))
                   else archiveBytes;
    var withMime := merged.attributes[MIME_TYPE := MimeType(format)];
    assert FILENAME != MIME_TYPE;
    var name := MergedFilename(format, flows, withMime);
    assert name == MergedFilename(format, flows, merged.attributes);
    FlowFile(if name.Some? then withMime[FILENAME := name.value] else withMime, content)
  }
}
