/** Validation of a bin under the defragment strategy
    (`MergeContent::checkDefragment`) and the reordering of its members by
    fragment index that `MergeContent::processBin` performs on a valid bin. */
module Defragment {
  import opened Wrappers
  import opened Stoi
  import opened FlowFiles

  /** The unit carries a fragment index that `std::stoi` accepts. */
  predicate HasIndex(f: FlowFile) {
    FRAGMENT_INDEX_ATTRIBUTE in f.attributes && ParseInt(f.attributes[FRAGMENT_INDEX_ATTRIBUTE]).Some?
  }

  function FragmentIndex(f: FlowFile): int
    requires HasIndex(f)
  {
    ParseInt(f.attributes[FRAGMENT_INDEX_ATTRIBUTE]).value
  }

  /** One member agrees with the bin's first member: the same identifier
      string, the same count string, and an index in `[0, count)`. */
  predicate MemberMatches(f: FlowFile, fragId: string, fragCount: string, count: int) {
    && FRAGMENT_ID_ATTRIBUTE in f.attributes && f.attributes[FRAGMENT_ID_ATTRIBUTE] == fragId
    && FRAGMENT_COUNT_ATTRIBUTE in f.attributes && f.attributes[FRAGMENT_COUNT_ATTRIBUTE] == fragCount
    && HasIndex(f) && 0 <= FragmentIndex(f) < count
  }

  /** The first member carries an identifier and a count that parses. */
  predicate HeaderOk(flows: seq<FlowFile>) {
    && |flows| > 0
    && FRAGMENT_ID_ATTRIBUTE in flows[0].attributes
    && FRAGMENT_COUNT_ATTRIBUTE in flows[0].attributes
    && ParseInt(flows[0].attributes[FRAGMENT_COUNT_ATTRIBUTE]).Some?
  }

  function FragmentCount(flows: seq<FlowFile>): int
    requires HeaderOk(flows)
  {
    ParseInt(flows[0].attributes[FRAGMENT_COUNT_ATTRIBUTE]).value
  }

  /** The bin passes the validator: a non-empty bin whose first member
      carries an identifier and a parseable count, and every member of which
      matches them. Duplicate indices and a member count different from the
      fragment count are not rejected. */
  predicate ValidFragmentBin(flows: seq<FlowFile>) {
    && HeaderOk(flows)
    && forall i :: 0 <= i < |flows| ==>
         MemberMatches(flows[i], flows[0].attributes[FRAGMENT_ID_ATTRIBUTE],
                       flows[0].attributes[FRAGMENT_COUNT_ATTRIBUTE], FragmentCount(flows))
  }

  predicate SortedByIndex(flows: seq<FlowFile>)
    requires forall i :: 0 <= i < |flows| ==> HasIndex(flows[i])
  {
    forall i, j :: 0 <= i < j < |flows| ==> FragmentIndex(flows[i]) <= FragmentIndex(flows[j])
  }

  /** `checkDefragment`: reads the bin and answers whether it is a valid fragment set. */
  method CheckDefragment(bin: array<FlowFile>) returns (ok: bool)
    ensures ok == ValidFragmentBin(bin[..])
  {
    if bin.Length == 0 {
      return false;
    }
    var front := bin[0];
    if FRAGMENT_ID_ATTRIBUTE !in front.attributes {
      return false;
    }
    var fragId := front.attributes[FRAGMENT_ID_ATTRIBUTE];
    if FRAGMENT_COUNT_ATTRIBUTE !in front.attributes {
      return false;
    }
    var fragCount := front.attributes[FRAGMENT_COUNT_ATTRIBUTE];
    var parsedCount := ParseInt(fragCount);
    if parsedCount.None? {
      return false;
    }
    var count := parsedCount.value;
    assert bin[..][0] == front;
    assert HeaderOk(bin[..]) && FragmentCount(bin[..]) == count;
    for i := 0 to bin.Length
      invariant forall j :: 0 <= j < i ==> MemberMatches(bin[j], fragId, fragCount, count)
    {
      var flow := bin[i];
      assert bin[..][i] == flow;
      if FRAGMENT_ID_ATTRIBUTE !in flow.attributes || flow.attributes[FRAGMENT_ID_ATTRIBUTE] != fragId {
        return false;
      }
      if FRAGMENT_COUNT_ATTRIBUTE !in flow.attributes || flow.attributes[FRAGMENT_COUNT_ATTRIBUTE] != fragCount {
        return false;
      }
      if FRAGMENT_INDEX_ATTRIBUTE !in flow.attributes {
        return false;
      }
      var index := ParseInt(flow.attributes[FRAGMENT_INDEX_ATTRIBUTE]);
      if index.None? || index.value < 0 || index.value >= count {
        return false;
      }
    }
    return true;
  }

  /** Exchanges two neighbouring members of the bin. */
  method SwapAdjacent(bin: array<FlowFile>, j: int)
    requires 0 < j < bin.Length
    modifies bin
    ensures bin[..] == old(bin[..])[j - 1 := old(bin[j])][j := old(bin[j - 1])]
    ensures multiset(bin[..]) == multiset(old(bin[..]))
  {
    bin[j - 1], bin[j] := bin[j], bin[j - 1];
  }

  predicate AllIndexed(flows: seq<FlowFile>) {
    forall k :: 0 <= k < |flows| ==> HasIndex(flows[k])
  }

  /** The first `n` members are in ascending fragment-index order. */
  predicate SortedUpTo(flows: seq<FlowFile>, n: int)
    requires AllIndexed(flows) && 0 <= n <= |flows|
  {
    forall a, b :: 0 <= a < b < n ==> FragmentIndex(flows[a]) <= FragmentIndex(flows[b])
  }

  /** Mid-way through one insertion pass: the first `i + 1` members are in
      order except for member `j`, whose index is no larger than any after it. */
  predicate Inserting(flows: seq<FlowFile>, i: int, j: int) {
    && AllIndexed(flows) && 0 <= j <= i < |flows|
    && (forall a, b :: 0 <= a < b <= i && a != j && b != j ==> FragmentIndex(flows[a]) <= FragmentIndex(flows[b]))
    && (forall b :: j < b <= i ==> FragmentIndex(flows[j]) <= FragmentIndex(flows[b]))
  }

  lemma StartInserting(flows: seq<FlowFile>, i: int)
    requires 0 <= i < |flows| && AllIndexed(flows) && SortedUpTo(flows, i)
    ensures Inserting(flows, i, i)
  {
  }

  /** Swapping member `j` with a larger-indexed left neighbour moves the gap one step left. */
  lemma SwapKeepsInserting(flows: seq<FlowFile>, i: int, j: int)
    requires Inserting(flows, i, j) && j > 0
    requires FragmentIndex(flows[j - 1]) > FragmentIndex(flows[j])
    ensures Inserting(flows[j - 1 := flows[j]][j := flows[j - 1]], i, j - 1)
  {
  }

  /** Once the left neighbour's index is no larger (or there is none), the prefix is sorted. */
  lemma FinishInserting(flows: seq<FlowFile>, i: int, j: int)
    requires Inserting(flows, i, j)
    requires j == 0 || FragmentIndex(flows[j - 1]) <= FragmentIndex(flows[j])
    ensures SortedUpTo(flows, i + 1)
  {
  }

  /** One pass of insertion: moves member `i` left past every member with a
      larger index, so that the first `i + 1` members are in order. */
  method InsertIntoSortedPrefix(bin: array<FlowFile>, i: int)
    requires 0 <= i < bin.Length && AllIndexed(bin[..]) && SortedUpTo(bin[..], i)
    modifies bin
    ensures AllIndexed(bin[..]) && SortedUpTo(bin[..], i + 1)
    ensures multiset(bin[..]) == multiset(old(bin[..]))
  {
    StartInserting(bin[..], i);
    var j := i;
    while j > 0 && FragmentIndex(bin[j - 1]) > FragmentIndex(bin[j])
      invariant Inserting(bin[..], i, j)
      invariant multiset(bin[..]) == multiset(old(bin[..]))
    {
      SwapKeepsInserting(bin[..], i, j);
      SwapAdjacent(bin, j);
      j := j - 1;
    }
    FinishInserting(bin[..], i, j);
  }

  /** The `std::sort` of `processBin`: reorders the bin in place into
      ascending fragment-index order. The sort is not stable, so only
      sortedness and permutation are promised. */
  method SortByFragmentIndex(bin: array<FlowFile>)
    requires AllIndexed(bin[..])
    modifies bin
    ensures AllIndexed(bin[..])
    ensures SortedByIndex(bin[..])
    ensures multiset(bin[..]) == multiset(old(bin[..]))
  {
    var i := 0;
    while i < bin.Length
      invariant 0 <= i <= bin.Length
      invariant AllIndexed(bin[..]) && SortedUpTo(bin[..], i)
      invariant multiset(bin[..]) == multiset(old(bin[..]))
    {
      InsertIntoSortedPrefix(bin, i);
      i := i + 1;
    }
  }

  /** A valid bin's members all carry a parseable index, so the sort's
      comparator never fails on it. */
  lemma ValidBinHasIndices(flows: seq<FlowFile>)
    requires ValidFragmentBin(flows)
    ensures forall i :: 0 <= i < |flows| ==> HasIndex(flows[i]) && 0 <= FragmentIndex(flows[i]) < FragmentCount(flows)
  {
  }

  /** Reordering keeps validity: the identifier and count that every member
      shares are the same whichever member comes first. */
  lemma {:induction false} PermutationKeepsValidity(flows: seq<FlowFile>, sorted: seq<FlowFile>)
    requires ValidFragmentBin(flows)
    requires multiset(sorted) == multiset(flows)
    ensures ValidFragmentBin(sorted)
  {
    var fragId := flows[0].attributes[FRAGMENT_ID_ATTRIBUTE];
    var fragCount := flows[0].attributes[FRAGMENT_COUNT_ATTRIBUTE];
    var count := FragmentCount(flows);
    forall f | f in multiset(sorted)
      ensures MemberMatches(f, fragId, fragCount, count)
    {
      assert f in multiset(flows);
      var k :| 0 <= k < |flows| && flows[k] == f;
    }
    assert |sorted| == |multiset(sorted)| == |flows| > 0;
    assert sorted[0] in multiset(sorted);
    forall i | 0 <= i < |sorted|
      ensures MemberMatches(sorted[i], fragId, fragCount, count)
    {
      assert sorted[i] in multiset(sorted);
    }
  }

  /** Indices that strictly increase through `[0, n)` over `n` positions are
      exactly `0, 1, …, n - 1`. */
  lemma {:induction false} IncreasingIndicesAreExact(v: seq<int>)
    requires forall i, j :: 0 <= i < j < |v| ==> v[i] < v[j]
    requires forall i :: 0 <= i < |v| ==> 0 <= v[i] < |v|
    ensures forall i :: 0 <= i < |v| ==> v[i] == i
  {
    if |v| > 0 {
      var n := |v|;
      var prefix := v[..n - 1];
      forall i | 0 <= i < n - 1
        ensures 0 <= prefix[i] < n - 1
      {
        assert v[i] < v[n - 1];
      }
      IncreasingIndicesAreExact(prefix);
      if n > 1 {
        assert v[n - 2] == n - 2;
        assert v[n - 2] < v[n - 1];
      }
    }
  }

  function Indices(flows: seq<FlowFile>): (v: seq<int>)
    requires forall i :: 0 <= i < |flows| ==> HasIndex(flows[i])
    ensures |v| == |flows| && forall i :: 0 <= i < |flows| ==> v[i] == FragmentIndex(flows[i])
  {
    seq(|flows|, i requires 0 <= i < |flows| => FragmentIndex(flows[i]))
  }

  /** When a valid bin holds as many members as its fragment count with no
      index repeated (which the validator itself does not check), sorting it
      puts fragment `i` at position `i`. */
  lemma SortedCompleteBinIsInOrder(flows: seq<FlowFile>)
    requires ValidFragmentBin(flows)
    requires |flows| == FragmentCount(flows)
    requires forall i, j :: 0 <= i < j < |flows| ==> FragmentIndex(flows[i]) != FragmentIndex(flows[j])
    requires SortedByIndex(flows)
    ensures forall i :: 0 <= i < |flows| ==> FragmentIndex(flows[i]) == i
  {
    var v := Indices(flows);
    IncreasingIndicesAreExact(v);
  }

  /** The validator does not reject repeated indices, nor a member count
      different from the fragment count: a valid bin stays valid with any of
      its members repeated. */
  lemma ValidatorIgnoresDuplicates(flows: seq<FlowFile>, k: int)
    requires ValidFragmentBin(flows) && 0 <= k < |flows|
    ensures ValidFragmentBin(flows + [flows[k]])
  {
    var more := flows + [flows[k]];
    assert more[0] == flows[0];
    assert forall i :: 0 <= i < |flows| ==> more[i] == flows[i];
    assert more[|flows|] == flows[k];
  }

  /** Nor does it reject a bin missing fragments: every non-empty prefix of
      a valid bin is valid. */
  lemma ValidPrefix(flows: seq<FlowFile>, n: int)
    requires ValidFragmentBin(flows) && 0 < n <= |flows|
    ensures ValidFragmentBin(flows[..n])
  {
    assert flows[..n][0] == flows[0];
    assert forall i :: 0 <= i < n ==> flows[..n][i] == flows[i];
  }

  /** Any member without a fragment count invalidates the bin. */
  lemma MissingCountInvalidates(flows: seq<FlowFile>, k: int)
    requires 0 <= k < |flows| && FRAGMENT_COUNT_ATTRIBUTE !in flows[k].attributes
    ensures !ValidFragmentBin(flows)
  {
  }
}
