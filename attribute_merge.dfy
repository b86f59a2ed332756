/** The two attribute-reconciliation policies of the merge step
    (`AttributeMerger::getMergedAttributes` and the two `processFlowFile`
    overrides). Both fold over the bin's members in order, starting from the
    first member's attributes. */
module AttributeMerge {
  import opened FlowFiles

  // ---------------------------------------------------------------------
  // Keep Only Common Attributes

  /** `KeepOnlyCommonAttributesMerger::processFlowFile`: the
      `std::set_intersection` of the two dictionaries viewed as sorted
      sequences of (key, value) pairs. */
  function Intersect(merged: Attributes, flow: Attributes): (r: Attributes)
    ensures r.Items == merged.Items * flow.Items
  {
    var r := map k | k in merged && k in flow && merged[k] == flow[k] :: merged[k];
    assert forall p :: p in r.Items <==> p in merged.Items && p in flow.Items by {
      forall p
        ensures p in r.Items <==> p in merged.Items && p in flow.Items
      {
        if p in merged.Items && p in flow.Items {
          assert p.0 in merged && merged[p.0] == p.1;
          assert p.0 in flow && flow[p.0] == p.1;
          assert p.0 in r && r[p.0] == p.1;
        }
        if p in r.Items {
          assert p.0 in r && r[p.0] == p.1;
        }
      }
    }
    r
  }

  /** The `std::accumulate` of `getMergedAttributes` under Keep-Common. */
  function KeepCommonFold(acc: Attributes, rest: seq<FlowFile>): (r: Attributes)
    ensures r.Items <= acc.Items
    ensures forall i :: 0 <= i < |rest| ==> r.Items <= rest[i].attributes.Items
    decreases |rest|
  {
    if rest == [] then acc else KeepCommonFold(Intersect(acc, rest[0].attributes), rest[1..])
  }

  /** `getMergedAttributes` under Keep-Common: empty for an empty bin,
      otherwise the first member's attributes folded with every later member. */
  function KeepOnlyCommon(flows: seq<FlowFile>): (r: Attributes)
    ensures flows == [] ==> r == map[]
    ensures forall i :: 0 <= i < |flows| ==> r.Items <= flows[i].attributes.Items
  {
    if flows == [] then map[] else KeepCommonFold(flows[0].attributes, flows[1..])
  }

  /** Key `k` has the value `v` on every one of `flows`. */
  predicate OnAll(flows: seq<FlowFile>, k: string, v: string) {
    forall i :: 0 <= i < |flows| ==> k in flows[i].attributes && flows[i].attributes[k] == v
  }

  lemma {:induction false} KeepCommonFoldKeepsSharedPairs(acc: Attributes, rest: seq<FlowFile>)
    ensures var r := KeepCommonFold(acc, rest);
      forall k :: k in r <==> k in acc && OnAll(rest, k, acc[k])
    ensures var r := KeepCommonFold(acc, rest);
      forall k :: k in r ==> r[k] == acc[k]
    decreases |rest|
  {
    if rest != [] {
      var next := Intersect(acc, rest[0].attributes);
      KeepCommonFoldKeepsSharedPairs(next, rest[1..]);
      forall k
        ensures k in next && OnAll(rest[1..], k, next[k]) <==> k in acc && OnAll(rest, k, acc[k])
      {
        if k in acc && OnAll(rest, k, acc[k]) {
          assert (k, acc[k]) in rest[0].attributes.Items;
          assert (k, acc[k]) in next.Items;
          forall i | 0 <= i < |rest| - 1
            ensures k in rest[1..][i].attributes && rest[1..][i].attributes[k] == next[k]
          {
            assert rest[1..][i] == rest[i + 1];
          }
        }
        if k in next && OnAll(rest[1..], k, next[k]) {
          assert (k, next[k]) in acc.Items * rest[0].attributes.Items;
          forall i | 0 <= i < |rest|
            ensures k in rest[i].attributes && rest[i].attributes[k] == acc[k]
          {
            if i > 0 {
              assert rest[1..][i - 1] == rest[i];
            }
          }
        }
      }
      forall k | k in next
        ensures next[k] == acc[k]
      {
        assert (k, next[k]) in acc.Items;
      }
    }
  }

  /** Keep-Common keeps exactly the (key, value) pairs of the first member
      that every member of the bin carries identically; an empty bin yields
      no attributes. */
  lemma KeepOnlyCommonIsCommonPairs(flows: seq<FlowFile>)
    ensures flows == [] ==> KeepOnlyCommon(flows) == map[]
    ensures forall k :: k in KeepOnlyCommon(flows) <==>
      flows != [] && k in flows[0].attributes && OnAll(flows, k, flows[0].attributes[k])
    ensures forall k :: k in KeepOnlyCommon(flows) ==>
      k in flows[0].attributes && KeepOnlyCommon(flows)[k] == flows[0].attributes[k]
  {
    if flows != [] {
      var first := flows[0].attributes;
      KeepCommonFoldKeepsSharedPairs(first, flows[1..]);
      forall k
        ensures k in first && OnAll(flows[1..], k, first[k]) <==> k in first && OnAll(flows, k, first[k])
      {
        if k in first && OnAll(flows, k, first[k]) {
          forall i | 0 <= i < |flows| - 1
            ensures k in flows[1..][i].attributes && flows[1..][i].attributes[k] == first[k]
          {
            assert flows[1..][i] == flows[i + 1];
          }
        }
        if k in first && OnAll(flows[1..], k, first[k]) {
          forall i | 0 <= i < |flows|
            ensures k in flows[i].attributes && flows[i].attributes[k] == first[k]
          {
            if i > 0 {
              assert flows[1..][i - 1] == flows[i];
            }
          }
        }
      }
    }
  }

  // ---------------------------------------------------------------------
  // Keep All Unique Attributes

  /** Member `flow` turns key `k` into a conflict: `k` is not yet excluded,
      the running result holds it, and `flow` gives it another value. */
  predicate NewConflict(merged: Attributes, removed: set<string>, flow: Attributes, k: string) {
    k in flow && k !in removed && k in merged && merged[k] != flow[k]
  }

  /** `KeepAllUniqueAttributesMerger::processFlowFile` on values: the
      running result and the set of excluded keys after one more member. */
  function UniqueStep(merged: Attributes, removed: set<string>, flow: Attributes): (r: (Attributes, set<string>))
    ensures removed <= r.1
    ensures forall k :: k in r.1 && k !in merged ==> k !in r.0
    ensures forall k :: k in r.0 ==> k in merged || k in flow
  {
    var conflicts := set k | k in flow && NewConflict(merged, removed, flow, k);
    var kept := map k | k in merged.Keys + flow.Keys && k !in conflicts && (k in merged || k !in removed)
                      :: if k in merged then merged[k] else flow[k];
    (kept, removed + conflicts)
  }

  /** The `std::accumulate` of `getMergedAttributes` under Keep-All-Unique,
      carrying the excluded keys along. */
  function UniqueFold(merged: Attributes, removed: set<string>, rest: seq<FlowFile>): (r: (Attributes, set<string>))
    ensures removed <= r.1
    ensures forall k :: k in removed && k !in merged ==> k !in r.0
    ensures r.0.Keys <= merged.Keys + AllKeys(rest)
    decreases |rest|
  {
    if rest == [] then (merged, removed)
    else
      var next := UniqueStep(merged, removed, rest[0].attributes);
      UniqueFold(next.0, next.1, rest[1..])
  }

  /** Every key some member of `flows` carries. */
  function AllKeys(flows: seq<FlowFile>): set<string>
    decreases |flows|
  {
    if flows == [] then {} else flows[0].attributes.Keys + AllKeys(flows[1..])
  }

  /** `getMergedAttributes` under Keep-All-Unique for a freshly made merger. */
  function KeepAllUnique(flows: seq<FlowFile>): (r: Attributes)
    ensures flows == [] ==> r == map[]
    ensures r.Keys <= AllKeys(flows)
  {
    if flows == [] then map[] else UniqueFold(flows[0].attributes, {}, flows[1..]).0
  }

  /** Some member carries key `k`. */
  predicate Carried(flows: seq<FlowFile>, k: string) {
    exists i :: 0 <= i < |flows| && k in flows[i].attributes
  }

  /** Two members give key `k` different values. */
  predicate Conflicting(flows: seq<FlowFile>, k: string) {
    exists i, j :: 0 <= i < |flows| && 0 <= j < |flows|
      && k in flows[i].attributes && k in flows[j].attributes
      && flows[i].attributes[k] != flows[j].attributes[k]
  }

  /** The state after folding the members `seen`: exactly the conflicting
      keys are excluded, exactly the carried, non-conflicting keys are kept,
      each with the value all its carriers give it. */
  ghost predicate UniqueInvariant(merged: Attributes, removed: set<string>, seen: seq<FlowFile>) {
    && (forall k :: k in removed <==> Conflicting(seen, k))
    && (forall k :: k in merged <==> Carried(seen, k) && !Conflicting(seen, k))
    && (forall k, i :: k in merged && 0 <= i < |seen| && k in seen[i].attributes ==>
          merged[k] == seen[i].attributes[k])
  }

  lemma UniqueInvariantStart(f: FlowFile)
    ensures UniqueInvariant(f.attributes, {}, [f])
  {
    forall k
      ensures k in f.attributes <==> Carried([f], k) && !Conflicting([f], k)
    {
      if k in f.attributes {
        assert [f][0] == f;
      }
    }
  }

  lemma UniqueInvariantStep(merged: Attributes, removed: set<string>, seen: seq<FlowFile>, f: FlowFile)
    requires UniqueInvariant(merged, removed, seen)
    ensures var next := UniqueStep(merged, removed, f.attributes);
      UniqueInvariant(next.0, next.1, seen + [f])
  {
    var next := UniqueStep(merged, removed, f.attributes);
    forall k
      ensures k in next.1 <==> Conflicting(seen + [f], k)
      ensures k in next.0 <==> Carried(seen + [f], k) && !Conflicting(seen + [f], k)
      ensures k in next.0 ==> forall i :: 0 <= i < |seen + [f]| && k in (seen + [f])[i].attributes ==>
                                 next.0[k] == (seen + [f])[i].attributes[k]
    {
      UniqueKeyStep(merged, removed, seen, f, k);
    }
  }

  /** One key's part of `UniqueInvariantStep`. */
  lemma UniqueKeyStep(merged: Attributes, removed: set<string>, seen: seq<FlowFile>, f: FlowFile, k: string)
    requires UniqueInvariant(merged, removed, seen)
    ensures var next := UniqueStep(merged, removed, f.attributes);
      && (k in next.1 <==> Conflicting(seen + [f], k))
      && (k in next.0 <==> Carried(seen + [f], k) && !Conflicting(seen + [f], k))
      && (k in next.0 ==> forall i :: 0 <= i < |seen + [f]| && k in (seen + [f])[i].attributes ==>
                             next.0[k] == (seen + [f])[i].attributes[k])
  {
    var all := seen + [f];
    var n := |seen|;
    assert all[n] == f;
    assert forall i :: 0 <= i < n ==> all[i] == seen[i];
    if Conflicting(seen, k) {
      var i, j :| 0 <= i < n && 0 <= j < n && k in seen[i].attributes && k in seen[j].attributes
                  && seen[i].attributes[k] != seen[j].attributes[k];
      assert all[i] == seen[i] && all[j] == seen[j];
      assert Conflicting(all, k);
    } else if k in merged {
      assert Carried(seen, k);
      var c :| 0 <= c < n && k in seen[c].attributes;
      assert all[c] == seen[c];
      if k in f.attributes && f.attributes[k] != merged[k] {
        assert seen[c].attributes[k] == merged[k];
        assert Conflicting(all, k);
      } else {
        forall i, j | 0 <= i < |all| && 0 <= j < |all| && k in all[i].attributes && k in all[j].attributes
          ensures all[i].attributes[k] == all[j].attributes[k]
        {
          assert all[i].attributes[k] == merged[k];
          assert all[j].attributes[k] == merged[k];
        }
      }
    } else if k in f.attributes {
      assert !Carried(seen, k);
      assert forall i :: 0 <= i < |all| && k in all[i].attributes ==> i == n;
    } else {
      assert !Carried(seen, k);
      assert !Carried(all, k);
    }
  }

  lemma {:induction false} UniqueInvariantFold(all: seq<FlowFile>, n: nat, merged: Attributes, removed: set<string>)
    requires n <= |all| && UniqueInvariant(merged, removed, all[..n])
    ensures var r := UniqueFold(merged, removed, all[n..]);
      UniqueInvariant(r.0, r.1, all)
    decreases |all| - n
  {
    if n == |all| {
      assert all[..n] == all;
      assert all[n..] == [];
    } else {
      var next := UniqueStep(merged, removed, all[n].attributes);
      UniqueInvariantStep(merged, removed, all[..n], all[n]);
      assert all[..n] + [all[n]] == all[..n + 1];
      assert all[n..][0] == all[n] && all[n..][1..] == all[n + 1..];
      assert UniqueFold(merged, removed, all[n..]) == UniqueFold(next.0, next.1, all[n + 1..]);
      UniqueInvariantFold(all, n + 1, next.0, next.1);
    }
  }

  lemma KeepAllUniqueIsUnconflictedKeys(flows: seq<FlowFile>)
    ensures forall k :: k in KeepAllUnique(flows) <==> Carried(flows, k) && !Conflicting(flows, k)
    ensures forall k, i :: k in KeepAllUnique(flows) && 0 <= i < |flows| && k in flows[i].attributes ==>
      KeepAllUnique(flows)[k] == flows[i].attributes[k]
  {
    if flows != [] {
      UniqueInvariantStart(flows[0]);
      assert flows[..1] == [flows[0]];
      UniqueInvariantFold(flows, 1, flows[0].attributes, {});
    }
  }

  /** Once two members of a prefix of the bin disagree on a key, no later
      member can bring it back: it is absent from the result. */
  lemma ConflictIsPermanent(flows: seq<FlowFile>, n: int, k: string)
    requires 0 <= n <= |flows| && Conflicting(flows[..n], k)
    ensures k !in KeepAllUnique(flows)
  {
    var i, j :| 0 <= i < n && 0 <= j < n && k in flows[..n][i].attributes && k in flows[..n][j].attributes
                && flows[..n][i].attributes[k] != flows[..n][j].attributes[k];
    assert flows[..n][i] == flows[i] && flows[..n][j] == flows[j];
    assert Conflicting(flows, k);
    KeepAllUniqueIsUnconflictedKeys(flows);
  }

  /** The distinct members of the set of strings a sequence holds. */
  function Elements(s: seq<string>): set<string> {
    set x | x in s
  }

  /** `KeepAllUniqueAttributesMerger`: the members of one bin and the keys
      found conflicting so far (`removed_attributes_`), which only grows. */
  class KeepAllUniqueAttributesMerger {
    const flows: seq<FlowFile>
    var removed: seq<string>

    constructor (flows: seq<FlowFile>)
      ensures this.flows == flows && removed == []
    {
      this.flows := flows;
      removed := [];
    }

    /** Folds one member into `merged`: a key already excluded is skipped, a
        new key is inserted, and a key held with another value is erased and
        excluded for good. */
    method ProcessFlowFile(flow: FlowFile, merged: Attributes) returns (out: Attributes)
      modifies this
      ensures (out, Elements(removed)) == UniqueStep(merged, Elements(old(removed)), flow.attributes)
      ensures old(removed) <= removed
    {
      ghost var excluded := Elements(removed);
      var attrs := flow.attributes;
      var todo := attrs.Keys;
      out := merged;
      while todo != {}
        invariant todo <= attrs.Keys
        invariant old(removed) <= removed
        invariant forall k :: k in Elements(removed) <==>
          k in excluded || (k in attrs.Keys - todo && NewConflict(merged, excluded, attrs, k))
        invariant forall k :: k in out <==>
          if k in attrs.Keys - todo
          then (k in merged && !NewConflict(merged, excluded, attrs, k)) || (k !in merged && k !in excluded)
          else k in merged
        invariant forall k :: k in out ==> out[k] == if k in merged then merged[k] else attrs[k]
        decreases todo
      {
        var k :| k in todo;
        todo := todo - {k};
        if k in removed {
          continue;
        }
        if k !in out {
          out := out[k := attrs[k]];
        } else if out[k] != attrs[k] {
          out := out - {k};
          removed := removed + [k];
        }
      }
      ghost var step := UniqueStep(merged, excluded, attrs);
      assert out == step.0;
      assert Elements(removed) == step.1;
    }

    /** `getMergedAttributes`: empty for an empty bin, otherwise the first
        member's attributes with every later member folded in. */
    method GetMergedAttributes() returns (r: Attributes)
      modifies this
      ensures r == if flows == [] then map[] else UniqueFold(flows[0].attributes, Elements(old(removed)), flows[1..]).0
      ensures flows != [] ==> Elements(removed) == UniqueFold(flows[0].attributes, Elements(old(removed)), flows[1..]).1
      ensures flows == [] ==> removed == old(removed)
      ensures old(removed) <= removed
    {
      if flows == [] {
        return map[];
      }
      ghost var target := UniqueFold(flows[0].attributes, Elements(removed), flows[1..]);
      var sum := flows[0].attributes;
      var i := 1;
      while i < |flows|
        invariant 1 <= i <= |flows|
        invariant UniqueFold(sum, Elements(removed), flows[i..]) == target
        invariant old(removed) <= removed
      {
        assert flows[i..][0] == flows[i] && flows[i..][1..] == flows[i + 1..];
        sum := ProcessFlowFile(flows[i], sum);
        i := i + 1;
      }
      assert flows[i..] == [];
      return sum;
    }
  }

  /** A freshly made merger computes Keep-All-Unique. */
  method MergeAllUnique(flows: seq<FlowFile>) returns (r: Attributes)
    ensures r == KeepAllUnique(flows)
    ensures forall k :: k in r <==> Carried(flows, k) && !Conflicting(flows, k)
  {
    var merger := new KeepAllUniqueAttributesMerger(flows);
    assert Elements(merger.removed) == {};
    r := merger.GetMergedAttributes();
    KeepAllUniqueIsUnconflictedKeys(flows);
  }
}
