/** The two compaction callbacks of the splaying scheme: the merge operator
    `SplayMerge` and the compaction filter `SplayFilter`. Both are stateless,
    so each is modelled as a function of its call-scoped inputs. */
module SplayFilter {
  import opened Wrappers

  /** The reserved placeholder string `splayed_val`: the merge operator
      must never receive it as an operand, and the compaction filter drops
      every entry that holds it. */
  const SplayedVal: string := "this key was splayed"

  /** No value in `values` is the placeholder. */
  predicate NoSentinel(values: seq<string>) {
    forall i :: 0 <= i < |values| ==> values[i] != SplayedVal
  }

  // ---------------------------------------------------------------------
  // Merge operator
  // ---------------------------------------------------------------------

  /** What the engine hands to `FullMergeV2`: the key, the value already
      stored for it (absent on a first write) and the pending operands,
      oldest first. */
  datatype MergeInput = MergeInput(key: string, existingValue: Option<string>, operandList: seq<string>)

  /** Folding operands into an accumulator the way the merge loop does:
      every operand in turn replaces what was there. */
  function Fold(acc: string, operands: seq<string>): string
    decreases |operands|
  {
    if operands == [] then acc else Fold(operands[0], operands[1..])
  }

  /** The value a full merge produces: the fold starts from the existing
      value, or from the empty string when there is none. */
  function MergedValue(existing: Option<string>, operands: seq<string>): string {
    Fold(existing.GetOr(""), operands)
  }

  /** A fold ends on its last operand, or on the accumulator if there is none. */
  lemma {:induction false} FoldLastWins(acc: string, operands: seq<string>)
    ensures Fold(acc, operands) == if operands == [] then acc else operands[|operands| - 1]
    decreases |operands|
  {
    if operands != [] {
      FoldLastWins(operands[0], operands[1..]);
    }
  }

  /** Folding `xs` and then `ys` is folding `xs + ys`. */
  lemma {:induction false} FoldRegroup(acc: string, xs: seq<string>, ys: seq<string>)
    ensures Fold(Fold(acc, xs), ys) == Fold(acc, xs + ys)
    decreases |xs|
  {
    if xs != [] {
      assert (xs + ys)[0] == xs[0];
      assert (xs + ys)[1..] == xs[1..] + ys;
      FoldRegroup(xs[0], xs[1..], ys);
    } else {
      assert xs + ys == ys;
    }
  }

  /** A fold that starts and continues with non-placeholder values never
      yields the placeholder. */
  lemma {:induction false} FoldNeverSentinel(acc: string, operands: seq<string>)
    requires acc != SplayedVal
    requires NoSentinel(operands)
    ensures Fold(acc, operands) != SplayedVal
    decreases |operands|
  {
    if operands != [] {
      assert operands[0] != SplayedVal;
      FoldNeverSentinel(operands[0], operands[1..]);
    }
  }

  /** The three outcomes of a full merge: the last operand wins whatever
      was stored; with no operands the stored value comes back unchanged;
      with neither, the result is empty. */
  lemma {:induction false} MergeResult(existing: Option<string>, operands: seq<string>)
    ensures operands != [] ==> MergedValue(existing, operands) == operands[|operands| - 1]
    ensures operands == [] && existing.Some? ==> MergedValue(existing, operands) == existing.value
    ensures operands == [] && existing.None? ==> MergedValue(existing, operands) == ""
  {
    FoldLastWins(existing.GetOr(""), operands);
  }

  /** Merging a prefix of the operands, then merging that result with the
      rest, equals merging all operands at once; so the engine may merge
      operands incrementally. */
  lemma {:induction false} MergeRegroup(existing: Option<string>, operands: seq<string>, k: nat)
    requires k <= |operands|
    ensures MergedValue(Some(MergedValue(existing, operands[..k])), operands[k..])
         == MergedValue(existing, operands)
  {
    FoldRegroup(existing.GetOr(""), operands[..k], operands[k..]);
    assert operands[..k] + operands[k..] == operands;
  }

  /** A merge whose inputs are not the placeholder never produces it. */
  lemma {:induction false} MergeNeverSentinel(existing: Option<string>, operands: seq<string>)
    requires existing != Some(SplayedVal)
    requires NoSentinel(operands)
    ensures MergedValue(existing, operands) != SplayedVal
  {
    assert existing.GetOr("") != SplayedVal;
    FoldNeverSentinel(existing.GetOr(""), operands);
  }

  /** `SplayMerge::FullMergeV2`. `priorNewValue` is whatever the output
      buffer held on entry; the method clears it, copies in the existing
      value if there is one, and then lets every operand overwrite it. The
      debug assertion that no operand is the placeholder is the requires. */
  method FullMergeV2(mergeIn: MergeInput, priorNewValue: string) returns (ok: bool, newValue: string)
    requires NoSentinel(mergeIn.operandList)
    ensures ok
    ensures newValue == MergedValue(mergeIn.existingValue, mergeIn.operandList)
    ensures mergeIn.operandList != [] ==> newValue == mergeIn.operandList[|mergeIn.operandList| - 1]
    ensures mergeIn.operandList == [] ==> newValue == mergeIn.existingValue.GetOr("")
  {
    var operands := mergeIn.operandList;
    ghost var start := mergeIn.existingValue.GetOr("");
    newValue := priorNewValue;
    newValue := "";  // new_value.clear(): the buffer's earlier content is dropped
    if mergeIn.existingValue.Some? {
      newValue := mergeIn.existingValue.value;
    }
    for i := 0 to |operands|
      invariant newValue == Fold(start, operands[..i])
    {
      assert operands[i] != SplayedVal;
      FoldLastWins(start, operands[..i + 1]);
      newValue := operands[i];
    }
    assert operands[..|operands|] == operands;
    MergeResult(mergeIn.existingValue, operands);
    ok := true;
  }

  // ---------------------------------------------------------------------
  // Compaction filter
  // ---------------------------------------------------------------------

  /** What `Filter` hands back to the engine: the drop decision and the
      two output parameters `new_value` and `value_changed`. */
  datatype FilterResult = FilterResult(remove: bool, newValue: string, valueChanged: bool)

  /** `SplayFilter::Filter`: drop a stored value exactly when it is the
      placeholder; `level` and `key` play no part, and the output
      parameters are returned as they came in. */
  function Filter(level: int, key: string, existingValue: string, newValue: string, valueChanged: bool): (r: FilterResult)
    ensures r.remove <==> existingValue == SplayedVal
    ensures r.newValue == newValue && r.valueChanged == valueChanged
  {
    FilterResult(SplayedVal == existingValue, newValue, valueChanged)
  }

  /** `SplayFilter::FilterMergeOperand`: the same rule for pending operands. */
  function FilterMergeOperand(level: int, key: string, existingValue: string): (remove: bool)
    ensures remove <==> existingValue == SplayedVal
  {
    SplayedVal == existingValue
  }

  /** Both filter entry points decide alike, and neither depends on the
      level or the key. */
  lemma FilterRulesAgree(level1: int, key1: string, level2: int, key2: string, v: string, newValue: string, valueChanged: bool)
    ensures Filter(level1, key1, v, newValue, valueChanged) == Filter(level2, key2, v, newValue, valueChanged)
    ensures FilterMergeOperand(level1, key1, v) == FilterMergeOperand(level2, key2, v)
    ensures Filter(level1, key1, v, newValue, valueChanged).remove == FilterMergeOperand(level1, key1, v)
  {
  }

  /** Whatever the merge operator writes from non-placeholder inputs is kept
      by the compaction filter, at every level and for every key. */
  lemma {:induction false} MergedValueSurvivesFilter(existing: Option<string>, operands: seq<string>,
                                                     level: int, key: string, newValue: string, valueChanged: bool)
    requires existing != Some(SplayedVal)
    requires NoSentinel(operands)
    ensures !Filter(level, key, MergedValue(existing, operands), newValue, valueChanged).remove
    ensures !FilterMergeOperand(level, key, MergedValue(existing, operands))
  {
    MergeNeverSentinel(existing, operands);
  }
}
