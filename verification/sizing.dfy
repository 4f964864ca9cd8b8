/** The sizing advisor: given an instance type `<family>.<size>` and the
    average CPU utilisation, propose the adjacent size one tier up or down,
    but only when the provider confirms that the candidate type exists. */
module Sizing {
  import opened Wrappers

  /** The size tiers shared by every instance family, smallest first. */
  const SizeOrder: seq<string> := [
    "nano", "micro", "small", "medium", "large",
    "xlarge", "2xlarge", "4xlarge", "8xlarge",
    "12xlarge", "16xlarge", "24xlarge", "32xlarge", "48xlarge", "64xlarge"]

  /** Every tier appears once, so a tier has a single position. */
  lemma SizeOrderDistinct()
    ensures forall i, j :: 0 <= i < j < |SizeOrder| ==> SizeOrder[i] != SizeOrder[j]
  {
  }

  /** Position of the last `.` in `s`, if any. */
  function LastDot(s: string): (r: Option<nat>)
    ensures r.None? <==> '.' !in s
    ensures r.Some? ==> r.value < |s| && s[r.value] == '.' && '.' !in s[r.value + 1..]
  {
    if |s| == 0 then None
    else if s[|s| - 1] == '.' then Some(|s| - 1)
    else
      var r := LastDot(s[..|s| - 1]);
      assert r.Some? ==> s[r.value + 1..] == s[..|s| - 1][r.value + 1..] + [s[|s| - 1]];
      assert '.' !in s[..|s| - 1] ==> s == s[..|s| - 1] + [s[|s| - 1]];
      r
  }

  /** Python's `current_type.rsplit('.', 1)` guarded by `'.' in current_type`:
      `None` when there is no separator, otherwise family and size split at
      the last `.`. */
  function SplitType(t: string): (r: Option<(string, string)>)
    ensures r.None? <==> '.' !in t
    ensures r.Some? ==> t == r.value.0 + "." + r.value.1 && '.' !in r.value.1
  {
    match LastDot(t)
    case None => None
    case Some(i) =>
      assert t == t[..i] + "." + t[i + 1..];
      Some((t[..i], t[i + 1..]))
  }

  /** Splitting undoes joining whenever the size has no `.`: the family may
      itself contain dots (`a.b.medium` has family `a.b`). */
  lemma SplitJoin(family: string, size: string)
    requires '.' !in size
    ensures SplitType(family + "." + size) == Some((family, size))
  {
    var t := family + "." + size;
    assert t[|family|] == '.';
    var r := SplitType(t);
    var i := LastDot(t).value;
    assert r == Some((t[..i], t[i + 1..]));
    assert t[|family| + 1..] == size;
    assert i == |family|;
    assert t[..i] == family;
    assert t[i + 1..] == size;
  }

  /** Position of a size in the tier list, as `SIZE_ORDER.index(size)`: the
      first occurrence. */
  function IndexOf(xs: seq<string>, x: string): (r: Option<nat>)
    ensures r.Some? <==> x in xs
    ensures r.Some? ==> r.value < |xs| && xs[r.value] == x && x !in xs[..r.value]
  {
    if |xs| == 0 then None
    else if xs[0] == x then Some(0)
    else
      match IndexOf(xs[1..], x)
      case None => None
      case Some(i) =>
        assert xs[..i + 1] == [xs[0]] + xs[1..][..i];
        Some(i + 1)
  }

  function Tier(size: string): (r: Option<nat>)
    ensures r.Some? <==> size in SizeOrder
    ensures r.Some? ==> r.value < |SizeOrder| && SizeOrder[r.value] == size
  {
    IndexOf(SizeOrder, size)
  }

  /** The tier of a size is its unique position in the tier list. */
  lemma TierOf(i: nat)
    requires i < |SizeOrder|
    ensures Tier(SizeOrder[i]) == Some(i)
  {
    SizeOrderDistinct();
  }

  /** The band edges: scale down below half the threshold, up from one and a
      half times it. For a non-negative threshold the lower edge lies at or
      below the threshold and the upper edge at or above it. */
  function LowerThreshold(threshold: real): (r: real)
    ensures threshold >= 0.0 ==> 0.0 <= r <= threshold
    ensures r + r == threshold
  {
    threshold / 2.0
  }

  function UpperThreshold(threshold: real): (r: real)
    ensures threshold >= 0.0 ==> threshold <= r
    ensures r + r == threshold + threshold + threshold
  {
    threshold * 1.5
  }

  /** The band is non-empty or a single point exactly when the threshold is
      not negative; a negative threshold puts the upper edge below the lower
      one, and the upsize test, which comes first, then wins on the overlap. */
  lemma ThresholdBand(threshold: real)
    ensures LowerThreshold(threshold) <= UpperThreshold(threshold) <==> threshold >= 0.0
    ensures LowerThreshold(threshold) == UpperThreshold(threshold) <==> threshold == 0.0
  {
  }

  /** The existence check around `describe_instance_types`: a raised
      exception (`Err`) or a falsy answer both mean "no suggestion". */
  function Confirm(candidate: string, typeExists: string -> Result<bool, string>): (r: Option<string>)
    ensures r.Some? <==> typeExists(candidate) == Ok(true)
    ensures r.Some? ==> r.value == candidate
  {
    match typeExists(candidate)
    case Ok(true) => Some(candidate)
    case Ok(false) => None
    case Err(_) => None
  }

  /** The adjacent-size suggestion for `currentType` at average CPU `avgCpu`,
      or `None` when no change is proposed. */
  function SuggestInstanceType(currentType: string, avgCpu: real, threshold: real,
                               typeExists: string -> Result<bool, string>): (r: Option<string>)
    // malformed types never get a suggestion
    ensures '.' !in currentType ==> r.None?
    ensures SplitType(currentType).Some? && SplitType(currentType).value.1 !in SizeOrder ==> r.None?
    // inside the band nothing is proposed, whatever the size or the oracle says
    ensures LowerThreshold(threshold) <= avgCpu < UpperThreshold(threshold) ==> r.None?
    // a proposal was confirmed by the provider and differs from the current type
    ensures r.Some? ==> typeExists(r.value) == Ok(true) && r.value != currentType
    // a proposal keeps the family and moves exactly one tier, in the direction the load asks
    ensures r.Some? && avgCpu >= UpperThreshold(threshold) ==> Adjacent(currentType, r.value, 1)
    ensures r.Some? && avgCpu < UpperThreshold(threshold) ==>
              avgCpu < LowerThreshold(threshold) && Adjacent(currentType, r.value, -1)
  {
    match SplitType(currentType)
    case None => None
    case Some((family, size)) =>
      match Tier(size)
      case None => None
      case Some(idx) =>
        if avgCpu >= UpperThreshold(threshold) then
          if idx < |SizeOrder| - 1 then
            var candidate := family + "." + SizeOrder[idx + 1];
            MovedTier(family, idx, idx + 1);
            Confirm(candidate, typeExists)
          else None
        else if avgCpu < LowerThreshold(threshold) then
          if idx > 0 then
            var candidate := family + "." + SizeOrder[idx - 1];
            MovedTier(family, idx, idx - 1);
            Confirm(candidate, typeExists)
          else None
        else None
  }

  /** Joining the family to a different dot-free size gives a different
      type that splits back into that family and size. */
  lemma JoinOther(family: string, size: string, other: string)
    requires '.' !in size && '.' !in other && size != other
    ensures SplitType(family + "." + other) == Some((family, other))
    ensures family + "." + other != family + "." + size
  {
    SplitJoin(family, other);
    SplitJoin(family, size);
  }

  /** Whether `to` is `from` moved by `step` tiers within the same family:
      both split into a family and a known size, the families agree, and the
      tiers differ by `step`. */
  predicate Adjacent(from: string, to: string, step: int)
  {
    && SplitType(from).Some? && SplitType(to).Some?
    && SplitType(to).value.0 == SplitType(from).value.0
    && Tier(SplitType(from).value.1).Some? && Tier(SplitType(to).value.1).Some?
    && Tier(SplitType(to).value.1).value == Tier(SplitType(from).value.1).value + step
  }

  /** `family.<tier j>` is `j - i` tiers away from `family.<tier i>` in the
      same family, and differs from it. */
  lemma MovedTier(family: string, i: nat, j: nat)
    requires i < |SizeOrder| && j < |SizeOrder| && i != j
    ensures Adjacent(family + "." + SizeOrder[i], family + "." + SizeOrder[j], j - i)
    ensures family + "." + SizeOrder[j] != family + "." + SizeOrder[i]
  {
    TierOf(i);
    TierOf(j);
    SizesHaveNoDot(i);
    SizesHaveNoDot(j);
    JoinOther(family, SizeOrder[i], SizeOrder[j]);
    SplitJoin(family, SizeOrder[i]);
  }

  lemma SizesHaveNoDot(i: nat)
    requires i < |SizeOrder|
    ensures '.' !in SizeOrder[i]
  {
  }

  /** High load on a tier below the last, with the next tier confirmed,
      yields exactly that tier in the same family. */
  lemma {:induction false} Upsize(family: string, i: nat, avgCpu: real, threshold: real,
                                  typeExists: string -> Result<bool, string>)
    requires i + 1 < |SizeOrder|
    requires avgCpu >= UpperThreshold(threshold)
    requires typeExists(family + "." + SizeOrder[i + 1]) == Ok(true)
    ensures SuggestInstanceType(family + "." + SizeOrder[i], avgCpu, threshold, typeExists)
            == Some(family + "." + SizeOrder[i + 1])
  {
    SizesHaveNoDot(i);
    SplitJoin(family, SizeOrder[i]);
    TierOf(i);
  }

  /** Low load on a tier above the first, with the previous tier confirmed,
      yields exactly that tier in the same family. */
  lemma {:induction false} Downsize(family: string, i: nat, avgCpu: real, threshold: real,
                                    typeExists: string -> Result<bool, string>)
    requires 0 < i < |SizeOrder|
    requires avgCpu < LowerThreshold(threshold) && avgCpu < UpperThreshold(threshold)
    requires typeExists(family + "." + SizeOrder[i - 1]) == Ok(true)
    ensures SuggestInstanceType(family + "." + SizeOrder[i], avgCpu, threshold, typeExists)
            == Some(family + "." + SizeOrder[i - 1])
  {
    SizesHaveNoDot(i);
    SplitJoin(family, SizeOrder[i]);
    TierOf(i);
  }

  /** The largest tier, `64xlarge`, is never upsized, however high the load. */
  lemma {:induction false} NoUpsizeAtTop(family: string, avgCpu: real, threshold: real,
                                         typeExists: string -> Result<bool, string>)
    requires avgCpu >= UpperThreshold(threshold)
    ensures SuggestInstanceType(family + "." + "64xlarge", avgCpu, threshold, typeExists).None?
  {
    var last := |SizeOrder| - 1;
    assert SizeOrder[last] == "64xlarge";
    SizesHaveNoDot(last);
    SplitJoin(family, SizeOrder[last]);
    TierOf(last);
  }

  /** The smallest tier, `nano`, is never downsized, however low the load.
      (The load must also be below the upper edge: with a negative threshold
      the upper edge lies below the lower one and the upsize branch wins.) */
  lemma {:induction false} NoDownsizeAtBottom(family: string, avgCpu: real, threshold: real,
                                              typeExists: string -> Result<bool, string>)
    requires avgCpu < LowerThreshold(threshold) && avgCpu < UpperThreshold(threshold)
    ensures SuggestInstanceType(family + "." + "nano", avgCpu, threshold, typeExists).None?
  {
    assert SizeOrder[0] == "nano";
    SizesHaveNoDot(0);
    SplitJoin(family, SizeOrder[0]);
    TierOf(0);
  }

  /** With the default threshold of 50, a `t3.medium` at 10% goes to `t3.small`. */
  lemma DefaultThresholdLowLoad(typeExists: string -> Result<bool, string>)
    requires forall t :: typeExists(t) == Ok(true)
    ensures SuggestInstanceType("t3" + "." + "medium", 10.0, 50.0, typeExists) == Some("t3" + "." + "small")
  {
    assert SizeOrder[2] == "small" && SizeOrder[3] == "medium";
    Downsize("t3", 3, 10.0, 50.0, typeExists);
  }

  /** With the default threshold of 50, a `t3.medium` at 80% goes to `t3.large`. */
  lemma DefaultThresholdHighLoad(typeExists: string -> Result<bool, string>)
    requires forall t :: typeExists(t) == Ok(true)
    ensures SuggestInstanceType("t3" + "." + "medium", 80.0, 50.0, typeExists) == Some("t3" + "." + "large")
  {
    assert SizeOrder[3] == "medium" && SizeOrder[4] == "large";
    Upsize("t3", 3, 80.0, 50.0, typeExists);
  }
}
