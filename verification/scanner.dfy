/** The scan pass: for every region, the running instances past their
    warm-up hour are measured, sized, and those with a proposal become
    suggestions. The provider's per-region answers (instance listing, CPU
    samples, type lookup) are parameters; `Err` stands for a raised call,
    which the per-region `try` catches. */
module Scanner {
  import opened Wrappers
  import opened Metrics
  import opened Sizing
  import opened Notify

  /** One `Tags` entry of an instance. */
  datatype Tag = Tag(key: string, value: string)

  /** The instance fields the scan reads; `launchTime` in seconds. */
  datatype Instance = Instance(instanceId: string, instanceType: string, launchTime: int,
                               tags: seq<Tag>)

  /** The warm-up guard: one hour, in seconds. */
  const WarmUpSeconds: int := 3600

  /** `inst['LaunchTime'] <= now - 1 hour`. */
  predicate WarmedUp(inst: Instance, now: int)
  {
    inst.launchTime <= now - WarmUpSeconds
  }

  /** The boundary of the guard: launched exactly an hour ago counts as
      warmed up, a second later does not, and warming up is never undone. */
  lemma WarmUpBoundary(inst: Instance, now: int, later: int)
    ensures inst.launchTime == now - 3600 ==> WarmedUp(inst, now)
    ensures inst.launchTime == now - 3599 ==> !WarmedUp(inst, now)
    ensures WarmedUp(inst, now) && now <= later ==> WarmedUp(inst, later)
  {
  }

  /** The instances `get_running_instances` keeps: those launched at least an
      hour before `now`, in listing order. */
  function WarmedUpInstances(insts: seq<Instance>, now: int): (r: seq<Instance>)
    ensures |r| <= |insts|
    ensures forall k :: 0 <= k < |r| ==> WarmedUp(r[k], now) && r[k] in insts
    ensures forall i :: 0 <= i < |insts| && WarmedUp(insts[i], now) ==> insts[i] in r
    // every warmed-up instance is kept as often as it is listed, every other one never
    ensures forall x :: multiset(r)[x] == if WarmedUp(x, now) then multiset(insts)[x] else 0
  {
    if |insts| == 0 then []
    else
      var rest := WarmedUpInstances(insts[1..], now);
      assert forall i :: 1 <= i < |insts| ==> insts[i] == insts[1..][i - 1];
      assert insts == [insts[0]] + insts[1..];
      assert multiset(insts) == multiset{insts[0]} + multiset(insts[1..]);
      if WarmedUp(insts[0], now) then [insts[0]] + rest else rest
  }

  /** The filter works piece by piece, so the kept instances stay in listing
      order: filtering a concatenation concatenates the filtered parts. */
  lemma {:induction false} WarmedUpAppend(a: seq<Instance>, b: seq<Instance>, now: int)
    ensures WarmedUpInstances(a + b, now) == WarmedUpInstances(a, now) + WarmedUpInstances(b, now)
    decreases |a|
  {
    if |a| == 0 {
      assert a + b == b;
    } else {
      assert (a + b)[0] == a[0];
      assert (a + b)[1..] == a[1..] + b;
      WarmedUpAppend(a[1..], b, now);
    }
  }

  /** The first `Name` tag's value, or `None` when there is none. */
  function NameTag(tags: seq<Tag>): (r: Option<string>)
    ensures r.None? <==> forall i :: 0 <= i < |tags| ==> tags[i].key != "Name"
    ensures r.Some? ==> exists i :: 0 <= i < |tags| && tags[i].key == "Name" && tags[i].value == r.value
                                    && forall j :: 0 <= j < i ==> tags[j].key != "Name"
  {
    if |tags| == 0 then None
    else if tags[0].key == "Name" then Some(tags[0].value)
    else
      var r := NameTag(tags[1..]);
      assert forall i :: 1 <= i < |tags| ==> tags[i] == tags[1..][i - 1];
      if r.Some? then
        var i :| 0 <= i < |tags[1..]| && tags[1..][i].key == "Name" && tags[1..][i].value == r.value
                 && forall j :: 0 <= j < i ==> tags[1..][j].key != "Name";
        assert tags[i + 1] == tags[1..][i];
        assert forall j :: 0 <= j < i + 1 ==> tags[j].key != "Name" by {
          forall j | 0 <= j < i + 1
            ensures tags[j].key != "Name"
          {
            if j > 0 {
              assert tags[j] == tags[1..][j - 1];
            }
          }
        }
        r
      else r
  }

  /** The suggestion for one measured instance, if the advisor proposes a type. */
  function InstanceSuggestion(inst: Instance, region: string, usage: (real, real), threshold: real,
                              typeExists: string -> Result<bool, string>): (r: Option<Suggestion>)
    ensures r.Some? <==> SuggestInstanceType(inst.instanceType, usage.0, threshold, typeExists).Some?
    ensures r.Some? ==>
      && r.value.instanceId == inst.instanceId
      && r.value.currentType == inst.instanceType
      && r.value.region == region
      && r.value.nameTag == NameTag(inst.tags)
      && r.value.averageCpu == usage.0 && r.value.maxCpu == usage.1
      && r.value.suggestedType == SuggestInstanceType(inst.instanceType, usage.0, threshold, typeExists).value
      && r.value.suggestedType != r.value.currentType
      && typeExists(r.value.suggestedType) == Ok(true)
  {
    match SuggestInstanceType(inst.instanceType, usage.0, threshold, typeExists)
    case None => None
    case Some(t) => Some(Suggestion(inst.instanceId, NameTag(inst.tags), inst.instanceType,
                                    usage.0, usage.1, t, region))
  }

  /** Whether suggestion `s` comes from an instance of the list `insts`. */
  predicate FromListed(s: Suggestion, insts: seq<Instance>)
  {
    exists i :: 0 <= i < |insts| && insts[i].instanceId == s.instanceId && insts[i].instanceType == s.currentType
  }

  /** Every suggestion of `ss` is in `region`, proposes a confirmed type
      different from the current one, and comes from an instance of `insts`. */
  predicate SoundIn(ss: seq<Suggestion>, region: string, insts: seq<Instance>,
                    typeExists: string -> Result<bool, string>)
  {
    forall k :: 0 <= k < |ss| ==>
      && ss[k].region == region
      && ss[k].suggestedType != ss[k].currentType
      && typeExists(ss[k].suggestedType) == Ok(true)
      && FromListed(ss[k], insts)
  }

  /** The loop over one region's instances. Fetching samples may raise: the
      rest of the region is then skipped, but the suggestions already
      appended stay. */
  function RegionSuggestions(region: string, insts: seq<Instance>,
                             samples: string -> Result<seq<Datapoint>, string>, threshold: real,
                             typeExists: string -> Result<bool, string>): (r: seq<Suggestion>)
    ensures |r| <= |insts|
    ensures SoundIn(r, region, insts, typeExists)
    decreases |insts|
  {
    if |insts| == 0 then []
    else
      match samples(insts[0].instanceId)
      case Err(_) => []
      case Ok(ps) =>
        var rest := RegionSuggestions(region, insts[1..], samples, threshold, typeExists);
        SoundInTail(rest, region, insts, typeExists);
        match InstanceSuggestion(insts[0], region, CpuUtilization(ps), threshold, typeExists)
        case None => rest
        case Some(s) =>
          SoundCons(s, rest, region, insts, typeExists);
          [s] + rest
  }

  /** Suggestions sound for the tail of a list are sound for the list. */
  lemma SoundInTail(ss: seq<Suggestion>, region: string, insts: seq<Instance>,
                    typeExists: string -> Result<bool, string>)
    requires |insts| > 0 && SoundIn(ss, region, insts[1..], typeExists)
    ensures SoundIn(ss, region, insts, typeExists)
  {
    forall k | 0 <= k < |ss|
      ensures FromListed(ss[k], insts)
    {
      assert FromListed(ss[k], insts[1..]);
      var i :| 0 <= i < |insts[1..]| && insts[1..][i].instanceId == ss[k].instanceId
               && insts[1..][i].instanceType == ss[k].currentType;
      assert insts[i + 1] == insts[1..][i];
    }
  }

  /** The first instance's suggestion in front of sound suggestions. */
  lemma SoundCons(s: Suggestion, rest: seq<Suggestion>, region: string, insts: seq<Instance>,
                  typeExists: string -> Result<bool, string>)
    requires |insts| > 0 && SoundIn(rest, region, insts, typeExists)
    requires s.region == region && s.suggestedType != s.currentType && typeExists(s.suggestedType) == Ok(true)
    requires insts[0].instanceId == s.instanceId && insts[0].instanceType == s.currentType
    ensures SoundIn([s] + rest, region, insts, typeExists)
  {
    assert FromListed(s, insts);
    var r := [s] + rest;
    forall k | 0 <= k < |r|
      ensures r[k].region == region && r[k].suggestedType != r[k].currentType
      ensures typeExists(r[k].suggestedType) == Ok(true) && FromListed(r[k], insts)
    {
      if k > 0 {
        assert r[k] == rest[k - 1];
      }
    }
  }

  /** Whether fetching samples succeeds for every instance of `insts`. */
  predicate AllSampled(insts: seq<Instance>, samples: string -> Result<seq<Datapoint>, string>)
  {
    forall j :: 0 <= j < |insts| ==> samples(insts[j].instanceId).Ok?
  }

  /** What one measured instance adds to the list: its suggestion, or nothing. */
  function Proposed(inst: Instance, region: string, ps: seq<Datapoint>, threshold: real,
                    typeExists: string -> Result<bool, string>): (r: seq<Suggestion>)
    ensures |r| <= 1
    ensures |r| == 1 <==> InstanceSuggestion(inst, region, CpuUtilization(ps), threshold, typeExists).Some?
    ensures |r| == 1 ==> Some(r[0]) == InstanceSuggestion(inst, region, CpuUtilization(ps), threshold, typeExists)
  {
    match InstanceSuggestion(inst, region, CpuUtilization(ps), threshold, typeExists)
    case None => []
    case Some(s) => [s]
  }

  /** One turn of the loop whose fetch succeeds: the first instance's
      suggestion (if any) precedes those of the rest. */
  lemma RegionStep(region: string, insts: seq<Instance>,
                   samples: string -> Result<seq<Datapoint>, string>, threshold: real,
                   typeExists: string -> Result<bool, string>)
    requires |insts| > 0 && samples(insts[0].instanceId).Ok?
    ensures RegionSuggestions(region, insts, samples, threshold, typeExists)
            == Proposed(insts[0], region, samples(insts[0].instanceId).value, threshold, typeExists)
               + RegionSuggestions(region, insts[1..], samples, threshold, typeExists)
  {
  }

  /** The loop only appends: one more instance at the end of a list whose
      samples were all fetched adds that instance's suggestion, if any,
      after the others. */
  lemma {:induction false} RegionSuggestionsSnoc(region: string, insts: seq<Instance>, inst: Instance,
                                                 samples: string -> Result<seq<Datapoint>, string>,
                                                 threshold: real,
                                                 typeExists: string -> Result<bool, string>)
    requires AllSampled(insts, samples) && samples(inst.instanceId).Ok?
    ensures RegionSuggestions(region, insts + [inst], samples, threshold, typeExists)
            == RegionSuggestions(region, insts, samples, threshold, typeExists)
               + Proposed(inst, region, samples(inst.instanceId).value, threshold, typeExists)
    decreases |insts|
  {
    var whole := insts + [inst];
    SnocParts(insts, inst);
    if |insts| == 0 {
      RegionStep(region, whole, samples, threshold, typeExists);
    } else {
      SampledTail(insts, samples);
      RegionStep(region, whole, samples, threshold, typeExists);
      RegionStep(region, insts, samples, threshold, typeExists);
      RegionSuggestionsSnoc(region, insts[1..], inst, samples, threshold, typeExists);
      Regroup(Proposed(insts[0], region, samples(insts[0].instanceId).value, threshold, typeExists),
              RegionSuggestions(region, insts[1..], samples, threshold, typeExists),
              Proposed(inst, region, samples(inst.instanceId).value, threshold, typeExists),
              RegionSuggestions(region, whole[1..], samples, threshold, typeExists));
    }
  }

  lemma Regroup(a: seq<Suggestion>, b: seq<Suggestion>, c: seq<Suggestion>, y: seq<Suggestion>)
    requires y == b + c
    ensures a + y == (a + b) + c
  {
  }

  lemma SnocParts(insts: seq<Instance>, inst: Instance)
    ensures (insts + [inst])[0] == if |insts| == 0 then inst else insts[0]
    ensures |insts| == 0 ==> (insts + [inst])[1..] == []
    ensures |insts| > 0 ==> (insts + [inst])[1..] == insts[1..] + [inst]
  {
  }

  /** ... and one more instance whose fetch raises adds nothing. */
  lemma RegionSuggestionsSnocRaised(region: string, insts: seq<Instance>, inst: Instance,
                                    samples: string -> Result<seq<Datapoint>, string>,
                                    threshold: real,
                                    typeExists: string -> Result<bool, string>)
    requires samples(inst.instanceId).Err?
    ensures RegionSuggestions(region, insts + [inst], samples, threshold, typeExists)
            == RegionSuggestions(region, insts, samples, threshold, typeExists)
  {
    var whole := insts + [inst];
    assert whole[|insts|] == inst;
    assert whole[..|insts|] == insts;
    RegionStopsAtFailure(region, whole, |insts|, samples, threshold, typeExists);
  }

  /** The instances after the first were sampled too. */
  lemma SampledTail(insts: seq<Instance>, samples: string -> Result<seq<Datapoint>, string>)
    requires |insts| > 0 && AllSampled(insts, samples)
    ensures samples(insts[0].instanceId).Ok? && AllSampled(insts[1..], samples)
  {
    forall j | 0 <= j < |insts[1..]|
      ensures samples(insts[1..][j].instanceId).Ok?
    {
      assert insts[1..][j] == insts[j + 1];
    }
  }

  /** The suggestions of the first `k` instances are a prefix of the region's
      suggestions: later instances never disturb earlier ones. */
  lemma {:induction false} RegionSuggestionsPrefix(region: string, insts: seq<Instance>, k: nat,
                                                   samples: string -> Result<seq<Datapoint>, string>,
                                                   threshold: real,
                                                   typeExists: string -> Result<bool, string>)
    requires k <= |insts|
    ensures RegionSuggestions(region, insts[..k], samples, threshold, typeExists)
            <= RegionSuggestions(region, insts, samples, threshold, typeExists)
    decreases k
  {
    if k > 0 {
      assert insts[..k][0] == insts[0];
      assert insts[..k][1..] == insts[1..][..k - 1];
      if samples(insts[0].instanceId).Ok? {
        RegionStep(region, insts, samples, threshold, typeExists);
        RegionStep(region, insts[..k], samples, threshold, typeExists);
        RegionSuggestionsPrefix(region, insts[1..], k - 1, samples, threshold, typeExists);
        PrefixAfter(Proposed(insts[0], region, samples(insts[0].instanceId).value, threshold, typeExists),
                    RegionSuggestions(region, insts[1..][..k - 1], samples, threshold, typeExists),
                    RegionSuggestions(region, insts[1..], samples, threshold, typeExists));
      }
    }
  }

  /** A common head keeps a prefix a prefix. */
  lemma PrefixAfter(head: seq<Suggestion>, a: seq<Suggestion>, b: seq<Suggestion>)
    requires a <= b
    ensures head + a <= head + b
  {
    assert (head + b)[..|head + a|] == head + a;
  }

  /** Completeness and order: when the samples of instances `0..k` were all
      fetched and instance `k` gets suggestion `s`, then `s` comes in the
      region's list right after the suggestions of the instances before it. */
  lemma RegionSuggestionsComplete(region: string, insts: seq<Instance>, k: nat,
                                  samples: string -> Result<seq<Datapoint>, string>,
                                  threshold: real,
                                  typeExists: string -> Result<bool, string>, s: Suggestion)
    requires k < |insts| && AllSampled(insts[..k + 1], samples)
    requires InstanceSuggestion(insts[k], region, CpuUtilization(samples(insts[k].instanceId).value),
                                threshold, typeExists) == Some(s)
    ensures RegionSuggestions(region, insts[..k], samples, threshold, typeExists) + [s]
            <= RegionSuggestions(region, insts, samples, threshold, typeExists)
    ensures s in RegionSuggestions(region, insts, samples, threshold, typeExists)
  {
    var before, front := insts[..k], insts[..k + 1];
    TakeOneMore(insts, k);
    SampledFront(insts, k, samples);
    RegionSuggestionsSnoc(region, before, insts[k], samples, threshold, typeExists);
    ProposedOne(insts[k], region, samples(insts[k].instanceId).value, threshold, typeExists, s);
    RegionSuggestionsPrefix(region, insts, k + 1, samples, threshold, typeExists);
    var whole := RegionSuggestions(region, insts, samples, threshold, typeExists);
    var prefix := RegionSuggestions(region, before, samples, threshold, typeExists) + [s];
    assert whole[|prefix| - 1] == prefix[|prefix| - 1] == s;
  }

  lemma TakeOneMore(insts: seq<Instance>, k: nat)
    requires k < |insts|
    ensures insts[..k + 1] == insts[..k] + [insts[k]]
  {
  }

  /** The instances before `k` of a sampled list `0..k` were sampled too. */
  lemma SampledFront(insts: seq<Instance>, k: nat, samples: string -> Result<seq<Datapoint>, string>)
    requires k < |insts| && AllSampled(insts[..k + 1], samples)
    ensures AllSampled(insts[..k], samples) && samples(insts[k].instanceId).Ok?
  {
    assert insts[..k + 1][k] == insts[k];
    forall j | 0 <= j < k
      ensures samples(insts[..k][j].instanceId).Ok?
    {
      assert insts[..k][j] == insts[..k + 1][j];
    }
  }

  /** An instance with a suggestion adds exactly that suggestion. */
  lemma ProposedOne(inst: Instance, region: string, ps: seq<Datapoint>, threshold: real,
                    typeExists: string -> Result<bool, string>, s: Suggestion)
    requires InstanceSuggestion(inst, region, CpuUtilization(ps), threshold, typeExists) == Some(s)
    ensures Proposed(inst, region, ps, threshold, typeExists) == [s]
  {
  }

  /** A sample fetch that raises at instance `k` leaves exactly the
      suggestions of the instances before `k`. */
  lemma {:induction false} RegionStopsAtFailure(region: string, insts: seq<Instance>, k: nat,
                                                samples: string -> Result<seq<Datapoint>, string>,
                                                threshold: real,
                                                typeExists: string -> Result<bool, string>)
    requires k < |insts| && samples(insts[k].instanceId).Err?
    ensures RegionSuggestions(region, insts, samples, threshold, typeExists)
            == RegionSuggestions(region, insts[..k], samples, threshold, typeExists)
    decreases k
  {
    if k > 0 && samples(insts[0].instanceId).Ok? {
      assert insts[1..][k - 1] == insts[k];
      RegionStopsAtFailure(region, insts[1..], k - 1, samples, threshold, typeExists);
      assert insts[..k][1..] == insts[1..][..k - 1];
    }
  }

  /** The cloud provider as the scan sees it. */
  datatype Provider = Provider(
    listing: string -> Result<seq<Instance>, string>,
    samples: (string, string) -> Result<seq<Datapoint>, string>,
    typeExists: (string, string) -> Result<bool, string>)

  /** What every suggestion of the scan can be traced back to: a successful
      listing of its region holding an instance with its id and current
      type that was warmed up at `now`, the time of that listing, and a
      confirmed, different proposed type. */
  predicate Traceable(s: Suggestion, provider: Provider, now: int)
  {
    && s.suggestedType != s.currentType
    && provider.typeExists(s.region, s.suggestedType) == Ok(true)
    && provider.listing(s.region).Ok?
    && exists inst :: inst in provider.listing(s.region).value && WarmedUp(inst, now)
                      && inst.instanceId == s.instanceId && inst.instanceType == s.currentType
  }

  /** The sample fetch of one region's CloudWatch client. */
  function RegionSamples(provider: Provider, region: string): string -> Result<seq<Datapoint>, string>
  {
    id => provider.samples(region, id)
  }

  /** The type lookup of one region's EC2 client. */
  function RegionTypes(provider: Provider, region: string): string -> Result<bool, string>
  {
    t => provider.typeExists(region, t)
  }

  /** One region's contribution: nothing when listing its instances raises.
      `now` is the time read when this region's instances are listed. */
  function ScanRegion(region: string, provider: Provider, now: int, threshold: real): (r: seq<Suggestion>)
    ensures provider.listing(region).Err? ==> r == []
    ensures forall k :: 0 <= k < |r| ==> r[k].region == region && Traceable(r[k], provider, now)
  {
    match provider.listing(region)
    case Err(_) => []
    case Ok(insts) =>
      var warm := WarmedUpInstances(insts, now);
      var r := RegionSuggestions(region, warm, RegionSamples(provider, region), threshold,
                                 RegionTypes(provider, region));
      forall k | 0 <= k < |r|
        ensures Traceable(r[k], provider, now)
      {
        var i :| 0 <= i < |warm| && warm[i].instanceId == r[k].instanceId
                 && warm[i].instanceType == r[k].currentType;
        assert warm[i] in insts && WarmedUp(warm[i], now);
      }
      r
  }

  /** Every suggestion of `ss` is in one of `regions` and traceable at the
      clock reading of its own region's listing. */
  predicate TraceableIn(ss: seq<Suggestion>, regions: seq<string>, provider: Provider, clock: string -> int)
  {
    forall k :: 0 <= k < |ss| ==> ss[k].region in regions && Traceable(ss[k], provider, clock(ss[k].region))
  }

  /** The scan over all regions, in order. Each region's listing reads the
      clock afresh: `clock(region)` is that reading. */
  function ScanRegions(regions: seq<string>, provider: Provider, clock: string -> int,
                       threshold: real): (r: seq<Suggestion>)
    ensures TraceableIn(r, regions, provider, clock)
  {
    if |regions| == 0 then []
    else
      var here := ScanRegion(regions[0], provider, clock(regions[0]), threshold);
      var rest := ScanRegions(regions[1..], provider, clock, threshold);
      assert forall k :: 0 <= k < |rest| ==> rest[k].region in regions;
      here + rest
  }

  /** Completeness of a region: when its listing succeeds and the samples
      of its first `k + 1` warmed-up instances are all fetched, the
      suggestion for the `k`-th one is among the region's suggestions. */
  lemma ScanRegionComplete(region: string, provider: Provider, now: int, threshold: real,
                           k: nat, s: Suggestion)
    requires provider.listing(region).Ok?
    requires k < |WarmedUpInstances(provider.listing(region).value, now)|
    requires AllSampled(WarmedUpInstances(provider.listing(region).value, now)[..k + 1],
                        RegionSamples(provider, region))
    requires InstanceSuggestion(WarmedUpInstances(provider.listing(region).value, now)[k], region,
               CpuUtilization(provider.samples(region,
                 WarmedUpInstances(provider.listing(region).value, now)[k].instanceId).value),
               threshold, RegionTypes(provider, region)) == Some(s)
    ensures s in ScanRegion(region, provider, now, threshold)
  {
    var warm := WarmedUpInstances(provider.listing(region).value, now);
    assert RegionSamples(provider, region)(warm[k].instanceId)
           == provider.samples(region, warm[k].instanceId);
    RegionSuggestionsComplete(region, warm, k, RegionSamples(provider, region), threshold,
                              RegionTypes(provider, region), s);
  }

  lemma {:induction false} ScanRegionsAppend(a: seq<string>, b: seq<string>, provider: Provider,
                                             clock: string -> int, threshold: real)
    ensures ScanRegions(a + b, provider, clock, threshold)
            == ScanRegions(a, provider, clock, threshold) + ScanRegions(b, provider, clock, threshold)
    decreases |a|
  {
    if |a| == 0 {
      assert a + b == b;
    } else {
      assert (a + b)[1..] == a[1..] + b;
      assert (a + b)[0] == a[0];
      ScanRegionsAppend(a[1..], b, provider, clock, threshold);
    }
  }

  /** A failed region at the head contributes nothing. */
  lemma FailedHeadSkipped(region: string, back: seq<string>, provider: Provider, clock: string -> int,
                          threshold: real)
    requires provider.listing(region).Err?
    ensures ScanRegions([region] + back, provider, clock, threshold) == ScanRegions(back, provider, clock, threshold)
  {
    var s := [region] + back;
    assert s[0] == region;
    assert s[1..] == back;
  }

  /** Every region contributes its own suggestions, in region order: the
      scan is the scan of the regions before `i`, then region `i`'s
      suggestions, then the scan of the regions after it. */
  lemma ScanRegionsSplit(regions: seq<string>, i: nat, provider: Provider, clock: string -> int,
                         threshold: real)
    requires i < |regions|
    ensures ScanRegions(regions, provider, clock, threshold)
            == ScanRegions(regions[..i], provider, clock, threshold)
               + ScanRegion(regions[i], provider, clock(regions[i]), threshold)
               + ScanRegions(regions[i + 1..], provider, clock, threshold)
  {
    var front, back := regions[..i], regions[i + 1..];
    var mid := [regions[i]] + back;
    assert regions == front + mid;
    assert mid[0] == regions[i] && mid[1..] == back;
    ScanRegionsAppend(front, mid, provider, clock, threshold);
  }

  /** A region whose listing raises is skipped: the scan gives what it would
      give without that region. */
  lemma FailedRegionSkipped(regions: seq<string>, i: nat, provider: Provider, clock: string -> int,
                            threshold: real)
    requires i < |regions| && provider.listing(regions[i]).Err?
    ensures ScanRegions(regions, provider, clock, threshold)
            == ScanRegions(regions[..i] + regions[i + 1..], provider, clock, threshold)
  {
    ScanRegionsSplit(regions, i, provider, clock, threshold);
    ScanRegionsAppend(regions[..i], regions[i + 1..], provider, clock, threshold);
  }
}
