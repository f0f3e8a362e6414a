/** Process memory samples: one process lifetime per target, and the spikes between neighbouring
    samples (scripts/analyze_runtime_memory_log.py). */
module MemoryLog {
  import opened Options
  import opened Sorting
  import opened Listing
  import opened TextOrder

  datatype Sample = Sample(target: string, instanceId: string, timestampMs: int, path: string, lineNo: nat,
                           pssBytes: Option<int>)

  datatype Spike = Spike(start: Sample, end: Sample, delta: int)

  // ---------------------------------------------------------------- selecting a process lifetime

  predicate EarlierOrSame(a: Sample, b: Sample) {
    a.timestampMs < b.timestampMs
    || (a.timestampMs == b.timestampMs
        && (NameLess(a.path, b.path) || (a.path == b.path && a.lineNo <= b.lineNo)))
  }

  lemma TimeOrder()
    ensures TotalPreorder(EarlierOrSame)
  {
    hide NameLess;
    forall a, b: Sample ensures EarlierOrSame(a, b) || EarlierOrSame(b, a) {
      NameTotal(a.path, b.path);
    }
    forall a, b, c: Sample | EarlierOrSame(a, b) && EarlierOrSame(b, c) ensures EarlierOrSame(a, c) {
      if NameLess(a.path, b.path) && NameLess(b.path, c.path) {
        NameTransitive(a.path, b.path, c.path);
      }
    }
  }

  // Among the first n samples, k is the first one of its target that none of them is later than.
  ghost predicate LatestAmong(samples: seq<Sample>, n: nat, k: int) {
    && 0 <= k < n <= |samples|
    && forall j :: 0 <= j < n && samples[j].target == samples[k].target ==>
         samples[j].timestampMs <= samples[k].timestampMs && (j < k ==> samples[j].timestampMs < samples[k].timestampMs)
  }

  // The latest-by-target table after n samples.
  ghost predicate Tracks(samples: seq<Sample>, n: nat, target: string, instanceId: string, time: int) {
    exists k :: LatestAmong(samples, n, k) && samples[k].target == target
                && samples[k].instanceId == instanceId && samples[k].timestampMs == time
  }

  lemma TracksOn(samples: seq<Sample>, n: nat, target: string, instanceId: string, time: int)
    requires n < |samples| && Tracks(samples, n, target, instanceId, time)
    ensures samples[n].target != target || samples[n].timestampMs <= time ==>
              Tracks(samples, n + 1, target, instanceId, time)
    ensures samples[n].target == target && samples[n].timestampMs > time ==>
              Tracks(samples, n + 1, target, samples[n].instanceId, samples[n].timestampMs)
  {
  }

  lemma TracksFirst(samples: seq<Sample>, n: nat)
    requires n < |samples| && forall j :: 0 <= j < n ==> samples[j].target != samples[n].target
    ensures Tracks(samples, n + 1, samples[n].target, samples[n].instanceId, samples[n].timestampMs)
  {
  }

  function OfInstances(samples: seq<Sample>, latest: map<string, string>): seq<Sample> {
    if samples == [] then []
    else
      var init := OfInstances(samples[..|samples| - 1], latest);
      var s := samples[|samples| - 1];
      if s.target in latest && latest[s.target] == s.instanceId then init + [s] else init
  }

  // For every target the instance of its latest sample.
  method LatestInstances(samples: seq<Sample>) returns (latest: map<string, string>)
    ensures forall i :: 0 <= i < |samples| ==> samples[i].target in latest
    ensures forall t :: t in latest ==> exists time :: Tracks(samples, |samples|, t, latest[t], time)
  {
    hide Tracks;
    latest := map[];
    var times: map<string, int> := map[];
    for i := 0 to |samples|
      invariant latest.Keys == times.Keys
      invariant forall j :: 0 <= j < i ==> samples[j].target in latest
      invariant forall t :: t in latest ==> Tracks(samples, i, t, latest[t], times[t])
    {
      var s := samples[i];
      forall t | t in latest
        ensures s.target != t || s.timestampMs <= times[t] ==> Tracks(samples, i + 1, t, latest[t], times[t])
        ensures s.target == t && s.timestampMs > times[t] ==> Tracks(samples, i + 1, t, s.instanceId, s.timestampMs)
      {
        TracksOn(samples, i, t, latest[t], times[t]);
      }
      if s.target !in latest {
        TracksFirst(samples, i);
      }
      if s.target !in latest || s.timestampMs > times[s.target] {
        latest := latest[s.target := s.instanceId];
        times := times[s.target := s.timestampMs];
      }
    }
  }

  method KeepInstances(samples: seq<Sample>, latest: map<string, string>) returns (selected: seq<Sample>)
    ensures forall s :: s in selected <==> s in samples && s.target in latest && latest[s.target] == s.instanceId
    ensures forall s :: s in selected ==> multiset(selected)[s] == multiset(samples)[s]
  {
    selected := [];
    for i := 0 to |samples|
      invariant selected == OfInstances(samples[..i], latest)
    {
      assert samples[..i + 1][..i] == samples[..i];
      if samples[i].target in latest && latest[samples[i].target] == samples[i].instanceId {
        selected := selected + [samples[i]];
      }
    }
    assert samples[..|samples|] == samples;
    forall s
      ensures s in selected <==> s in samples && s.target in latest && latest[s.target] == s.instanceId
      ensures s in selected ==> multiset(selected)[s] == multiset(samples)[s]
    {
      KeptIff(samples, latest, s);
    }
  }

  // Of every target exactly the samples of the instance that was seen last, each as often as it was given, in
  // time order.
  method SelectLatestInstances(samples: seq<Sample>) returns (selected: seq<Sample>)
    ensures OneLifetime(selected)
    ensures forall i, j :: 0 <= i < j < |selected| ==> selected[i].timestampMs <= selected[j].timestampMs
    ensures forall i, j :: 0 <= i < j < |selected| && selected[i].timestampMs == selected[j].timestampMs ==>
              !NameLess(selected[j].path, selected[i].path)
              && (selected[i].path == selected[j].path ==> selected[i].lineNo <= selected[j].lineNo)
    ensures forall s :: s in selected ==> multiset(selected)[s] == multiset(samples)[s]
    ensures forall s :: s in selected <==>
              s in samples && exists k :: 0 <= k < |samples| && samples[k].target == s.target
                                          && samples[k].instanceId == s.instanceId && FirstLatest(samples, k)
  {
    hide EarlierOrSame, NameLess;
    var latest := LatestInstances(samples);
    var kept := KeepInstances(samples, latest);
    TimeOrder();
    SortSorted(EarlierOrSame, kept);
    selected := Sort(EarlierOrSame, kept);
    SortMembers(EarlierOrSame, kept);
    forall s ensures s in selected <==> s in kept {
      SameMembers(EarlierOrSame, kept, s);
    }
    InTime(selected);
    forall s | s in samples
      ensures s in selected <==> exists k :: 0 <= k < |samples| && samples[k].target == s.target
                                             && samples[k].instanceId == s.instanceId && FirstLatest(samples, k)
    {
      var time :| Tracks(samples, |samples|, s.target, latest[s.target], time);
      TracksFirstLatest(samples, s.target, latest[s.target], time);
    }
  }

  // None of the same target is later, and none before it as late.
  ghost predicate FirstLatest(samples: seq<Sample>, k: int) {
    && 0 <= k < |samples|
    && forall j :: 0 <= j < |samples| && samples[j].target == samples[k].target ==>
         if j < k then samples[j].timestampMs < samples[k].timestampMs else samples[j].timestampMs <= samples[k].timestampMs
  }

  lemma TracksFirstLatest(samples: seq<Sample>, target: string, instanceId: string, time: int)
    requires Tracks(samples, |samples|, target, instanceId, time)
    ensures exists k :: 0 <= k < |samples| && samples[k].target == target && samples[k].instanceId == instanceId
                        && FirstLatest(samples, k)
    ensures forall k :: FirstLatest(samples, k) && samples[k].target == target ==> samples[k].instanceId == instanceId
  {
    var m :| LatestAmong(samples, |samples|, m) && samples[m].target == target && samples[m].instanceId == instanceId;
    assert FirstLatest(samples, m);
    forall k | FirstLatest(samples, k) && samples[k].target == target ensures k == m {
    }
  }

  lemma InTime(samples: seq<Sample>)
    requires Sorted(EarlierOrSame, samples)
    ensures forall i, j :: 0 <= i < j < |samples| ==> samples[i].timestampMs <= samples[j].timestampMs
    ensures forall i, j :: 0 <= i < j < |samples| && samples[i].timestampMs == samples[j].timestampMs ==>
              !NameLess(samples[j].path, samples[i].path)
              && (samples[i].path == samples[j].path ==> samples[i].lineNo <= samples[j].lineNo)
  {
    hide NameLess;
    forall i, j | 0 <= i < j < |samples| && samples[i].timestampMs == samples[j].timestampMs
      ensures !NameLess(samples[j].path, samples[i].path)
      ensures samples[i].path == samples[j].path ==> samples[i].lineNo <= samples[j].lineNo
    {
      assert EarlierOrSame(samples[i], samples[j]);
      NotBothLess(samples[i].path, samples[j].path);
    }
  }

  lemma {:induction false} KeptIff(samples: seq<Sample>, latest: map<string, string>, s: Sample)
    ensures s in OfInstances(samples, latest) <==> s in samples && s.target in latest && latest[s.target] == s.instanceId
    ensures s in OfInstances(samples, latest) ==> multiset(OfInstances(samples, latest))[s] == multiset(samples)[s]
  {
    if samples != [] {
      var init := samples[..|samples| - 1];
      KeptIff(init, latest, s);
      assert samples == init + [samples[|samples| - 1]];
      assert s !in OfInstances(init, latest) && s in OfInstances(samples, latest) ==> s !in init;
      assert s !in init ==> s !in multiset(init);
      assert s !in OfInstances(init, latest) ==> s !in multiset(OfInstances(init, latest));
    }
  }

  // Samples of one target come from one process instance.
  ghost predicate OneLifetime(samples: seq<Sample>) {
    forall s, t :: s in samples && t in samples && s.target == t.target ==> s.instanceId == t.instanceId
  }

  // ---------------------------------------------------------------- spikes

  function ProcessSamples(samples: seq<Sample>): seq<Sample> {
    if samples == [] then []
    else
      var init := ProcessSamples(samples[..|samples| - 1]);
      if samples[|samples| - 1].pssBytes.Some? then init + [samples[|samples| - 1]] else init
  }

  function Pss(s: Sample): int {
    if s.pssBytes.Some? then s.pssBytes.value else 0
  }

  function Abs(x: int): int {
    if x < 0 then -x else x
  }

  function SpikeAt(ps: seq<Sample>, i: nat): Spike
    requires i + 1 < |ps|
  {
    Spike(ps[i], ps[i + 1], Pss(ps[i + 1]) - Pss(ps[i]))
  }

  // Steps up to the n-th that reach the threshold, and the sum of those that do not.
  function Reported(ps: seq<Sample>, min: int, n: nat): seq<Spike>
    requires n < |ps|
  {
    if n == 0 then []
    else
      var spike := SpikeAt(ps, n - 1);
      Reported(ps, min, n - 1) + if Abs(spike.delta) >= min then [spike] else []
  }

  function DroppedSum(ps: seq<Sample>, min: int, n: nat): int
    requires n < |ps|
  {
    if n == 0 then 0
    else
      var delta := SpikeAt(ps, n - 1).delta;
      DroppedSum(ps, min, n - 1) + if Abs(delta) >= min then 0 else delta
  }

  function DeltaSum(spikes: seq<Spike>): int {
    if spikes == [] then 0 else spikes[0].delta + DeltaSum(spikes[1..])
  }

  predicate LargerFirst(a: Spike, b: Spike) {
    Abs(a.delta) >= Abs(b.delta)
  }

  function SpikesOf(samples: seq<Sample>, min: int): seq<Spike> {
    var ps := ProcessSamples(samples);
    if ps == [] then [] else Sort(LargerFirst, Reported(ps, min, |ps| - 1))
  }

  method ComputeSpikes(samples: seq<Sample>, minSpikeBytes: int) returns (spikes: seq<Spike>)
    ensures spikes == SpikesOf(samples, minSpikeBytes)
    ensures RanksSteps(samples, minSpikeBytes, spikes)
    ensures forall i, j :: 0 <= i < j < |spikes| ==> Abs(spikes[i].delta) >= Abs(spikes[j].delta)
    ensures forall s :: s in spikes <==>
              exists i, j :: Neighbours(samples, i, j) && IsStep(samples, i, j, minSpikeBytes, s)
  {
    hide RanksSteps, Neighbours, IsStep;
    var ps: seq<Sample> := [];
    for i := 0 to |samples|
      invariant ps == ProcessSamples(samples[..i])
    {
      assert samples[..i + 1][..i] == samples[..i];
      if samples[i].pssBytes.Some? {
        ps := ps + [samples[i]];
      }
    }
    assert samples[..|samples|] == samples;
    spikes := [];
    var n := 0;
    while n + 1 < |ps|
      invariant ps != [] ==> n < |ps| && spikes == Reported(ps, minSpikeBytes, n)
      invariant ps == [] ==> n == 0 && spikes == []
      decreases |ps| - n
    {
      var delta := Pss(ps[n + 1]) - Pss(ps[n]);
      if Abs(delta) >= minSpikeBytes {
        spikes := spikes + [Spike(ps[n], ps[n + 1], delta)];
      }
      n := n + 1;
    }
    assert spikes == StepsOf(samples, minSpikeBytes);
    spikes := Sort(LargerFirst, spikes);
    SpikesRank(samples, minSpikeBytes);
    forall s ensures s in spikes <==> exists i, j :: Neighbours(samples, i, j) && IsStep(samples, i, j, minSpikeBytes, s) {
      SpikeIff(samples, minSpikeBytes, s);
    }
  }

  // ---------------------------------------------------------------- spikes by position

  // Two measured samples with none measured in between.
  ghost predicate Neighbours(samples: seq<Sample>, i: int, j: int) {
    && 0 <= i < j < |samples| && samples[i].pssBytes.Some? && samples[j].pssBytes.Some?
    && forall k :: i < k < j ==> samples[k].pssBytes.None?
  }

  // The spike from the i-th to the j-th sample, if the change between them reaches the threshold.
  ghost predicate IsStep(samples: seq<Sample>, i: int, j: int, min: int, s: Spike)
    requires Neighbours(samples, i, j)
  {
    && s.start == samples[i] && s.end == samples[j]
    && s.delta == samples[j].pssBytes.value - samples[i].pssBytes.value
    && (s.delta >= min || -s.delta >= min)
  }

  ghost predicate StepTo(samples: seq<Sample>, min: int, j: int, s: Spike) {
    exists i :: Neighbours(samples, i, j) && IsStep(samples, i, j, min, s)
  }

  ghost function StepsTo(samples: seq<Sample>, min: int): (int, Spike) -> bool {
    (j, s) => StepTo(samples, min, j, s)
  }

  function OfSize(spikes: seq<Spike>, size: int): seq<Spike> {
    if spikes == [] then []
    else (if Abs(spikes[0].delta) == size then [spikes[0]] else []) + OfSize(spikes[1..], size)
  }

  // One spike for each pair of neighbours that reaches the threshold, and those of a size in the order of time.
  ghost predicate RanksSteps(samples: seq<Sample>, min: int, spikes: seq<Spike>) {
    exists steps :: Lists(steps, |samples|, StepsTo(samples, min)) && multiset(spikes) == multiset(steps)
                    && forall size :: OfSize(spikes, size) == OfSize(steps, size)
  }

  function StepsOf(samples: seq<Sample>, min: int): seq<Spike> {
    var ps := ProcessSamples(samples);
    if ps == [] then [] else Reported(ps, min, |ps| - 1)
  }

  // The last measured sample so far, if any.
  lemma {:induction false} LastMeasured(samples: seq<Sample>, n: nat) returns (i: int)
    requires n <= |samples|
    ensures var ps := ProcessSamples(samples[..n]);
            if ps == [] then i == -1
            else 0 <= i < n && samples[i].pssBytes.Some? && ps[|ps| - 1] == samples[i]
    ensures forall k :: i < k < n ==> samples[k].pssBytes.None?
  {
    i := -1;
    if n > 0 {
      assert samples[..n][..n - 1] == samples[..n - 1];
      if samples[n - 1].pssBytes.Some? {
        i := n - 1;
      } else {
        i := LastMeasured(samples, n - 1);
      }
    }
  }

  lemma {:induction false} ReportedPrefix(ps: seq<Sample>, x: Sample, min: int, n: nat)
    requires n < |ps|
    ensures Reported(ps + [x], min, n) == Reported(ps, min, n)
  {
    if n > 0 {
      ReportedPrefix(ps, x, min, n - 1);
    }
  }

  lemma StepsMore(samples: seq<Sample>, n: nat, min: int)
    requires n < |samples|
    ensures var ps, x := ProcessSamples(samples[..n]), samples[n];
            StepsOf(samples[..n + 1], min) ==
            if x.pssBytes.None? || ps == [] then StepsOf(samples[..n], min)
            else
              var spike := Spike(ps[|ps| - 1], x, Pss(x) - Pss(ps[|ps| - 1]));
              if Abs(spike.delta) >= min then StepsOf(samples[..n], min) + [spike] else StepsOf(samples[..n], min)
  {
    hide Abs, Pss, ProcessSamples;
    var ps, x := ProcessSamples(samples[..n]), samples[n];
    ProcessMore(samples, n);
    if x.pssBytes.Some? && ps != [] {
      ReportedMore(ps, x, min);
    } else if x.pssBytes.Some? {
      OneReportsNothing(x, min);
    }
  }

  lemma ProcessMore(samples: seq<Sample>, n: nat)
    requires n < |samples|
    ensures ProcessSamples(samples[..n + 1]) ==
            if samples[n].pssBytes.Some? then ProcessSamples(samples[..n]) + [samples[n]] else ProcessSamples(samples[..n])
  {
    assert samples[..n + 1][..n] == samples[..n];
  }

  lemma OneReportsNothing(x: Sample, min: int)
    ensures Reported([] + [x], min, 0) == []
  {
  }

  lemma ReportedMore(ps: seq<Sample>, x: Sample, min: int)
    requires ps != []
    ensures var spike := Spike(ps[|ps| - 1], x, Pss(x) - Pss(ps[|ps| - 1]));
            Reported(ps + [x], min, |ps|) ==
            if Abs(spike.delta) >= min then Reported(ps, min, |ps| - 1) + [spike] else Reported(ps, min, |ps| - 1)
  {
    hide Abs, Pss;
    ReportedPrefix(ps, x, min, |ps| - 1);
    assert (ps + [x])[|ps| - 1] == ps[|ps| - 1];
    assert Reported(ps, min, |ps| - 1) + [] == Reported(ps, min, |ps| - 1);
  }

  lemma StepUnique(samples: seq<Sample>, min: int, i: int, j: int, s: Spike)
    requires Neighbours(samples, i, j)
    ensures StepTo(samples, min, j, s) <==> IsStep(samples, i, j, min, s)
  {
    if StepTo(samples, min, j, s) {
      var k :| Neighbours(samples, k, j) && IsStep(samples, k, j, min, s);
      assert k == i;
    }
  }

  lemma NoStepTo(samples: seq<Sample>, min: int, j: int)
    requires 0 <= j < |samples|
    requires samples[j].pssBytes.None? || forall k :: 0 <= k < j ==> samples[k].pssBytes.None?
    ensures forall s :: !StepTo(samples, min, j, s)
  {
  }

  lemma {:induction false} StepsList(samples: seq<Sample>, n: nat, min: int)
    requires n <= |samples|
    ensures Lists(StepsOf(samples[..n], min), n, StepsTo(samples, min))
  {
    hide Lists, StepsOf, StepsTo;
    if n == 0 {
      ListsNothing(StepsTo(samples, min));
      NoSteps(samples, min);
    } else {
      StepsList(samples, n - 1, min);
      StepsListMore(samples, n - 1, min);
    }
  }

  lemma StepsListMore(samples: seq<Sample>, j: nat, min: int)
    requires j < |samples| && Lists(StepsOf(samples[..j], min), j, StepsTo(samples, min))
    ensures Lists(StepsOf(samples[..j + 1], min), j + 1, StepsTo(samples, min))
  {
    hide Lists, StepsOf, ProcessSamples, Neighbours, IsStep, StepTo, Abs, Pss;
    var x, before := samples[j], StepsOf(samples[..j], min);
    StepsMore(samples, j, min);
    var i := LastMeasured(samples, j);
    if x.pssBytes.None? || i == -1 {
      NoStepTo(samples, min, j);
      ListsOn(before, j, StepsTo(samples, min));
    } else {
      StepAfter(samples, i, j, min);
      var spike := Spike(samples[i], x, Pss(x) - Pss(samples[i]));
      if Abs(spike.delta) >= min {
        ListsMore(before, j, StepsTo(samples, min), spike);
      } else {
        ListsOn(before, j, StepsTo(samples, min));
      }
    }
  }

  lemma NoSteps(samples: seq<Sample>, min: int)
    ensures StepsOf(samples[..0], min) == []
  {
  }

  lemma StepAfter(samples: seq<Sample>, i: int, j: int, min: int)
    requires 0 <= i < j < |samples| && samples[i].pssBytes.Some? && samples[j].pssBytes.Some?
    requires forall k :: i < k < j ==> samples[k].pssBytes.None?
    ensures var spike := Spike(samples[i], samples[j], Pss(samples[j]) - Pss(samples[i]));
            forall s :: StepsTo(samples, min)(j, s) <==> Abs(spike.delta) >= min && s == spike
  {
    assert Neighbours(samples, i, j);
    hide StepTo;
    forall s ensures StepTo(samples, min, j, s) <==> IsStep(samples, i, j, min, s) {
      StepUnique(samples, min, i, j, s);
    }
  }

  lemma SizeOrder()
    ensures TotalPreorder(LargerFirst)
  {
  }

  lemma {:induction false} SizeIsAlike(spikes: seq<Spike>, x: Spike)
    ensures AlikeIn(LargerFirst, x, spikes) == OfSize(spikes, Abs(x.delta))
  {
    if spikes != [] {
      SizeIsAlike(spikes[1..], x);
    }
  }

  lemma {:induction false} NoneOfSize(spikes: seq<Spike>, size: int)
    requires forall s :: s in spikes ==> Abs(s.delta) != size
    ensures OfSize(spikes, size) == []
  {
    if spikes != [] {
      assert spikes[0] in spikes;
      assert forall s :: s in spikes[1..] ==> s in spikes;
      NoneOfSize(spikes[1..], size);
    }
  }

  lemma SizesKept(steps: seq<Spike>, size: int)
    ensures OfSize(Sort(LargerFirst, steps), size) == OfSize(steps, size)
  {
    hide LargerFirst, Sort, OfSize, TotalPreorder, AlikeIn, Abs;
    var spikes := Sort(LargerFirst, steps);
    SizeOrder();
    if x :| x in steps && Abs(x.delta) == size {
      SortStable(LargerFirst, steps, x);
      SizeIsAlike(steps, x);
      SizeIsAlike(spikes, x);
    } else {
      forall s ensures s in spikes <==> s in steps {
        SameMembers(LargerFirst, steps, s);
      }
      NoneOfSize(steps, size);
      NoneOfSize(spikes, size);
    }
  }

  lemma SpikesRank(samples: seq<Sample>, min: int)
    ensures RanksSteps(samples, min, SpikesOf(samples, min))
    ensures var spikes := SpikesOf(samples, min);
            forall i, j :: 0 <= i < j < |spikes| ==> Abs(spikes[i].delta) >= Abs(spikes[j].delta)
  {
    hide StepsOf, Lists, Sort, OfSize, TotalPreorder, Abs;
    var steps := StepsOf(samples, min);
    SpikesAreSorted(samples, min);
    StepsList(samples, |samples|, min);
    assert samples[..|samples|] == samples;
    SizeOrder();
    SortMembers(LargerFirst, steps);
    SortSorted(LargerFirst, steps);
    forall size ensures OfSize(SpikesOf(samples, min), size) == OfSize(steps, size) {
      SizesKept(steps, size);
    }
    LargerByPosition(Sort(LargerFirst, steps));
  }

  lemma LargerByPosition(spikes: seq<Spike>)
    requires Sorted(LargerFirst, spikes)
    ensures forall i, j :: 0 <= i < j < |spikes| ==> Abs(spikes[i].delta) >= Abs(spikes[j].delta)
  {
    hide Abs;
    forall i, j | 0 <= i < j < |spikes| ensures Abs(spikes[i].delta) >= Abs(spikes[j].delta) {
      assert LargerFirst(spikes[i], spikes[j]);
    }
  }

  lemma SpikesAreSorted(samples: seq<Sample>, min: int)
    ensures SpikesOf(samples, min) == Sort(LargerFirst, StepsOf(samples, min))
  {
  }

  // A spike is reported exactly for neighbouring measured samples that differ by the threshold or more.
  lemma SpikeIff(samples: seq<Sample>, min: int, s: Spike)
    ensures s in SpikesOf(samples, min) <==>
            exists i, j :: Neighbours(samples, i, j) && IsStep(samples, i, j, min, s)
  {
    hide StepsOf, SpikesOf, Lists, Sort, Neighbours, IsStep, LargerFirst;
    SpikesAreSorted(samples, min);
    SameMembers(LargerFirst, StepsOf(samples, min), s);
    StepsList(samples, |samples|, min);
    assert samples[..|samples|] == samples;
    ListsMembers(StepsOf(samples, min), |samples|, StepsTo(samples, min));
    NeighboursWithin(samples);
    if s in SpikesOf(samples, min) {
      var j :| 0 <= j < |samples| && StepsTo(samples, min)(j, s);
      assert StepTo(samples, min, j, s);
    }
    if i, j :| Neighbours(samples, i, j) && IsStep(samples, i, j, min, s) {
      assert StepsTo(samples, min)(j, s);
    }
  }

  lemma NeighboursWithin(samples: seq<Sample>)
    ensures forall i, j :: Neighbours(samples, i, j) ==> 0 <= j < |samples|
  {
  }

  // From the first measured sample to the last one.
  lemma NetGrowthIs(samples: seq<Sample>, i: nat, j: nat)
    requires i <= j < |samples| && samples[i].pssBytes.Some? && samples[j].pssBytes.Some?
    requires forall k :: 0 <= k < |samples| && samples[k].pssBytes.Some? ==> i <= k <= j
    ensures NetGrowth(samples) == samples[j].pssBytes.value - samples[i].pssBytes.value
  {
    var last := LastMeasured(samples, |samples|);
    assert samples[..|samples|] == samples;
    ProcessMembers(samples, samples[i]);
    FirstMeasured(samples, i);
  }

  lemma {:induction false} FirstMeasured(samples: seq<Sample>, i: nat)
    requires i < |samples| && samples[i].pssBytes.Some? && forall k :: 0 <= k < i ==> samples[k].pssBytes.None?
    ensures ProcessSamples(samples) != [] && ProcessSamples(samples)[0] == samples[i]
  {
    if i < |samples| - 1 {
      FirstMeasured(samples[..|samples| - 1], i);
    } else {
      NoneMeasured(samples[..i]);
    }
  }

  lemma {:induction false} NoneMeasured(samples: seq<Sample>)
    requires forall k :: 0 <= k < |samples| ==> samples[k].pssBytes.None?
    ensures ProcessSamples(samples) == []
  {
    if samples != [] {
      NoneMeasured(samples[..|samples| - 1]);
    }
  }

  // ---------------------------------------------------------------- spikes add up

  lemma {:induction false} InsertSum(x: Spike, s: seq<Spike>)
    ensures DeltaSum(Insert(LargerFirst, x, s)) == x.delta + DeltaSum(s)
  {
    if s != [] && !LargerFirst(x, s[0]) {
      InsertSum(x, s[1..]);
    } else {
      assert ([x] + s)[1..] == s;
    }
  }

  lemma {:induction false} SortSum(s: seq<Spike>)
    ensures DeltaSum(Sort(LargerFirst, s)) == DeltaSum(s) && |Sort(LargerFirst, s)| == |s|
  {
    if s != [] {
      SortSum(s[1..]);
      InsertSum(s[0], Sort(LargerFirst, s[1..]));
      InsertLength(s[0], Sort(LargerFirst, s[1..]));
    }
  }

  lemma {:induction false} InsertLength(x: Spike, s: seq<Spike>)
    ensures |Insert(LargerFirst, x, s)| == |s| + 1
  {
    if s != [] && !LargerFirst(x, s[0]) {
      InsertLength(x, s[1..]);
    }
  }

  lemma {:induction false} DeltaAppend(s: seq<Spike>, x: Spike)
    ensures DeltaSum(s + [x]) == DeltaSum(s) + x.delta
  {
    if s == [] {
      assert [x][1..] == [];
    } else {
      assert (s + [x])[1..] == s[1..] + [x];
      DeltaAppend(s[1..], x);
    }
  }

  lemma {:induction false} Telescope(ps: seq<Sample>, min: int, n: nat)
    requires n < |ps|
    ensures DeltaSum(Reported(ps, min, n)) + DroppedSum(ps, min, n) == Pss(ps[n]) - Pss(ps[0])
  {
    hide Pss, Abs;
    if n > 0 {
      Telescope(ps, min, n - 1);
      DeltaAppend(Reported(ps, min, n - 1), SpikeAt(ps, n - 1));
      assert Reported(ps, min, n - 1) + [] == Reported(ps, min, n - 1);
    }
  }

  // What the dropped steps can hide: less than the threshold each.
  lemma {:induction false} DroppedBound(ps: seq<Sample>, min: int, n: nat)
    requires n < |ps| && min >= 1
    ensures |Reported(ps, min, n)| <= n
    ensures Abs(DroppedSum(ps, min, n)) <= (n - |Reported(ps, min, n)|) * (min - 1)
  {
    hide Pss;
    if n > 0 {
      DroppedBound(ps, min, n - 1);
      var d := n - 1 - |Reported(ps, min, n - 1)|;
      assert (d + 1) * (min - 1) == d * (min - 1) + (min - 1);
    }
  }

  function NetGrowth(samples: seq<Sample>): int {
    var ps := ProcessSamples(samples);
    if ps == [] then 0 else Pss(ps[|ps| - 1]) - Pss(ps[0])
  }

  // Reported spikes, although sorted by size, add up to the net growth but for the steps below
  // the threshold, and those miss it by less than the threshold each.
  lemma SpikesAddUp(samples: seq<Sample>, min: int)
    ensures var ps, spikes := ProcessSamples(samples), SpikesOf(samples, min);
            && DeltaSum(spikes) + (if ps == [] then 0 else DroppedSum(ps, min, |ps| - 1)) == NetGrowth(samples)
            && (min >= 1 && ps != [] ==>
                  Abs(NetGrowth(samples) - DeltaSum(spikes)) <= (|ps| - 1 - |spikes|) * (min - 1))
  {
    var ps := ProcessSamples(samples);
    hide ProcessSamples, Pss, Reported, DroppedSum;
    if ps != [] {
      SortSum(Reported(ps, min, |ps| - 1));
      Telescope(ps, min, |ps| - 1);
      if min >= 1 {
        DroppedBound(ps, min, |ps| - 1);
      }
    }
  }

  // ---------------------------------------------------------------- spikes stay within a process

  lemma {:induction false} ProcessMembers(samples: seq<Sample>, s: Sample)
    ensures s in ProcessSamples(samples) <==> s in samples && s.pssBytes.Some?
  {
    if samples != [] {
      ProcessMembers(samples[..|samples| - 1], s);
      assert samples == samples[..|samples| - 1] + [samples[|samples| - 1]];
    }
  }

  lemma {:induction false} ReportedMembers(ps: seq<Sample>, min: int, n: nat, spike: Spike)
    requires n < |ps| && spike in Reported(ps, min, n)
    ensures exists i :: 0 <= i < n && spike == SpikeAt(ps, i) && Abs(spike.delta) >= min
  {
    hide Pss, SpikeAt, Abs;
    if n > 0 && spike in Reported(ps, min, n - 1) {
      ReportedMembers(ps, min, n - 1, spike);
    }
  }

  lemma SpikeMembers(samples: seq<Sample>, min: int, spike: Spike)
    requires spike in SpikesOf(samples, min)
    ensures spike.start in samples && spike.end in samples
    ensures spike.start.pssBytes.Some? && spike.end.pssBytes.Some?
            && spike.delta == spike.end.pssBytes.value - spike.start.pssBytes.value
            && Abs(spike.delta) >= min
  {
    var ps := ProcessSamples(samples);
    hide ProcessSamples, Reported, Abs;
    SameMembers(LargerFirst, Reported(ps, min, |ps| - 1), spike);
    ReportedMembers(ps, min, |ps| - 1, spike);
    ProcessMembers(samples, spike.start);
    ProcessMembers(samples, spike.end);
  }

  // The samples of one target, as the report splits them.
  function OfTarget(samples: seq<Sample>, target: string): seq<Sample> {
    if samples == [] then []
    else
      var init := OfTarget(samples[..|samples| - 1], target);
      if samples[|samples| - 1].target == target then init + [samples[|samples| - 1]] else init
  }

  lemma {:induction false} OfTargetMembers(samples: seq<Sample>, target: string, s: Sample)
    ensures s in OfTarget(samples, target) <==> s in samples && s.target == target
  {
    if samples != [] {
      OfTargetMembers(samples[..|samples| - 1], target, s);
      assert samples == samples[..|samples| - 1] + [samples[|samples| - 1]];
    }
  }

  lemma {:induction false} SingleTarget(samples: seq<Sample>, target: string)
    requires forall s :: s in samples ==> s.target == target
    ensures OfTarget(samples, target) == samples
  {
    if samples != [] {
      var init := samples[..|samples| - 1];
      assert forall s :: s in init ==> s in samples;
      SingleTarget(init, target);
      assert samples[|samples| - 1] in samples && samples == init + [samples[|samples| - 1]];
    }
  }

  function AtTarget(samples: seq<Sample>, target: string): (int, Sample) -> bool {
    (i, s) => 0 <= i < |samples| && samples[i] == s && s.target == target
  }

  // A target's samples are all of them, in order.
  lemma {:induction false} OfTargetLists(samples: seq<Sample>, target: string, n: nat)
    requires n <= |samples|
    ensures Lists(OfTarget(samples[..n], target), n, AtTarget(samples, target))
  {
    hide Lists;
    var gives := AtTarget(samples, target);
    if n == 0 {
      ListsNothing(gives);
    } else {
      OfTargetLists(samples, target, n - 1);
      assert samples[..n][..n - 1] == samples[..n - 1];
      if samples[n - 1].target == target {
        ListsMore(OfTarget(samples[..n - 1], target), n - 1, gives, samples[n - 1]);
      } else {
        ListsOn(OfTarget(samples[..n - 1], target), n - 1, gives);
      }
    }
  }

  ghost predicate WithinProcess(spike: Spike, target: string) {
    spike.start.target == spike.end.target == target && spike.start.instanceId == spike.end.instanceId
  }

  lemma SpikesWithinProcess(samples: seq<Sample>, target: string, min: int)
    requires OneLifetime(samples)
    ensures forall spike :: spike in SpikesOf(OfTarget(samples, target), min) ==> WithinProcess(spike, target)
  {
    hide OfTarget, SpikesOf;
    forall spike | spike in SpikesOf(OfTarget(samples, target), min) ensures WithinProcess(spike, target) {
      SpikeMembers(OfTarget(samples, target), min, spike);
      OfTargetMembers(samples, target, spike.start);
      OfTargetMembers(samples, target, spike.end);
    }
  }

  method FilterTarget(samples: seq<Sample>, target: string) returns (mine: seq<Sample>)
    ensures mine == OfTarget(samples, target)
  {
    mine := [];
    for i := 0 to |samples|
      invariant mine == OfTarget(samples[..i], target)
    {
      assert samples[..i + 1][..i] == samples[..i];
      if samples[i].target == target {
        mine := mine + [samples[i]];
      }
    }
    assert samples[..|samples|] == samples;
  }

  // With a single target the samples are used as they are.
  method SummarizeTarget(samples: seq<Sample>, target: string, whole: bool, minSpikeBytes: int) returns (spikes: seq<Spike>)
    requires OneLifetime(samples)
    requires whole ==> forall s :: s in samples ==> s.target == target
    ensures spikes == SpikesOf(OfTarget(samples, target), minSpikeBytes)
    ensures forall spike :: spike in spikes ==> WithinProcess(spike, target)
  {
    hide OneLifetime, SpikesOf, OfTarget, WithinProcess;
    var mine := samples;
    if whole {
      SingleTarget(samples, target);
    } else {
      mine := FilterTarget(samples, target);
    }
    spikes := ComputeSpikes(mine, minSpikeBytes);
    SpikesWithinProcess(samples, target, minSpikeBytes);
  }

  // The spikes of the target's own samples.
  ghost predicate TargetReport(samples: seq<Sample>, target: string, min: int, spikes: seq<Spike>) {
    && (exists mine :: Lists(mine, |samples|, AtTarget(samples, target)) && RanksSteps(mine, min, spikes))
    && (forall i, j :: 0 <= i < j < |spikes| ==> Abs(spikes[i].delta) >= Abs(spikes[j].delta))
    && forall spike :: spike in spikes ==> WithinProcess(spike, target)
  }

  lemma ReportOfTarget(samples: seq<Sample>, target: string, min: int)
    requires OneLifetime(samples)
    ensures TargetReport(samples, target, min, SpikesOf(OfTarget(samples, target), min))
  {
    hide OneLifetime, SpikesOf, OfTarget, Lists, RanksSteps, WithinProcess, Abs;
    var mine := OfTarget(samples, target);
    OfTargetLists(samples, target, |samples|);
    assert samples[..|samples|] == samples;
    SpikesRank(mine, min);
    SpikesWithinProcess(samples, target, min);
  }

  method SummarizeSelected(selected: seq<Sample>, minSpikeBytes: int) returns (spikes: map<string, seq<Spike>>)
    requires OneLifetime(selected)
    ensures spikes.Keys == Targets(selected)
    ensures forall target :: target in spikes ==> TargetReport(selected, target, minSpikeBytes, spikes[target])
  {
    hide OneLifetime, SpikesOf, OfTarget, WithinProcess, RanksSteps, Lists, Abs;
    var targets := Targets(selected);
    spikes := map[];
    var todo := targets;
    while todo != {}
      invariant todo <= targets && spikes.Keys == targets - todo
      invariant forall target :: target in spikes ==> TargetReport(selected, target, minSpikeBytes, spikes[target])
      decreases todo
    {
      var target :| target in todo;
      if |targets| <= 1 {
        AllOne(targets, target);
      }
      var found := SummarizeTarget(selected, target, |targets| <= 1, minSpikeBytes);
      ReportOfTarget(selected, target, minSpikeBytes);
      assert TargetReport(selected, target, minSpikeBytes, found);
      hide TargetReport;
      spikes := spikes[target := found];
      todo := todo - {target};
    }
  }

  // The default report: spikes per target over the latest process lifetimes.
  method Summarize(log: seq<Sample>, minSpikeBytes: int) returns (selected: seq<Sample>, spikes: map<string, seq<Spike>>)
    ensures OneLifetime(selected) && spikes.Keys == Targets(selected)
    ensures forall target :: target in spikes ==> TargetReport(selected, target, minSpikeBytes, spikes[target])
  {
    hide OneLifetime, NameLess, FirstLatest, TargetReport;
    selected := SelectLatestInstances(log);
    spikes := SummarizeSelected(selected, minSpikeBytes);
  }

  function Targets(samples: seq<Sample>): (targets: set<string>)
    ensures forall s :: s in samples ==> s.target in targets
    ensures forall t :: t in targets ==> exists s :: s in samples && s.target == t
  {
    set s | s in samples :: s.target
  }

  lemma AllOne(targets: set<string>, target: string)
    requires |targets| <= 1 && target in targets
    ensures targets == {target}
  {
    assert |targets - {target}| == 0;
    assert targets == {target} + (targets - {target});
  }
}
