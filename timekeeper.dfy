/** The run-scoped bookkeeping of tuple timings (org.fog.utils.TimeKeeper):
    a unique-id counter, the CPU start time of each tuple, and per tuple type a
    running average of CPU time with a sample count.

    The simulation clock is passed in as `now`; averages are exact reals.

    As written, `tupleEndedExecution` never increments the stored count after
    a type's first completion (`RecordAsWritten`), so from the third sample on
    the average is not the mean. The class does what the code does; the
    intended update (`RecordCorrected`) and its mean property stand beside it. */
module TimeKeeping {
  import opened Common

  /** A per-type entry: the stored average and the stored sample count. */
  datatype Stat = Stat(average: real, count: int)

  /** Sum of a list of samples. */
  function Sum(samples: seq<real>): real
    decreases |samples|
  {
    if samples == [] then 0.0 else Sum(samples[..|samples| - 1]) + samples[|samples| - 1]
  }

  /** The incremental-mean formula: the mean of `n` samples averaging `average`
      and one more sample `elapsed`. */
  function IncrementalMean(average: real, n: int, elapsed: real): real
    requires n >= 0
  {
    (average * n as real + elapsed) / (n + 1) as real
  }

  /** One completion as `tupleEndedExecution` performs it: the first sample
      creates the entry with count 1; a later one rewrites the average with the
      incremental-mean formula but leaves the stored count as it was. */
  function RecordAsWritten(prior: Option<Stat>, elapsed: real): (r: Stat)
    requires prior.Some? ==> prior.value.count >= 0
    ensures prior.None? ==> r == Stat(elapsed, 1)
    ensures prior.Some? ==> r.count == prior.value.count
  {
    match prior
    case None => Stat(elapsed, 1)
    case Some(s) => Stat(IncrementalMean(s.average, s.count, elapsed), s.count)
  }

  /** The entry that a sequence of completions of one type leaves, oldest first. */
  function StatsAsWritten(samples: seq<real>): (r: Option<Stat>)
    ensures r.Some? <==> |samples| > 0
    ensures r.Some? ==> r.value.count == 1
    decreases |samples|
  {
    if samples == [] then None
    else Some(RecordAsWritten(StatsAsWritten(samples[..|samples| - 1]), samples[|samples| - 1]))
  }

  /** The intended update: the count moves on with the average. */
  function RecordCorrected(prior: Option<Stat>, elapsed: real): (r: Stat)
    requires prior.Some? ==> prior.value.count >= 0
    ensures prior.None? ==> r == Stat(elapsed, 1)
    ensures prior.Some? ==> r.count == prior.value.count + 1
  {
    match prior
    case None => Stat(elapsed, 1)
    case Some(s) => Stat(IncrementalMean(s.average, s.count, elapsed), s.count + 1)
  }

  function StatsCorrected(samples: seq<real>): (r: Option<Stat>)
    ensures r.Some? <==> |samples| > 0
    ensures r.Some? ==> r.value.count == |samples|
    decreases |samples|
  {
    if samples == [] then None
    else Some(RecordCorrected(StatsCorrected(samples[..|samples| - 1]), samples[|samples| - 1]))
  }

  /** As written, the stored average weighs the previous average and the newest
      sample one half each: an exponential smoothing, not a mean. */
  lemma {:induction false} AsWrittenHalves(samples: seq<real>)
    requires |samples| >= 2
    ensures StatsAsWritten(samples).value.average
         == (StatsAsWritten(samples[..|samples| - 1]).value.average + samples[|samples| - 1]) / 2.0
  {
    var prior := StatsAsWritten(samples[..|samples| - 1]);
    assert prior.value.count == 1;
  }

  /** With one or two samples the as-written average is still the arithmetic mean. */
  lemma {:induction false} AsWrittenMeanUpToTwo(samples: seq<real>)
    requires 1 <= |samples| <= 2
    ensures StatsAsWritten(samples).value.average == Sum(samples) / |samples| as real
  {
    var p := samples[..|samples| - 1];
    if |samples| == 2 {
      assert p[..0] == [];
      assert StatsAsWritten(p) == Some(Stat(samples[0], 1));
      assert Sum(p) == samples[0];
    } else {
      assert p == [];
    }
  }

  /** From the third sample on, the as-written average differs from the mean:
      3, 6, 9 give 6.75, whose mean is 6. */
  lemma AsWrittenNotMean()
    ensures StatsAsWritten([3.0, 6.0, 9.0]).value.average == 6.75
    ensures Sum([3.0, 6.0, 9.0]) / 3.0 == 6.0
  {
    var s := [3.0, 6.0, 9.0];
    assert s[..2] == [3.0, 6.0] && s[..2][..1] == [3.0] && s[..2][..1][..0] == [];
    AsWrittenHalves(s);
    AsWrittenHalves(s[..2]);
    assert StatsAsWritten([3.0]).value.average == 3.0;
  }

  /** Every as-written update is a convex combination of the old average and the
      new sample, so the average stays within any bounds all samples respect. */
  lemma {:induction false} AsWrittenWithinBounds(samples: seq<real>, lo: real, hi: real)
    requires |samples| > 0
    requires forall i :: 0 <= i < |samples| ==> lo <= samples[i] <= hi
    ensures lo <= StatsAsWritten(samples).value.average <= hi
    decreases |samples|
  {
    var p := samples[..|samples| - 1];
    if |samples| >= 2 {
      AsWrittenWithinBounds(p, lo, hi);
      AsWrittenHalves(samples);
    }
  }

  /** The corrected recurrence maintains the arithmetic mean of all samples. */
  lemma {:induction false} CorrectedIsMean(samples: seq<real>)
    requires |samples| > 0
    ensures StatsCorrected(samples) == Some(Stat(Sum(samples) / |samples| as real, |samples|))
    decreases |samples|
  {
    var n := |samples| - 1;
    var p := samples[..n];
    var e := samples[n];
    if n == 0 {
      assert p == [];
    } else {
      CorrectedIsMean(p);
      var k := n as real;
      var avg := StatsCorrected(p).value.average;
      assert avg * k == Sum(p) by {
        assert avg == Sum(p) / k;
      }
      assert Sum(samples) == Sum(p) + e;
      assert StatsCorrected(samples).value.average == (avg * k + e) / (k + 1.0);
    }
  }

  /** The sum of samples that all lie within [lo, hi] lies within n * lo and n * hi. */
  lemma {:induction false} SumWithinBounds(samples: seq<real>, lo: real, hi: real)
    requires forall i :: 0 <= i < |samples| ==> lo <= samples[i] <= hi
    ensures |samples| as real * lo <= Sum(samples) <= |samples| as real * hi
    decreases |samples|
  {
    if samples != [] {
      var p := samples[..|samples| - 1];
      forall i | 0 <= i < |p|
        ensures lo <= p[i] <= hi
      {
        assert p[i] == samples[i];
      }
      SumWithinBounds(p, lo, hi);
      assert |samples| as real * lo == |p| as real * lo + lo && |samples| as real * hi == |p| as real * hi + hi;
    }
  }

  /** The mean of samples that all lie within [lo, hi] lies within [lo, hi] too. */
  lemma MeanWithinBounds(samples: seq<real>, lo: real, hi: real)
    requires |samples| > 0
    requires forall i :: 0 <= i < |samples| ==> lo <= samples[i] <= hi
    ensures lo <= Sum(samples) / |samples| as real <= hi
  {
    SumWithinBounds(samples, lo, hi);
    QuotientBounds(Sum(samples), |samples| as real, lo, hi);
  }

  /** The corrected average stays within any bounds all samples respect. */
  lemma CorrectedWithinBounds(samples: seq<real>, lo: real, hi: real)
    requires |samples| > 0
    requires forall i :: 0 <= i < |samples| ==> lo <= samples[i] <= hi
    ensures lo <= StatsCorrected(samples).value.average <= hi
  {
    CorrectedIsMean(samples);
    MeanWithinBounds(samples, lo, hi);
  }

  /** Dividing by a positive n: n * lo <= x <= n * hi gives lo <= x / n <= hi. */
  lemma QuotientBounds(x: real, n: real, lo: real, hi: real)
    requires n > 0.0 && n * lo <= x <= n * hi
    ensures lo <= x / n <= hi
  {
    assert n * (x / n) == x;
  }

  /** The ids that `count` successive calls of `getUniqueId` hand out,
      starting from counter value `start`. */
  function IdsFrom(start: int, count: nat): (r: seq<int>)
    requires IsInt32(start)
    ensures |r| == count
    decreases count
  {
    if count == 0 then [] else [start] + IdsFrom(Inc32(start), count - 1)
  }

  /** From a fresh counter the ids are 1, 2, 3, ... as long as every id handed
      out stays within Java's largest `int`; hence they are pairwise distinct. */
  lemma {:induction false} IdsFromOne(start: int, count: nat)
    requires 1 <= start && start + count <= INT_MAX + 1
    ensures forall k :: 0 <= k < count ==> IdsFrom(start, count)[k] == start + k
    decreases count
  {
    if count > 1 {
      IdsFromOne(start + 1, count - 1);
      assert IdsFrom(start, count) == [start] + IdsFrom(start + 1, count - 1);
    } else if count == 1 {
      assert IdsFrom(start, count) == [start];
    }
  }

  lemma IdsDistinct(count: nat)
    requires count <= INT_MAX
    ensures forall j, k :: 0 <= j < k < count ==> IdsFrom(1, count)[j] != IdsFrom(1, count)[k]
  {
    IdsFromOne(1, count);
  }

  /** The average and count tables hold, for each tuple type, exactly the entry
      that the type's history of elapsed times leaves under the as-written update. */
  ghost predicate Summarises(history: map<string, seq<real>>, averages: map<string, real>, counts: map<string, int>) {
    && history.Keys == averages.Keys == counts.Keys
    && forall t :: t in history ==> StatsAsWritten(history[t]) == Some(Stat(averages[t], counts[t]))
  }

  /** One more elapsed time for type `t` keeps the tables a summary of the history. */
  lemma RecordKeepsSummary(history: map<string, seq<real>>, averages: map<string, real>, counts: map<string, int>,
                           t: string, elapsed: real)
    requires Summarises(history, averages, counts)
    ensures var prior := if t in averages then Some(Stat(averages[t], counts[t])) else None;
            var s := RecordAsWritten(prior, elapsed);
            var before := if t in history then history[t] else [];
            Summarises(history[t := before + [elapsed]], averages[t := s.average], counts[t := s.count])
  {
    var before := if t in history then history[t] else [];
    var h := before + [elapsed];
    assert h[..|h| - 1] == before;
  }

  class TimeKeeper {
    /** Counter behind `getUniqueId` (a Java `int`). */
    var count: int
    var emitTimes: map<int, real>
    var endTimes: map<int, real>
    var tupleIdToCpuStartTime: map<int, real>
    var tupleTypeToAverageCpuTime: map<string, real>
    var tupleTypeToExecutedTupleCount: map<string, int>
    var loopIdToTupleIds: map<int, seq<int>>
    var loopIdToCurrentAverage: map<int, real>
    var loopIdToCurrentNum: map<int, int>
    var loopIdToLatencyQoSSuccessCount: map<int, int>
    /** Elapsed times fed so far per tuple type, oldest first. The Java class
        keeps no such list; it is the history the stored entries summarise. */
    ghost var samples: map<string, seq<real>>

    ghost predicate Valid()
      reads this
    {
      && IsInt32(count)
      && Summarises(samples, tupleTypeToAverageCpuTime, tupleTypeToExecutedTupleCount)
      && loopIdToTupleIds.Keys <= loopIdToCurrentAverage.Keys
    }

    /** The state of a newly created TimeKeeper. */
    ghost predicate IsFresh()
      reads this
    {
      && count == 1
      && emitTimes == map[] && endTimes == map[]
      && tupleIdToCpuStartTime == map[]
      && tupleTypeToAverageCpuTime == map[] && tupleTypeToExecutedTupleCount == map[]
      && loopIdToTupleIds == map[] && loopIdToCurrentAverage == map[]
      && loopIdToCurrentNum == map[] && loopIdToLatencyQoSSuccessCount == map[]
      && samples == map[]
    }

    /** The entry stored for tuple type `t`, if any. */
    function StatOf(t: string): Option<Stat>
      reads this
      requires Valid()
    {
      if t in tupleTypeToAverageCpuTime
      then Some(Stat(tupleTypeToAverageCpuTime[t], tupleTypeToExecutedTupleCount[t]))
      else None
    }

    constructor ()
      ensures Valid() && IsFresh()
    {
      count := 1;
      emitTimes, endTimes := map[], map[];
      tupleIdToCpuStartTime := map[];
      tupleTypeToAverageCpuTime, tupleTypeToExecutedTupleCount := map[], map[];
      loopIdToTupleIds, loopIdToCurrentAverage := map[], map[];
      loopIdToCurrentNum, loopIdToLatencyQoSSuccessCount := map[], map[];
      samples := map[];
    }

    /** `clearData`: the whole state is replaced by that of a new instance. */
    method ClearData()
      modifies this
      ensures Valid() && IsFresh()
    {
      count := 1;
      emitTimes, endTimes := map[], map[];
      tupleIdToCpuStartTime := map[];
      tupleTypeToAverageCpuTime, tupleTypeToExecutedTupleCount := map[], map[];
      loopIdToTupleIds, loopIdToCurrentAverage := map[], map[];
      loopIdToCurrentNum, loopIdToLatencyQoSSuccessCount := map[], map[];
      samples := map[];
    }

    /** `getUniqueId`: hands out the counter, then increments it. */
    method GetUniqueId() returns (id: int)
      requires Valid()
      modifies this`count
      ensures Valid()
      ensures id == old(count) && count == Inc32(old(count))
    {
      id := count;
      count := Inc32(count);
    }

    /** `tupleStartedExecution`: records (or overwrites) the start time. */
    method TupleStartedExecution(tupleId: int, now: real)
      requires Valid()
      modifies this`tupleIdToCpuStartTime
      ensures Valid()
      ensures tupleIdToCpuStartTime == old(tupleIdToCpuStartTime)[tupleId := now]
    {
      tupleIdToCpuStartTime := tupleIdToCpuStartTime[tupleId := now];
    }

    /** `tupleEndedExecution`: without a recorded start nothing happens;
        otherwise the type's entry takes one as-written update with the elapsed
        time. The start entry is kept, and no other type's entry changes. */
    method TupleEndedExecution(tupleId: int, tupleType: string, now: real)
      requires Valid()
      modifies this`tupleTypeToAverageCpuTime, this`tupleTypeToExecutedTupleCount, this`samples
      ensures Valid()
      ensures tupleId !in tupleIdToCpuStartTime ==>
                tupleTypeToAverageCpuTime == old(tupleTypeToAverageCpuTime)
                && tupleTypeToExecutedTupleCount == old(tupleTypeToExecutedTupleCount)
                && samples == old(samples)
      ensures tupleId in tupleIdToCpuStartTime ==>
                var elapsed := now - tupleIdToCpuStartTime[tupleId];
                var s := RecordAsWritten(old(StatOf(tupleType)), elapsed);
                && tupleTypeToAverageCpuTime == old(tupleTypeToAverageCpuTime)[tupleType := s.average]
                && tupleTypeToExecutedTupleCount == old(tupleTypeToExecutedTupleCount)[tupleType := s.count]
                && samples == old(samples)[tupleType := (if tupleType in old(samples) then old(samples)[tupleType] else []) + [elapsed]]
    {
      if tupleId !in tupleIdToCpuStartTime {
        return;
      }
      var executionTime := now - tupleIdToCpuStartTime[tupleId];
      RecordExecution(tupleType, executionTime);
    }

    /** The second half of `tupleEndedExecution`: the type's entry takes one
        as-written update with `executionTime`. */
    method RecordExecution(tupleType: string, executionTime: real)
      requires Valid()
      modifies this`tupleTypeToAverageCpuTime, this`tupleTypeToExecutedTupleCount, this`samples
      ensures Valid()
      ensures var s := RecordAsWritten(old(StatOf(tupleType)), executionTime);
              && tupleTypeToAverageCpuTime == old(tupleTypeToAverageCpuTime)[tupleType := s.average]
              && tupleTypeToExecutedTupleCount == old(tupleTypeToExecutedTupleCount)[tupleType := s.count]
              && samples == old(samples)[tupleType := (if tupleType in old(samples) then old(samples)[tupleType] else []) + [executionTime]]
    {
      ghost var prior := StatOf(tupleType);
      ghost var s := RecordAsWritten(prior, executionTime);
      ghost var history := (if tupleType in samples then samples[tupleType] else []) + [executionTime];
      ghost var averages := tupleTypeToAverageCpuTime[tupleType := s.average];
      ghost var counts := tupleTypeToExecutedTupleCount[tupleType := s.count];
      assert Summarises(samples[tupleType := history], averages, counts) by {
        RecordKeepsSummary(samples, tupleTypeToAverageCpuTime, tupleTypeToExecutedTupleCount, tupleType, executionTime);
      }
      if tupleType !in tupleTypeToAverageCpuTime {
        tupleTypeToAverageCpuTime := tupleTypeToAverageCpuTime[tupleType := executionTime];
        tupleTypeToExecutedTupleCount := tupleTypeToExecutedTupleCount[tupleType := 1];
      } else {
        var currentAverage := tupleTypeToAverageCpuTime[tupleType];
        var currentCount := tupleTypeToExecutedTupleCount[tupleType];
        assert prior == Some(Stat(currentAverage, currentCount));
        assert s.count == currentCount;
        tupleTypeToAverageCpuTime := tupleTypeToAverageCpuTime[tupleType :=
          IncrementalMean(currentAverage, currentCount, executionTime)];
      }
      assert tupleTypeToAverageCpuTime == averages && tupleTypeToExecutedTupleCount == counts;
      samples := samples[tupleType := history];
    }
  }

  /** What the class stores for a tuple type, as the code is written: the
      count is 1 whatever the number of completions, and the average is the
      mean of the execution times only while there are at most two. */
  lemma StoredAsWritten(tk: TimeKeeper, t: string)
    requires tk.Valid()
    requires t in tk.tupleTypeToAverageCpuTime
    ensures |tk.samples[t]| > 0
    ensures tk.tupleTypeToExecutedTupleCount[t] == 1
    ensures |tk.samples[t]| <= 2 ==> tk.tupleTypeToAverageCpuTime[t] == Sum(tk.samples[t]) / |tk.samples[t]| as real
    ensures |tk.samples[t]| >= 2 ==>
              tk.tupleTypeToAverageCpuTime[t] ==
              (StatsAsWritten(tk.samples[t][..|tk.samples[t]| - 1]).value.average + tk.samples[t][|tk.samples[t]| - 1]) / 2.0
  {
    var h := tk.samples[t];
    if |h| <= 2 {
      AsWrittenMeanUpToTwo(h);
    }
    if |h| >= 2 {
      AsWrittenHalves(h);
    }
  }

  /** The stored average of every tuple type lies within any bounds that all
      elapsed times fed for that type respect. */
  lemma AverageWithinBounds(tk: TimeKeeper, t: string, lo: real, hi: real)
    requires tk.Valid()
    requires t in tk.tupleTypeToAverageCpuTime
    requires forall i :: 0 <= i < |tk.samples[t]| ==> lo <= tk.samples[t][i] <= hi
    ensures lo <= tk.tupleTypeToAverageCpuTime[t] <= hi
  {
    AsWrittenWithinBounds(tk.samples[t], lo, hi);
  }
}
