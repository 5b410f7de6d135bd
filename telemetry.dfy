/**
 * The `MQTTclient` of mqtt_client/MQTTclient.py, the one observer that aggregates:
 * it keeps a four-slot partial record (`temp`, `hum`, `pm10`, `pm25`), merges every
 * `update(...)` into it pair by pair, and as soon as all four slots are filled it stamps
 * the current local time, publishes one record and empties the four slots again.
 *
 * The clock (`time.localtime()`) is a parameter of `Update`; publishing is an append to a
 * ghost outbox of (topic, record) pairs, the record being the `_timedata` dictionary that
 * the source serialises to JSON.
 */
module Telemetry {
  import opened Wrappers
  import opened Observer

  /** The eight fields of `time.localtime()`; the last two are read and dropped. */
  datatype LocalTime = LocalTime(
    year: int, month: int, mday: int, hour: int, minute: int, second: int,
    weekday: int, yearday: int)

  /** The `_message` dictionary, whose keys are, in insertion order, temp, hum, pm10, pm25. */
  datatype Message = Message(temp: Option<int>, hum: Option<int>, pm10: Option<int>, pm25: Option<int>)

  /** The message with every key set to `None`, as built at construction and after a publish. */
  const Empty := Message(None, None, None, None)

  /** `self._message.values()`, in the dictionary's key order. */
  function Values(m: Message): seq<Option<int>>
  {
    [m.temp, m.hum, m.pm10, m.pm25]
  }

  /** A message is complete when no slot is `None`; a zero reading is present. */
  predicate Complete(m: Message)
  {
    m.temp.Some? && m.hum.Some? && m.pm10.Some? && m.pm25.Some?
  }

  /**
   * The `_timedata` dictionary: six clock slots, and the four message keys that its
   * `.update(self._message)` copies in. Before the first publish those four keys are
   * absent rather than `None`; the dictionary is only ever serialised after the copy,
   * so the difference cannot be seen and both are `None` here.
   */
  datatype TimeData = TimeData(
    year: Option<int>, month: Option<int>, mday: Option<int>,
    hour: Option<int>, minute: Option<int>, second: Option<int>,
    readings: Message)

  /** `_timedata` as built by the constructor. */
  const Unset := TimeData(None, None, None, None, None, None, Empty)

  /** A record with all ten fields present. */
  predicate Full(d: TimeData)
  {
    && d.year.Some? && d.month.Some? && d.mday.Some?
    && d.hour.Some? && d.minute.Some? && d.second.Some?
    && Complete(d.readings)
  }

  /** One `self._client.publish(self._topic, json.dumps(self._timedata))`. */
  datatype Publication = Publication(topic: string, payload: TimeData)

  /**
   * The merge step of `update`. The temperature pair is written only when `temp` is
   * given, and then `hum` is written as passed, even when it is `None`; the
   * particulate pair is written only when `pm25` is given, and then `pm10` as passed.
   */
  function Merge(m: Message, a: UpdateArgs): (r: Message)
    ensures a.temp.Some? ==> r.temp == a.temp && r.hum == a.hum
    ensures a.temp.None? ==> r.temp == m.temp && r.hum == m.hum
    ensures a.pm25.Some? ==> r.pm25 == a.pm25 && r.pm10 == a.pm10
    ensures a.pm25.None? ==> r.pm25 == m.pm25 && r.pm10 == m.pm10
  {
    var withTemp := if a.temp.Some? then m.(temp := a.temp, hum := a.hum) else m;
    if a.pm25.Some? then withTemp.(pm25 := a.pm25, pm10 := a.pm10) else withTemp
  }

  /** The record a publish sends: the clock at publish time, merged with the complete message. */
  function Stamp(t: LocalTime, m: Message): (r: TimeData)
    ensures r.readings == m
    ensures Full(r) <==> Complete(m)
  {
    TimeData(Some(t.year), Some(t.month), Some(t.mday),
             Some(t.hour), Some(t.minute), Some(t.second), m)
  }

  /** What one `update` does to the message, and the record it publishes, if any. */
  datatype Outcome = Outcome(message: Message, published: Option<TimeData>)

  function Step(m: Message, a: UpdateArgs, t: LocalTime): (r: Outcome)
    ensures r.published.Some? ==> r.message == Empty && Full(r.published.value)
    ensures r.published.None? ==> r.message == Merge(m, a) && !Complete(r.message)
  {
    var merged := Merge(m, a);
    if Complete(merged) then Outcome(Empty, Some(Stamp(t, merged))) else Outcome(merged, None)
  }

  class MqttClient {
    const server: string
    const clientId: string
    const topic: string
    var message: Message
    var timedata: TimeData
    /** Every publish made so far, in order. */
    ghost var outbox: seq<Publication>

    /** `__init__`: nothing is connected or published, and every slot is `None`. */
    constructor (server: string, clientId: string, topic: string)
      ensures this.server == server && this.clientId == clientId && this.topic == topic
      ensures message == Empty && timedata == Unset && outbox == []
      ensures !Complete(message)
    {
      this.server := server;
      this.clientId := clientId;
      this.topic := topic;
      message := Empty;
      timedata := Unset;
      outbox := [];
    }

    /** `is_complete`: scans the message values and answers false at the first `None`. */
    method IsComplete() returns (complete: bool)
      ensures complete <==> Complete(message)
    {
      var values := Values(message);
      for i := 0 to |values|
        invariant forall j :: 0 <= j < i ==> values[j].Some?
      {
        if values[i].None? {
          return false;
        }
      }
      assert values[0].Some? && values[1].Some? && values[2].Some? && values[3].Some?;
      return true;
    }

    /**
     * `update`: merges the arguments into the message key by key, and when the message is
     * then complete stamps `_timedata` with `now`, copies the message into it, publishes it
     * once and resets the message. The `hour` and `minute` arguments are never read: the
     * names are rebound to the clock's values before use.
     */
    method Update(args: UpdateArgs, now: LocalTime)
      modifies this
      ensures var o := Step(old(message), args, now);
        && message == o.message
        && timedata == (if o.published.Some? then o.published.value else old(timedata))
        && outbox == old(outbox) + (if o.published.Some? then [Publication(topic, o.published.value)] else [])
    {
      if args.temp.Some? {
        message := message.(temp := args.temp);
        message := message.(hum := args.hum);
      }
      if args.pm25.Some? {
        message := message.(pm25 := args.pm25);
        message := message.(pm10 := args.pm10);
      }
      var complete := IsComplete();
      if complete {
        timedata := timedata.(hour := Some(now.hour));
        timedata := timedata.(minute := Some(now.minute));
        timedata := timedata.(second := Some(now.second));
        timedata := timedata.(year := Some(now.year));
        timedata := timedata.(month := Some(now.month));
        timedata := timedata.(mday := Some(now.mday));
        timedata := timedata.(readings := message);
        outbox := outbox + [Publication(topic, timedata)];
        message := Empty;
      }
    }
  }

  // ---------------------------------------------------------------------------
  // Properties of one update

  /** A call publishes exactly when the merged message is complete; one that does not only merges. */
  lemma StepPublishesIffComplete(m: Message, a: UpdateArgs, t: LocalTime)
    ensures Step(m, a, t).published.Some? <==> Complete(Merge(m, a))
    ensures Step(m, a, t).published.None? ==> Step(m, a, t).message == Merge(m, a)
  {
  }

  /**
   * The published record carries the clock fields read at publish time and the four values
   * as they stood just before the reset, all ten present; afterwards every slot is `None`.
   */
  lemma PublishedRecord(m: Message, a: UpdateArgs, t: LocalTime)
    requires Step(m, a, t).published.Some?
    ensures var rec := Step(m, a, t).published.value;
      && rec.year == Some(t.year) && rec.month == Some(t.month) && rec.mday == Some(t.mday)
      && rec.hour == Some(t.hour) && rec.minute == Some(t.minute) && rec.second == Some(t.second)
      && rec.readings == Merge(m, a)
      && Full(rec)
    ensures Step(m, a, t).message == Empty
  {
  }

  /** The `hour` and `minute` arguments affect neither the message nor the published record. */
  lemma ClockArgumentsIgnored(m: Message, a: UpdateArgs, t: LocalTime, hour: Option<int>, minute: Option<int>)
    ensures Step(m, a.(hour := hour, minute := minute), t) == Step(m, a, t)
  {
  }

  /** After a reset, a single call publishes only if it supplies both pairs, all four values present. */
  lemma FromEmptyNeedsBothPairs(a: UpdateArgs, t: LocalTime)
    ensures Step(Empty, a, t).published.Some? <==> a.temp.Some? && a.hum.Some? && a.pm25.Some? && a.pm10.Some?
  {
  }

  // ---------------------------------------------------------------------------
  // Sequences of updates

  /** One `update` call together with the clock it would read. */
  datatype Call = Call(args: UpdateArgs, now: LocalTime)

  /** The message after a sequence of calls, and every record published on the way. */
  datatype Trace = Trace(message: Message, published: seq<TimeData>)

  function Run(m: Message, calls: seq<Call>): (r: Trace)
    ensures |r.published| <= |calls|
    decreases |calls|
  {
    if calls == [] then Trace(m, [])
    else
      var o := Step(m, calls[0].args, calls[0].now);
      var rest := Run(o.message, calls[1..]);
      Trace(rest.message, ToSeq(o.published) + rest.published)
  }

  /** Running two sequences one after the other is running their concatenation. */
  lemma {:induction false} RunAppend(m: Message, first: seq<Call>, second: seq<Call>)
    ensures var r1 := Run(m, first);
      var r2 := Run(r1.message, second);
      Run(m, first + second) == Trace(r2.message, r1.published + r2.published)
    decreases |first|
  {
    if first == [] {
      assert first + second == second;
    } else {
      var o := Step(m, first[0].args, first[0].now);
      assert (first + second)[1..] == first[1..] + second;
      RunAppend(o.message, first[1..], second);
    }
  }

  /** The arguments of a sequence of calls. */
  function ArgsOf(calls: seq<Call>): (r: seq<UpdateArgs>)
    ensures |r| == |calls|
    ensures forall i :: 0 <= i < |calls| ==> r[i] == calls[i].args
  {
    seq(|calls|, i requires 0 <= i < |calls| => calls[i].args)
  }

  /** The message after merging a sequence of updates in order, with no completeness check. */
  function MergeAll(m: Message, updates: seq<UpdateArgs>): Message
    decreases |updates|
  {
    if updates == [] then m else MergeAll(Merge(m, updates[0]), updates[1..])
  }

  /** Update `i` is the last one in the sequence that gives `temp`. */
  predicate LastTempWriter(updates: seq<UpdateArgs>, i: int)
  {
    0 <= i < |updates| && updates[i].temp.Some? &&
    forall j :: i < j < |updates| ==> updates[j].temp.None?
  }

  /** Update `i` is the last one in the sequence that gives `pm25`. */
  predicate LastPmWriter(updates: seq<UpdateArgs>, i: int)
  {
    0 <= i < |updates| && updates[i].pm25.Some? &&
    forall j :: i < j < |updates| ==> updates[j].pm25.None?
  }

  /**
   * Last write wins: each pair holds what the last update giving its guard value passed,
   * and is untouched when no update gives it.
   */
  lemma {:induction false} MergeAllLastWriteWins(m: Message, updates: seq<UpdateArgs>)
    ensures forall i :: LastTempWriter(updates, i) ==>
      MergeAll(m, updates).temp == updates[i].temp && MergeAll(m, updates).hum == updates[i].hum
    ensures (forall i :: 0 <= i < |updates| ==> updates[i].temp.None?) ==>
      MergeAll(m, updates).temp == m.temp && MergeAll(m, updates).hum == m.hum
    ensures forall i :: LastPmWriter(updates, i) ==>
      MergeAll(m, updates).pm25 == updates[i].pm25 && MergeAll(m, updates).pm10 == updates[i].pm10
    ensures (forall i :: 0 <= i < |updates| ==> updates[i].pm25.None?) ==>
      MergeAll(m, updates).pm25 == m.pm25 && MergeAll(m, updates).pm10 == m.pm10
    decreases |updates|
  {
    if updates != [] {
      var tail := updates[1..];
      var m' := Merge(m, updates[0]);
      MergeAllLastWriteWins(m', tail);
      assert MergeAll(m, updates) == MergeAll(m', tail);
      forall i | LastTempWriter(updates, i) && 0 < i
        ensures LastTempWriter(tail, i - 1)
      {
      }
      forall i | LastPmWriter(updates, i) && 0 < i
        ensures LastPmWriter(tail, i - 1)
      {
      }
      if LastTempWriter(updates, 0) {
        assert forall j :: 0 <= j < |tail| ==> tail[j].temp.None? by {
          forall j | 0 <= j < |tail| ensures tail[j].temp.None? { assert tail[j] == updates[j + 1]; }
        }
      }
      if LastPmWriter(updates, 0) {
        assert forall j :: 0 <= j < |tail| ==> tail[j].pm25.None? by {
          forall j | 0 <= j < |tail| ensures tail[j].pm25.None? { assert tail[j] == updates[j + 1]; }
        }
      }
    }
  }

  /** A sequence of calls that publishes nothing leaves exactly the merge of all its updates. */
  lemma {:induction false} SilentRunMergesAll(m: Message, calls: seq<Call>)
    requires Run(m, calls).published == []
    ensures Run(m, calls).message == MergeAll(m, ArgsOf(calls))
    decreases |calls|
  {
    if calls != [] {
      var o := Step(m, calls[0].args, calls[0].now);
      assert o.published.None?;
      assert ArgsOf(calls)[1..] == ArgsOf(calls[1..]);
      SilentRunMergesAll(o.message, calls[1..]);
    }
  }

  /**
   * Counting from a reset (or any message), the first publication happens at the first call
   * after which the merge of all updates so far is complete.
   */
  lemma FirstPublication(m: Message, calls: seq<Call>)
    requires calls != []
    requires Run(m, calls[..|calls| - 1]).published == []
    ensures Run(m, calls).published != [] <==> Complete(MergeAll(m, ArgsOf(calls)))
  {
    var n := |calls| - 1;
    var prefix, last := calls[..n], [calls[n]];
    assert calls == prefix + last;
    RunAppend(m, prefix, last);
    SilentRunMergesAll(m, prefix);
    RunOne(Run(m, prefix).message, calls[n]);
    MergeAllAppend(m, ArgsOf(prefix), calls[n].args);
    ArgsOfSnoc(calls);
  }

  /** A single call publishes exactly when its merge is complete. */
  lemma RunOne(m: Message, c: Call)
    ensures Run(m, [c]).published != [] <==> Complete(Merge(m, c.args))
  {
    assert [c][1..] == [];
  }

  /** The arguments of a non-empty sequence are those of all but its last call, then the last one's. */
  lemma ArgsOfSnoc(calls: seq<Call>)
    requires calls != []
    ensures ArgsOf(calls) == ArgsOf(calls[..|calls| - 1]) + [calls[|calls| - 1].args]
  {
  }

  lemma {:induction false} MergeAllAppend(m: Message, updates: seq<UpdateArgs>, a: UpdateArgs)
    ensures MergeAll(m, updates + [a]) == Merge(MergeAll(m, updates), a)
    decreases |updates|
  {
    if updates != [] {
      assert (updates + [a])[1..] == updates[1..] + [a];
      MergeAllAppend(Merge(m, updates[0]), updates[1..], a);
    }
  }

  /** An update that supplies only the temperature pair, both values present. */
  predicate TempPair(a: UpdateArgs)
  {
    a.temp.Some? && a.hum.Some? && a.pm25.None?
  }

  /** An update that supplies only the particulate pair, both values present. */
  predicate PmPair(a: UpdateArgs)
  {
    a.pm25.Some? && a.pm10.Some? && a.temp.None?
  }

  /** Calls that alternate temperature pair, particulate pair, temperature pair, ... */
  predicate Alternating(calls: seq<Call>)
  {
    forall i :: 0 <= i < |calls| ==> if i % 2 == 0 then TempPair(calls[i].args) else PmPair(calls[i].args)
  }

  /** The record published by a temperature call followed by a particulate call. */
  function PairRecord(tc: Call, pc: Call): TimeData
  {
    Stamp(pc.now, Message(tc.args.temp, tc.args.hum, pc.args.pm10, pc.args.pm25))
  }

  /** A temperature call then a particulate call, from a reset, publish their pair and reset again. */
  lemma RunPairFromEmpty(calls: seq<Call>)
    requires |calls| >= 2 && TempPair(calls[0].args) && PmPair(calls[1].args)
    ensures var r := Run(Empty, calls[2..]);
      Run(Empty, calls) == Trace(r.message, [PairRecord(calls[0], calls[1])] + r.published)
  {
    var o0 := Step(Empty, calls[0].args, calls[0].now);
    assert o0 == Outcome(Merge(Empty, calls[0].args), None);
    var o1 := Step(o0.message, calls[1].args, calls[1].now);
    assert o1 == Outcome(Empty, Some(PairRecord(calls[0], calls[1])));
    assert calls[1..][1..] == calls[2..];
  }

  /** Dropping one (temperature, particulate) pair keeps the calls alternating. */
  lemma AlternatingTail(calls: seq<Call>)
    requires |calls| >= 2 && Alternating(calls)
    ensures Alternating(calls[2..])
  {
    var rest := calls[2..];
    forall i | 0 <= i < |rest|
      ensures if i % 2 == 0 then TempPair(rest[i].args) else PmPair(rest[i].args)
    {
      assert rest[i] == calls[i + 2];
      assert (i + 2) % 2 == i % 2;
    }
  }

  /** The records of consecutive (temperature, particulate) call pairs; a trailing odd call adds none. */
  function PairRecords(calls: seq<Call>): seq<TimeData>
    decreases |calls|
  {
    if |calls| < 2 then [] else [PairRecord(calls[0], calls[1])] + PairRecords(calls[2..])
  }

  /** Record `k` of the list is the one of pair `k`. */
  lemma {:induction false} PairRecordsAt(calls: seq<Call>)
    ensures |PairRecords(calls)| == |calls| / 2
    ensures forall k :: 0 <= k < |calls| / 2 ==> PairRecords(calls)[k] == PairRecord(calls[2 * k], calls[2 * k + 1])
    decreases |calls|
  {
    if |calls| >= 2 {
      var rest := calls[2..];
      PairRecordsAt(rest);
      forall k | 0 < k < |calls| / 2
        ensures PairRecords(calls)[k] == PairRecord(calls[2 * k], calls[2 * k + 1])
      {
        assert PairRecords(calls)[k] == PairRecords(rest)[k - 1];
        assert rest[2 * (k - 1)] == calls[2 * k];
        assert rest[2 * (k - 1) + 1] == calls[2 * k + 1];
      }
    }
  }

  /** From a reset, alternating calls publish exactly the pair records, in order. */
  lemma {:induction false} AlternatingRun(calls: seq<Call>)
    requires Alternating(calls)
    ensures Run(Empty, calls).published == PairRecords(calls)
    ensures Run(Empty, calls).message ==
      if |calls| % 2 == 0 then Empty else Merge(Empty, calls[|calls| - 1].args)
    decreases |calls|
  {
    if |calls| == 1 {
      assert TempPair(calls[0].args);
      assert calls[1..] == [];
    } else if |calls| >= 2 {
      assert TempPair(calls[0].args) && PmPair(calls[1].args);
      AlternatingTail(calls);
      AlternatingRun(calls[2..]);
      AlternatingRunCons(calls);
    }
  }

  /** The inductive step of `AlternatingRun`: one more pair in front of a run already described. */
  lemma AlternatingRunCons(calls: seq<Call>)
    requires |calls| >= 2 && TempPair(calls[0].args) && PmPair(calls[1].args)
    requires Run(Empty, calls[2..]).published == PairRecords(calls[2..])
    requires Run(Empty, calls[2..]).message ==
      if |calls[2..]| % 2 == 0 then Empty else Merge(Empty, calls[|calls| - 1].args)
    ensures Run(Empty, calls).published == PairRecords(calls)
    ensures Run(Empty, calls).message ==
      if |calls| % 2 == 0 then Empty else Merge(Empty, calls[|calls| - 1].args)
  {
    var rest := calls[2..];
    RunPairFromEmpty(calls);
    assert Run(Empty, calls).published == [PairRecord(calls[0], calls[1])] + Run(Empty, rest).published;
    assert Run(Empty, calls).message == Run(Empty, rest).message;
    assert PairRecords(calls) == [PairRecord(calls[0], calls[1])] + PairRecords(rest);
    ParityShift(|calls|);
  }

  /** Dropping two calls keeps the parity of the length. */
  lemma ParityShift(n: nat)
    requires n >= 2
    ensures (n - 2) % 2 == n % 2
  {
  }

  /**
   * From a reset, alternating pair updates publish on every second call: one record per
   * (temperature, particulate) pair of calls, stamped at the second, and nothing else.
   */
  lemma AlternatingPublishesEverySecondCall(calls: seq<Call>)
    requires Alternating(calls)
    ensures |Run(Empty, calls).published| == |calls| / 2
    ensures forall k :: 0 <= k < |calls| / 2 ==>
      Run(Empty, calls).published[k] == PairRecord(calls[2 * k], calls[2 * k + 1])
    ensures Run(Empty, calls).message ==
      if |calls| % 2 == 0 then Empty else Merge(Empty, calls[|calls| - 1].args)
  {
    AlternatingRun(calls);
    PairRecordsAt(calls);
  }
}
