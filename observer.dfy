/**
 * The observer protocol shared by the two sensor wrappers and the MQTT client:
 * an observer is anything with an `update(temp, hum, pm25, pm10, hour, minute)`
 * method whose parameters all default to `None`.
 */
module Observer {
  import opened Wrappers

  /** The identity of a registered observer object (Python hashes observers by identity). */
  type ObserverId = nat

  /** The keyword arguments of one `update(...)` call; an argument not passed is `None`. */
  datatype UpdateArgs = UpdateArgs(
    temp: Option<int>, hum: Option<int>,
    pm25: Option<int>, pm10: Option<int>,
    hour: Option<int>, minute: Option<int>)

  /** The names of the keyword arguments that carry a value (are not `None`). */
  function Passed(a: UpdateArgs): set<string>
  {
    (if a.temp.Some? then {"temp"} else {}) + (if a.hum.Some? then {"hum"} else {}) +
    (if a.pm25.Some? then {"pm25"} else {}) + (if a.pm10.Some? then {"pm10"} else {}) +
    (if a.hour.Some? then {"hour"} else {}) + (if a.minute.Some? then {"minute"} else {})
  }

  /** One `update(...)` call made on one observer. */
  datatype Delivery = Delivery(observer: ObserverId, args: UpdateArgs)

  /** What `remove_observer` does: return normally, or raise `KeyError` (from `set.remove`). */
  datatype Status = Ok | KeyError

  /**
   * The deliveries made by one pass of `for observer in self._observers: observer.update(**args)`.
   * The set gives no iteration order, so the pass is a multiset: every registered observer
   * receives exactly one call carrying `args`, and nothing else is called.
   */
  ghost function Fanout(observers: set<ObserverId>, args: UpdateArgs): (batch: multiset<Delivery>)
    ensures forall d :: batch[d] == if d.observer in observers && d.args == args then 1 else 0
  {
    multiset(set o | o in observers :: Delivery(o, args))
  }

  /** Adding one more observer to a pass adds exactly its one delivery. */
  lemma FanoutInsert(observers: set<ObserverId>, o: ObserverId, args: UpdateArgs)
    requires o !in observers
    ensures Fanout(observers + {o}, args) == Fanout(observers, args) + multiset{Delivery(o, args)}
  {
  }

  /** A pass makes as many calls as there are registered observers. */
  lemma {:induction false} FanoutSize(observers: set<ObserverId>, args: UpdateArgs)
    ensures |Fanout(observers, args)| == |observers|
    decreases observers
  {
    if observers == {} {
      assert Fanout(observers, args) == multiset{} by {
        forall d ensures Fanout(observers, args)[d] == 0 { }
      }
    } else {
      var o :| o in observers;
      var rest := observers - {o};
      FanoutSize(rest, args);
      FanoutInsert(rest, o, args);
      assert rest + {o} == observers;
    }
  }
}
