/**
 * The `dht11` wrapper of sensors/dht11/dht11.py: a set of observers and a read that
 * forwards the DHT11 driver's (temperature, humidity) measurement to every one of them.
 * The one-wire driver is not modelled: its measurement is a parameter of the read, and
 * the commands sent to it (`measure`) are recorded in a ghost log; the `temperature()`
 * and `humidity()` getters that return the measured values are not logged.
 */
module Dht11Sensor {
  import opened Wrappers
  import opened Observer

  /** A command sent to the `DHT11` driver object (its value getters are not commands). */
  datatype DriverCall = Measure

  /** The keyword arguments of a DHT11 notification: `update(temp = temperature, hum = humidity)`. */
  function NotificationArgs(temperature: int, humidity: int): (a: UpdateArgs)
    ensures Passed(a) == {"temp", "hum"}
    ensures a.temp == Some(temperature) && a.hum == Some(humidity)
  {
    UpdateArgs(temp := Some(temperature), hum := Some(humidity),
               pm25 := None, pm10 := None, hour := None, minute := None)
  }

  class Dht11 {
    const pin: int
    var observers: set<ObserverId>
    /** One batch of `update` calls per notification pass, in the order the passes happened. */
    ghost var notifications: seq<multiset<Delivery>>
    /** The commands sent to the driver, in order. */
    ghost var driverCalls: seq<DriverCall>

    constructor (pin: int)
      ensures this.pin == pin
      ensures observers == {} && notifications == [] && driverCalls == []
    {
      this.pin := pin;
      observers := {};
      notifications := [];
      driverCalls := [];
    }

    /** `set.add`: afterwards `o` is registered; registering it again leaves the same set. */
    method AddObserver(o: ObserverId)
      modifies this`observers
      ensures observers == old(observers) + {o}
    {
      observers := observers + {o};
    }

    /** `set.remove`: removes exactly `o`, and raises `KeyError` when `o` was not registered. */
    method RemoveObserver(o: ObserverId) returns (status: Status)
      modifies this`observers
      ensures status == if o in old(observers) then Ok else KeyError
      ensures observers == old(observers) - {o}
    {
      if o !in observers {
        return KeyError;
      }
      observers := observers - {o};
      status := Ok;
    }

    /**
     * `read_temperature`: one `measure()` on the driver, then one notification pass carrying
     * the measured pair; the observer set is left as it was.
     */
    method ReadTemperature(temperature: int, humidity: int)
      modifies this`notifications, this`driverCalls
      ensures observers == old(observers)
      ensures driverCalls == old(driverCalls) + [Measure]
      ensures notifications == old(notifications) + [Fanout(observers, NotificationArgs(temperature, humidity))]
    {
      driverCalls := driverCalls + [Measure];
      NotifyObservers(temperature, humidity);
    }

    /** `_notify_observers`: one `update(temp, hum)` call per registered observer, in no particular order. */
    method NotifyObservers(temperature: int, humidity: int)
      modifies this`notifications
      ensures notifications == old(notifications) + [Fanout(observers, NotificationArgs(temperature, humidity))]
    {
      var args := NotificationArgs(temperature, humidity);
      var pending := observers;
      ghost var batch: multiset<Delivery> := multiset{};
      while pending != {}
        invariant pending <= observers
        invariant notifications == old(notifications)
        invariant batch == Fanout(observers - pending, args)
        decreases pending
      {
        var o :| o in pending;
        FanoutInsert(observers - pending, o, args);
        assert (observers - pending) + {o} == observers - (pending - {o});
        batch := batch + multiset{Delivery(o, args)};
        pending := pending - {o};
      }
      assert observers - pending == observers;
      notifications := notifications + [batch];
    }
  }
}
