/**
 * The `sds011` wrapper of sensors/sds011/sds011.py: a set of observers, a read that
 * forwards the SDS011 driver's (pm25, pm10) reading to every one of them, and the
 * driver's wake/sleep power commands passed straight through. The UART driver is not
 * modelled: its reading is a parameter of the read, and the commands sent to it
 * (`read`, `wake`, `sleep`) are recorded in a ghost log; reading the `pm25` and `pm10`
 * attributes afterwards is not logged.
 */
module Sds011Sensor {
  import opened Wrappers
  import opened Observer

  /** A command sent to the `SDS011` driver object. */
  datatype DriverCall = Read | Wake | Sleep

  /** The keyword arguments of an SDS011 notification: `update(pm25 = pm25, pm10 = pm10)`. */
  function NotificationArgs(pm25: int, pm10: int): (a: UpdateArgs)
    ensures Passed(a) == {"pm25", "pm10"}
    ensures a.pm25 == Some(pm25) && a.pm10 == Some(pm10)
  {
    UpdateArgs(temp := None, hum := None, pm25 := Some(pm25), pm10 := Some(pm10),
               hour := None, minute := None)
  }

  class Sds011 {
    const uart: int
    var observers: set<ObserverId>
    /** One batch of `update` calls per notification pass, in the order the passes happened. */
    ghost var notifications: seq<multiset<Delivery>>
    /** The commands sent to the driver, in order. */
    ghost var driverCalls: seq<DriverCall>

    constructor (uart: int)
      ensures this.uart == uart
      ensures observers == {} && notifications == [] && driverCalls == []
    {
      this.uart := uart;
      observers := {};
      notifications := [];
      driverCalls := [];
    }

    /** `set.add`: afterwards `o` is registered; registering it again leaves the same set. */
    method AddObserver(o: ObserverId)
      modifies this`observers
      ensures observers == old(observers) + {o}
    {
      observers := observers + {o};
    }

    /** `set.remove`: removes exactly `o`, and raises `KeyError` when `o` was not registered. */
    method RemoveObserver(o: ObserverId) returns (status: Status)
      modifies this`observers
      ensures status == if o in old(observers) then Ok else KeyError
      ensures observers == old(observers) - {o}
    {
      if o !in observers {
        return KeyError;
      }
      observers := observers - {o};
      status := Ok;
    }

    /**
     * `read_pm`: one `read()` on the driver, then one notification pass carrying the pair
     * the driver reports; the observer set is left as it was.
     */
    method ReadPm(pm25: int, pm10: int)
      modifies this`notifications, this`driverCalls
      ensures observers == old(observers)
      ensures driverCalls == old(driverCalls) + [DriverCall.Read]
      ensures notifications == old(notifications) + [Fanout(observers, NotificationArgs(pm25, pm10))]
    {
      driverCalls := driverCalls + [DriverCall.Read];
      NotifyObservers(pm25, pm10);
    }

    /** `wake`: exactly one `wake()` forwarded to the driver; nothing is notified. */
    method Wake()
      modifies this`driverCalls
      ensures observers == old(observers) && notifications == old(notifications)
      ensures driverCalls == old(driverCalls) + [DriverCall.Wake]
    {
      driverCalls := driverCalls + [DriverCall.Wake];
    }

    /** `sleep`: exactly one `sleep()` forwarded to the driver; nothing is notified. */
    method Sleep()
      modifies this`driverCalls
      ensures observers == old(observers) && notifications == old(notifications)
      ensures driverCalls == old(driverCalls) + [DriverCall.Sleep]
    {
      driverCalls := driverCalls + [DriverCall.Sleep];
    }

    /** `_notify_observers`: one `update(pm25, pm10)` call per registered observer, in no particular order. */
    method NotifyObservers(pm25: int, pm10: int)
      modifies this`notifications
      ensures notifications == old(notifications) + [Fanout(observers, NotificationArgs(pm25, pm10))]
    {
      var args := NotificationArgs(pm25, pm10);
      var pending := observers;
      ghost var batch: multiset<Delivery> := multiset{};
      while pending != {}
        invariant pending <= observers
        invariant notifications == old(notifications)
        invariant batch == Fanout(observers - pending, args)
        decreases pending
      {
        var o :| o in pending;
        FanoutInsert(observers - pending, o, args);
        assert (observers - pending) + {o} == observers - (pending - {o});
        batch := batch + multiset{Delivery(o, args)};
        pending := pending - {o};
      }
      assert observers - pending == observers;
      notifications := notifications + [batch];
    }
  }
}
