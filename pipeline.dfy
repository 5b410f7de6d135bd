/**
 * The three classes composed: an `MQTTclient` registered as an observer of both sensor
 * wrappers receives the DHT11's `update(temp, hum)` and the SDS011's `update(pm25, pm10)`.
 */
module Pipeline {
  import opened Wrappers
  import opened Observer
  import opened Telemetry
  import Dht11Sensor
  import Sds011Sensor

  /** The record published when the two notifications complete a cycle. */
  function Combined(temperature: int, humidity: int, pm25: int, pm10: int, t: LocalTime): TimeData
  {
    Stamp(t, Message(Some(temperature), Some(humidity), Some(pm10), Some(pm25)))
  }

  /**
   * After a reset, one DHT11 notification followed by one SDS011 notification publishes
   * exactly one record, stamped at the second, and leaves the message empty again; the
   * other order publishes the same readings.
   */
  lemma {:induction false} OneCyclePublishesOnce(temperature: int, humidity: int, pm25: int, pm10: int, t1: LocalTime, t2: LocalTime)
    ensures Run(Empty, [Call(Dht11Sensor.NotificationArgs(temperature, humidity), t1),
                        Call(Sds011Sensor.NotificationArgs(pm25, pm10), t2)])
         == Trace(Empty, [Combined(temperature, humidity, pm25, pm10, t2)])
    ensures Run(Empty, [Call(Sds011Sensor.NotificationArgs(pm25, pm10), t1),
                        Call(Dht11Sensor.NotificationArgs(temperature, humidity), t2)])
         == Trace(Empty, [Combined(temperature, humidity, pm25, pm10, t2)])
  {
    var d := Call(Dht11Sensor.NotificationArgs(temperature, humidity), t1);
    var s := Call(Sds011Sensor.NotificationArgs(pm25, pm10), t2);
    RunAppend(Empty, [d], [s]);
    assert [d] + [s] == [d, s];
    var d2 := Call(Dht11Sensor.NotificationArgs(temperature, humidity), t2);
    var s1 := Call(Sds011Sensor.NotificationArgs(pm25, pm10), t1);
    RunAppend(Empty, [s1], [d2]);
    assert [s1] + [d2] == [s1, d2];
  }

  /** The same cycle on a client object: one publish on its topic, and the slots emptied. */
  method Cycle(client: MqttClient, temperature: int, humidity: int, pm25: int, pm10: int, t1: LocalTime, t2: LocalTime)
    requires client.message == Empty
    modifies client
    ensures client.message == Empty
    ensures client.timedata == Combined(temperature, humidity, pm25, pm10, t2)
    ensures client.outbox == old(client.outbox) + [Publication(client.topic, Combined(temperature, humidity, pm25, pm10, t2))]
  {
    client.Update(Dht11Sensor.NotificationArgs(temperature, humidity), t1);
    client.Update(Sds011Sensor.NotificationArgs(pm25, pm10), t2);
  }
}
