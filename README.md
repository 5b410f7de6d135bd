# Pacha sensor telemetry: a Dafny model

This project models the telemetry core of a MicroPython weather station. A DHT11 wrapper
reads temperature and humidity. An SDS011 wrapper reads PM2.5 and PM10 concentrations.
Each wrapper keeps a set of observers and calls `update(...)` on every observer after a
read. The `MQTTclient` observer collects the readings into a four-slot message. When all
four slots are filled, it stamps the message with the local time, publishes one record on
its topic, and empties the slots.

Modules, one per source file, plus three shared modules (`Observer`, `Pipeline`, `Wrappers`):

- `Telemetry` (`telemetry.dfy`, mqtt_client/MQTTclient.py). The class `MqttClient` has the
  `_message` and `_timedata` state and a ghost `outbox` of publications. `Update` is
  proved against the pure function `Step` (built on `Merge` and `Stamp`). `Run` composes
  `Step` over a sequence of calls, and the lemmas state what these functions promise.
- `Dht11Sensor` (`dht11.dfy`, sensors/dht11/dht11.py) and `Sds011Sensor` (`sds011.dfy`,
  sensors/sds011/sds011.py). Each is a class with an observer set, a ghost log of
  notification batches (one multiset per read) and a ghost log of the commands sent to
  the driver (`measure`; `read`, `wake`, `sleep`). The value getters that follow a command
  (`temperature()`, `humidity()`, the `pm25` and `pm10` attributes) are not logged.
- `Observer` (`observer.dfy`): the `update(...)` keyword arguments, one delivery, and
  `Fanout`, the multiset of deliveries made by one pass over an observer set.
- `Pipeline` (`pipeline.dfy`): a DHT11 notification and an SDS011 notification delivered
  to one client.
- `Wrappers` (`wrappers.dfy`): `Option`, where `None` is Python's `None`.

Inputs that stand in for I/O: the driver measurements are parameters of
`ReadTemperature` and `ReadPm`, and `time.localtime()` is the `now` parameter of `Update`.

Behaviour of the code that the model keeps:

- The SDS011 `wake`/`sleep` are plain forwards to the driver and do not touch the observers.
- Observers live in a set. Adding one twice registers it once, and a notification pass
  visits the observers in no fixed order.
- The merge is guarded pair by pair. `hum` is written whenever `temp` is given, even when
  `hum` is `None`. `pm10` is written only when `pm25` is given, even when `pm10` is `None`.
- Removing an observer that is not registered raises `KeyError`.

## Model

| member | source | states |
|---|---|---|
| `Telemetry.MqttClient.constructor` | mqtt_client/MQTTclient.py:7-23 | All four message slots and all six clock slots start as `None`, nothing is published yet, and the message is not complete. |
| `Telemetry.MqttClient.IsComplete` | mqtt_client/MQTTclient.py:25-29 | Returns true if and only if none of temp, hum, pm10 and pm25 is `None`; a reading of zero counts as present. |
| `Telemetry.Merge` | mqtt_client/MQTTclient.py:36-42 | A given `temp` stores `temp` and stores `hum` exactly as passed, even `None`. Without `temp`, both stay unchanged. The same holds for `pm25` and `pm10`. |
| `Telemetry.Stamp` | mqtt_client/MQTTclient.py:46-53 | The stamped record carries the message unchanged, and has all ten fields present exactly when the message is complete. |
| `Telemetry.Step` | mqtt_client/MQTTclient.py:36-56 | A call that publishes leaves the message empty and publishes a record with all ten fields present. A call that does not publish leaves the merged message, which is then incomplete. |
| `Telemetry.MqttClient.Update` | mqtt_client/MQTTclient.py:34-56 | The new message, `_timedata` and outbox are those given by `Step`. A call that publishes appends exactly one (topic, record) entry. A call that does not publish changes only the merged slots. |
| `Telemetry.StepPublishesIffComplete` | mqtt_client/MQTTclient.py:45-56 | A call publishes if and only if the merged message is complete. A call that does not publish leaves the merged message. |
| `Telemetry.PublishedRecord` | mqtt_client/MQTTclient.py:46-56 | The published record holds year, month, mday, hour, minute and second from the clock at publish time. It also holds the four values as they stood before the reset. All ten fields are present, and the message is empty afterwards. |
| `Telemetry.ClockArgumentsIgnored` | mqtt_client/MQTTclient.py:34-52 | The `hour` and `minute` arguments change neither the new message nor the published record. |
| `Telemetry.FromEmptyNeedsBothPairs` | mqtt_client/MQTTclient.py:36-56 | After a reset, one call publishes if and only if it supplies temp, hum, pm25 and pm10, all non-`None`. |
| `Telemetry.Run` | mqtt_client/MQTTclient.py:45-56 | Each call publishes at most once, so a sequence of calls publishes at most one record per call. |
| `Telemetry.RunAppend` | mqtt_client/MQTTclient.py:34-56 | Running two call sequences one after the other equals running their concatenation. |
| `Telemetry.MergeAllLastWriteWins` | mqtt_client/MQTTclient.py:36-42 | After any sequence of merges, each pair holds the values from the last update that gave its guard value (`temp` or `pm25`). A pair that no update gave keeps its original values. |
| `Telemetry.SilentRunMergesAll` | mqtt_client/MQTTclient.py:36-45 | A call sequence that publishes nothing leaves exactly the merge of all its updates. |
| `Telemetry.FirstPublication` | mqtt_client/MQTTclient.py:36-56 | Suppose the earlier calls since a message published nothing. Then the next call publishes if and only if the merge of all updates so far is complete. |
| `Telemetry.AlternatingPublishesEverySecondCall` | mqtt_client/MQTTclient.py:36-56 | From a reset, calls alternating temp pair and pm pair publish exactly one record per two calls. Record k carries pair k's four values and the clock of the second call. The message is empty after an even number of calls. |
| `Observer.Fanout` | sensors/dht11/dht11.py:23-25 | A notification pass gives every registered observer exactly one call with the given arguments, and calls nothing else. |
| `Observer.FanoutSize` | sensors/dht11/dht11.py:24-25 | A pass makes exactly as many calls as there are registered observers. |
| `Dht11Sensor.NotificationArgs` | sensors/dht11/dht11.py:25 | A DHT11 notification passes exactly `temp` and `hum`, carrying the measured temperature and humidity; no pm or time argument is given. |
| `Dht11Sensor.Dht11.constructor` | sensors/dht11/dht11.py:6-8 | A new wrapper has an empty observer set, no notifications and no driver calls. |
| `Dht11Sensor.Dht11.AddObserver` | sensors/dht11/dht11.py:10-11 | The new set is the old set plus the observer, so adding the same observer twice leaves the same set as adding it once. |
| `Dht11Sensor.Dht11.RemoveObserver` | sensors/dht11/dht11.py:13-14 | Removes exactly the given observer and keeps the others. Raises `KeyError`, changing nothing, when the observer was not registered. |
| `Dht11Sensor.Dht11.ReadTemperature` | sensors/dht11/dht11.py:16-21 | Makes one `measure` call on the driver and one notification pass carrying the measured (temperature, humidity) pair. The observer set is unchanged. |
| `Dht11Sensor.Dht11.NotifyObservers` | sensors/dht11/dht11.py:23-25 | Appends one batch: each registered observer gets exactly one `update` with only `temp` and `hum` set. |
| `Sds011Sensor.NotificationArgs` | sensors/sds011/sds011.py:32 | An SDS011 notification passes exactly `pm25` and `pm10`, carrying the values read; no temperature or time argument is given. |
| `Sds011Sensor.Sds011.constructor` | sensors/sds011/sds011.py:7-9 | A new wrapper has an empty observer set, no notifications and no driver calls. |
| `Sds011Sensor.Sds011.AddObserver` | sensors/sds011/sds011.py:11-12 | The new set is the old set plus the observer (idempotent). |
| `Sds011Sensor.Sds011.RemoveObserver` | sensors/sds011/sds011.py:14-15 | Removes exactly the given observer. Raises `KeyError`, changing nothing, when the observer was not registered. |
| `Sds011Sensor.Sds011.ReadPm` | sensors/sds011/sds011.py:17-22 | Makes one `read` call on the driver and one notification pass carrying the (pm25, pm10) pair read. The observer set is unchanged. |
| `Sds011Sensor.Sds011.Wake` | sensors/sds011/sds011.py:24-25 | Forwards exactly one `wake` to the driver. Observers and notifications are unchanged. |
| `Sds011Sensor.Sds011.Sleep` | sensors/sds011/sds011.py:27-28 | Forwards exactly one `sleep` to the driver. Observers and notifications are unchanged. |
| `Sds011Sensor.Sds011.NotifyObservers` | sensors/sds011/sds011.py:30-32 | Appends one batch: each registered observer gets exactly one `update` with only `pm25` and `pm10` set. |
| `Pipeline.OneCyclePublishesOnce` | mqtt_client/MQTTclient.py:34-56 | From a reset, a DHT11 notification then an SDS011 notification publish exactly one record and leave the message empty. The record carries the four readings and the second call's clock. The reverse order publishes the same readings. |
| `Pipeline.Cycle` | mqtt_client/MQTTclient.py:34-56 | On a client object with an empty message, the two notifications append exactly one publication on the client's topic, set `_timedata` to the published record, and leave the message empty. |

## Left out

- `MQTTclient.connect` and the MQTT transport (`MQTTClient`, `publish`): these are foreign network calls. A publish is an entry appended to the ghost outbox.
- `json.dumps`: byte-level encoding. The outbox holds the `_timedata` value that would be encoded.
- The DHT11 one-wire and SDS011 UART driver protocols: a measurement is an input, and the commands sent to the driver are recorded in a ghost log. The value getters are not logged, and driver errors are not modelled.
- Exceptions from `publish` and from an observer's `update`: the model assumes both return normally. In the code, a `publish` that raises (for instance because `connect` is never called, mqtt_client/MQTTclient.py:9) does so after `_timedata` has been stamped and merged, so the reset of `_message` is skipped, the message stays complete, and the next `update` publishes again. An `update` that raises inside a notification pass ends the pass, so the observers not yet visited receive nothing. `Update`, `Fanout` and the publish-once-then-reset lemmas describe only the normal return.
- Readings are `int`. The SDS011 reports floating-point values, but the model does no arithmetic on readings; only whether a reading is `None` and what it is matter.
- The observer's side of a notification: a delivery is recorded as (observer, arguments), and `Pipeline` applies the two sensors' arguments to a client.
- Notification order within a pass: Python gives no set iteration order, so each pass is a multiset.
- main.py (Wi-Fi connect, NTP/RTC setup, LCD templates, the polling loop with `time.sleep`), wifi_functions.py and lcd/lcd.py: I/O, bootstrap and display rendering.
