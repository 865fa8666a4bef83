# host2mqtt, modelled in Dafny

host2mqtt is a daemon that samples a host's CPU, memory and disk usage and
publishes it to an MQTT broker, together with Home Assistant discovery
documents that describe each sensor. This project models its core:

- **Formatter** (`Strings.dfy`, `Formatter.dfy`): the disk-name normaliser
  `format_disk_name` and the unit choice of `sizeof_humanreadable`. Python's
  `str.replace` is modelled as a single left-to-right, non-overlapping scan.
  `str.lower` is modelled on ASCII letters.
- **Topic registry** (`Topics.dfy`): the state topics under
  `<prefix>/<host>/`, the status (availability and last-will) topic, and the
  discovery topics under `<ha-prefix>/sensor/host2mqtt-<host>/`.
- **Discovery documents** (`Discovery.dfy`): a Python dict display is
  `Dict`, the map its pairs build, a later pair overriding an earlier one;
  `base_config | {...}` is a right-biased map merge. The result is a `map<string, Value>`, not JSON text.
- **Wire** (`Wire.dfy`): messages `(topic, payload, qos, retain)`. Each
  publish attempt carries a flag that says whether the client raised.
  `Delivered` keeps the attempts that did not fail.
- **Poll cycle** (`Poll.dfy`): `PollMessages` lists, in order, what one
  `update_sensors` call publishes for given readings and partitions.
- **Session** (`Session.dfy`): the class `Session.Session` holds the
  `connected` flag, the `outbox` log of publish requests the client
  accepted, the registered last will and whether the network loop runs. Its
  methods are `setup_mqtt`, `mqtt_connect`, `mqtt_disconnect`, `mqtt_send`,
  `ha_register_host`, `register_device_disk`, the two callbacks and
  `update_sensors`. `RunDaemon` is the main block over a finite run of
  cycles: connect, the connect callback the network thread runs on the
  broker's acknowledgement, then the poll cycles.

Three consequences of the code that a reader might not expect:

- Colons are removed, not turned into underscores (host2mqtt.py:177).
- The `"__"` pass runs once, so the normaliser is not idempotent and its
  result may still contain `"__"`. `FormatDiskNameNotIdempotent` shows this
  with `"///"`.
- `/dev/sda1` becomes `_dev_sda1`, so its usage topic is
  `<prefix>/<host>/disk__dev_sda1/usage`, with two underscores
  (`SingleDiskCycle`).

## Model

| member | source | states |
|---|---|---|
| `Topics.HostName` | host2mqtt.py:13 | the host name used in topics is the configured one with every space deleted and the other characters kept in order; it holds no space, keeps every other character, and a name without spaces is unchanged |
| `Formatter.PreCollapse` | host2mqtt.py:174-178 | definition: drop backslashes, slashes to underscores, drop colons, lower-case, in that order; its effect is stated by `FormatDiskNameClean` |
| `Formatter.FormatDiskName` | host2mqtt.py:173-179 | definition: the four rewrites followed by one `"__"` to `"_"` pass; its properties are the `FormatDiskName*` lemmas below |
| `Strings.Replace` | host2mqtt.py:13 | definition of `str.replace` with a non-empty pattern: one left-to-right scan, non-overlapping, resuming after each replacement; its properties are `ReplaceChars`, `ReplaceRemovesChar`, `ReplaceShrinks`, `ReplaceIdentity` and `ReplaceDeletes` |
| `Strings.ReplaceDeletes` | host2mqtt.py:13 | replacing a single character by the empty string deletes every occurrence of it and keeps the rest in order |
| `Strings.Lower` | host2mqtt.py:178 | definition of `str.lower` on ASCII letters; `LowerFacts` and `LowerIdentity` state its properties |
| `Formatter.FormatDiskNameClean` | host2mqtt.py:173-179 | the disk identifier has no backslash, slash, colon or upper-case ASCII letter, and is never longer than the device path |
| `Formatter.FormatDiskNameIdentity` | host2mqtt.py:173-179 | a device path with none of those characters and no `"__"` is returned unchanged |
| `Formatter.FormatDiskNameNotIdempotent` | host2mqtt.py:179 | the single `"__"` pass turns `"///"` into `"__"`, and a second application gives `"_"`: the normaliser is not idempotent |
| `Formatter.FormatDiskNameIdempotent` | host2mqtt.py:173-179 | the normaliser is idempotent on paths whose rewritten form has no run of three underscores |
| `Formatter.CollapseNoPair` | host2mqtt.py:179 | after one `"__"` pass over text with no run of three underscores, no `"__"` is left |
| `Formatter.FormatDiskNameWindowsDrive` | host2mqtt.py:173-179 | `"C:\\"` becomes `"c"` |
| `Formatter.FormatDiskNameLinuxPartition` | host2mqtt.py:173-179 | `"/dev/sda1"` becomes `"_dev_sda1"` |
| `Formatter.UnitIndexFrom` | host2mqtt.py:197-201 | definition: the first unit index from `k` on whose bound 1024^(index+1) exceeds the magnitude, else 8 (`Yi`); stated by `UnitIndexFromBounds` and `UnitIndexIsSmallest` |
| `Formatter.UnitIndexFromBounds` | host2mqtt.py:197-201 | searching from unit `k`, the chosen index is at least `k` and at most 8, the magnitude is below 1024^(index+1) unless the index is 8 (`Yi`), and it reached 1024^index whenever the search moved past `k` |
| `Formatter.ScaledIsDivision` | host2mqtt.py:200 | dividing the byte count by 1024 once per unit passed is dividing it by 1024^k |
| `Formatter.UnitStep` | host2mqtt.py:197-200 | in one turn of the loop, stopping (magnitude below 1024) picks the current unit as the unit index, and going on leaves the choice to the later units |
| `Formatter.UnitIndexIsSmallest` | host2mqtt.py:196-201 | the unit index is the smallest `k <= 7` with `abs(n) < 1024^(k+1)`, and 8 (`Yi`) when there is none |
| `Formatter.UnitIndexExamples` | host2mqtt.py:196-201 | 0 and -1023 take the empty unit; 1024 and 1536 take `Ki` and scale to 1.0 and 1.5 |
| `Formatter.SizeUnit` | host2mqtt.py:196-201 | the loop returns the unit at the unit index and the byte count divided once by 1024 per unit passed |
| `Topics.StateTopic` | host2mqtt.py:24-30 | definition of the state topics `<prefix>/<host>/<suffix>`; stated by `DiskStateTopics` and `StateTopicInjective` |
| `Topics.StatusTopic` | host2mqtt.py:39 | definition of the availability topic `<prefix>/<host>/status`, used by the base descriptor, the will, `online` and `offline`; `StateTopicInjective` and `DiscoveryNotStatus` keep every other topic off it |
| `Topics.DiscoveryTopic` | host2mqtt.py:31-35 | definition of the discovery topics `<ha-prefix>/sensor/host2mqtt-<host>/<entity>/config`; stated by `DiskDiscoveryTopic` and `DiscoveryTopicInjective` |
| `Topics.DiskStateTopics` | host2mqtt.py:29-30 | a disk's usage topic is `prefix/host/disk_<d>/usage` and its attributes topic is `prefix/host/disk_<d>/disk_attrs` |
| `Topics.DiskAttrsSuffix` | host2mqtt.py:30 | a disk's attributes topic ends in `/disk_attrs` |
| `Topics.DiskDiscoveryTopic` | host2mqtt.py:34 | a disk's discovery topic is `haprefix/sensor/host2mqtt-<host>/disk_<d>/config` |
| `Topics.StateTopicInjective` | host2mqtt.py:24-30 | two different channels (status, host metrics, disk usage, disk attributes) never share a state topic |
| `Topics.DiscoveryTopicInjective` | host2mqtt.py:31-35 | two different sensor entities never share a discovery topic |
| `Discovery.Merge` | host2mqtt.py:150 | the dictionary merge holds the keys of both; on a shared key the value of `b` wins, elsewhere the value of `a` is kept |
| `Discovery.DeviceInfo` | host2mqtt.py:41-48 | definition of the device descriptor built from the host name and the platform facts |
| `Discovery.BaseConfig` | host2mqtt.py:38-49 | definition of `base_config`; stated by `BaseConfigShape` |
| `Discovery.CpuUsageConfig` | host2mqtt.py:150-158 | definition of the CPU document; stated by `CpuUsageConfigFields` |
| `Discovery.MemoryUsageConfig` | host2mqtt.py:161-169 | definition of the memory document; stated by `MemoryUsageConfigFields` |
| `Discovery.DiskConfig` | host2mqtt.py:182-191 | definition of a disk document; stated by `DiskConfigFields` and `DiskUniqueIdInjective` |
| `Discovery.HostDiscoveryMessages` | host2mqtt.py:150-170 | definition: the CPU then the memory document, each retained on its discovery topic; stated by `HostDiscoveryWellFormed` |
| `Discovery.BaseConfigShape` | host2mqtt.py:38-49 | the base descriptor has exactly the keys `availability_topic`, `qos` and `device`, holding the status topic, the configured QoS and the device descriptor |
| `Discovery.SensorFieldsShape` | host2mqtt.py:150-193 | the sensor-specific fields are exactly the seven sensor keys, each holding its own value, with unit `%` and category `diagnostic` |
| `Discovery.SensorConfigShape` | host2mqtt.py:150-193 | every discovery document has exactly the base and sensor keys; the sensor fields win, and `availability_topic`, `qos` and `device` survive with their base values |
| `Discovery.CpuUsageConfigFields` | host2mqtt.py:150-158 | the CPU document points at the CPU state and attributes topics, with unique id `host.cpu_usage` |
| `Discovery.MemoryUsageConfigFields` | host2mqtt.py:161-169 | the memory document points at the memory state and attributes topics, with unique id `host.memory_usage` |
| `Discovery.DiskConfigFields` | host2mqtt.py:182-193 | a disk document points at that disk's topics, is named `<device> Disk Usage` and has unique id `host_<d>.cpu_usage` |
| `Discovery.DiskUniqueIdInjective` | host2mqtt.py:187 | two disks with different identifiers never share a unique id |
| `Wire.DeliveredUpToKept` | host2mqtt.py:138-144 | the first `n` attempts deliver exactly the messages at the positions that did not fail, in increasing order, and every such position is delivered |
| `Wire.DeliveredAll` | host2mqtt.py:138-144 | when no publish attempt fails, every message is delivered |
| `Wire.DeliveredBound` | host2mqtt.py:138-144 | failed attempts only drop messages: what is delivered is a sub-sequence of the attempts (a strictly increasing choice of positions), so nothing is added, duplicated or reordered |
| `Wire.DeliveredConcat` | host2mqtt.py:138-144 | delivering two runs of attempts one after the other is delivering their concatenation |
| `Poll.CpuAttrs` | host2mqtt.py:208-214 | definition of the CPU attributes document: count and minimum, maximum and current frequency |
| `Poll.MemoryAttrs` | host2mqtt.py:216-221 | definition of the memory attributes document: total, available and used, each as a byte size |
| `Poll.DiskAttrsDoc` | host2mqtt.py:235-241 | definition of a partition's attributes document; stated by `DiskAttrsLookup` |
| `Poll.HostMessages` | host2mqtt.py:205-221 | definition: CPU usage, memory usage, CPU attributes, memory attributes, none retained; stated by `PollMessagesShape` and `PollMessageShape` |
| `Poll.PartitionSends` | host2mqtt.py:225-241 | definition: a partition's discovery document, usage and attributes, keyed by the normalised device name; stated by `PartitionMessagesSends` and `PartitionSendsShape` |
| `Poll.PollMessages` | host2mqtt.py:204-241 | a cycle with `n` partitions makes `4 + 3n` sends |
| `Poll.PollMessagesShape` | host2mqtt.py:204-241 | the order is CPU usage, memory usage, CPU attributes, memory attributes, then per partition its discovery document, its usage and its attributes |
| `Poll.PartitionMessagesSends` | host2mqtt.py:225-241 | a partition's three sends use the normalised device name in the discovery, usage and attributes topics |
| `Poll.PartitionSendsShape` | host2mqtt.py:225-241 | of one partition's three sends the discovery document is retained and the usage and attributes are not; all three go at the configured QoS and none to the status topic |
| `Poll.PollMessageShape` | host2mqtt.py:204-241 | every message of a cycle goes at the configured QoS and never to the status topic, and the message at position `k` is retained exactly when it is a partition's discovery document (`k >= 4` and `k - 4` divisible by 3) |
| `Poll.DiskAttrsLookup` | host2mqtt.py:236-241 | a partition's attributes document carries its mount point and its raw total size |
| `Poll.SingleDiskCycle` | host2mqtt.py:225-241 | with `/dev/sda1` mounted at `/`, the usage 42.5 goes to `prefix/host/disk__dev_sda1/usage` and the attributes hold mount point `/` and the raw total |
| `Session.PollWellFormed` | host2mqtt.py:204-241 | every message of a cycle is well formed (configured QoS) and its topic is not the status topic |
| `Session.HostDiscoveryWellFormed` | host2mqtt.py:147-170 | both host registrations are well formed (configured QoS) and their topics are not the status topic |
| `Session.CycleWellFormed` | host2mqtt.py:204-241 | a log with only well-formed messages keeps that property after a cycle delivers into it |
| `Session.Session.Valid` | host2mqtt.py:89-144 | definition of the client invariant: every accepted request is at the configured QoS, only `online`/`offline` reach the status topic, and the will is the retained `offline`; kept by every method except `Send`, which, like `mqtt_send` at line 135, takes an arbitrary topic |
| `Session.Session.constructor` | host2mqtt.py:51-52 | a fresh client is not connected, has published nothing and has no last will |
| `Session.Session.Setup` | host2mqtt.py:89-97 | the last will becomes the retained `offline` on the status topic; the flag and the log are unchanged |
| `Session.Session.Send` | host2mqtt.py:135-144 | while not connected nothing is appended; while connected exactly the message with the given topic, payload, retain and the configured QoS is appended unless the client raises; the flag never changes |
| `Session.Session.Connect` | host2mqtt.py:100-121 | on success the flag goes up, the loop starts, the outcome is `Ok` and the retained `online` is appended unless its send fails; on refusal the flag goes down, nothing is appended, and the outcome is `Exited` with exit-on-fail and `Refused` without |
| `Session.Session.Disconnect` | host2mqtt.py:124-132 | the flag goes down, the loop stops, and exactly one retained `offline` is appended even though the flag was lowered first |
| `Session.Session.RegisterHost` | host2mqtt.py:147-170 | while connected the CPU then the memory discovery documents are appended, retained, each unless its send fails; nothing while disconnected |
| `Session.Session.RegisterDisk` | host2mqtt.py:182-193 | while connected the disk's discovery document is appended, retained, unless its send fails |
| `Session.Session.OnConnect` | host2mqtt.py:57-71 | the flag becomes `rc == 0`; with `rc == 0` and discovery enabled the two host documents are appended, otherwise nothing |
| `Session.Session.OnDisconnect` | host2mqtt.py:79-83 | whatever the reason code, the flag goes down and nothing is appended |
| `Session.Session.UpdateHost` | host2mqtt.py:205-221 | while connected the four host-level messages are appended in order, each unless its send fails |
| `Session.Session.UpdateDisk` | host2mqtt.py:226-241 | while connected one partition's three messages are appended in order, each unless its send fails |
| `Session.Session.UpdateDisks` | host2mqtt.py:225-241 | while connected the partitions' messages are appended partition by partition |
| `Session.Session.UpdateSensors` | host2mqtt.py:204-241 | while connected the cycle's messages whose send did not fail are appended in cycle order, all `4 + 3n` of them when none fails; nothing while disconnected; the flag is unchanged |
| `Session.Session.PollLoop` | host2mqtt.py:249-251 | over a finite run of cycles, each with its own send failures: while connected each cycle appends what it delivers, cycle after cycle; while disconnected nothing; the flag is unchanged and the client invariant kept |
| `Session.PollsDeliveredAll` | host2mqtt.py:249-251 | with no failed send a run delivers every cycle's messages, in order |
| `Session.PollsNeverStatus` | host2mqtt.py:249-251 | whichever sends fail, nothing a run of cycles delivers reaches the status topic |
| `Session.RunDaemon` | host2mqtt.py:244-251 | a refused connection exits with nothing published; otherwise the log is `online` (unless its send fails), then the host registrations when the connect callback gets code 0 with discovery enabled, then, with code 0, every cycle's delivered messages; every message of the log is well formed |
| `Session.DaemonLogFaultFree` | host2mqtt.py:244-251 | with code 0 and no failed send the log is `online`, the two host registrations when discovery is enabled, then every cycle's messages |
| `Session.RunDaemonStatus` | host2mqtt.py:244-251 | whatever sends fail, the only message of a run on the status topic is `online`, and it opens the log when its send succeeds |

## Left out

- The paho MQTT network layer (`connect`, `publish`, `loop_start`, `loop_stop`) is an abstract transport. A publish either is appended to `outbox` or fails, as a flag passed in; a connection attempt is accepted or refused, as a flag passed in.
- The background network thread runs the callbacks concurrently with the main loop. The model calls them as ordinary sequential methods; `RunDaemon` runs the connect callback once, after the `online` announcement and before the first cycle, and does not model a later disconnect or reconnect during the cycles.
- The `sleep(1)` grace period of the disconnect and the `sleep` of the daemon loop are timing only. The endless `while True` loop is modelled over a finite list of cycles (`PollLoop`, `RunDaemon`).
- psutil sampling is out of scope: the readings and the partitions with their usage are parameters. A sampling call that raises (`psutil.disk_usage` on a partition whose discovery document line 227 already sent, or `cpu_freq()` returning `None` at line 208) ends the cycle mid-way and, uncaught, the daemon; the model's cycle of `4 + 3n` sends assumes every sample succeeds.
- Environment parsing and the `platform` and `gethostname` calls are out of scope. Their values are fields of `Config`; `Config.hostName` stands for the result of `HostName` on the configured name, and the model does not build `Config` from the environment.
- `json.dumps` is left out: documents are maps, and a byte size in a document is the raw count it renders.
- SizeUnit: computes the unit and the exact scaled value over reals. The floating-point division and the `%3.1f` / `.1f` text are not modelled. An integer count above 2^53 is rounded when the program turns it into a float, which can move the unit: `2**60 - 1` rounds to 2^60 and gets `Ei` in the program, while the model, dividing exactly, gives `Pi`.
- FormatDiskName: `Lower` lowers ASCII letters only. Python's `str.lower` also lowers other letters (`"É"` to `"é"`), and some of them lengthen (`"İ".lower()` has two code points). The model's result therefore can differ for non-ASCII device paths.
- FormatDiskNameClean: the length bound `|FormatDiskName(name)| <= |name|` holds of the ASCII-only `Lower`; with Python's full `str.lower` a path such as `"İ"` gets longer.
- RunDaemon: real process termination (`exit(0)`) is the outcome `Exited`.
- Console logging is left out, and so is `on_mqtt_message`, which only prints.
- Connect: exceptions other than a refused connection propagate uncaught from `connect`; the model has no outcome for them.
- Disconnect: `mqtt.publish` is called outside any `try`, so a raising client would propagate; the model always appends `offline`.
- Topics containing `{` or `}`: the disk state and discovery topics are filled in with `str.format` (host2mqtt.py:29-30, 34, 184-185, 193, 233, 235), which would misread braces inside the topic prefix, the discovery prefix (`HOMEASSISTANT_PREFIX`) or the host name. The model concatenates strings instead.
- `Session.Session.Connect` and `Session.Session.Setup` record only the last will and the flags. User name, password, broker address, port and timeout are not modelled.
