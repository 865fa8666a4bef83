/** The discovery documents announced to the home-automation platform: a
    shared base descriptor merged with per-sensor fields, published
    retained on the sensor's discovery topic. */
module Discovery {
  import opened Wire
  import opened Topics

  /** Python's `a | b` on dictionaries: the keys of both, and on a shared
      key the value from `b`. */
  function Merge(a: Document, b: Document): (r: Document)
    ensures r.Keys == a.Keys + b.Keys
    ensures forall k :: k in b ==> r[k] == b[k]
    ensures forall k :: k in a && k !in b ==> r[k] == a[k]
  {
    a + b
  }

  /** The device descriptor shared by every sensor of this host. */
  function DeviceInfo(c: Config): Document {
    Dict([
      ("name", Str(c.hostName)),
      ("manufacturer", Str(c.system)),
      ("model", Str(c.machine)),
      ("identifiers", Str(c.systemHostName)),
      ("sw_version", Str(c.system + " " + c.release + " (" + c.version + ")")),
      ("via_device", Str("host2mqtt"))
    ])
  }

  /** The base descriptor every discovery document starts from. */
  function BaseConfig(c: Config): Document {
    Dict([
      ("availability_topic", Str(StatusTopic(c))),
      ("qos", Int(c.qos)),
      ("device", Obj(DeviceInfo(c)))
    ])
  }

  const BaseKeys: set<string> := {"availability_topic", "qos", "device"}

  const SensorKeys: set<string> := {
    "state_topic", "json_attributes_topic", "name", "unique_id",
    "unit_of_measurement", "entity_category", "icon"
  }

  /** The per-sensor fields laid over the base descriptor. */
  function SensorFields(stateTopic: string, attrsTopic: string, name: string, uniqueId: string, icon: string): Document {
    Dict(SensorPairs(stateTopic, attrsTopic, name, uniqueId, icon))
  }

  function SensorConfig(c: Config, stateTopic: string, attrsTopic: string, name: string, uniqueId: string, icon: string): Document {
    Merge(BaseConfig(c), SensorFields(stateTopic, attrsTopic, name, uniqueId, icon))
  }

  function CpuUsageConfig(c: Config): Document {
    SensorConfig(c, StateTopic(c, Host(CpuUsage)), StateTopic(c, Host(CpuUsageAttrs)),
                 c.hostName + " CPU Usage", c.hostName + ".cpu_usage", "mdi:cpu-64-bit")
  }

  function MemoryUsageConfig(c: Config): Document {
    SensorConfig(c, StateTopic(c, Host(MemoryUsage)), StateTopic(c, Host(MemoryUsageAttrs)),
                 c.hostName + " Memory Usage", c.hostName + ".memory_usage", "mdi:memory")
  }

  /** The document of one disk; `device` is the raw device path and `d` its
      normalised identifier. */
  function DiskConfig(c: Config, device: string, d: string): Document {
    SensorConfig(c, StateTopic(c, DiskUsage(d)), StateTopic(c, DiskAttrs(d)),
                 device + " Disk Usage", c.hostName + "_" + d + ".cpu_usage", "mdi:harddisk")
  }

  /** A discovery document is published retained on its entity's topic. */
  function DiscoveryMsg(c: Config, e: Entity, doc: Document): Msg {
    Msg(DiscoveryTopic(c, e), Json(doc), c.qos, true)
  }

  /** The two messages of the host-level registration, CPU first. */
  function HostDiscoveryMessages(c: Config): seq<Msg> {
    [DiscoveryMsg(c, CpuSensor, CpuUsageConfig(c)), DiscoveryMsg(c, MemorySensor, MemoryUsageConfig(c))]
  }

  function DiskDiscoveryMsg(c: Config, device: string, d: string): Msg {
    DiscoveryMsg(c, DiskSensor(d), DiskConfig(c, device, d))
  }

  /** The base descriptor holds the availability topic, the QoS and the
      device descriptor, and nothing else. */
  lemma BaseConfigShape(c: Config)
    ensures var base := BaseConfig(c);
      && base.Keys == BaseKeys
      && base["availability_topic"] == Str(StatusTopic(c))
      && base["qos"] == Int(c.qos)
      && base["device"] == Obj(DeviceInfo(c))
  {
    var ps := [
      ("availability_topic", Str(StatusTopic(c))),
      ("qos", Int(c.qos)),
      ("device", Obj(DeviceInfo(c)))
    ];
    DictKeys(ps);
    DictLookup(ps, 0);
    DictLookup(ps, 1);
    DictLookup(ps, 2);
  }

  /** The sensor fields' display, pair by pair. */
  function SensorPairs(stateTopic: string, attrsTopic: string, name: string, uniqueId: string, icon: string): seq<(string, Value)> {
    [
      ("state_topic", Str(stateTopic)),
      ("json_attributes_topic", Str(attrsTopic)),
      ("name", Str(name)),
      ("unique_id", Str(uniqueId)),
      ("unit_of_measurement", Str("%")),
      ("entity_category", Str("diagnostic")),
      ("icon", Str(icon))
    ]
  }

  /** The sensor fields hold exactly the seven sensor keys. */
  lemma SensorFieldsKeys(stateTopic: string, attrsTopic: string, name: string, uniqueId: string, icon: string)
    ensures SensorFields(stateTopic, attrsTopic, name, uniqueId, icon).Keys == SensorKeys
  {
    DictKeys(SensorPairs(stateTopic, attrsTopic, name, uniqueId, icon));
  }

  /** Each sensor field carries its own value. */
  lemma SensorFieldsShape(stateTopic: string, attrsTopic: string, name: string, uniqueId: string, icon: string)
    ensures var f := SensorFields(stateTopic, attrsTopic, name, uniqueId, icon);
      && f.Keys == SensorKeys
      && f["state_topic"] == Str(stateTopic)
      && f["json_attributes_topic"] == Str(attrsTopic)
      && f["name"] == Str(name)
      && f["unique_id"] == Str(uniqueId)
      && f["unit_of_measurement"] == Str("%")
      && f["entity_category"] == Str("diagnostic")
      && f["icon"] == Str(icon)
  {
    var ps := SensorPairs(stateTopic, attrsTopic, name, uniqueId, icon);
    SensorFieldsKeys(stateTopic, attrsTopic, name, uniqueId, icon);
    DictLookup(ps, 0);
    DictLookup(ps, 1);
    DictLookup(ps, 2);
    DictLookup(ps, 3);
    DictLookup(ps, 4);
    DictLookup(ps, 5);
    DictLookup(ps, 6);
  }

  /** In every discovery document the base keys and the sensor keys are
      disjoint, so the merge overrides nothing: each field carries the value
      its part gave it. */
  lemma SensorConfigShape(c: Config, stateTopic: string, attrsTopic: string, name: string, uniqueId: string, icon: string)
    ensures var doc := SensorConfig(c, stateTopic, attrsTopic, name, uniqueId, icon);
      && BaseKeys !! SensorKeys
      && doc.Keys == BaseKeys + SensorKeys
      && doc["state_topic"] == Str(stateTopic)
      && doc["json_attributes_topic"] == Str(attrsTopic)
      && doc["name"] == Str(name)
      && doc["unique_id"] == Str(uniqueId)
      && doc["unit_of_measurement"] == Str("%")
      && doc["entity_category"] == Str("diagnostic")
      && doc["icon"] == Str(icon)
      && doc["availability_topic"] == Str(StatusTopic(c))
      && doc["qos"] == Int(c.qos)
      && doc["device"] == Obj(DeviceInfo(c))
  {
    BaseConfigShape(c);
    SensorFieldsShape(stateTopic, attrsTopic, name, uniqueId, icon);
  }

  /** The CPU document points at the CPU channels. */
  lemma CpuUsageConfigFields(c: Config)
    ensures CpuUsageConfig(c).Keys == BaseKeys + SensorKeys
    ensures CpuUsageConfig(c)["state_topic"] == Str(StateTopic(c, Host(CpuUsage)))
    ensures CpuUsageConfig(c)["json_attributes_topic"] == Str(StateTopic(c, Host(CpuUsageAttrs)))
    ensures CpuUsageConfig(c)["unique_id"] == Str(c.hostName + ".cpu_usage")
    ensures CpuUsageConfig(c)["availability_topic"] == Str(StatusTopic(c))
  {
    SensorConfigShape(c, StateTopic(c, Host(CpuUsage)), StateTopic(c, Host(CpuUsageAttrs)),
                      c.hostName + " CPU Usage", c.hostName + ".cpu_usage", "mdi:cpu-64-bit");
  }

  /** The memory document points at the memory channels. */
  lemma MemoryUsageConfigFields(c: Config)
    ensures MemoryUsageConfig(c).Keys == BaseKeys + SensorKeys
    ensures MemoryUsageConfig(c)["state_topic"] == Str(StateTopic(c, Host(MemoryUsage)))
    ensures MemoryUsageConfig(c)["json_attributes_topic"] == Str(StateTopic(c, Host(MemoryUsageAttrs)))
    ensures MemoryUsageConfig(c)["unique_id"] == Str(c.hostName + ".memory_usage")
    ensures MemoryUsageConfig(c)["availability_topic"] == Str(StatusTopic(c))
  {
    SensorConfigShape(c, StateTopic(c, Host(MemoryUsage)), StateTopic(c, Host(MemoryUsageAttrs)),
                      c.hostName + " Memory Usage", c.hostName + ".memory_usage", "mdi:memory");
  }

  /** A disk document points at that disk's channels; its unique id is the
      host name, an underscore, the disk identifier and ".cpu_usage". */
  lemma DiskConfigFields(c: Config, device: string, d: string)
    ensures DiskConfig(c, device, d).Keys == BaseKeys + SensorKeys
    ensures DiskConfig(c, device, d)["state_topic"] == Str(StateTopic(c, DiskUsage(d)))
    ensures DiskConfig(c, device, d)["json_attributes_topic"] == Str(StateTopic(c, DiskAttrs(d)))
    ensures DiskConfig(c, device, d)["unique_id"] == Str(c.hostName + "_" + d + ".cpu_usage")
    ensures DiskConfig(c, device, d)["name"] == Str(device + " Disk Usage")
    ensures DiskConfig(c, device, d)["availability_topic"] == Str(StatusTopic(c))
  {
    SensorConfigShape(c, StateTopic(c, DiskUsage(d)), StateTopic(c, DiskAttrs(d)),
                      device + " Disk Usage", c.hostName + "_" + d + ".cpu_usage", "mdi:harddisk");
  }

  /** Two disks with different identifiers never share a unique id. */
  lemma DiskUniqueIdInjective(c: Config, dev1: string, d1: string, dev2: string, d2: string)
    requires d1 != d2
    ensures "unique_id" in DiskConfig(c, dev1, d1) && "unique_id" in DiskConfig(c, dev2, d2)
    ensures DiskConfig(c, dev1, d1)["unique_id"] != DiskConfig(c, dev2, d2)["unique_id"]
  {
    DiskConfigFields(c, dev1, d1);
    DiskConfigFields(c, dev2, d2);
    if DiskConfig(c, dev1, d1)["unique_id"] == DiskConfig(c, dev2, d2)["unique_id"] {
      CancelAround(c.hostName + "_", d1, d2, ".cpu_usage");
    }
  }
}
