/** The daemon's configuration and the topic registry built from it: the
    state topics under `<prefix>/<host>/` and the discovery topics under
    `<discovery-prefix>/sensor/host2mqtt-<host>/`. */
module Topics {
  import opened Strings

  /** The settings the daemon reads once at start-up, and the platform
      facts that go into the device descriptor. */
  datatype Config = Config(
    topicPrefix: string,      // MQTT_TOPIC_PREFIX
    hostName: string,         // HOST2MQTT_HOSTNAME, spaces already removed
    haPrefix: string,         // HOMEASSISTANT_PREFIX
    haEnabled: bool,          // HOMEASSISTANT_ENABLED
    qos: int,                 // MQTT_QOS
    system: string,           // platform.system()
    machine: string,          // platform.machine()
    release: string,          // platform.release()
    version: string,          // platform.version()
    systemHostName: string    // gethostname(), without the override
  )

  /** The host name used in topics: the configured name with every space
      deleted and the other characters kept in order. */
  function HostName(raw: string): (h: string)
    ensures h == Without(raw, ' ')
    ensures ' ' !in h
    ensures forall x :: x != ' ' ==> (x in h <==> x in raw)
    ensures ' ' !in raw ==> h == raw
  {
    ReplaceDeletes(raw, ' ');
    WithoutFacts(raw, ' ');
    Replace(raw, " ", "")
  }

  /** The four host-level metric channels. */
  datatype Metric = CpuUsage | CpuUsageAttrs | MemoryUsage | MemoryUsageAttrs

  function MetricName(m: Metric): string {
    match m
    case CpuUsage => "cpu_usage"
    case CpuUsageAttrs => "cpu_usage_attrs"
    case MemoryUsage => "memory_usage"
    case MemoryUsageAttrs => "memory_usage_attrs"
  }

  /** Everything published under `<prefix>/<host>/`. */
  datatype StateKey =
    | Status
    | Host(metric: Metric)
    | DiskUsage(disk: string)
    | DiskAttrs(disk: string)

  function StateSuffix(k: StateKey): string {
    match k
    case Status => "status"
    case Host(m) => MetricName(m)
    case DiskUsage(d) => "disk_" + d + "/usage"
    case DiskAttrs(d) => "disk_" + d + "/disk_attrs"
  }

  function HostRoot(c: Config): string {
    c.topicPrefix + "/" + c.hostName + "/"
  }

  function StateTopic(c: Config, k: StateKey): string {
    HostRoot(c) + StateSuffix(k)
  }

  /** The availability topic, also the topic of the last-will message. */
  function StatusTopic(c: Config): string {
    StateTopic(c, Status)
  }

  /** The sensor entities announced to the home-automation platform. */
  datatype Entity = CpuSensor | MemorySensor | DiskSensor(disk: string)

  function EntitySuffix(e: Entity): string {
    match e
    case CpuSensor => "cpu_usage"
    case MemorySensor => "memory_usage"
    case DiskSensor(d) => "disk_" + d
  }

  function DiscoveryTopic(c: Config, e: Entity): string {
    c.haPrefix + "/sensor/host2mqtt-" + c.hostName + "/" + EntitySuffix(e) + "/config"
  }

  /** The state topics of one disk, written out. */
  lemma DiskStateTopics(c: Config, d: string)
    ensures StateTopic(c, DiskUsage(d)) == c.topicPrefix + "/" + c.hostName + "/disk_" + d + "/usage"
    ensures StateTopic(c, DiskAttrs(d)) == c.topicPrefix + "/" + c.hostName + "/disk_" + d + "/disk_attrs"
  {
  }

  /** A disk's attributes topic ends in "/disk_attrs". */
  lemma DiskAttrsSuffix(c: Config, d: string)
    ensures IsSuffix("/disk_attrs", StateTopic(c, DiskAttrs(d)))
  {
    var t := StateTopic(c, DiskAttrs(d));
    assert t == (HostRoot(c) + "disk_" + d) + "/disk_attrs";
  }

  /** The discovery topic of one disk, written out. */
  lemma DiskDiscoveryTopic(c: Config, d: string)
    ensures DiscoveryTopic(c, DiskSensor(d)) == c.haPrefix + "/sensor/host2mqtt-" + c.hostName + "/disk_" + d + "/config"
  {
  }

  lemma CancelPrefix(p: string, x: string, y: string)
    requires p + x == p + y
    ensures x == y
  {
    assert x == (p + x)[|p|..];
    assert y == (p + y)[|p|..];
  }

  lemma CancelAround(p: string, x: string, y: string, q: string)
    requires p + x + q == p + y + q
    ensures x == y
  {
    var s := p + x + q;
    assert |x| == |y|;
    assert x == s[|p|..|p| + |x|];
    assert y == (p + y + q)[|p|..|p| + |y|];
  }

  /** Disk suffixes, and only they, start with 'd'; a usage suffix ends in
      'e' and an attributes suffix in 's'. */
  lemma StateSuffixShape(k: StateKey)
    ensures |StateSuffix(k)| > 0
    ensures StateSuffix(k)[0] == 'd' <==> k.DiskUsage? || k.DiskAttrs?
    ensures k.DiskUsage? ==> StateSuffix(k)[|StateSuffix(k)| - 1] == 'e'
    ensures k.DiskAttrs? ==> StateSuffix(k)[|StateSuffix(k)| - 1] == 's'
  {
    match k
    case DiskUsage(d) =>
      assert StateSuffix(k) == ("disk_" + d) + "/usage";
    case DiskAttrs(d) =>
      assert StateSuffix(k) == ("disk_" + d) + "/disk_attrs";
    case _ =>
  }

  /** Distinct state keys have distinct suffixes. */
  lemma StateSuffixInjective(k1: StateKey, k2: StateKey)
    requires StateSuffix(k1) == StateSuffix(k2)
    ensures k1 == k2
  {
    StateSuffixShape(k1);
    StateSuffixShape(k2);
    if k1.DiskUsage? && k2.DiskUsage? {
      CancelAround("disk_", k1.disk, k2.disk, "/usage");
    } else if k1.DiskAttrs? && k2.DiskAttrs? {
      CancelAround("disk_", k1.disk, k2.disk, "/disk_attrs");
    }
  }

  /** The topic registry never maps two different channels to one topic:
      in particular no metric can overwrite the retained status. */
  lemma StateTopicInjective(c: Config, k1: StateKey, k2: StateKey)
    requires StateTopic(c, k1) == StateTopic(c, k2)
    ensures k1 == k2
  {
    CancelPrefix(HostRoot(c), StateSuffix(k1), StateSuffix(k2));
    StateSuffixInjective(k1, k2);
  }

  /** Only disk entities have a suffix starting with 'd'. */
  lemma EntitySuffixShape(e: Entity)
    ensures |EntitySuffix(e)| > 0
    ensures EntitySuffix(e)[0] == 'd' <==> e.DiskSensor?
  {
  }

  /** Distinct entities have distinct discovery topics. */
  lemma DiscoveryTopicInjective(c: Config, e1: Entity, e2: Entity)
    requires DiscoveryTopic(c, e1) == DiscoveryTopic(c, e2)
    ensures e1 == e2
  {
    var p := c.haPrefix + "/sensor/host2mqtt-" + c.hostName + "/";
    assert DiscoveryTopic(c, e1) == p + EntitySuffix(e1) + "/config";
    assert DiscoveryTopic(c, e2) == p + EntitySuffix(e2) + "/config";
    CancelAround(p, EntitySuffix(e1), EntitySuffix(e2), "/config");
    EntitySuffixShape(e1);
    EntitySuffixShape(e2);
    if e1.DiskSensor? && e2.DiskSensor? {
      CancelPrefix("disk_", e1.disk, e2.disk);
    }
  }
}
