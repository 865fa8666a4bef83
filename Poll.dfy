/** What one poll cycle publishes, as a function of the sampled readings:
    four host-level messages, then three per mounted partition. */
module Poll {
  import opened Wire
  import opened Topics
  import opened Discovery
  import opened Formatter

  /** The host-level readings of one cycle, as the metrics library
      returns them. */
  datatype HostReadings = HostReadings(
    cpuPercent: real,
    memoryPercent: real,
    cpuCount: int,
    freqMin: real,
    freqMax: real,
    freqCurrent: real,
    memoryTotal: int,
    memoryAvailable: int,
    memoryUsed: int
  )

  /** One mounted partition with its usage, sampled in the same cycle. */
  datatype Partition = Partition(
    device: string,
    mountpoint: string,
    fstype: string,
    percent: real,
    total: int,
    free: int,
    used: int
  )

  function CpuAttrs(r: HostReadings): Document {
    Dict([
      ("cpu_count", Int(r.cpuCount)),
      ("cpu_freq_min", Num(r.freqMin)),
      ("cpu_freq_max", Num(r.freqMax)),
      ("cpu_freq_current", Num(r.freqCurrent))
    ])
  }

  function MemoryAttrs(r: HostReadings): Document {
    Dict([
      ("memory_total", Size(r.memoryTotal)),
      ("memory_available", Size(r.memoryAvailable)),
      ("memory_used", Size(r.memoryUsed))
    ])
  }

  function DiskAttrsDoc(p: Partition): Document {
    Dict([
      ("total", Size(p.total)),
      ("free", Size(p.free)),
      ("used", Size(p.used)),
      ("mountpoint", Str(p.mountpoint)),
      ("fstype", Str(p.fstype))
    ])
  }

  /** The attributes of a partition carry its mount point and raw total. */
  lemma DiskAttrsLookup(p: Partition)
    ensures "mountpoint" in DiskAttrsDoc(p) && DiskAttrsDoc(p)["mountpoint"] == Str(p.mountpoint)
    ensures "total" in DiskAttrsDoc(p) && DiskAttrsDoc(p)["total"] == Size(p.total)
  {
    var ps := [
      ("total", Size(p.total)),
      ("free", Size(p.free)),
      ("used", Size(p.used)),
      ("mountpoint", Str(p.mountpoint)),
      ("fstype", Str(p.fstype))
    ];
    DictLookup(ps, 0);
    DictLookup(ps, 3);
  }

  /** A metric sample: published on its state topic, not retained. */
  function StateMsg(c: Config, k: StateKey, payload: Payload): Msg {
    Msg(StateTopic(c, k), payload, c.qos, false)
  }

  /** The four host-level sends, in the order the cycle makes them. */
  function HostMessages(c: Config, r: HostReadings): seq<Msg> {
    [
      StateMsg(c, Host(CpuUsage), Number(r.cpuPercent)),
      StateMsg(c, Host(MemoryUsage), Number(r.memoryPercent)),
      StateMsg(c, Host(CpuUsageAttrs), Json(CpuAttrs(r))),
      StateMsg(c, Host(MemoryUsageAttrs), Json(MemoryAttrs(r)))
    ]
  }

  /** The three sends the partition loop makes for one partition, in
      order: its discovery document, its usage and its attributes. */
  datatype DiskSends = DiskSends(register: Msg, usage: Msg, attrs: Msg)

  function SendsOf(b: DiskSends): seq<Msg> {
    [b.register, b.usage, b.attrs]
  }

  /** The sends for one partition, all keyed by the normalised device name. */
  function PartitionSends(c: Config, p: Partition): DiskSends {
    var d := FormatDiskName(p.device);
    DiskSends(
      DiskDiscoveryMsg(c, p.device, d),
      StateMsg(c, DiskUsage(d), Number(p.percent)),
      StateMsg(c, DiskAttrs(d), Json(DiskAttrsDoc(p))))
  }

  function PartitionMessages(c: Config, p: Partition): seq<Msg> {
    SendsOf(PartitionSends(c, p))
  }

  /** The sends of successive partitions, one block of three after the other. */
  function Flatten(bs: seq<DiskSends>): (ms: seq<Msg>)
    ensures |ms| == 3 * |bs|
  {
    if |bs| == 0 then [] else SendsOf(bs[0]) + Flatten(bs[1..])
  }

  /** Block `i` sits at positions 3i, 3i+1 and 3i+2. */
  lemma {:induction false} FlattenAt(bs: seq<DiskSends>, i: nat, j: nat)
    requires i < |bs| && j < 3
    ensures Flatten(bs)[3 * i + j] == SendsOf(bs[i])[j]
  {
    var head, tail := SendsOf(bs[0]), Flatten(bs[1..]);
    assert Flatten(bs) == head + tail;
    if i > 0 {
      var k := 3 * (i - 1) + j;
      FlattenAt(bs[1..], i - 1, j);
      assert bs[1..][i - 1] == bs[i];
      assert 3 * i + j == |head| + k;
      assert (head + tail)[|head| + k] == tail[k];
    }
  }

  /** Block `i`, cut out of the flattened sends. */
  lemma FlattenSlice(bs: seq<DiskSends>, i: nat)
    requires i < |bs|
    ensures Flatten(bs)[3 * i..3 * i + 3] == SendsOf(bs[i])
  {
    var s, b := Flatten(bs)[3 * i..3 * i + 3], SendsOf(bs[i]);
    assert |s| == 3 == |b|;
    forall k | 0 <= k < 3
      ensures s[k] == b[k]
    {
      FlattenAt(bs, i, k);
    }
  }

  /** Each mounted partition's sends, in the order the partitions come. */
  function DiskSendsOf(c: Config, parts: seq<Partition>): seq<DiskSends> {
    seq(|parts|, i requires 0 <= i < |parts| => PartitionSends(c, parts[i]))
  }

  /** Everything the partition loop sends: three messages per partition. */
  function DiskMessages(c: Config, parts: seq<Partition>): (ms: seq<Msg>)
    ensures |ms| == 3 * |parts|
  {
    Flatten(DiskSendsOf(c, parts))
  }

  /** Everything one cycle publishes while connected and faultless: four
      host-level messages, then three per partition. */
  function PollMessages(c: Config, r: HostReadings, parts: seq<Partition>): (ms: seq<Msg>)
    ensures |ms| == 4 + 3 * |parts|
  {
    HostMessages(c, r) + DiskMessages(c, parts)
  }

  /** Partition `i`'s three messages sit at positions 3i, 3i+1 and 3i+2 of
      the partition loop's sends. */
  lemma DiskMessageAt(c: Config, parts: seq<Partition>, i: nat, j: nat)
    requires i < |parts| && j < 3
    ensures DiskMessages(c, parts)[3 * i + j] == PartitionMessages(c, parts[i])[j]
  {
    FlattenAt(DiskSendsOf(c, parts), i, j);
  }

  /** Partition `i`'s three messages form one block of the partition loop's
      sends. */
  lemma DiskPartitionSlice(c: Config, parts: seq<Partition>, i: nat)
    requires i < |parts|
    ensures DiskMessages(c, parts)[3 * i..3 * i + 3] == PartitionMessages(c, parts[i])
  {
    FlattenSlice(DiskSendsOf(c, parts), i);
  }

  /** Partition `i`'s messages sit at positions 4 + 3i + j of a cycle. */
  lemma PollMessageAt(c: Config, r: HostReadings, parts: seq<Partition>, i: nat, j: nat)
    requires i < |parts| && j < 3
    ensures PollMessages(c, r, parts)[4 + 3 * i + j] == PartitionMessages(c, parts[i])[j]
  {
    var h, ds := HostMessages(c, r), DiskMessages(c, parts);
    DiskMessageAt(c, parts, i, j);
    assert (h + ds)[|h| + (3 * i + j)] == ds[3 * i + j];
  }

  /** With `n` partitions a cycle makes 4 + 3n sends: CPU usage, memory
      usage, CPU attributes, memory attributes, then for each partition in
      turn its discovery document, its usage and its attributes. */
  lemma PollMessagesShape(c: Config, r: HostReadings, parts: seq<Partition>)
    ensures PollMessages(c, r, parts)[..4] == HostMessages(c, r)
    ensures forall i :: 0 <= i < |parts| ==>
      && PollMessages(c, r, parts)[4 + 3 * i] == PartitionSends(c, parts[i]).register
      && PollMessages(c, r, parts)[4 + 3 * i + 1] == PartitionSends(c, parts[i]).usage
      && PollMessages(c, r, parts)[4 + 3 * i + 2] == PartitionSends(c, parts[i]).attrs
  {
    forall i | 0 <= i < |parts|
      ensures PollMessages(c, r, parts)[4 + 3 * i] == PartitionSends(c, parts[i]).register
      ensures PollMessages(c, r, parts)[4 + 3 * i + 1] == PartitionSends(c, parts[i]).usage
      ensures PollMessages(c, r, parts)[4 + 3 * i + 2] == PartitionSends(c, parts[i]).attrs
    {
      PollMessageAt(c, r, parts, i, 0);
      PollMessageAt(c, r, parts, i, 1);
      PollMessageAt(c, r, parts, i, 2);
    }
  }

  /** A partition's sends written out, as the loop body makes them. */
  lemma PartitionMessagesSends(c: Config, p: Partition)
    ensures var d := FormatDiskName(p.device);
      PartitionMessages(c, p) == [DiskDiscoveryMsg(c, p.device, d),
        Msg(StateTopic(c, DiskUsage(d)), Number(p.percent), c.qos, false),
        Msg(StateTopic(c, DiskAttrs(d)), Json(DiskAttrsDoc(p)), c.qos, false)]
  {
  }

  /** The four host-level sends are samples: not retained, at the configured
      QoS, and off the status topic. */
  lemma HostMessagesShape(c: Config, r: HostReadings, k: nat)
    requires k < 4
    ensures var m := HostMessages(c, r)[k];
      !m.retain && m.qos == c.qos && m.topic != StatusTopic(c)
  {
    var metric := [CpuUsage, MemoryUsage, CpuUsageAttrs, MemoryUsageAttrs][k];
    assert HostMessages(c, r)[k].topic == StateTopic(c, Host(metric));
    StateNotStatus(c, Host(metric));
  }

  /** The shape of one block of partition sends: the discovery document is
      retained and the two samples are not; all three go at the configured
      QoS and none to the status topic. */
  predicate BlockShape(c: Config, b: DiskSends) {
    && b.register.retain && !b.usage.retain && !b.attrs.retain
    && b.register.qos == c.qos && b.usage.qos == c.qos && b.attrs.qos == c.qos
    && b.register.topic != StatusTopic(c)
    && b.usage.topic != StatusTopic(c)
    && b.attrs.topic != StatusTopic(c)
  }

  /** Every partition's sends have that shape. */
  lemma PartitionSendsShape(c: Config, p: Partition)
    ensures BlockShape(c, PartitionSends(c, p))
  {
    var d := FormatDiskName(p.device);
    DiscoveryNotStatus(c, DiskSensor(d));
    StateNotStatus(c, DiskUsage(d));
    StateNotStatus(c, DiskAttrs(d));
  }

  /** So does every block of a cycle's partition sends. */
  lemma DiskSendsShape(c: Config, parts: seq<Partition>)
    ensures forall i :: 0 <= i < |parts| ==> BlockShape(c, DiskSendsOf(c, parts)[i])
  {
    forall i | 0 <= i < |parts|
      ensures BlockShape(c, DiskSendsOf(c, parts)[i])
    {
      PartitionSendsShape(c, parts[i]);
    }
  }

  /** In blocks of that shape every message goes at the configured QoS and
      off the status topic, and exactly the first of each block is retained. */
  lemma FlattenShape(c: Config, bs: seq<DiskSends>, k: nat)
    requires k < 3 * |bs|
    requires forall i :: 0 <= i < |bs| ==> BlockShape(c, bs[i])
    ensures var m := Flatten(bs)[k];
      m.qos == c.qos && m.topic != StatusTopic(c) && (m.retain <==> k % 3 == 0)
  {
    var i, j := k / 3, k % 3;
    assert k == 3 * i + j;
    FlattenAt(bs, i, j);
    assert BlockShape(c, bs[i]);
  }

  /** Every message of a cycle goes at the configured QoS and never to the
      status topic, so a poll never overwrites the retained availability
      announcement; exactly the per-partition discovery documents are
      retained. */
  lemma PollMessageShape(c: Config, r: HostReadings, parts: seq<Partition>, k: nat)
    requires k < |PollMessages(c, r, parts)|
    ensures var m := PollMessages(c, r, parts)[k];
      && m.qos == c.qos
      && m.topic != StatusTopic(c)
      && (m.retain <==> 4 <= k && (k - 4) % 3 == 0)
  {
    var h, ds := HostMessages(c, r), DiskMessages(c, parts);
    if k < 4 {
      assert (h + ds)[k] == h[k];
      HostMessagesShape(c, r, k);
    } else {
      assert (h + ds)[k] == ds[k - 4];
      DiskSendsShape(c, parts);
      FlattenShape(c, DiskSendsOf(c, parts), k - 4);
    }
  }

  lemma StateNotStatus(c: Config, k: StateKey)
    requires k != Status
    ensures StateTopic(c, k) != StatusTopic(c)
  {
    if StateTopic(c, k) == StatusTopic(c) {
      StateTopicInjective(c, k, Status);
    }
  }

  /** A discovery topic ends in "g" (of "/config"), the status topic in "s". */
  lemma DiscoveryNotStatus(c: Config, e: Entity)
    ensures DiscoveryTopic(c, e) != StatusTopic(c)
  {
    var t := DiscoveryTopic(c, e);
    assert t == (c.haPrefix + "/sensor/host2mqtt-" + c.hostName + "/" + EntitySuffix(e)) + "/config";
    assert t[|t| - 1] == 'g';
    var s := StatusTopic(c);
    assert s == HostRoot(c) + "status";
    assert s[|s| - 1] == 's';
  }

  /** One partition `/dev/sda1` mounted at `/`: its usage goes to
      `<prefix>/<host>/disk__dev_sda1/usage` (the slash turned underscore
      is kept next to the one of `disk_`), and its attributes carry the
      mount point and the raw total. */
  lemma SingleDiskCycle(c: Config, r: HostReadings, p: Partition)
    requires p.device == "/dev/sda1" && p.mountpoint == "/"
    requires p.percent == 42.5 && p.total == 100 * 1024 * 1024 * 1024
    ensures |PollMessages(c, r, [p])| == 7
    ensures PollMessages(c, r, [p])[5] == Msg(HostRoot(c) + "disk__dev_sda1/usage", Number(42.5), c.qos, false)
    ensures PollMessages(c, r, [p])[6].topic == HostRoot(c) + "disk__dev_sda1/disk_attrs"
    ensures PollMessages(c, r, [p])[6].payload == Json(DiskAttrsDoc(p))
    ensures "mountpoint" in DiskAttrsDoc(p) && DiskAttrsDoc(p)["mountpoint"] == Str("/")
    ensures "total" in DiskAttrsDoc(p) && DiskAttrsDoc(p)["total"] == Size(107374182400)
  {
    var e := PollMessages(c, r, [p]);
    var d := FormatDiskName(p.device);
    assert d == "_dev_sda1" by {
      FormatDiskNameLinuxPartition(p.device);
    }
    PollMessageAt(c, r, [p], 0, 1);
    PollMessageAt(c, r, [p], 0, 2);
    Sda1Suffixes(d);
    DiskAttrsLookup(p);
  }

  /** The state suffixes of disk `_dev_sda1`, written out. */
  lemma Sda1Suffixes(d: string)
    requires d == "_dev_sda1"
    ensures StateSuffix(DiskUsage(d)) == "disk__dev_sda1/usage"
    ensures StateSuffix(DiskAttrs(d)) == "disk__dev_sda1/disk_attrs"
  {
    var name := "disk_" + d;
    assert name == "disk__dev_sda1";
    assert name + "/usage" == "disk__dev_sda1/usage";
    assert name + "/disk_attrs" == "disk__dev_sda1/disk_attrs";
  }
}
