/** The broker session: the connection flag the callbacks and the connect
    and disconnect helpers maintain, and the publish requests the daemon
    hands to the MQTT client while the flag is up. */
module Session {
  import opened Wire
  import opened Topics
  import opened Discovery
  import opened Poll
  import opened Formatter

  /** How a connection attempt ends: connected, refused and left to the
      caller, or refused with the process exiting. */
  datatype ConnectOutcome = Ok | Refused | Exited

  /** The availability announcement: `online` or `offline` on the status
      topic, retained. */
  function StatusMsg(c: Config, state: string): Msg {
    Msg(StatusTopic(c), Text(state), c.qos, true)
  }

  /** A request the daemon may legitimately hand to the client: at the
      configured QoS, and on the status topic only as an availability
      announcement. */
  predicate WellFormed(c: Config, m: Msg) {
    && m.qos == c.qos
    && (m.topic == StatusTopic(c) ==> m == StatusMsg(c, "online") || m == StatusMsg(c, "offline"))
  }

  /** Every message of a poll cycle is well formed, and none of them
      touches the availability topic. */
  lemma PollWellFormed(c: Config, r: HostReadings, parts: seq<Partition>)
    ensures forall k :: 0 <= k < |PollMessages(c, r, parts)| ==>
      WellFormed(c, PollMessages(c, r, parts)[k]) && PollMessages(c, r, parts)[k].topic != StatusTopic(c)
  {
    forall k | 0 <= k < |PollMessages(c, r, parts)|
      ensures WellFormed(c, PollMessages(c, r, parts)[k]) && PollMessages(c, r, parts)[k].topic != StatusTopic(c)
    {
      PollMessageShape(c, r, parts, k);
    }
  }

  /** Both host registrations are well formed and off the availability
      topic. */
  lemma HostDiscoveryWellFormed(c: Config)
    ensures forall k :: 0 <= k < |HostDiscoveryMessages(c)| ==>
      WellFormed(c, HostDiscoveryMessages(c)[k]) && HostDiscoveryMessages(c)[k].topic != StatusTopic(c)
  {
    DiscoveryNotStatus(c, CpuSensor);
    DiscoveryNotStatus(c, MemorySensor);
  }

  /** Delivery keeps only attempted messages, so it keeps well-formedness. */
  lemma DeliveredWellFormed(c: Config, ms: seq<Msg>, fails: seq<bool>)
    requires |fails| == |ms|
    requires forall k :: 0 <= k < |ms| ==> WellFormed(c, ms[k])
    ensures forall k :: 0 <= k < |Delivered(ms, fails)| ==> WellFormed(c, Delivered(ms, fails)[k])
  {
    DeliveredBound(ms, fails);
    forall k | 0 <= k < |Delivered(ms, fails)|
      ensures WellFormed(c, Delivered(ms, fails)[k])
    {
      assert Delivered(ms, fails)[k] in ms;
    }
  }

  /** Appending well-formed messages to a well-formed log keeps it so. */
  lemma AppendWellFormed(c: Config, a: seq<Msg>, b: seq<Msg>)
    requires forall k :: 0 <= k < |a| ==> WellFormed(c, a[k])
    requires forall k :: 0 <= k < |b| ==> WellFormed(c, b[k])
    ensures forall k :: 0 <= k < |a + b| ==> WellFormed(c, (a + b)[k])
  {
    forall k | 0 <= k < |a + b|
      ensures WellFormed(c, (a + b)[k])
    {
      if k >= |a| {
        assert (a + b)[k] == b[k - |a|];
      }
    }
  }

  /** A well-formed log stays well formed when a poll cycle delivers into it. */
  lemma CycleWellFormed(c: Config, r: HostReadings, parts: seq<Partition>, fails: seq<bool>, before: seq<Msg>)
    requires |fails| == 4 + 3 * |parts|
    requires forall k :: 0 <= k < |before| ==> WellFormed(c, before[k])
    ensures var after := before + Delivered(PollMessages(c, r, parts), fails);
      forall k :: 0 <= k < |after| ==> WellFormed(c, after[k])
  {
    PollWellFormed(c, r, parts);
    DeliveredWellFormed(c, PollMessages(c, r, parts), fails);
    AppendWellFormed(c, before, Delivered(PollMessages(c, r, parts), fails));
  }

  /** One publish attempt of a well-formed message keeps a log well formed. */
  lemma AttemptWellFormed(c: Config, log: seq<Msg>, m: Msg, up: bool, failed: bool)
    requires forall k :: 0 <= k < |log| ==> WellFormed(c, log[k])
    requires WellFormed(c, m)
    ensures var after := log + Attempt(m, up, failed);
      forall k :: 0 <= k < |after| ==> WellFormed(c, after[k])
  {
    AppendWellFormed(c, log, Attempt(m, up, failed));
  }

  /** Delivering well-formed messages into a well-formed log keeps it
      well formed. */
  lemma ExtendWellFormed(c: Config, before: seq<Msg>, ms: seq<Msg>, fails: seq<bool>)
    requires |fails| == |ms|
    requires forall k :: 0 <= k < |before| ==> WellFormed(c, before[k])
    requires forall k :: 0 <= k < |ms| ==> WellFormed(c, ms[k])
    ensures var after := before + Delivered(ms, fails);
      forall k :: 0 <= k < |after| ==> WellFormed(c, after[k])
  {
    DeliveredWellFormed(c, ms, fails);
    AppendWellFormed(c, before, Delivered(ms, fails));
  }

  /** The four host-level sends of a cycle are well formed. */
  lemma HostMessagesWellFormed(c: Config, r: HostReadings)
    ensures forall k :: 0 <= k < |HostMessages(c, r)| ==> WellFormed(c, HostMessages(c, r)[k])
  {
    forall k | 0 <= k < |HostMessages(c, r)|
      ensures WellFormed(c, HostMessages(c, r)[k])
    {
      HostMessagesShape(c, r, k);
    }
  }

  /** A partition's three sends are well formed. */
  lemma PartitionWellFormed(c: Config, p: Partition)
    ensures forall k :: 0 <= k < |PartitionMessages(c, p)| ==> WellFormed(c, PartitionMessages(c, p)[k])
  {
    PartitionSendsShape(c, p);
  }

  /** Every send of the partition loop is well formed. */
  lemma DiskMessagesWellFormed(c: Config, parts: seq<Partition>)
    ensures forall k :: 0 <= k < |DiskMessages(c, parts)| ==> WellFormed(c, DiskMessages(c, parts)[k])
  {
    DiskSendsShape(c, parts);
    forall k | 0 <= k < |DiskMessages(c, parts)|
      ensures WellFormed(c, DiskMessages(c, parts)[k])
    {
      FlattenShape(c, DiskSendsOf(c, parts), k);
    }
  }

  /** `after` is `before` extended by what the first `n` attempts of `ms`
      delivered, or by nothing when the session is down (`on` false). */
  ghost predicate Sent(before: seq<Msg>, after: seq<Msg>, on: bool, ms: seq<Msg>, fails: seq<bool>, n: nat)
    requires |fails| == |ms| && n <= |ms|
  {
    after == before + (if on then DeliveredUpTo(ms, fails, n) else [])
  }

  /** Before any attempt nothing was sent. */
  lemma SentStart(before: seq<Msg>, on: bool, ms: seq<Msg>, fails: seq<bool>)
    requires |fails| == |ms|
    ensures Sent(before, before, on, ms, fails, 0)
  {
    assert before + [] == before;
  }

  /** Sent after `n` attempts, then a block of attempts that delivered
      what `Delivered` keeps of `block`, gives Sent after the block. */
  lemma SentBlock(before: seq<Msg>, mid: seq<Msg>, after: seq<Msg>, on: bool, ms: seq<Msg>, fails: seq<bool>, n: nat, block: seq<Msg>, m: nat)
    requires m == n + |block| && m <= |ms| && |fails| == |ms| && ms[n..m] == block
    requires Sent(before, mid, on, ms, fails, n)
    requires after == mid + (if on then Delivered(block, fails[n..m]) else [])
    ensures Sent(before, after, on, ms, fails, m)
  {
    DeliveredUpToBlock(ms, fails, n, block, |block|);
    if on {
      AppendTwice(before, DeliveredUpTo(ms, fails, n), Delivered(block, fails[n..m]), mid, after);
    }
  }

  /** One turn of the partition loop extends Sent by block `i`. */
  lemma DisksStep(bs: seq<DiskSends>, fails: seq<bool>, i: nat, before: seq<Msg>, mid: seq<Msg>, after: seq<Msg>, on: bool)
    requires i < |bs| && |fails| == 3 * |bs|
    requires Sent(before, mid, on, Flatten(bs), fails, 3 * i)
    requires after == mid + (if on then Delivered(SendsOf(bs[i]), fails[3 * i..3 * i + 3]) else [])
    ensures Sent(before, after, on, Flatten(bs), fails, 3 * i + 3)
  {
    FlattenSlice(bs, i);
    SentBlock(before, mid, after, on, Flatten(bs), fails, 3 * i, SendsOf(bs[i]), 3 * i + 3);
  }

  /** One turn of the partition loop of a cycle: partition `i`'s sends
      extend Sent by one block. */
  lemma DisksTurn(c: Config, parts: seq<Partition>, fails: seq<bool>, i: nat, before: seq<Msg>, mid: seq<Msg>, after: seq<Msg>, on: bool)
    requires i < |parts| && |fails| == 3 * |parts|
    requires Sent(before, mid, on, DiskMessages(c, parts), fails, 3 * i)
    requires after == mid + (if on then Delivered(PartitionMessages(c, parts[i]), fails[3 * i..3 * i + 3]) else [])
    ensures Sent(before, after, on, DiskMessages(c, parts), fails, 3 * i + 3)
  {
    var bs := DiskSendsOf(c, parts);
    assert PartitionMessages(c, parts[i]) == SendsOf(bs[i]);
    DisksStep(bs, fails, i, before, mid, after, on);
  }

  /** Sent after every attempt: exactly the delivered messages were added,
      and all of them when no attempt failed. */
  lemma SentAll(before: seq<Msg>, after: seq<Msg>, on: bool, ms: seq<Msg>, fails: seq<bool>, n: nat)
    requires n == |ms| && |fails| == |ms| && Sent(before, after, on, ms, fails, n)
    ensures after == before + (if on then Delivered(ms, fails) else [])
    ensures on && NoFailures(fails) ==> after == before + ms
  {
    if on && NoFailures(fails) {
      DeliveredAll(ms, fails);
    }
  }

  /** The MQTT client as the daemon drives it. `outbox` holds, in order,
      every publish request the client accepted; `will` is the last-will
      message registered with it; `looping` says whether its network thread
      runs. */
  class Session {
    const cfg: Config
    var connected: bool
    var outbox: seq<Msg>
    var will: Option<Msg>
    var looping: bool

    /** Nothing but availability announcements ever reaches the status
        topic, everything goes at the configured QoS, and the will is the
        retained `offline`. */
    ghost predicate Valid()
      reads this
    {
      && (forall k :: 0 <= k < |outbox| ==> WellFormed(cfg, outbox[k]))
      && (will.Some? ==> will.value == StatusMsg(cfg, "offline"))
    }

    /** A fresh client, not connected. */
    constructor (c: Config)
      ensures cfg == c && !connected && outbox == [] && will == None && !looping
      ensures Valid()
    {
      cfg := c;
      connected := false;
      outbox := [];
      will := None;
      looping := false;
    }

    /** Prepares a new client whose last will is the retained `offline`. */
    method Setup()
      modifies this
      ensures will == Some(StatusMsg(cfg, "offline"))
      ensures !looping
      ensures connected == old(connected) && outbox == old(outbox)
      ensures old(Valid()) ==> Valid()
    {
      will := Some(StatusMsg(cfg, "offline"));
      looping := false;
    }

    /** A publish attempt: handed to the client only while connected, and
        lost without trace when the client raises (`fails`). */
    method Send(topic: string, payload: Payload, retain: bool, fails: bool)
      modifies this
      ensures outbox == old(outbox) + Attempt(Msg(topic, payload, cfg.qos, retain), old(connected), fails)
      ensures connected == old(connected) && will == old(will) && looping == old(looping)
    {
      if connected && !fails {
        outbox := outbox + [Msg(topic, payload, cfg.qos, retain)];
      }
    }

    /** Connects; `refused` says whether the broker refused. On success the
        flag goes up, the network thread starts and `online` is announced
        through `Send`. A refusal lowers the flag and, with `exitOnFail`,
        ends the process. */
    method Connect(exitOnFail: bool, refused: bool, sendFails: bool) returns (outcome: ConnectOutcome)
      modifies this
      ensures !refused ==> && outcome == Ok && connected && looping
                           && outbox == old(outbox) + Attempt(StatusMsg(cfg, "online"), true, sendFails)
      ensures refused ==> && outcome == (if exitOnFail then Exited else Refused) && !connected
                          && looping == old(looping) && outbox == old(outbox)
      ensures will == old(will)
      ensures old(Valid()) ==> Valid()
    {
      if refused {
        connected := false;
        if exitOnFail {
          return Exited;
        }
        return Refused;
      }
      ghost var valid := Valid();
      ghost var log := outbox;
      connected := true;
      looping := true;
      Send(StatusTopic(cfg), Text("online"), true, sendFails);
      if valid {
        AttemptWellFormed(cfg, log, StatusMsg(cfg, "online"), true, sendFails);
      }
      outcome := Ok;
    }

    /** A voluntary disconnect: the flag goes down first, yet `offline` is
        still handed to the client, since it is published directly and not
        through `Send`; then the network thread stops. */
    method Disconnect()
      modifies this
      ensures !connected && !looping
      ensures outbox == old(outbox) + [StatusMsg(cfg, "offline")]
      ensures will == old(will)
      ensures old(Valid()) ==> Valid()
    {
      connected := false;
      outbox := outbox + [StatusMsg(cfg, "offline")];
      looping := false;
    }

    /** Announces the CPU and memory sensors, CPU first. */
    method RegisterHost(cpuFails: bool, memFails: bool)
      modifies this
      ensures outbox == old(outbox) + (if old(connected) then Delivered(HostDiscoveryMessages(cfg), [cpuFails, memFails]) else [])
      ensures connected == old(connected) && will == old(will) && looping == old(looping)
      ensures old(Valid()) ==> Valid()
    {
      ghost var on := connected;
      ghost var valid := Valid();
      ghost var log := outbox;
      DeliveredTwo(log, HostDiscoveryMessages(cfg), [cpuFails, memFails], on);
      Send(DiscoveryTopic(cfg, CpuSensor), Json(CpuUsageConfig(cfg)), true, cpuFails);
      ghost var mid := outbox;
      Send(DiscoveryTopic(cfg, MemorySensor), Json(MemoryUsageConfig(cfg)), true, memFails);
      if valid {
        DiscoveryNotStatus(cfg, CpuSensor);
        DiscoveryNotStatus(cfg, MemorySensor);
        AttemptWellFormed(cfg, log, HostDiscoveryMessages(cfg)[0], on, cpuFails);
        AttemptWellFormed(cfg, mid, HostDiscoveryMessages(cfg)[1], on, memFails);
      }
    }

    /** Announces one disk: `device` is its raw path, `d` its normalised
        identifier. */
    method RegisterDisk(device: string, d: string, fails: bool)
      modifies this
      ensures outbox == old(outbox) + Attempt(DiskDiscoveryMsg(cfg, device, d), old(connected), fails)
      ensures connected == old(connected) && will == old(will) && looping == old(looping)
      ensures old(Valid()) ==> Valid()
    {
      ghost var valid := Valid();
      ghost var log := outbox;
      Send(DiscoveryTopic(cfg, DiskSensor(d)), Json(DiskConfig(cfg, device, d)), true, fails);
      if valid {
        DiscoveryNotStatus(cfg, DiskSensor(d));
        AttemptWellFormed(cfg, log, DiskDiscoveryMsg(cfg, device, d), connected, fails);
      }
    }

    /** The connect callback: result code 0 raises the flag and, when
        discovery is enabled, registers the host; any other code lowers it. */
    method OnConnect(rc: int, cpuFails: bool, memFails: bool)
      modifies this
      ensures connected == (rc == 0)
      ensures outbox == old(outbox) + (if rc == 0 && cfg.haEnabled then Delivered(HostDiscoveryMessages(cfg), [cpuFails, memFails]) else [])
      ensures will == old(will) && looping == old(looping)
      ensures old(Valid()) ==> Valid()
    {
      if rc == 0 {
        connected := true;
        if cfg.haEnabled {
          RegisterHost(cpuFails, memFails);
        }
      } else {
        connected := false;
      }
    }

    /** The disconnect callback: whatever the reason code, the flag goes
        down and nothing is published. */
    method OnDisconnect(rc: int)
      modifies this
      ensures !connected
      ensures outbox == old(outbox) && will == old(will) && looping == old(looping)
      ensures old(Valid()) ==> Valid()
    {
      connected := false;
    }

    /** The body of the partition loop of a poll cycle: normalise the
        device name, register the disk, then send its usage and its
        attributes; `fails` flags the three sends. */
    method UpdateDisk(p: Partition, fails: seq<bool>)
      requires |fails| == 3
      modifies this
      ensures outbox == old(outbox) + (if old(connected) then Delivered(PartitionMessages(cfg, p), fails) else [])
      ensures connected == old(connected) && will == old(will) && looping == old(looping)
      ensures old(Valid()) ==> Valid()
    {
      var d := FormatDiskName(p.device);
      ghost var on := connected;
      ghost var valid := Valid();
      ghost var log := outbox;
      DeliveredThree(outbox, PartitionMessages(cfg, p), fails, on);
      RegisterDisk(p.device, d, fails[0]);
      Send(StateTopic(cfg, DiskUsage(d)), Number(p.percent), false, fails[1]);
      Send(StateTopic(cfg, DiskAttrs(d)), Json(DiskAttrsDoc(p)), false, fails[2]);
      if valid && on {
        PartitionWellFormed(cfg, p);
        ExtendWellFormed(cfg, log, PartitionMessages(cfg, p), fails);
      }
    }

    /** The host-level part of a poll cycle: CPU usage, memory usage, then
        the two attribute documents; `fails` flags the four sends. */
    method UpdateHost(r: HostReadings, fails: seq<bool>)
      requires |fails| == 4
      modifies this
      ensures outbox == old(outbox) + (if old(connected) then Delivered(HostMessages(cfg, r), fails) else [])
      ensures connected == old(connected) && will == old(will) && looping == old(looping)
      ensures old(Valid()) ==> Valid()
    {
      ghost var on := connected;
      ghost var valid := Valid();
      ghost var log := outbox;
      DeliveredFour(outbox, HostMessages(cfg, r), fails, on);
      Send(StateTopic(cfg, Host(CpuUsage)), Number(r.cpuPercent), false, fails[0]);
      Send(StateTopic(cfg, Host(MemoryUsage)), Number(r.memoryPercent), false, fails[1]);
      Send(StateTopic(cfg, Host(CpuUsageAttrs)), Json(CpuAttrs(r)), false, fails[2]);
      Send(StateTopic(cfg, Host(MemoryUsageAttrs)), Json(MemoryAttrs(r)), false, fails[3]);
      if valid && on {
        HostMessagesWellFormed(cfg, r);
        ExtendWellFormed(cfg, log, HostMessages(cfg, r), fails);
      }
    }

    /** The partition loop of a poll cycle; `fails` flags its sends,
        three per partition. */
    method UpdateDisks(parts: seq<Partition>, fails: seq<bool>)
      requires |fails| == 3 * |parts|
      modifies this
      ensures outbox == old(outbox) + (if old(connected) then Delivered(DiskMessages(cfg, parts), fails) else [])
      ensures connected == old(connected) && will == old(will) && looping == old(looping)
      ensures old(Valid()) ==> Valid()
    {
      ghost var ds := DiskMessages(cfg, parts);
      ghost var before := outbox;
      ghost var on := connected;
      ghost var valid := Valid();
      SentStart(before, on, ds, fails);
      for i := 0 to |parts|
        invariant Sent(before, outbox, on, ds, fails, 3 * i)
        invariant connected == on && will == old(will) && looping == old(looping)
      {
        ghost var mid := outbox;
        UpdateDisk(parts[i], fails[3 * i..3 * i + 3]);
        DisksTurn(cfg, parts, fails, i, before, mid, outbox, on);
      }
      SentAll(before, outbox, on, ds, fails, 3 * |parts|);
      if valid && on {
        DiskMessagesWellFormed(cfg, parts);
        ExtendWellFormed(cfg, before, ds, fails);
      }
    }

    /** One poll cycle: the four host-level sends, then per partition its
        registration, usage and attributes. `fails[k]` says whether the k-th
        send raised. While connected the client receives exactly the
        cycle's messages whose send did not fail, in cycle order; while
        disconnected it receives nothing. */
    method UpdateSensors(r: HostReadings, parts: seq<Partition>, fails: seq<bool>)
      requires |fails| == 4 + 3 * |parts|
      modifies this
      ensures outbox == old(outbox) + (if old(connected) then Delivered(PollMessages(cfg, r, parts), fails) else [])
      ensures old(connected) && NoFailures(fails) ==> outbox == old(outbox) + PollMessages(cfg, r, parts)
      ensures connected == old(connected) && will == old(will) && looping == old(looping)
      ensures old(Valid()) ==> Valid()
    {
      ghost var before := outbox;
      ghost var valid := Valid();
      UpdateHost(r, fails[..4]);
      ghost var mid := outbox;
      UpdateDisks(parts, fails[4..]);
      if connected {
        CycleDelivered(cfg, r, parts, fails);
        AppendTwice(before, Delivered(HostMessages(cfg, r), fails[..4]), Delivered(DiskMessages(cfg, parts), fails[4..]), mid, outbox);
        if NoFailures(fails) {
          DeliveredAll(PollMessages(cfg, r, parts), fails);
        }
        if valid {
          CycleWellFormed(cfg, r, parts, fails, before);
        }
      }
    }

    /** The endless poll loop of the main block, over a finite run of
        cycles; `fails[i]` flags the sends of cycle `i`. While connected
        each cycle appends what it delivers, cycle after cycle; while
        disconnected nothing is appended. */
    method PollLoop(samples: seq<Sample>, fails: seq<seq<bool>>)
      requires CycleFlags(samples, fails)
      modifies this
      ensures outbox == old(outbox) + (if old(connected) then PollsDelivered(cfg, samples, fails) else [])
      ensures connected == old(connected) && will == old(will) && looping == old(looping)
      ensures old(Valid()) ==> Valid()
    {
      ghost var before := outbox;
      ghost var on := connected;
      ghost var valid := Valid();
      for i := 0 to |samples|
        invariant connected == on && will == old(will) && looping == old(looping)
        invariant CycleFlags(samples[..i], fails[..i])
        invariant outbox == before + (if on then PollsDelivered(cfg, samples[..i], fails[..i]) else [])
        invariant valid ==> Valid()
      {
        ghost var mid := outbox;
        UpdateSensors(samples[i].host, samples[i].parts, fails[i]);
        PollsDeliveredSnoc(cfg, samples, fails, i);
        if on {
          AppendTwice(before, PollsDelivered(cfg, samples[..i], fails[..i]),
                      Delivered(PollMessages(cfg, samples[i].host, samples[i].parts), fails[i]), mid, outbox);
        }
      }
      assert samples[..|samples|] == samples && fails[..|fails|] == fails;
    }
  }

  /** What one poll cycle samples. */
  datatype Sample = Sample(host: HostReadings, parts: seq<Partition>)

  /** The messages of a run of poll cycles, one cycle after the other. */
  function PollsMessages(c: Config, samples: seq<Sample>): seq<Msg> {
    if |samples| == 0 then [] else
      var n := |samples| - 1;
      PollsMessages(c, samples[..n]) + PollMessages(c, samples[n].host, samples[n].parts)
  }

  /** What a cycle delivers is what its host part delivers followed by
      what its partition loop delivers. */
  lemma CycleDelivered(c: Config, r: HostReadings, parts: seq<Partition>, fails: seq<bool>)
    requires |fails| == 4 + 3 * |parts|
    ensures Delivered(PollMessages(c, r, parts), fails)
         == Delivered(HostMessages(c, r), fails[..4]) + Delivered(DiskMessages(c, parts), fails[4..])
  {
    assert fails == fails[..4] + fails[4..];
    DeliveredConcat(HostMessages(c, r), fails[..4], DiskMessages(c, parts), fails[4..]);
  }

  /** Two appends in a row are one append of both. */
  lemma AppendTwice(before: seq<Msg>, x: seq<Msg>, y: seq<Msg>, mid: seq<Msg>, after: seq<Msg>)
    requires mid == before + x && after == mid + y
    ensures after == before + (x + y)
  {
  }

  /** Failure flags for a run of cycles: one flag per send of each cycle. */
  predicate CycleFlags(samples: seq<Sample>, fails: seq<seq<bool>>) {
    && |fails| == |samples|
    && forall i :: 0 <= i < |samples| ==> |fails[i]| == 4 + 3 * |samples[i].parts|
  }

  /** What a run of cycles hands to the client while connected: each
      cycle's messages whose send did not fail, cycle after cycle. */
  function PollsDelivered(c: Config, samples: seq<Sample>, fails: seq<seq<bool>>): seq<Msg>
    requires CycleFlags(samples, fails)
  {
    if |samples| == 0 then [] else
      var n := |samples| - 1;
      assert CycleFlags(samples[..n], fails[..n]);
      PollsDelivered(c, samples[..n], fails[..n]) + Delivered(PollMessages(c, samples[n].host, samples[n].parts), fails[n])
  }

  /** One more cycle appends what it delivers to what the cycles before
      delivered. */
  lemma PollsDeliveredSnoc(c: Config, samples: seq<Sample>, fails: seq<seq<bool>>, i: nat)
    requires CycleFlags(samples, fails) && i < |samples|
    ensures CycleFlags(samples[..i], fails[..i]) && CycleFlags(samples[..i + 1], fails[..i + 1])
    ensures PollsDelivered(c, samples[..i + 1], fails[..i + 1])
         == PollsDelivered(c, samples[..i], fails[..i]) + Delivered(PollMessages(c, samples[i].host, samples[i].parts), fails[i])
  {
    assert samples[..i + 1][..i] == samples[..i];
    assert fails[..i + 1][..i] == fails[..i];
  }

  /** With no failed send the run delivers every cycle's messages. */
  lemma {:induction false} PollsDeliveredAll(c: Config, samples: seq<Sample>, fails: seq<seq<bool>>)
    requires CycleFlags(samples, fails)
    requires forall i :: 0 <= i < |fails| ==> NoFailures(fails[i])
    ensures PollsDelivered(c, samples, fails) == PollsMessages(c, samples)
  {
    if |samples| > 0 {
      var n := |samples| - 1;
      assert CycleFlags(samples[..n], fails[..n]);
      PollsDeliveredAll(c, samples[..n], fails[..n]);
      DeliveredAll(PollMessages(c, samples[n].host, samples[n].parts), fails[n]);
    }
  }

  /** Nothing a run of cycles delivers ever reaches the availability
      topic, whichever sends fail. */
  lemma {:induction false} PollsNeverStatus(c: Config, samples: seq<Sample>, fails: seq<seq<bool>>)
    requires CycleFlags(samples, fails)
    ensures forall m :: m in PollsDelivered(c, samples, fails) ==> m.topic != StatusTopic(c)
  {
    if |samples| > 0 {
      var n := |samples| - 1;
      assert CycleFlags(samples[..n], fails[..n]);
      PollsNeverStatus(c, samples[..n], fails[..n]);
      PollWellFormed(c, samples[n].host, samples[n].parts);
      DeliveredOffTopic(PollMessages(c, samples[n].host, samples[n].parts), fails[n], StatusTopic(c));
    }
  }

  /** The log of a run whose connection the broker accepted: `online`
      unless its send fails; the host registrations when the broker
      acknowledges with code 0 and discovery is enabled; then, since only
      code 0 leaves the flag up, every cycle's delivered messages. */
  function DaemonLog(c: Config, onlineFails: bool, rc: int, cpuFails: bool, memFails: bool,
                     samples: seq<Sample>, fails: seq<seq<bool>>): seq<Msg>
    requires CycleFlags(samples, fails)
  {
    Attempt(StatusMsg(c, "online"), true, onlineFails)
      + (if rc == 0 && c.haEnabled then Delivered(HostDiscoveryMessages(c), [cpuFails, memFails]) else [])
      + (if rc == 0 then PollsDelivered(c, samples, fails) else [])
  }

  /** With code 0 and no failed send, the log is `online`, the host
      registrations when discovery is enabled, then every cycle's messages. */
  lemma DaemonLogFaultFree(c: Config, cpuFails: bool, memFails: bool, samples: seq<Sample>, fails: seq<seq<bool>>)
    requires CycleFlags(samples, fails) && !cpuFails && !memFails
    requires forall i :: 0 <= i < |fails| ==> NoFailures(fails[i])
    ensures DaemonLog(c, false, 0, cpuFails, memFails, samples, fails)
         == [StatusMsg(c, "online")] + (if c.haEnabled then HostDiscoveryMessages(c) else []) + PollsMessages(c, samples)
  {
    DeliveredAll(HostDiscoveryMessages(c), [cpuFails, memFails]);
    PollsDeliveredAll(c, samples, fails);
  }

  /** The daemon's main block over a finite run of cycles: set up the
      client, connect with exit-on-failure, let the network thread run the
      connect callback with the broker's acknowledgement code `rc`, then
      poll. `refused` says whether the broker refused the connection;
      `onlineFails`, `cpuFails`, `memFails` and `fails` flag the sends that
      raise. A refusal exits before anything is published; otherwise the
      log is `DaemonLog`. */
  method RunDaemon(c: Config, refused: bool, onlineFails: bool, rc: int, cpuFails: bool, memFails: bool,
                   samples: seq<Sample>, fails: seq<seq<bool>>) returns (outcome: ConnectOutcome, log: seq<Msg>)
    requires CycleFlags(samples, fails)
    ensures refused ==> outcome == Exited && log == []
    ensures !refused ==> outcome == Ok && log == DaemonLog(c, onlineFails, rc, cpuFails, memFails, samples, fails)
    ensures forall k :: 0 <= k < |log| ==> WellFormed(c, log[k])
  {
    var s := new Session(c);
    s.Setup();
    outcome := s.Connect(true, refused, onlineFails);
    if outcome == Exited {
      log := s.outbox;
      return;
    }
    ghost var head := s.outbox;
    s.OnConnect(rc, cpuFails, memFails);
    ghost var registered := s.outbox;
    s.PollLoop(samples, fails);
    log := s.outbox;
    AppendThree(head, registered, log,
                Attempt(StatusMsg(c, "online"), true, onlineFails),
                if rc == 0 && c.haEnabled then Delivered(HostDiscoveryMessages(c), [cpuFails, memFails]) else [],
                if rc == 0 then PollsDelivered(c, samples, fails) else []);
  }

  /** Three appends to an empty log give the three parts in order. */
  lemma AppendThree(o1: seq<Msg>, o2: seq<Msg>, o3: seq<Msg>, a: seq<Msg>, b: seq<Msg>, c: seq<Msg>)
    requires o1 == [] + a && o2 == o1 + b && o3 == o2 + c
    ensures o3 == a + b + c
  {
  }

  /** Whatever sends fail, the only message of a run that reaches the
      availability topic is `online`, and it opens the log when its send
      succeeds. */
  lemma RunDaemonStatus(c: Config, onlineFails: bool, rc: int, cpuFails: bool, memFails: bool,
                        samples: seq<Sample>, fails: seq<seq<bool>>)
    requires CycleFlags(samples, fails)
    ensures var log := DaemonLog(c, onlineFails, rc, cpuFails, memFails, samples, fails);
      && (!onlineFails ==> |log| > 0 && log[0] == StatusMsg(c, "online"))
      && forall k :: 0 <= k < |log| && log[k].topic == StatusTopic(c) ==> k == 0 && log[k] == StatusMsg(c, "online")
  {
    var online := StatusMsg(c, "online");
    var head: seq<Msg> := Attempt(online, true, onlineFails);
    var reg: seq<Msg> := if rc == 0 && c.haEnabled then Delivered(HostDiscoveryMessages(c), [cpuFails, memFails]) else [];
    var polls: seq<Msg> := if rc == 0 then PollsDelivered(c, samples, fails) else [];
    HostDiscoveryWellFormed(c);
    DeliveredOffTopic(HostDiscoveryMessages(c), [cpuFails, memFails], StatusTopic(c));
    PollsNeverStatus(c, samples, fails);
    ConsOffTopic(head, online, reg, polls, StatusTopic(c));
  }

  /** At most one message `m` put in front of two runs of messages none of
      which goes to topic `t`: only that message can be on `t`, and it
      opens the log. */
  lemma ConsOffTopic(head: seq<Msg>, m: Msg, reg: seq<Msg>, polls: seq<Msg>, t: string)
    requires head == [] || head == [m]
    requires forall x :: x in reg ==> x.topic != t
    requires forall x :: x in polls ==> x.topic != t
    ensures head == [m] ==> |head + reg + polls| > 0 && (head + reg + polls)[0] == m
    ensures forall k :: 0 <= k < |head + reg + polls| && (head + reg + polls)[k].topic == t ==> k == 0 && (head + reg + polls)[k] == m
  {
  }
}
