/** What goes over the broker connection: JSON-like documents, payloads and
    published messages, and which of a run of publish attempts the
    transport actually takes. */
module Wire {

  datatype Option<T> = None | Some(value: T)

  /** A JSON value as the daemon builds it. `Size(bytes)` stands for the
      human-readable text the byte-size renderer makes of `bytes`. */
  datatype Value =
    | Str(s: string)
    | Int(i: int)
    | Num(x: real)
    | Size(bytes: int)
    | Obj(fields: map<string, Value>)

  /** A JSON object, before serialisation. */
  type Document = map<string, Value>

  /** A dictionary display `{k1: v1, ..., kn: vn}`: the pairs in order, a
      later pair overriding an earlier one with the same key. */
  function Dict(ps: seq<(string, Value)>): Document {
    if |ps| == 0 then map[] else Dict(ps[..|ps| - 1])[ps[|ps| - 1].0 := ps[|ps| - 1].1]
  }

  /** A key maps to the value of the last pair that names it. */
  lemma {:induction false} DictLookup(ps: seq<(string, Value)>, i: nat)
    requires i < |ps|
    requires forall j :: i < j < |ps| ==> ps[j].0 != ps[i].0
    ensures ps[i].0 in Dict(ps) && Dict(ps)[ps[i].0] == ps[i].1
  {
    var n := |ps| - 1;
    if i < n {
      DictLookup(ps[..n], i);
    }
  }

  /** The keys of a display are exactly the keys its pairs name. */
  lemma {:induction false} DictKeys(ps: seq<(string, Value)>)
    ensures Dict(ps).Keys == set p | p in ps :: p.0
  {
    if |ps| > 0 {
      var n := |ps| - 1;
      DictKeys(ps[..n]);
      assert ps == ps[..n] + [ps[n]];
    }
  }

  /** A publish payload: plain text, a bare number, or a serialised object. */
  datatype Payload = Text(text: string) | Number(x: real) | Json(doc: Document)

  /** One publish request handed to the MQTT client. */
  datatype Msg = Msg(topic: string, payload: Payload, qos: int, retain: bool)

  /** What one publish attempt hands to the client: the message, unless
      the session is down or the attempt failed. */
  function Attempt(m: Msg, up: bool, failed: bool): seq<Msg> {
    if up && !failed then [m] else []
  }

  /** What the first `n` publish attempts of `ms` hand to the client, in
      order; `fails[k]` says whether the k-th attempt raised inside the
      client. */
  function DeliveredUpTo(ms: seq<Msg>, fails: seq<bool>, n: nat): seq<Msg>
    requires |fails| == |ms| && n <= |ms|
  {
    if n == 0 then [] else DeliveredUpTo(ms, fails, n - 1) + Attempt(ms[n - 1], true, fails[n - 1])
  }

  /** The messages of `ms` whose publish attempt did not fail, in order. */
  function Delivered(ms: seq<Msg>, fails: seq<bool>): seq<Msg>
    requires |fails| == |ms|
  {
    DeliveredUpTo(ms, fails, |ms|)
  }

  predicate NoFailures(fails: seq<bool>) {
    forall k :: 0 <= k < |fails| ==> !fails[k]
  }

  /** With no failed attempt the first `n` attempts deliver the first `n`
      messages. */
  lemma {:induction false} DeliveredUpToAll(ms: seq<Msg>, fails: seq<bool>, n: nat)
    requires |fails| == |ms| && n <= |ms| && NoFailures(fails)
    ensures DeliveredUpTo(ms, fails, n) == ms[..n]
  {
    if n > 0 {
      DeliveredUpToAll(ms, fails, n - 1);
      assert ms[..n] == ms[..n - 1] + [ms[n - 1]];
    }
  }

  /** With no failed attempt every message is delivered. */
  lemma DeliveredAll(ms: seq<Msg>, fails: seq<bool>)
    requires |fails| == |ms| && NoFailures(fails)
    ensures Delivered(ms, fails) == ms
  {
    DeliveredUpToAll(ms, fails, |ms|);
    assert ms[..|ms|] == ms;
  }

  /** The first `n` attempts deliver at most `n` messages, all from `ms`. */
  lemma {:induction false} DeliveredUpToBound(ms: seq<Msg>, fails: seq<bool>, n: nat)
    requires |fails| == |ms| && n <= |ms|
    ensures |DeliveredUpTo(ms, fails, n)| <= n
    ensures forall m :: m in DeliveredUpTo(ms, fails, n) ==> m in ms
  {
    if n > 0 {
      DeliveredUpToBound(ms, fails, n - 1);
    }
  }

  /** The positions among the first `n` attempts that did not fail, in
      increasing order. */
  function Kept(fails: seq<bool>, n: nat): seq<nat>
    requires n <= |fails|
  {
    if n == 0 then [] else Kept(fails, n - 1) + (if fails[n - 1] then [] else [n - 1])
  }

  /** `idx` picks, in strictly increasing order, positions of `ys` that
      hold the elements of `xs` one by one. */
  predicate Embeds(idx: seq<nat>, xs: seq<Msg>, ys: seq<Msg>) {
    && |idx| == |xs|
    && (forall k :: 0 <= k < |idx| ==> idx[k] < |ys| && xs[k] == ys[idx[k]])
    && (forall k, l :: 0 <= k < l < |idx| ==> idx[k] < idx[l])
  }

  /** `xs` is `ys` with some elements dropped: nothing added, duplicated or
      reordered. */
  ghost predicate IsSubsequence(xs: seq<Msg>, ys: seq<Msg>) {
    exists idx :: Embeds(idx, xs, ys)
  }

  /** The first `n` attempts deliver exactly the messages at the positions
      that did not fail, in order: the k-th delivered message is the one at
      the k-th such position, and every position that did not fail is
      delivered. */
  lemma {:induction false} DeliveredUpToKept(ms: seq<Msg>, fails: seq<bool>, n: nat)
    requires |fails| == |ms| && n <= |ms|
    ensures var d, idx := DeliveredUpTo(ms, fails, n), Kept(fails, n);
      && Embeds(idx, d, ms)
      && (forall k :: 0 <= k < |idx| ==> idx[k] < n && !fails[idx[k]])
      && (forall j :: 0 <= j < n && !fails[j] ==> j in idx)
  {
    if n > 0 {
      DeliveredUpToKept(ms, fails, n - 1);
    }
  }

  /** Delivery only drops messages: what is delivered is a sub-sequence of
      the attempts, so no longer than them and made of attempted messages. */
  lemma DeliveredBound(ms: seq<Msg>, fails: seq<bool>)
    requires |fails| == |ms|
    ensures IsSubsequence(Delivered(ms, fails), ms)
    ensures |Delivered(ms, fails)| <= |ms|
    ensures forall m :: m in Delivered(ms, fails) ==> m in ms
  {
    DeliveredUpToBound(ms, fails, |ms|);
    DeliveredUpToKept(ms, fails, |ms|);
    assert Embeds(Kept(fails, |ms|), Delivered(ms, fails), ms);
  }

  /** When no attempted message goes to topic `t`, no delivered one does. */
  lemma DeliveredOffTopic(ms: seq<Msg>, fails: seq<bool>, t: string)
    requires |fails| == |ms|
    requires forall k :: 0 <= k < |ms| ==> ms[k].topic != t
    ensures forall m :: m in Delivered(ms, fails) ==> m.topic != t
  {
    DeliveredBound(ms, fails);
  }

  /** Attempts past the first `k` do not change what the first `k` deliver. */
  lemma {:induction false} DeliveredUpToPrefix(a: seq<Msg>, fa: seq<bool>, b: seq<Msg>, fb: seq<bool>, k: nat)
    requires |fa| == |a| && |fb| == |b| && k <= |a|
    ensures DeliveredUpTo(a + b, fa + fb, k) == DeliveredUpTo(a, fa, k)
  {
    if k > 0 {
      DeliveredUpToPrefix(a, fa, b, fb, k - 1);
    }
  }

  /** After all of `a`, the next `k` attempts deliver what the first `k`
      of `b` do on their own. */
  lemma {:induction false} DeliveredUpToConcat(a: seq<Msg>, fa: seq<bool>, b: seq<Msg>, fb: seq<bool>, k: nat)
    requires |fa| == |a| && |fb| == |b| && k <= |b|
    ensures DeliveredUpTo(a + b, fa + fb, |a| + k) == Delivered(a, fa) + DeliveredUpTo(b, fb, k)
  {
    if k == 0 {
      DeliveredUpToPrefix(a, fa, b, fb, |a|);
    } else {
      DeliveredUpToConcat(a, fa, b, fb, k - 1);
      assert (a + b)[|a| + k - 1] == b[k - 1];
      assert (fa + fb)[|a| + k - 1] == fb[k - 1];
    }
  }

  /** Delivery of two runs of attempts one after the other. */
  lemma DeliveredConcat(a: seq<Msg>, fa: seq<bool>, b: seq<Msg>, fb: seq<bool>)
    requires |fa| == |a| && |fb| == |b|
    ensures Delivered(a + b, fa + fb) == Delivered(a, fa) + Delivered(b, fb)
  {
    DeliveredUpToConcat(a, fa, b, fb, |b|);
  }

  /** A block of attempts sitting at positions `n`.. of `ms` delivers, after
      the first `n`, what it delivers on its own. */
  lemma {:induction false} DeliveredUpToBlock(ms: seq<Msg>, fails: seq<bool>, n: nat, block: seq<Msg>, k: nat)
    requires |fails| == |ms| && n + |block| <= |ms| && ms[n..n + |block|] == block && k <= |block|
    ensures DeliveredUpTo(ms, fails, n + k) == DeliveredUpTo(ms, fails, n) + DeliveredUpTo(block, fails[n..n + |block|], k)
  {
    if k > 0 {
      DeliveredUpToBlock(ms, fails, n, block, k - 1);
      assert ms[n + k - 1] == block[k - 1];
      assert fails[n + k - 1] == fails[n..n + |block|][k - 1];
    }
  }

  /** One more attempt, made while the session is `up` or not, appended to
      a log. */
  lemma DeliveredStep(log: seq<Msg>, ms: seq<Msg>, fails: seq<bool>, n: nat, up: bool)
    requires |fails| == |ms| && n < |ms|
    ensures log + (if up then DeliveredUpTo(ms, fails, n + 1) else [])
         == log + (if up then DeliveredUpTo(ms, fails, n) else []) + Attempt(ms[n], up, fails[n])
  {
    if !up {
      assert log + [] == log;
    }
  }

  /** A run of two attempts appends to a log what each attempt hands over,
      in order. */
  lemma DeliveredTwo(log: seq<Msg>, ms: seq<Msg>, fails: seq<bool>, up: bool)
    requires |fails| == |ms| == 2
    ensures log + (if up then Delivered(ms, fails) else [])
         == log + Attempt(ms[0], up, fails[0]) + Attempt(ms[1], up, fails[1])
  {
    assert log + (if up then DeliveredUpTo(ms, fails, 0) else []) == log;
    DeliveredStep(log, ms, fails, 0, up);
    DeliveredStep(log, ms, fails, 1, up);
  }

  /** The same for a run of three attempts. */
  lemma DeliveredThree(log: seq<Msg>, ms: seq<Msg>, fails: seq<bool>, up: bool)
    requires |fails| == |ms| == 3
    ensures log + (if up then Delivered(ms, fails) else [])
         == log + Attempt(ms[0], up, fails[0]) + Attempt(ms[1], up, fails[1]) + Attempt(ms[2], up, fails[2])
  {
    assert log + (if up then DeliveredUpTo(ms, fails, 0) else []) == log;
    DeliveredStep(log, ms, fails, 0, up);
    DeliveredStep(log, ms, fails, 1, up);
    DeliveredStep(log, ms, fails, 2, up);
  }

  /** The same for a run of four attempts. */
  lemma DeliveredFour(log: seq<Msg>, ms: seq<Msg>, fails: seq<bool>, up: bool)
    requires |fails| == |ms| == 4
    ensures log + (if up then Delivered(ms, fails) else [])
         == log + Attempt(ms[0], up, fails[0]) + Attempt(ms[1], up, fails[1]) + Attempt(ms[2], up, fails[2]) + Attempt(ms[3], up, fails[3])
  {
    assert log + (if up then DeliveredUpTo(ms, fails, 0) else []) == log;
    DeliveredStep(log, ms, fails, 0, up);
    DeliveredStep(log, ms, fails, 1, up);
    DeliveredStep(log, ms, fails, 2, up);
    DeliveredStep(log, ms, fails, 3, up);
  }
}
