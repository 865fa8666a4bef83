/** Formatting of readings: the disk-identifier normaliser and the unit
    choice of the human-readable byte size. */
module Formatter {
  import opened Strings

  /** The four rewrites applied before the final `"__"` pass: drop
      backslashes, turn slashes into underscores, drop colons, lower-case. */
  function PreCollapse(name: string): string {
    Lower(Replace(Replace(Replace(name, "\\", ""), "/", "_"), ":", ""))
  }

  /** The disk identifier derived from a device path: the rewrites above
      followed by one non-overlapping `"__"` to `"_"` pass. */
  function FormatDiskName(name: string): string {
    Replace(PreCollapse(name), "__", "_")
  }

  /** The identifier holds no backslash, slash, colon or upper-case letter,
      and is never longer than the device path. */
  lemma FormatDiskNameClean(name: string)
    ensures '\\' !in FormatDiskName(name)
    ensures '/' !in FormatDiskName(name)
    ensures ':' !in FormatDiskName(name)
    ensures NoUpper(FormatDiskName(name))
    ensures |FormatDiskName(name)| <= |name|
  {
    var a := Replace(name, "\\", "");
    ReplaceRemovesChar(name, "\\", "");
    ReplaceShrinks(name, "\\", "");
    var b := Replace(a, "/", "_");
    ReplaceRemovesChar(a, "/", "_");
    ReplaceChars(a, "/", "_");
    ReplaceShrinks(a, "/", "_");
    var d := Replace(b, ":", "");
    ReplaceRemovesChar(b, ":", "");
    ReplaceChars(b, ":", "");
    ReplaceShrinks(b, ":", "");
    var e := Lower(d);
    LowerFacts(d);
    assert e == PreCollapse(name);
    var r := Replace(e, "__", "_");
    ReplaceChars(e, "__", "_");
    ReplaceShrinks(e, "__", "_");
    forall i | 0 <= i < |r|
      ensures !IsUpper(r[i])
    {
      assert r[i] in r;
      if r[i] in e {
        var j :| 0 <= j < |e| && e[j] == r[i];
      }
    }
  }

  /** A device path that is already clean (no backslash, slash, colon,
      upper-case letter or `"__"`) is its own identifier. */
  lemma FormatDiskNameIdentity(name: string)
    requires '\\' !in name && '/' !in name && ':' !in name
    requires NoUpper(name) && !Occurs("__", name)
    ensures FormatDiskName(name) == name
  {
    CharOccurs('\\', name);
    ReplaceIdentity(name, "\\", "");
    CharOccurs('/', name);
    ReplaceIdentity(name, "/", "_");
    CharOccurs(':', name);
    ReplaceIdentity(name, ":", "");
    LowerIdentity(name);
    ReplaceIdentity(name, "__", "_");
  }

  /** For a path with no backslash, colon or upper-case letter the rewrites
      before the final pass only turn slashes into underscores. */
  lemma PreCollapseSlashesOnly(name: string)
    requires '\\' !in name && ':' !in name && NoUpper(name)
    ensures PreCollapse(name) == Replace(name, "/", "_")
    ensures |PreCollapse(name)| == |name|
    ensures forall i :: 0 <= i < |name| ==> PreCollapse(name)[i] == if name[i] == '/' then '_' else name[i]
  {
    assert Replace(name, "\\", "") == name by {
      CharOccurs('\\', name);
      ReplaceIdentity(name, "\\", "");
    }
    var t := Replace(name, "/", "_");
    ReplaceCharPointwise(name, '/', '_');
    assert ':' !in t by {
      ReplaceChars(name, "/", "_");
    }
    assert Replace(t, ":", "") == t by {
      CharOccurs(':', t);
      ReplaceIdentity(t, ":", "");
    }
    assert NoUpper(t);
    LowerIdentity(t);
  }

  /** One `"__"` pass over a run of three underscores leaves two, and over
      two leaves one.

      This lemma and the worked examples below take their literals as
      parameters pinned by `requires`, so that the solver follows the
      stepwise proofs instead of unfolding `Replace` and `Lower` over the
      literals on its own, which costs far more. */
  lemma CollapseRuns(s3: string, s2: string)
    requires s3 == "___" && s2 == "__"
    ensures Replace(s3, "__", "_") == "__"
    ensures Replace(s2, "__", "_") == "_"
  {
    var one := "_";
    assert Replace(one, "__", "_") == "_" by {
      assert !IsPrefix("__", one);
      assert one[1..] == [];
    }
    assert IsPrefix("__", s3) && s3[2..] == one;
    assert IsPrefix("__", s2) && s2[2..] == [];
  }

  /** The normaliser is not idempotent, and its result may still hold
      `"__"`: `"///"` becomes `"__"`, which a second application turns
      into `"_"`. */
  lemma FormatDiskNameNotIdempotent(name: string)
    requires name == "///"
    ensures FormatDiskName(name) == "__"
    ensures FormatDiskName(FormatDiskName(name)) == "_"
  {
    var s3, s2 := "___", "__";
    assert PreCollapse(name) == s3 by {
      PreCollapseSlashesOnly(name);
    }
    CollapseRuns(s3, s2);
    assert PreCollapse(s2) == s2 by {
      PreCollapseSlashesOnly(s2);
    }
  }

  /** A Windows drive `"C:\\"` becomes `"c"`. */
  lemma FormatDiskNameWindowsDrive(name: string)
    requires name == "C:\\"
    ensures FormatDiskName(name) == "c"
  {
    var t1 := name[1..];
    var t2 := t1[1..];
    assert t1[0] == ':' && t2 == "\\" && t2[1..] == [];
    assert Replace(t2, "\\", "") == [] by {
      assert IsPrefix("\\", t2);
    }
    assert Replace(t1, "\\", "") == ":" by {
      assert !IsPrefix("\\", t1);
    }
    var a := Replace(name, "\\", "");
    assert a == "C:" by {
      assert !IsPrefix("\\", name);
    }
    assert Replace(a, "/", "_") == a by {
      CharOccurs('/', a);
      ReplaceIdentity(a, "/", "_");
    }
    var b := Replace(a, ":", "");
    assert b == "C" by {
      var a1 := a[1..];
      assert a1 == ":" && a1[1..] == [];
      assert Replace(a1, ":", "") == [] by {
        assert IsPrefix(":", a1);
      }
      assert !IsPrefix(":", a);
    }
    assert Lower(b) == "c";
    assert Replace("c", "__", "_") == "c" by {
      assert !IsPrefix("__", "c");
    }
  }

  /** A Linux partition: `"/dev/sda1"` becomes `"_dev_sda1"`, whose leading
      underscore the collapse pass leaves alone. */
  lemma FormatDiskNameLinuxPartition(device: string)
    requires device == "/dev/sda1"
    ensures FormatDiskName(device) == "_dev_sda1"
  {
    var r := "_dev_sda1";
    assert PreCollapse(device) == r by {
      PreCollapseSlashesOnly(device);
    }
    assert Replace(r, "__", "_") == r by {
      NoPairNoOccurs(r);
      ReplaceIdentity(r, "__", "_");
    }
  }

  /** No three underscores in a row. */
  predicate NoUnderscoreRun3(s: string) {
    forall i :: 0 <= i < |s| - 2 ==> !(s[i] == '_' && s[i + 1] == '_' && s[i + 2] == '_')
  }

  /** No two underscores in a row. */
  predicate NoUnderscoreRun2(s: string) {
    forall i :: 0 <= i < |s| - 1 ==> !(s[i] == '_' && s[i + 1] == '_')
  }

  /** The `"__"` pass halves every run of underscores (rounding up), so it
      leaves a `"__"` exactly when some run was three or more long. Proved
      here is the direction that gives idempotence: with no run of three,
      no `"__"` is left. */
  lemma {:induction false} CollapseNoPair(s: string)
    requires NoUnderscoreRun3(s)
    ensures NoUnderscoreRun2(Replace(s, "__", "_"))
    ensures |Replace(s, "__", "_")| > 0 && Replace(s, "__", "_")[0] == '_' ==> |s| > 0 && s[0] == '_'
    decreases |s|
  {
    if s == [] {
    } else if IsPrefix("__", s) {
      var t := s[2..];
      assert NoUnderscoreRun3(t) by {
        forall i | 0 <= i < |t| - 2
          ensures !(t[i] == '_' && t[i + 1] == '_' && t[i + 2] == '_')
        {
          assert t[i] == s[i + 2] && t[i + 1] == s[i + 3] && t[i + 2] == s[i + 4];
        }
      }
      CollapseNoPair(t);
      assert |t| > 0 ==> t[0] != '_' by {
        if |t| > 0 { assert s[0] == '_' && s[1] == '_' && s[2] == t[0]; }
      }
    } else {
      var t := s[1..];
      assert NoUnderscoreRun3(t) by {
        forall i | 0 <= i < |t| - 2
          ensures !(t[i] == '_' && t[i + 1] == '_' && t[i + 2] == '_')
        {
          assert t[i] == s[i + 1] && t[i + 1] == s[i + 2] && t[i + 2] == s[i + 3];
        }
      }
      CollapseNoPair(t);
      assert s[0] == '_' && |t| > 0 ==> t[0] != '_' by {
        if s[0] == '_' && |t| > 0 { assert s[..2] == [s[0], t[0]]; }
      }
    }
  }

  /** Text with no `"__"` in it, by position. */
  lemma NoPairNoOccurs(s: string)
    requires NoUnderscoreRun2(s)
    ensures !Occurs("__", s)
  {
    forall i | 0 <= i <= |s|
      ensures !IsPrefix("__", s[i..])
    {
      if i < |s| - 1 {
        assert s[i..][0] == s[i] && s[i..][1] == s[i + 1];
      }
    }
  }

  /** Idempotence holds for device paths whose rewritten form has no run
      of three underscores. */
  lemma FormatDiskNameIdempotent(name: string)
    requires NoUnderscoreRun3(PreCollapse(name))
    ensures FormatDiskName(FormatDiskName(name)) == FormatDiskName(name)
  {
    CollapseNoPair(PreCollapse(name));
    NoPairNoOccurs(FormatDiskName(name));
    FormatDiskNameClean(name);
    FormatDiskNameIdentity(FormatDiskName(name));
  }

  // ---------------------------------------------------------------------
  // Unit choice of the human-readable byte size

  /** The units tried in turn; past the last one the suffix is "Yi". */
  const Units: seq<string> := ["", "Ki", "Mi", "Gi", "Ti", "Pi", "Ei", "Zi"]

  function UnitName(k: nat): string
    requires k <= |Units|
  {
    if k < |Units| then Units[k] else "Yi"
  }

  function Abs(x: real): real {
    if x < 0.0 then -x else x
  }

  function Pow1024(k: nat): (p: real)
    ensures p >= 1.0
  {
    if k == 0 then 1.0 else 1024.0 * Pow1024(k - 1)
  }

  lemma {:induction false} Pow1024Monotone(i: nat, j: nat)
    requires i <= j
    ensures Pow1024(i) <= Pow1024(j)
    decreases j - i
  {
    if i < j {
      Pow1024Monotone(i, j - 1);
    }
  }

  /** The first unit index from `k` on at which the magnitude drops below
      1024^(index+1); 8 (the "Yi" unit) when none of them does. */
  function UnitIndexFrom(x: real, k: nat): nat
    requires k <= |Units|
    decreases |Units| - k
  {
    if k == |Units| then k
    else if Abs(x) < Pow1024(k + 1) then k
    else UnitIndexFrom(x, k + 1)
  }

  /** The index found from `k` is at least `k`, the magnitude is below the
      next power there, and it reached every power it passed. */
  lemma {:induction false} UnitIndexFromBounds(x: real, k: nat)
    requires k <= |Units|
    ensures k <= UnitIndexFrom(x, k) <= |Units|
    ensures UnitIndexFrom(x, k) < |Units| ==> Abs(x) < Pow1024(UnitIndexFrom(x, k) + 1)
    ensures UnitIndexFrom(x, k) > k ==> Abs(x) >= Pow1024(UnitIndexFrom(x, k))
    decreases |Units| - k
  {
    if k < |Units| && Abs(x) >= Pow1024(k + 1) {
      UnitIndexFromBounds(x, k + 1);
    }
  }

  /** The unit index of a byte count. */
  function UnitIndex(x: real): nat {
    UnitIndexFrom(x, 0)
  }

  /** The unit index is the smallest `k <= 7` with `|x| < 1024^(k+1)`, and
      8 ("Yi") when there is none. */
  lemma UnitIndexIsSmallest(x: real)
    ensures UnitIndex(x) <= |Units|
    ensures UnitIndex(x) < |Units| ==> Abs(x) < Pow1024(UnitIndex(x) + 1)
    ensures forall j :: 1 <= j <= UnitIndex(x) ==> Abs(x) >= Pow1024(j)
  {
    UnitIndexFromBounds(x, 0);
    forall j | 1 <= j <= UnitIndex(x)
      ensures Abs(x) >= Pow1024(j)
    {
      Pow1024Monotone(j, UnitIndex(x));
    }
  }

  /** Values below 1024 in magnitude keep the empty unit; 1024 and 1536
      bytes are 1.0 and 1.5 "Ki". */
  lemma UnitIndexExamples()
    ensures UnitIndex(0.0) == 0 && UnitIndex(-1023.0) == 0
    ensures UnitIndex(1024.0) == 1 && 1024.0 / Pow1024(1) == 1.0
    ensures UnitIndex(1536.0) == 1 && 1536.0 / Pow1024(1) == 1.5
  {
    assert Pow1024(1) == 1024.0;
    assert Pow1024(2) == 1024.0 * 1024.0;
  }

  lemma AbsTimes(n: real, p: real)
    requires p > 0.0
    ensures Abs(n * p) == Abs(n) * p
  {
    if n < 0.0 {
      assert n * p < 0.0;
      assert -(n * p) == (-n) * p;
    } else {
      assert n * p >= 0.0;
    }
  }

  lemma TimesBelow(a: real, p: real)
    requires p > 0.0
    ensures a < 1024.0 <==> a * p < 1024.0 * p
  {
    if a < 1024.0 {
      assert (1024.0 - a) * p > 0.0;
    } else {
      assert (a - 1024.0) * p >= 0.0;
    }
  }

  /** Dividing by a positive scale `p` and comparing with 1024 is comparing
      the undivided magnitude with `1024 * p`. */
  lemma ScaleStep(num: real, n: real, p: real)
    requires p > 0.0 && n == num / p
    ensures Abs(n) < 1024.0 <==> Abs(num) < 1024.0 * p
    ensures n / 1024.0 == num / (1024.0 * p)
  {
    assert num == n * p;
    AbsTimes(n, p);
    TimesBelow(Abs(n), p);
  }

  /** The byte count divided by 1024, `k` times over. */
  function Scaled(x: real, k: nat): real {
    if k == 0 then x else Scaled(x, k - 1) / 1024.0
  }

  /** Dividing `k` times by 1024 is dividing once by 1024^k. */
  lemma {:induction false} ScaledIsDivision(x: real, k: nat)
    ensures Scaled(x, k) == x / Pow1024(k)
  {
    if k > 0 {
      ScaledIsDivision(x, k - 1);
      ScaleStep(x, Scaled(x, k - 1), Pow1024(k - 1));
    }
  }

  /** One turn of the renderer's loop: with the byte count divided `i`
      times, stopping here is the unit choice, and going on divides once
      more without changing the choice. */
  lemma UnitStep(num: real, i: nat)
    requires i < |Units|
    ensures Abs(Scaled(num, i)) < 1024.0 ==> UnitIndexFrom(num, i) == i
    ensures Abs(Scaled(num, i)) >= 1024.0 ==> UnitIndexFrom(num, i) == UnitIndexFrom(num, i + 1)
  {
    var p := Pow1024(i);
    assert Pow1024(i + 1) == 1024.0 * p;
    ScaledIsDivision(num, i);
    ScaleStep(num, Scaled(num, i), p);
  }

  /** The loop of the byte-size renderer: divide by 1024 until the magnitude
      drops below 1024, at most eight times. Returns the scaled number and
      the unit; the textual rendering of the number is not modelled. */
  method SizeUnit(num: real) returns (value: real, unit: string)
    ensures unit == UnitName(UnitIndex(num))
    ensures value == num / Pow1024(UnitIndex(num))
  {
    var n := num;
    for i := 0 to |Units|
      invariant n == Scaled(num, i)
      invariant UnitIndexFrom(num, i) == UnitIndex(num)
    {
      UnitStep(num, i);
      if Abs(n) < 1024.0 {
        ScaledIsDivision(num, i);
        assert UnitIndex(num) == i;
        value, unit := n, Units[i];
        assert unit == UnitName(i);
        return;
      }
      n := n / 1024.0;
    }
    ScaledIsDivision(num, |Units|);
    assert UnitIndex(num) == |Units|;
    value, unit := n, "Yi";
    assert unit == UnitName(|Units|);
  }
}
