/** Finding Rigol DL3000 loads among the VISA resources, and the short session `main` runs on the
    first one found.

    The resource manager is not modelled; a scan is given as the list of resources in the order
    `list_resources()` returns them, each with what opening it and asking `*IDN?` gave. */
module Connect {
  import opened Wrappers
  import opened Text
  import opened Dl3000

  /** One listed resource: its name, and the raw `*IDN?` reply, or None when opening the resource
      or the query raised. */
  datatype Probe = Probe(resource: string, reply: Option<string>)

  /** A found load: the resource name and its stripped identification string. */
  datatype Device = Device(resource: string, idn: string)

  /** A DL3000 identifies itself with both "RIGOL" and "DL30" in its identification string. */
  predicate IsDl3000(idn: string) {
    Contains(idn, "RIGOL") && Contains(idn, "DL30")
  }

  /** The device a probe yields: one whose stripped reply names a DL3000. */
  function Identify(p: Probe): (d: Option<Device>)
    ensures d.Some? <==> p.reply.Some? && IsDl3000(Strip(p.reply.value))
    ensures d.Some? ==> d.value == Device(p.resource, Strip(p.reply.value)) && IsDl3000(d.value.idn)
  {
    if p.reply.Some? && IsDl3000(Strip(p.reply.value)) then Some(Device(p.resource, Strip(p.reply.value)))
    else None
  }

  /** A probe that answered with something other than a DL3000: its resource is closed. */
  predicate Rejected(p: Probe) {
    p.reply.Some? && !IsDl3000(Strip(p.reply.value))
  }

  /** The results f gives for the elements of xs, in order, skipping those it gives None for. */
  function FilterMap<T, U>(xs: seq<T>, f: T -> Option<U>): seq<U> {
    if xs == [] then []
    else
      var last := f(xs[|xs| - 1]);
      FilterMap(xs[..|xs| - 1], f) + (if last.Some? then [last.value] else [])
  }

  /** The devices the scan keeps, in scan order. */
  function Matching(probes: seq<Probe>): seq<Device> {
    FilterMap(probes, Identify)
  }

  function ClosedResource(p: Probe): Option<string> {
    if Rejected(p) then Some(p.resource) else None
  }

  /** The resources the scan closes, in scan order. */
  function Closed(probes: seq<Probe>): seq<string> {
    FilterMap(probes, ClosedResource)
  }

  /** The probes whose open or query raised. */
  function Failed(probes: seq<Probe>): nat {
    if probes == [] then 0
    else Failed(probes[..|probes| - 1]) + (if probes[|probes| - 1].reply.None? then 1 else 0)
  }

  /** `find_dl3000_devices`: the matching devices, and the resources closed on the way. */
  method FindDl3000Devices(probes: seq<Probe>) returns (devices: seq<Device>, closed: seq<string>)
    ensures devices == Matching(probes)
    ensures closed == Closed(probes)
  {
    devices, closed := [], [];
    for i := 0 to |probes|
      invariant devices == Matching(probes[..i])
      invariant closed == Closed(probes[..i])
    {
      FilterMapStep(probes, Identify, i);
      FilterMapStep(probes, ClosedResource, i);
      var p := probes[i];
      if p.reply.Some? {
        var idn := Strip(p.reply.value);
        if Contains(idn, "RIGOL") && Contains(idn, "DL30") {
          devices := devices + [Device(p.resource, idn)];
        } else {
          closed := closed + [p.resource];
        }
      }
    }
    assert probes[..|probes|] == probes;
  }

  /** Taking one more element adds f's result for it, if any, at the end. */
  lemma FilterMapStep<T, U>(xs: seq<T>, f: T -> Option<U>, i: nat)
    requires i < |xs|
    ensures FilterMap(xs[..i + 1], f) == FilterMap(xs[..i], f) + (if f(xs[i]).Some? then [f(xs[i]).value] else [])
  {
    assert xs[..i + 1][..i] == xs[..i];
  }

  /** FilterMap keeps exactly the elements f accepts, in their order: its results are f's at
      strictly increasing positions `idx`, and a position is among them exactly when f accepts
      the element there. */
  lemma {:induction false} FilterMapPositions<T, U>(xs: seq<T>, f: T -> Option<U>) returns (idx: seq<nat>)
    ensures |idx| == |FilterMap(xs, f)|
    ensures forall k :: 0 <= k < |idx| ==> idx[k] < |xs| && f(xs[idx[k]]) == Some(FilterMap(xs, f)[k])
    ensures forall k, l :: 0 <= k < l < |idx| ==> idx[k] < idx[l]
    ensures forall i :: 0 <= i < |xs| ==> (i in idx <==> f(xs[i]).Some?)
  {
    if xs == [] {
      idx := [];
    } else {
      var n := |xs| - 1;
      var init := xs[..n];
      var before := FilterMapPositions(init, f);
      var earlier := FilterMap(init, f);
      var r := FilterMap(xs, f);
      assert r == earlier + (if f(xs[n]).Some? then [f(xs[n]).value] else []);
      idx := before + (if f(xs[n]).Some? then [n] else []);
      forall k | 0 <= k < |idx| ensures idx[k] < |xs| && f(xs[idx[k]]) == Some(r[k]) {
        if k < |before| {
          assert idx[k] == before[k] && r[k] == earlier[k];
          assert xs[before[k]] == init[before[k]];
        }
      }
      forall k, l | 0 <= k < l < |idx| ensures idx[k] < idx[l] {
        if l < |before| {
          assert idx[k] == before[k] && idx[l] == before[l];
        } else {
          assert idx[k] == before[k] < n;
        }
      }
      forall i | 0 <= i < |xs| ensures i in idx <==> f(xs[i]).Some? {
        assert i in idx <==> i in before || (i == n && f(xs[n]).Some?);
        if i < n {
          assert xs[i] == init[i];
        } else {
          assert i !in before;
        }
      }
    }
  }

  /** The scan keeps exactly the probes that yield a device, in their order; a probe whose open or
      query raised is skipped. */
  lemma MatchingPositions(probes: seq<Probe>) returns (idx: seq<nat>)
    ensures |idx| == |Matching(probes)|
    ensures forall k :: 0 <= k < |idx| ==> idx[k] < |probes| && Identify(probes[idx[k]]) == Some(Matching(probes)[k])
    ensures forall k, l :: 0 <= k < l < |idx| ==> idx[k] < idx[l]
    ensures forall i :: 0 <= i < |probes| ==> (i in idx <==> Identify(probes[i]).Some?)
  {
    idx := FilterMapPositions(probes, Identify);
  }

  /** Every device found is a DL3000 that some listed resource answered for. */
  lemma MatchingSound(probes: seq<Probe>)
    ensures forall d :: d in Matching(probes) ==>
      IsDl3000(d.idn) && exists i :: 0 <= i < |probes| && Identify(probes[i]) == Some(d)
  {
    var idx := MatchingPositions(probes);
    forall d | d in Matching(probes)
      ensures IsDl3000(d.idn) && exists i :: 0 <= i < |probes| && Identify(probes[i]) == Some(d)
    {
      var k :| 0 <= k < |Matching(probes)| && Matching(probes)[k] == d;
      assert Identify(probes[idx[k]]) == Some(d);
    }
  }

  /** Every listed resource that answered as a DL3000 is found. */
  lemma MatchingComplete(probes: seq<Probe>, i: nat)
    requires i < |probes| && probes[i].reply.Some? && IsDl3000(Strip(probes[i].reply.value))
    ensures Device(probes[i].resource, Strip(probes[i].reply.value)) in Matching(probes)
  {
    var idx := MatchingPositions(probes);
    assert i in idx;
    var k :| 0 <= k < |idx| && idx[k] == i;
    assert Matching(probes)[k] == Identify(probes[i]).value;
  }

  /** A resource that answered with something other than a DL3000 is closed and not returned. */
  lemma RejectedClosed(probes: seq<Probe>, i: nat)
    requires i < |probes| && Rejected(probes[i])
    ensures probes[i].resource in Closed(probes)
    ensures Device(probes[i].resource, Strip(probes[i].reply.value)) !in Matching(probes)
  {
    var idx := FilterMapPositions(probes, ClosedResource);
    assert i in idx;
    var k :| 0 <= k < |idx| && idx[k] == i;
    assert Closed(probes)[k] == probes[i].resource;
    MatchingSound(probes);
  }

  /** Every listed resource is found, closed or failed, exactly one of the three; so no more
      devices are found than resources are listed. */
  lemma {:induction false} ScanAccounts(probes: seq<Probe>)
    ensures |Matching(probes)| + |Closed(probes)| + Failed(probes) == |probes|
    ensures |Matching(probes)| <= |probes|
  {
    if probes != [] {
      ScanAccounts(probes[..|probes| - 1]);
    }
  }

  // ---------------------------------------------------------------------------------------------
  // main

  /** How `main` ends: no load found, the voltage read (and the input switched off again), or a
      failure after the first commands, which leaves the input on. */
  datatype Outcome = NoDevice | Measured(device: Device, voltage: string) | Aborted(device: Device, fault: Fault)

  /** The commands `main` sends to the first load found before it reads the voltage: reset,
      the CURRENT function, 50 mA and the input on. */
  const SetupCommands: seq<string> := [ResetCommand, ModeCommand("CURRENT"), CcCurrentCommand("0.05"), EnableCommand]

  /** `main`, from the scan on: `channel` is the open resource of the first device found. */
  method RunMain(probes: seq<Probe>, channel: Transport) returns (outcome: Outcome)
    modifies channel
    ensures Matching(probes) == [] ==>
      outcome == NoDevice && channel.log == old(channel.log) && channel.replies == old(channel.replies)
    ensures Matching(probes) != [] ==>
      channel.replies == if old(channel.replies) == [] then [] else old(channel.replies)[1..]
    ensures Matching(probes) != [] ==>
      channel.log == old(channel.log) + Sends(SetupCommands) + [Ask(Voltage.Query())]
        + (if outcome.Measured? then [Send(DisableCommand)] else [])
    ensures Matching(probes) != [] && old(channel.replies) == [] ==> outcome == Aborted(Matching(probes)[0], NoReply)
    ensures Matching(probes) != [] && old(channel.replies) != [] ==>
      match ReadingValue(Voltage, old(channel.replies)[0])
      case Success(v) => outcome == Measured(Matching(probes)[0], v)
      case Failure(f) => outcome == Aborted(Matching(probes)[0], f)
  {
    var devices, closed := FindDl3000Devices(probes);
    if devices == [] {
      return NoDevice;
    }
    var device := devices[0];
    var inst := new Instrument(channel);
    inst.Reset();
    inst.SetMode("CURRENT");
    inst.SetCcCurrent("0.05");
    inst.Enable();
    SendsAt(SetupCommands);
    assert channel.log == old(channel.log) + Sends(SetupCommands);
    var voltage := inst.Measure(Voltage);
    if voltage.Failure? {
      return Aborted(device, voltage.error);
    }
    inst.Disable();
    outcome := Measured(device, voltage.value);
  }
}
