/** Discovery: which advertisements the client surfaces, and the
    de-duplicated, first-sighting-ordered device list it builds while a scan
    runs. */
module Scan {
  import opened Common
  import opened Text
  import Uuids

  /** The name the client shows when the platform does not give one. */
  const UnknownDeviceName: string := "Unknown Device"
  /** A named device is surfaced above this signal strength (dBm). */
  const NamedRssiThreshold: int := -70
  /** Any device is surfaced above this signal strength (dBm). */
  const FallbackRssiThreshold: int := -60

  /** One scan callback: the device, the name the client resolved for it, its
      signal strength and the service UUIDs its advertisement lists (empty when
      the advertisement carries no scan record or no UUID list). */
  datatype ScanResult = ScanResult(device: Device, name: string, rssi: int, serviceUuids: seq<string>)

  /** The inclusion rules, in the order the client tries them. */
  datatype Rule = EspName | HealthService | NamedNearby | StrongSignal

  /** Some advertised UUID equals the Heart Rate service UUID, ignoring case. */
  predicate AdvertisesHealthService(uuids: seq<string>) {
    exists i :: 0 <= i < |uuids| && EqualsIgnoreCase(uuids[i], Uuids.ServiceUuid)
  }

  /** The first rule that admits an advertisement, if any. The "ESP32" test
      adds nothing to the "ESP" test, and the fallback signal rule only ever
      admits the placeholder name: a named device strong enough for it was
      already admitted by the named-device rule. */
  function MatchedRule(name: string, uuids: seq<string>, rssi: int): (r: Option<Rule>)
    ensures r == Some(EspName) <==> ContainsIgnoreCase(name, "ESP")
    ensures r == Some(HealthService) <==> !ContainsIgnoreCase(name, "ESP") && AdvertisesHealthService(uuids)
    ensures r == Some(StrongSignal) ==> name == UnknownDeviceName
  {
    if ContainsIgnoreCase(name, "ESP32") then Esp32Subsumed(name); Some(EspName)
    else if ContainsIgnoreCase(name, "ESP") then Some(EspName)
    else if AdvertisesHealthService(uuids) then Some(HealthService)
    else if name != UnknownDeviceName && rssi > NamedRssiThreshold then Some(NamedNearby)
    else if rssi > FallbackRssiThreshold then Some(StrongSignal)
    else None
  }

  predicate ShouldInclude(r: ScanResult) {
    MatchedRule(r.name, r.serviceUuids, r.rssi).Some?
  }

  /** The "ESP32" rule is subsumed by the "ESP" rule. */
  lemma Esp32Subsumed(name: string)
    requires ContainsIgnoreCase(name, "ESP32")
    ensures ContainsIgnoreCase(name, "ESP")
  {
    PrefixOccursIgnoreCase(name, "ESP32", 3);
    assert "ESP32"[..3] == "ESP";
  }

  /** The first-match chain admits exactly the advertisements that satisfy one
      of the four conditions. */
  lemma InclusionIsDisjunction(r: ScanResult)
    ensures ShouldInclude(r) <==>
      || ContainsIgnoreCase(r.name, "ESP")
      || AdvertisesHealthService(r.serviceUuids)
      || (r.name != UnknownDeviceName && r.rssi > NamedRssiThreshold)
      || r.rssi > FallbackRssiThreshold
  {
    if ContainsIgnoreCase(r.name, "ESP32") {
      Esp32Subsumed(r.name);
    }
  }

  /** An "ESP" name or the health service admits a device at any signal strength. */
  lemma IncludedRegardlessOfRssi(r: ScanResult)
    requires ContainsIgnoreCase(r.name, "ESP") || AdvertisesHealthService(r.serviceUuids)
    ensures ShouldInclude(r)
  {
  }

  /** Inclusion is monotone in signal strength. */
  lemma InclusionMonotoneInRssi(r: ScanResult, stronger: int)
    requires ShouldInclude(r) && stronger >= r.rssi
    ensures ShouldInclude(r.(rssi := stronger))
  {
  }

  /** Without a name match or the service, the placeholder name needs a
      stronger signal than a real name does. */
  lemma PlaceholderNeedsStrongerSignal(r: ScanResult)
    requires !ContainsIgnoreCase(r.name, "ESP") && !AdvertisesHealthService(r.serviceUuids)
    ensures r.name == UnknownDeviceName ==> (ShouldInclude(r) <==> r.rssi > FallbackRssiThreshold)
    ensures r.name != UnknownDeviceName ==> (ShouldInclude(r) <==> r.rssi > NamedRssiThreshold)
  {
    if ContainsIgnoreCase(r.name, "ESP32") {
      Esp32Subsumed(r.name);
    }
  }

  /** The placeholder name matches no name rule: at -65 dBm an unnamed,
      non-advertising device is dropped, while a named one is kept. */
  lemma PlaceholderAtModerateSignal(d: Device)
    ensures !ShouldInclude(ScanResult(d, UnknownDeviceName, -65, []))
    ensures ShouldInclude(ScanResult(d, "Mi Band", -65, []))
  {
    PlaceholderHasNoEsp();
    PlaceholderNeedsStrongerSignal(ScanResult(d, UnknownDeviceName, -65, []));
  }

  /** "Unknown Device" contains no "ESP" in any letter case: its only 'e's sit
      at indices 9 and 13, followed by 'v' and by nothing. */
  lemma PlaceholderHasNoEsp()
    ensures !ContainsIgnoreCase(UnknownDeviceName, "ESP")
  {
    var n := UnknownDeviceName;
    var p := "ESP";
    assert p[0] == 'E' && p[1] == 'S';
    forall i | 0 <= i <= |n| - 3
      ensures !OccursAtIgnoreCase(n, p, i)
    {
      if i == 9 {
        assert n[i + 1] == 'v';
        OnlyEsMatchE('v');
        assert !CharEqualsIgnoreCase(n[i + 1], 'S');
      } else {
        assert n[i] in "UnknowDvic ";
        OnlyEsMatchE(n[i]);
      }
    }
  }

  /** Only 'E' and 'e' equal 'E' ignoring case; 'v' does not equal 'S'. */
  lemma OnlyEsMatchE(c: char)
    ensures CharEqualsIgnoreCase(c, 'E') <==> c == 'E' || c == 'e'
    ensures c == 'v' ==> !CharEqualsIgnoreCase(c, 'S')
  {
  }

  predicate NoDuplicates(s: seq<Device>) {
    forall i, j :: 0 <= i < j < |s| ==> s[i] != s[j]
  }

  /** What the scan callback hands to the screen: the devices so far, whether
      scanning continues, and a status line. */
  datatype ScanReport = ScanReport(devices: seq<Device>, scanning: bool, message: string)

  function FoundMessage(n: nat): string {
    "Found " + Decimal(n) + " device(s)"
  }

  /** The list after one callback, and the report it emits, if any. */
  datatype ScanStep = ScanStep(devices: seq<Device>, report: Option<ScanReport>)

  /** One scan callback (`None` for a callback without a result or device). A
      qualifying device not yet listed is appended and reported; anything
      else leaves the list alone and reports nothing. */
  function OnScanResult(devices: seq<Device>, result: Option<ScanResult>): (s: ScanStep)
    ensures s.report.Some? <==> result.Some? && ShouldInclude(result.value) && result.value.device !in devices
    ensures s.report.Some? ==> s.devices == devices + [result.value.device]
    ensures s.report.Some? ==> s.report.value == ScanReport(s.devices, true, FoundMessage(|s.devices|))
    ensures s.report.None? ==> s.devices == devices
    ensures NoDuplicates(devices) ==> NoDuplicates(s.devices)
  {
    match result
    case None => ScanStep(devices, None)
    case Some(r) =>
      if ShouldInclude(r) && r.device !in devices then
        var devices' := devices + [r.device];
        ScanStep(devices', Some(ScanReport(devices', true, FoundMessage(|devices'|))))
      else
        ScanStep(devices, None)
  }

  /** The final list and every report of a run of callbacks. */
  datatype ScanTrace = ScanTrace(devices: seq<Device>, reports: seq<ScanReport>)

  /** One step of `RunScan`'s report invariant: a report emitted for the
      first callback, followed by the reports of the rest of the run, still
      shows the list as it stood after each append. */
  lemma ReportsExtend(devices: seq<Device>, stepDevices: seq<Device>, emitted: seq<ScanReport>,
                      finalDevices: seq<Device>, later: seq<ScanReport>)
    requires |emitted| <= 1 && |emitted| == |stepDevices| - |devices|
    requires |emitted| == 1 ==> emitted[0] == ScanReport(stepDevices, true, FoundMessage(|stepDevices|))
    requires stepDevices <= finalDevices && |later| == |finalDevices| - |stepDevices|
    requires forall k :: 0 <= k < |later| ==>
      later[k] == ScanReport(finalDevices[..|stepDevices| + k + 1], true, FoundMessage(|stepDevices| + k + 1))
    ensures forall k :: 0 <= k < |emitted + later| ==>
      (emitted + later)[k] == ScanReport(finalDevices[..|devices| + k + 1], true, FoundMessage(|devices| + k + 1))
  {
    forall k | 0 <= k < |emitted + later|
      ensures (emitted + later)[k] == ScanReport(finalDevices[..|devices| + k + 1], true, FoundMessage(|devices| + k + 1))
    {
      if k < |emitted| {
        assert finalDevices[..|devices| + 1] == stepDevices;
      } else {
        assert (emitted + later)[k] == later[k - |emitted|];
      }
    }
  }

  /** Feeds a run of callbacks, in arrival order, to `OnScanResult`. The list
      only grows by appending, never gains a duplicate, and exactly one report
      is emitted per appended device, carrying the list as it was then. */
  function RunScan(devices: seq<Device>, results: seq<Option<ScanResult>>): (t: ScanTrace)
    ensures NoDuplicates(devices) ==> NoDuplicates(t.devices)
    ensures devices <= t.devices
    ensures |t.reports| == |t.devices| - |devices|
    ensures forall k :: 0 <= k < |t.reports| ==>
      t.reports[k] == ScanReport(t.devices[..|devices| + k + 1], true, FoundMessage(|devices| + k + 1))
    decreases |results|
  {
    if |results| == 0 then ScanTrace(devices, [])
    else
      var step := OnScanResult(devices, results[0]);
      var rest := RunScan(step.devices, results[1..]);
      var emitted := if step.report.Some? then [step.report.value] else [];
      var t := ScanTrace(rest.devices, emitted + rest.reports);
      ReportsExtend(devices, step.devices, emitted, rest.devices, rest.reports);
      t
  }

  /** The callback carries a result for a device that qualifies. */
  predicate Qualifies(r: Option<ScanResult>) {
    r.Some? && ShouldInclude(r.value)
  }

  /** The devices of the qualifying callbacks, in arrival order, repeats kept. */
  function QualifiedDevices(results: seq<Option<ScanResult>>): (ds: seq<Device>)
    ensures forall d :: d in ds <==> exists i :: 0 <= i < |results| && Qualifies(results[i]) && results[i].value.device == d
    decreases |results|
  {
    if |results| == 0 then []
    else
      var rest := QualifiedDevices(results[1..]);
      assert forall i :: 1 <= i < |results| ==> results[i] == results[1..][i - 1];
      (if Qualifies(results[0]) then [results[0].value.device] else []) + rest
  }

  /** `xs` with every element of `seen` removed, order kept. */
  function Without(xs: seq<Device>, seen: seq<Device>): (r: seq<Device>)
    ensures |r| <= |xs|
    decreases |xs|
  {
    if |xs| == 0 then []
    else (if xs[0] in seen then [] else [xs[0]]) + Without(xs[1..], seen)
  }

  /** Removing `seen` keeps exactly the elements outside `seen`. */
  lemma {:induction false} WithoutMembers(xs: seq<Device>, seen: seq<Device>)
    ensures forall d :: d in Without(xs, seen) <==> d in xs && d !in seen
    decreases |xs|
  {
    if |xs| > 0 {
      WithoutMembers(xs[1..], seen);
      assert xs == [xs[0]] + xs[1..];
    }
  }

  /** Each element at its first occurrence only: the reference meaning of a
      list of first sightings. */
  function FirstSightings(xs: seq<Device>): (r: seq<Device>)
    ensures forall d :: d in r <==> d in xs
    ensures NoDuplicates(r)
    decreases |xs|
  {
    if |xs| == 0 then []
    else
      var rest := FirstSightings(Without(xs[1..], [xs[0]]));
      WithoutMembers(xs[1..], [xs[0]]);
      assert xs == [xs[0]] + xs[1..];
      assert xs[0] !in rest;
      assert forall j :: 0 < j < |rest| + 1 ==> ([xs[0]] + rest)[j] == rest[j - 1];
      [xs[0]] + rest
  }

  lemma {:induction false} WithoutWithout(xs: seq<Device>, a: seq<Device>, b: seq<Device>)
    ensures Without(Without(xs, a), b) == Without(xs, a + b)
    decreases |xs|
  {
    if |xs| > 0 {
      WithoutWithout(xs[1..], a, b);
      var rest := Without(xs[1..], a);
      if xs[0] in a {
        assert Without(xs, a) == rest;
      } else {
        assert Without(xs, a) == [xs[0]] + rest;
        assert ([xs[0]] + rest)[1..] == rest;
      }
    }
  }

  /** The list a scan builds is the starting list followed by the first
      sighting of each qualifying device not already listed, in the order the
      devices were first sighted. */
  lemma {:induction false} RunScanIsFirstSightings(devices: seq<Device>, results: seq<Option<ScanResult>>)
    ensures RunScan(devices, results).devices == devices + FirstSightings(Without(QualifiedDevices(results), devices))
    decreases |results|
  {
    if |results| > 0 {
      var step := OnScanResult(devices, results[0]);
      RunScanIsFirstSightings(step.devices, results[1..]);
      RunScanUnfold(devices, results);
      FirstSightingsStep(devices, results);
    }
  }

  /** One callback, then the rest of the run. */
  lemma RunScanUnfold(devices: seq<Device>, results: seq<Option<ScanResult>>)
    requires |results| > 0
    ensures RunScan(devices, results).devices == RunScan(OnScanResult(devices, results[0]).devices, results[1..]).devices
  {
  }

  /** The reference side of one induction step of `RunScanIsFirstSightings`. */
  lemma FirstSightingsStep(devices: seq<Device>, results: seq<Option<ScanResult>>)
    requires |results| > 0
    ensures var step := OnScanResult(devices, results[0]);
      devices + FirstSightings(Without(QualifiedDevices(results), devices))
      == step.devices + FirstSightings(Without(QualifiedDevices(results[1..]), step.devices))
  {
    var r := results[0];
    var q := QualifiedDevices(results[1..]);
    var step := OnScanResult(devices, r);
    if Qualifies(r) {
      var d := r.value.device;
      assert QualifiedDevices(results) == [d] + q;
      if d in devices {
        WithoutListed(d, q, devices);
      } else {
        assert step.devices == devices + [d];
        NewSighting(d, q, devices);
      }
    } else {
      assert QualifiedDevices(results) == q;
    }
  }

  /** A sighting of a device already listed contributes nothing. */
  lemma WithoutListed(d: Device, q: seq<Device>, devices: seq<Device>)
    requires d in devices
    ensures Without([d] + q, devices) == Without(q, devices)
  {
    assert ([d] + q)[1..] == q;
  }

  /** A sighting of a device not yet listed contributes that device, and its
      later sightings are dropped. */
  lemma NewSighting(d: Device, q: seq<Device>, devices: seq<Device>)
    requires d !in devices
    ensures devices + FirstSightings(Without([d] + q, devices))
         == (devices + [d]) + FirstSightings(Without(q, devices + [d]))
  {
    var w := Without(q, devices);
    var f := FirstSightings(Without(q, devices + [d]));
    calc {
      devices + FirstSightings(Without([d] + q, devices));
    == { WithoutCons(d, q, devices); }
      devices + FirstSightings([d] + w);
    == { FirstSightingsCons(d, w); WithoutWithout(q, devices, [d]); }
      devices + ([d] + f);
    == { ConcatAssociative(devices, [d], f); }
      (devices + [d]) + f;
    }
  }

  lemma ConcatAssociative(a: seq<Device>, b: seq<Device>, c: seq<Device>)
    ensures a + (b + c) == (a + b) + c
  {
  }

  lemma WithoutCons(x: Device, xs: seq<Device>, seen: seq<Device>)
    ensures Without([x] + xs, seen) == (if x in seen then [] else [x]) + Without(xs, seen)
  {
    assert ([x] + xs)[1..] == xs;
  }

  lemma FirstSightingsCons(x: Device, xs: seq<Device>)
    ensures FirstSightings([x] + xs) == [x] + FirstSightings(Without(xs, [x]))
  {
    assert ([x] + xs)[1..] == xs;
  }

  /** A scan from an empty list lists the first sighting of each qualifying
      device, in order. */
  lemma ScanFromEmpty(results: seq<Option<ScanResult>>)
    ensures RunScan([], results).devices == FirstSightings(QualifiedDevices(results))
  {
    RunScanIsFirstSightings([], results);
    WithoutNothing(QualifiedDevices(results));
  }

  /** A scan from an empty list lists exactly the devices some qualifying
      callback carried (each once, as `RunScan` keeps the list duplicate-free). */
  lemma ScanFromEmptyMembers(results: seq<Option<ScanResult>>, d: Device)
    ensures d in RunScan([], results).devices <==> d in QualifiedDevices(results)
  {
    ScanFromEmpty(results);
  }

  lemma {:induction false} WithoutNothing(xs: seq<Device>)
    ensures Without(xs, []) == xs
    decreases |xs|
  {
    if |xs| > 0 {
      WithoutNothing(xs[1..]);
      assert xs == [xs[0]] + xs[1..];
    }
  }
}
