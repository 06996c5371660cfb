/** The connection side of the client: the three stored readings and the GATT
    handle, the notification dispatcher that updates them, the outcome of
    service discovery, and the reset performed by disconnecting. */
module Session {
  import opened Common
  import opened Text
  import opened Decoders
  import Uuids

  /** `BluetoothGatt.GATT_SUCCESS`. */
  const GattSuccess: int := 0

  const StatusReady: string := "Connected - Ready"
  const StatusSettingUp: string := "Connected - Setting up notifications..."
  const StatusServiceNotFound: string := "Health service not found"
  const StatusDiscoveryFailed: string := "Service discovery failed"

  /** Session-wide state: the GATT handle (identified by its device) and the
      latest heart rate, temperature and SpO2 readings. */
  datatype Session = Session(gatt: Option<Device>, heartRate: nat, temperature: Temperature, spo2: nat)

  /** No handle and every reading zero: the state before any connection and
      after every disconnect. */
  const Idle: Session := Session(None, 0, ZeroTemperature, 0)

  /** What the connection callback hands to the screen: whether the device
      counts as connected, a status line, and the three readings. */
  datatype ConnectionReport = ConnectionReport(connected: bool, status: string, heartRate: nat, temperature: Temperature, spo2: nat)

  /** A "Connected - Ready" report showing the session's readings. */
  function ReadyReport(s: Session): ConnectionReport {
    ConnectionReport(true, StatusReady, s.heartRate, s.temperature, s.spo2)
  }

  /** A status-only report; its readings are all zero. */
  function StatusReport(connected: bool, status: string): ConnectionReport {
    ConnectionReport(connected, status, 0, ZeroTemperature, 0)
  }

  /** The three characteristics the client subscribes to, in the order it
      tests and enables them. */
  datatype CharKind = HeartRateChar | TemperatureChar | SpO2Char

  /** Which reading a characteristic UUID feeds: the upper-cased UUID is searched
      for 2A37, then 2A6E, then 2A5F, and the first hit wins. Each subscribed
      characteristic, whatever the letter case of its UUID text, selects its
      own reading, and the service UUID selects none. */
  function Classify(uuid: string): (k: Option<CharKind>)
    ensures Uppercase(uuid) == Uuids.CharUuidHeartRate ==> k == Some(HeartRateChar)
    ensures Uppercase(uuid) == Uuids.CharUuidTemperature ==> k == Some(TemperatureChar)
    ensures Uppercase(uuid) == Uuids.CharUuidSpO2 ==> k == Some(SpO2Char)
    ensures Uppercase(uuid) == Uuids.ServiceUuid ==> k == None
  {
    ConstantPatterns(uuid);
    var u := Uppercase(uuid);
    if Contains(u, "2A37") then Some(HeartRateChar)
    else if Contains(u, "2A6E") then Some(TemperatureChar)
    else if Contains(u, "2A5F") then Some(SpO2Char)
    else None
  }

  /** Which of the three dispatch patterns each known identifier contains. */
  lemma ConstantPatterns(uuid: string)
    ensures var u := Uppercase(uuid);
      && (u == Uuids.CharUuidHeartRate ==> Contains(u, "2A37"))
      && (u == Uuids.CharUuidTemperature ==> !Contains(u, "2A37") && Contains(u, "2A6E"))
      && (u == Uuids.CharUuidSpO2 ==> !Contains(u, "2A37") && !Contains(u, "2A6E") && Contains(u, "2A5F"))
      && (u == Uuids.ServiceUuid ==> !Contains(u, "2A37") && !Contains(u, "2A6E") && !Contains(u, "2A5F"))
  {
    var u := Uppercase(uuid);
    if u == Uuids.CharUuidHeartRate {
      Uuids.HeartRateUuidIsExpansion();
      PatternsInExpansion("2A37");
    }
    if u == Uuids.CharUuidTemperature {
      Uuids.TemperatureUuidIsExpansion();
      PatternsInExpansion("2A6E");
    }
    if u == Uuids.CharUuidSpO2 {
      Uuids.SpO2UuidIsExpansion();
      PatternsInExpansion("2A5F");
    }
    if u == Uuids.ServiceUuid {
      Uuids.ServiceUuidIsExpansion();
      PatternsInExpansion("180D");
    }
  }

  /** A characteristic as a notification delivers it: its UUID and value. */
  datatype Characteristic = Characteristic(uuid: string, value: seq<uint8>)

  /** The session after an event and the report the event emits, if any. */
  datatype Update = Update(session: Session, report: Option<ConnectionReport>)

  /** A notification (`None` when it carries no characteristic). The payload is
      decoded into exactly the reading its UUID selects, and a "Connected -
      Ready" report shows all three readings afterwards; a UUID that selects
      nothing changes nothing and reports nothing. */
  function OnCharacteristicChanged(s: Session, c: Option<Characteristic>): (u: Update)
    ensures u.session.gatt == s.gatt
    ensures c.None? || Classify(c.value.uuid).None? ==> u == Update(s, None)
    ensures c.Some? && Classify(c.value.uuid).Some? ==> u.report == Some(ReadyReport(u.session))
  {
    match c
    case None => Update(s, None)
    case Some(ch) =>
      match Classify(ch.uuid)
      case None => Update(s, None)
      case Some(HeartRateChar) =>
        var s' := s.(heartRate := ParseHeartRate(ch.value));
        Update(s', Some(ReadyReport(s')))
      case Some(TemperatureChar) =>
        var s' := s.(temperature := ParseTemperature(ch.value));
        Update(s', Some(ReadyReport(s')))
      case Some(SpO2Char) =>
        var s' := s.(spo2 := ParseSpO2(ch.value));
        Update(s', Some(ReadyReport(s')))
  }

  /** A heart-rate notification sets the heart rate to the decoded payload and
      leaves the handle, temperature and SpO2 as they were. */
  lemma HeartRateNotification(s: Session, ch: Characteristic)
    requires Contains(Uppercase(ch.uuid), "2A37")
    ensures var t := OnCharacteristicChanged(s, Some(ch)).session;
      && t.heartRate == ParseHeartRate(ch.value)
      && t.gatt == s.gatt && t.temperature == s.temperature && t.spo2 == s.spo2
  {
  }

  /** A temperature notification sets the temperature to the decoded payload
      and leaves the handle, heart rate and SpO2 as they were. */
  lemma TemperatureNotification(s: Session, ch: Characteristic)
    requires !Contains(Uppercase(ch.uuid), "2A37") && Contains(Uppercase(ch.uuid), "2A6E")
    ensures var t := OnCharacteristicChanged(s, Some(ch)).session;
      && t.temperature == ParseTemperature(ch.value)
      && t.gatt == s.gatt && t.heartRate == s.heartRate && t.spo2 == s.spo2
  {
  }

  /** An SpO2 notification sets SpO2 to the decoded payload and leaves the
      handle, heart rate and temperature as they were. */
  lemma SpO2Notification(s: Session, ch: Characteristic)
    requires !Contains(Uppercase(ch.uuid), "2A37") && !Contains(Uppercase(ch.uuid), "2A6E")
    requires Contains(Uppercase(ch.uuid), "2A5F")
    ensures var t := OnCharacteristicChanged(s, Some(ch)).session;
      && t.spo2 == ParseSpO2(ch.value)
      && t.gatt == s.gatt && t.heartRate == s.heartRate && t.temperature == s.temperature
  {
  }

  /** Any notification changes at most one reading. */
  lemma AtMostOneReadingChanges(s: Session, c: Option<Characteristic>)
    ensures var t := OnCharacteristicChanged(s, c).session;
      (if t.heartRate != s.heartRate then 1 else 0)
      + (if t.temperature != s.temperature then 1 else 0)
      + (if t.spo2 != s.spo2 then 1 else 0) <= 1
  {
  }

  /** In an expanded identifier whose short form has no '2' after its first
      character, each of the three patterns occurs exactly when it is the
      short form. */
  lemma PatternsInExpansion(x: string)
    requires Uuids.IsShortForm(x)
    ensures Contains(Uuids.Expand(x), "2A37") <==> x == "2A37"
    ensures Contains(Uuids.Expand(x), "2A6E") <==> x == "2A6E"
    ensures Contains(Uuids.Expand(x), "2A5F") <==> x == "2A5F"
  {
    assert '2' !in Uuids.BasePrefix && '2' !in Uuids.BaseSuffix;
    Uuids.ContainsShortPattern(x, "2A37");
    Uuids.ContainsShortPattern(x, "2A6E");
    Uuids.ContainsShortPattern(x, "2A5F");
  }

  /** The lower-case `UUID.toString()` text of each subscribed characteristic
      selects its own reading, and that of the service selects none. */
  lemma HeartRateTextClassifies()
    ensures Classify(Lowercase(Uuids.CharUuidHeartRate)) == Some(HeartRateChar)
  {
    Uuids.HeartRateUuidIsExpansion();
    Uuids.ExpandIsUuidText("2A37");
    Uuids.UppercaseOfLowercase(Uuids.CharUuidHeartRate);
  }

  lemma TemperatureTextClassifies()
    ensures Classify(Lowercase(Uuids.CharUuidTemperature)) == Some(TemperatureChar)
  {
    Uuids.TemperatureUuidIsExpansion();
    Uuids.ExpandIsUuidText("2A6E");
    Uuids.UppercaseOfLowercase(Uuids.CharUuidTemperature);
  }

  lemma SpO2TextClassifies()
    ensures Classify(Lowercase(Uuids.CharUuidSpO2)) == Some(SpO2Char)
  {
    Uuids.SpO2UuidIsExpansion();
    Uuids.ExpandIsUuidText("2A5F");
    Uuids.UppercaseOfLowercase(Uuids.CharUuidSpO2);
  }

  lemma ServiceTextClassifies()
    ensures Classify(Lowercase(Uuids.ServiceUuid)) == None
  {
    Uuids.ServiceUuidIsExpansion();
    Uuids.ExpandIsUuidText("180D");
    Uuids.UppercaseOfLowercase(Uuids.ServiceUuid);
  }

  /** The result of `disconnect`: the new session, and the handle that was
      disconnected and closed, if any. */
  datatype DisconnectOutcome = DisconnectOutcome(session: Session, closed: Option<Device>)

  /** `disconnect`. The handle is disconnected and closed only when the connect
      permission is granted; on every path the handle is dropped and the three
      readings are reset to zero. */
  function Disconnect(s: Session, granted: bool): (o: DisconnectOutcome)
    ensures o.session.gatt.None?
    ensures o.session.heartRate == 0 && o.session.temperature == ZeroTemperature && o.session.spo2 == 0
    ensures o.closed.Some? <==> granted && s.gatt.Some?
    ensures o.closed.Some? ==> o.closed == s.gatt
  {
    DisconnectOutcome(Idle, if granted then s.gatt else None)
  }

  /** Disconnecting twice is disconnecting once: the second call finds no
      handle, closes nothing and leaves the session unchanged. */
  lemma DisconnectIdempotent(s: Session, granted: bool, grantedAgain: bool)
    ensures var first := Disconnect(s, granted).session;
      Disconnect(first, grantedAgain) == DisconnectOutcome(first, None)
  {
  }

  /** The state after a disconnect does not depend on the state before it or on
      the permission; a session that held no handle closes nothing. */
  lemma DisconnectForgetsEverything(s: Session, t: Session, granted: bool, grantedAgain: bool)
    ensures Disconnect(s, granted).session == Disconnect(t, grantedAgain).session
    ensures s.gatt.None? ==> Disconnect(s, granted).closed.None?
  {
  }

  /** The two permission answers the client consults: `declared` is
      `hasBluetoothConnectPermission()` (always true before Android 12), and
      `granted` is `checkSelfPermission(BLUETOOTH_CONNECT)`. */
  datatype ConnectPermission = ConnectPermission(declared: bool, granted: bool)

  /** A discovered service, by the characteristics it has among the three. */
  datatype GattService = GattService(characteristics: set<CharKind>)

  /** The reports service discovery emits, and the characteristics whose
      notifications ended up enabled. */
  datatype Discovery = Discovery(reports: seq<ConnectionReport>, subscribed: seq<CharKind>)

  /** The characteristics of `present`, in the order the client enables them,
      without those whose enabling failed. Enabling is a platform step whose
      failure is logged and swallowed. */
  function EnableNotifications(present: set<CharKind>, failing: set<CharKind>): (ks: seq<CharKind>)
    ensures forall k :: k in ks <==> k in present && k !in failing
  {
    var ks := Attempt(HeartRateChar, present, failing)
      + Attempt(TemperatureChar, present, failing)
      + Attempt(SpO2Char, present, failing);
    assert forall k :: k in ks <==> k in present && k !in failing by {
      forall k
        ensures k in ks <==> k in present && k !in failing
      {
        if k.HeartRateChar? {
          assert k in Attempt(HeartRateChar, present, failing) <==> k in present && k !in failing;
        } else if k.TemperatureChar? {
          assert k in Attempt(TemperatureChar, present, failing) <==> k in present && k !in failing;
        } else {
          assert k in Attempt(SpO2Char, present, failing) <==> k in present && k !in failing;
        }
      }
    }
    ks
  }

  /** The enabling attempt for one characteristic: it is subscribed when
      present and its enabling does not fail. */
  function Attempt(k: CharKind, present: set<CharKind>, failing: set<CharKind>): seq<CharKind> {
    if k in present && k !in failing then [k] else []
  }

  /** `onServicesDiscovered` for the Heart Rate service lookup. */
  function OnServicesDiscovered(s: Session, status: int, perm: ConnectPermission,
                                service: Option<GattService>, failing: set<CharKind>): (d: Discovery)
    ensures status != GattSuccess || !perm.declared ==>
      d == Discovery([StatusReport(false, StatusDiscoveryFailed)], [])
    ensures |d.subscribed| > 0 ==> service.Some?
  {
    if status == GattSuccess && perm.declared then
      if perm.granted then
        match service
        case Some(svc) =>
          var subscribed := EnableNotifications(svc.characteristics, failing);
          Discovery([StatusReport(true, StatusSettingUp), ReadyReport(s)], subscribed)
        case None =>
          Discovery([StatusReport(false, StatusServiceNotFound)], [])
      else
        Discovery([], [])
    else
      Discovery([StatusReport(false, StatusDiscoveryFailed)], [])
  }

  /** Discovery ends "Connected - Ready" exactly when it succeeded, the
      permission is held and the service is present, whichever of the three
      characteristics exist and whichever enabling attempts fail. */
  lemma ReadyIffServicePresent(s: Session, status: int, perm: ConnectPermission,
                               service: Option<GattService>, failing: set<CharKind>)
    ensures var d := OnServicesDiscovered(s, status, perm, service, failing);
      (|d.reports| > 0 && d.reports[|d.reports| - 1] == ReadyReport(s)) <==>
      status == GattSuccess && perm.declared && perm.granted && service.Some?
  {
  }

  /** The reports do not depend on which characteristics the service has or on
      which enabling attempts fail: one failing subscription never stops the
      session from reaching Ready. */
  lemma ReportsIgnoreSubscriptions(s: Session, status: int, perm: ConnectPermission,
                                   chars1: set<CharKind>, chars2: set<CharKind>,
                                   failing1: set<CharKind>, failing2: set<CharKind>)
    ensures OnServicesDiscovered(s, status, perm, Some(GattService(chars1)), failing1).reports
         == OnServicesDiscovered(s, status, perm, Some(GattService(chars2)), failing2).reports
  {
  }

  /** A missing service is reported as not found and not connected, and the
      session never reaches Ready. */
  lemma MissingServiceNeverReady(s: Session, perm: ConnectPermission, failing: set<CharKind>)
    requires perm.declared && perm.granted
    ensures var d := OnServicesDiscovered(s, GattSuccess, perm, None, failing);
      && d.reports == [StatusReport(false, StatusServiceNotFound)]
      && forall i :: 0 <= i < |d.reports| ==> !d.reports[i].connected && d.reports[i].status != StatusReady
  {
  }

  /** Each present characteristic is subscribed unless its own enabling fails:
      the attempts are independent of one another. */
  lemma SubscriptionsIndependent(s: Session, perm: ConnectPermission, svc: GattService, failing: set<CharKind>)
    requires perm.declared && perm.granted
    ensures var d := OnServicesDiscovered(s, GattSuccess, perm, Some(svc), failing);
      forall k :: k in d.subscribed <==> k in svc.characteristics && k !in failing
  {
  }

  /** On devices where the permission is reported as held but the runtime check
      refuses it, a successful discovery emits no report at all. */
  lemma SilentWhenRuntimeCheckRefuses(s: Session, service: Option<GattService>, failing: set<CharKind>)
    ensures OnServicesDiscovered(s, GattSuccess, ConnectPermission(true, false), service, failing) == Discovery([], [])
  {
  }
}
