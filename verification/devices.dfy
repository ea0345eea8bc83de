// Device slots: registration, revocation, ageing, and the purge of tombstones that
// every active device has confirmed.

module Devices {
  import opened SyncTypes
  import opened ServerApply

  const PRO_DEVICE_LIMIT: nat := 3
  const ACTIVE_WINDOW_MS: int := 30 * 24 * 60 * 60 * 1000

  datatype Denial = BelongsToAnother | Revoked | LimitReached | CurrentDevice
  datatype Report = Registered(devices: map<Id, DeviceRow>) | Denied(why: Denial)

  /** Devices of the user that hold a slot: registered and not revoked, active or stale. */
  function Unrevoked(devices: map<Id, DeviceRow>, user: Id): set<Id> {
    set d | d in devices && devices[d].owner == user && devices[d].revokedAt.None?
  }

  /** Those seen within the active window. */
  function Active(devices: map<Id, DeviceRow>, user: Id, now: Time): (r: set<Id>)
    ensures r <= Unrevoked(devices, user)
  {
    set d | d in devices && devices[d].owner == user && devices[d].revokedAt.None?
      && devices[d].lastSeenAt > now - ACTIVE_WINDOW_MS
  }

  /** Deletes the user's unrevoked devices that fell out of the window. */
  function DropStale(devices: map<Id, DeviceRow>, user: Id, now: Time): map<Id, DeviceRow> {
    map d | d in devices && !(d in Unrevoked(devices, user) && d !in Active(devices, user, now)) :: devices[d]
  }

  /** A device reports in: a known one is refreshed, a new one needs a free slot. */
  function ReportDevice(devices: map<Id, DeviceRow>, user: Id, id: Id, cursor: Option<nat>, now: Time): Report {
    if id in devices then
      if devices[id].owner != user then Denied(BelongsToAnother)
      else if devices[id].revokedAt.Some? then Denied(Revoked)
      else Registered(devices[id := devices[id].(lastPulledSeq := cursor.GetOr(devices[id].lastPulledSeq), lastSeenAt := now)])
    else
      var kept := DropStale(devices, user, now);
      if |Active(kept, user, now)| >= PRO_DEVICE_LIMIT then Denied(LimitReached)
      else Registered(kept[id := DeviceRow(user, cursor.GetOr(0), now, None)])
  }

  function RevokeDevice(devices: map<Id, DeviceRow>, user: Id, id: Id, current: Id, now: Time): Report {
    if id == current then Denied(CurrentDevice)
    else if id in Unrevoked(devices, user) then Registered(devices[id := devices[id].(revokedAt := Some(now))])
    else Registered(devices)
  }

  // ----- every run keeps the limit -----

  datatype DeviceStep =
    | Reports(user: Id, id: Id, cursor: Option<nat>, now: Time)
    | Revokes(user: Id, id: Id, current: Id, now: Time)
    | Ages(user: Id, now: Time)

  function DoDeviceStep(devices: map<Id, DeviceRow>, step: DeviceStep): map<Id, DeviceRow> {
    match step
    case Reports(user, id, cursor, now) =>
      var r := ReportDevice(devices, user, id, cursor, now);
      if r.Registered? then r.devices else devices
    case Revokes(user, id, current, now) =>
      var r := RevokeDevice(devices, user, id, current, now);
      if r.Registered? then r.devices else devices
    case Ages(user, now) => DropStale(devices, user, now)
  }

  function RunDevices(devices: map<Id, DeviceRow>, steps: seq<DeviceStep>): map<Id, DeviceRow>
    decreases |steps|
  {
    if steps == [] then devices else RunDevices(DoDeviceStep(devices, steps[0]), steps[1..])
  }

  lemma FewerDevices(a: set<Id>, b: set<Id>)
    requires a <= b
    ensures |a| <= |b|
  {
    assert |b| == |a| + |b - a| by { assert b == a + (b - a); }
  }

  lemma StepKeepsLimit(devices: map<Id, DeviceRow>, step: DeviceStep, user: Id)
    requires |Unrevoked(devices, user)| <= PRO_DEVICE_LIMIT
    ensures |Unrevoked(DoDeviceStep(devices, step), user)| <= PRO_DEVICE_LIMIT
    ensures forall d :: d in devices && devices[d].revokedAt.Some? ==>
              d in DoDeviceStep(devices, step) && DoDeviceStep(devices, step)[d] == devices[d]
  {
    var after := DoDeviceStep(devices, step);
    match step
    case Reports(u, id, cursor, now) =>
      if id in devices {
        FewerDevices(Unrevoked(after, user), Unrevoked(devices, user));
      } else {
        RegistrationKeepsLimit(devices, u, id, cursor, now, user);
      }
    case Revokes(u, id, current, now) =>
      FewerDevices(Unrevoked(after, user), Unrevoked(devices, user));
    case Ages(u, now) =>
      FewerDevices(Unrevoked(after, user), Unrevoked(devices, user));
  }

  lemma RegistrationKeepsLimit(devices: map<Id, DeviceRow>, u: Id, id: Id, cursor: Option<nat>, now: Time, user: Id)
    requires id !in devices && |Unrevoked(devices, user)| <= PRO_DEVICE_LIMIT
    ensures var r := ReportDevice(devices, u, id, cursor, now);
      r.Registered? ==> |Unrevoked(r.devices, user)| <= PRO_DEVICE_LIMIT
  {
    var kept := DropStale(devices, u, now);
    var row := DeviceRow(u, cursor.GetOr(0), now, None);
    if u == user {
      KeptAreActive(devices, user, now);
      AddingOne(kept, id, row, user);
    } else {
      FewerDevices(Unrevoked(kept[id := row], user), Unrevoked(devices, user));
    }
  }

  lemma KeptAreActive(devices: map<Id, DeviceRow>, user: Id, now: Time)
    ensures Unrevoked(DropStale(devices, user, now), user) == Active(DropStale(devices, user, now), user, now)
  {
  }

  lemma AddingOne(devices: map<Id, DeviceRow>, id: Id, row: DeviceRow, user: Id)
    requires id !in devices
    ensures |Unrevoked(devices[id := row], user)| <= |Unrevoked(devices, user)| + 1
  {
    assert Unrevoked(devices[id := row], user) <= Unrevoked(devices, user) + {id};
    FewerDevices(Unrevoked(devices[id := row], user), Unrevoked(devices, user) + {id});
  }

  /** Over every run, under any clock: a user never holds more than the limit of slots, active or
      stale, and a revoked device stays revoked, row and all. */
  lemma {:induction false} SlotsNeverExceeded(devices: map<Id, DeviceRow>, steps: seq<DeviceStep>, user: Id, now: Time)
    requires |Unrevoked(devices, user)| <= PRO_DEVICE_LIMIT
    ensures |Unrevoked(RunDevices(devices, steps), user)| <= PRO_DEVICE_LIMIT
    ensures |Active(RunDevices(devices, steps), user, now)| <= PRO_DEVICE_LIMIT
    ensures forall d :: d in devices && devices[d].revokedAt.Some? ==>
              d in RunDevices(devices, steps) && RunDevices(devices, steps)[d] == devices[d]
              && d !in Active(RunDevices(devices, steps), user, now)
    decreases |steps|
  {
    if steps != [] {
      StepKeepsLimit(devices, steps[0], user);
      SlotsNeverExceeded(DoDeviceStep(devices, steps[0]), steps[1..], user, now);
    }
    FewerDevices(Active(RunDevices(devices, steps), user, now), Unrevoked(RunDevices(devices, steps), user));
  }

  /** A new device is refused exactly when the slots are taken by devices still in the window. */
  lemma RefusedIffFull(devices: map<Id, DeviceRow>, user: Id, id: Id, cursor: Option<nat>, now: Time)
    requires id !in devices
    ensures ReportDevice(devices, user, id, cursor, now).Denied? <==> |Active(devices, user, now)| >= PRO_DEVICE_LIMIT
    ensures ReportDevice(devices, user, id, cursor, now).Registered? ==>
              Active(ReportDevice(devices, user, id, cursor, now).devices, user, now) == Active(devices, user, now) + {id}
  {
    assert Active(DropStale(devices, user, now), user, now) == Active(devices, user, now);
  }

  /** What a report does. A known device of the user's is refreshed: it was seen now, and confirms the cursor it
      sent, if any; a new one is added so, and the user's devices that were last seen a window ago or earlier
      lose their slots; every other device is as it was. Refused are a device of someone else, a revoked one,
      and a new one when as many as the limit were seen within the window. */
  lemma ReportDoes(devices: map<Id, DeviceRow>, user: Id, id: Id, cursor: Option<nat>, now: Time)
    ensures var r, known := ReportDevice(devices, user, id, cursor, now), id in devices;
      var recent := set d | d in devices && devices[d].owner == user && devices[d].revokedAt.None?
                            && now - devices[d].lastSeenAt < 30 * 86_400_000;
      && (r.Denied? <==> if known then devices[id].owner != user || devices[id].revokedAt.Some? else |recent| >= 3)
      && (r.Denied? ==> r.why == if !known then LimitReached else if devices[id].owner != user then BelongsToAnother else Revoked)
      && (r.Registered? ==>
            && id in r.devices
            && r.devices[id] == DeviceRow(user, cursor.GetOr(if known then devices[id].lastPulledSeq else 0), now, None)
            && forall d :: d != id ==>
                 (d in r.devices <==> d in devices && (known || d in recent || devices[d].owner != user || devices[d].revokedAt.Some?))
                 && (d in r.devices ==> r.devices[d] == devices[d]))
  {
    var recent := set d | d in devices && devices[d].owner == user && devices[d].revokedAt.None?
                          && now - devices[d].lastSeenAt < 30 * 86_400_000;
    assert Active(DropStale(devices, user, now), user, now) == recent;
  }

  /** A revocation marks the device, if it is an unrevoked one of the user's, and touches no other; the current
      device is refused. */
  lemma RevokeDoes(devices: map<Id, DeviceRow>, user: Id, id: Id, current: Id, now: Time)
    ensures var r := RevokeDevice(devices, user, id, current, now);
      && (r.Denied? <==> id == current)
      && (r.Registered? ==>
            && r.devices.Keys == devices.Keys && (forall d :: d in devices && d != id ==> r.devices[d] == devices[d])
            && (id in devices ==>
                  r.devices[id] == if devices[id].owner == user && devices[id].revokedAt.None?
                                   then devices[id].(revokedAt := Some(now)) else devices[id]))
  {
  }

  // ----- purge -----

  /** Every active device has sent a cursor at or past `at`. */
  predicate Confirmed(devices: map<Id, DeviceRow>, user: Id, now: Time, at: nat) {
    forall d :: d in Active(devices, user, now) ==> at <= devices[d].lastPulledSeq
  }

  /** A tombstone the purge drops; with no active device, one older than the window. */
  predicate Purgeable(s: Server, user: Id, now: Time, k: Key) {
    k in s.rows && s.rows[k].owner == user && s.rows[k].deletedAt.Some?
    && if Active(s.devices, user, now) == {} then s.rows[k].deletedAt.value <= now - ACTIVE_WINDOW_MS
       else Confirmed(s.devices, user, now, s.rows[k].serverSeq)
  }

  function PurgeKeys(s: Server, user: Id, now: Time): set<Key> {
    set k | k in s.rows && Purgeable(s, user, now, k)
  }

  function Purge(s: Server, user: Id, now: Time): Server {
    s.(rows := RemoveRows(s.rows, PurgeKeys(s, user, now)), devices := DropStale(s.devices, user, now))
  }

  /** The purge removes exactly the tombstones every active device has confirmed (with no active device,
      those past the window), plus cards that hang on such a topic, and keeps all else as it is. */
  lemma PurgeRemovesOnly(s: Server, user: Id, now: Time, k: Key)
    requires k in s.rows
    ensures var s1 := Purge(s, user, now);
      k !in s1.rows <==>
        (s.rows[k].owner == user && !Live(s.rows[k])
         && (Active(s.devices, user, now) != {} ==> Confirmed(s.devices, user, now, s.rows[k].serverSeq))
         && (Active(s.devices, user, now) == {} ==> s.rows[k].deletedAt.value <= now - ACTIVE_WINDOW_MS))
        || (s.rows[k].body.CardBody? && Purgeable(s, user, now, Key(Topics, s.rows[k].body.topicId)))
    ensures k in Purge(s, user, now).rows ==> Purge(s, user, now).rows[k] == s.rows[k]
  {
    assert k in PurgeKeys(s, user, now) <==> Purgeable(s, user, now, k);
  }

  /** And of the devices exactly the user's that are unrevoked and were last seen a window ago or earlier. */
  lemma PurgeDropsStale(s: Server, user: Id, now: Time, d: Id)
    requires d in s.devices
    ensures var s1, row := Purge(s, user, now), s.devices[d];
      && (d !in s1.devices <==> row.owner == user && row.revokedAt.None? && row.lastSeenAt <= now - 30 * 86_400_000)
      && (d in s1.devices ==> s1.devices[d] == row)
      && s1.seqs == s.seqs && s1.ops == s.ops && s1.devices.Keys <= s.devices.Keys
  {
  }

  /** The foreign key lets the purge of a confirmed topic take along a card tombstone that some
      device has not confirmed: a concrete state. */
  lemma CascadePurgesUnconfirmed()
    ensures var topic, card := Key(Topics, "T"), Key(Cards, "c");
      var s := Server(
        map[topic := Row("u", TopicBody("t", 0, "[]", 0, Some(false)), 5, Some(5), 4),
            card := Row("u", CardBody("T", 1, "{}", None), 9, Some(9), 8)],
        map["u" := 8], {}, map["d" := DeviceRow("u", 4, 100, None)]);
      && Integrity(s.rows) && SeqsSound(s, "u")
      && !Confirmed(s.devices, "u", 100, s.rows[card].serverSeq)
      && card !in Purge(s, "u", 100).rows
  {
    var topic, card := Key(Topics, "T"), Key(Cards, "c");
    var s := Server(
      map[topic := Row("u", TopicBody("t", 0, "[]", 0, Some(false)), 5, Some(5), 4),
          card := Row("u", CardBody("T", 1, "{}", None), 9, Some(9), 8)],
      map["u" := 8], {}, map["d" := DeviceRow("u", 4, 100, None)]);
    assert Active(s.devices, "u", 100) == {"d"};
    assert Purgeable(s, "u", 100, topic);
    assert topic in PurgeKeys(s, "u", 100);
  }

  lemma PurgeKeepsIntegrity(s: Server, user: Id, now: Time)
    requires Integrity(s.rows)
    ensures Integrity(Purge(s, user, now).rows)
    ensures SeqsSound(s, user) ==> SeqsSound(Purge(s, user, now), user)
  {
    RemoveRowsKeepsIntegrity(s.rows, PurgeKeys(s, user, now));
  }
}
