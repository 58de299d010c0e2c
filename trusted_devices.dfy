/**
 * Remembered devices (src/app/api/trusted-devices/route.js): POST registers a device for a number
 * of days, GET lists a user's devices most recently used first, PUT validates a device and
 * refreshes its `last_used_at`, DELETE removes it.
 *
 * `crypto.randomUUID()` is the parameter `deviceId`; times are seconds and `now` is a parameter.
 */
module TrustedDevices {
  import opened Common
  import opened Tables

  const DefaultRememberDays: int := 30
  const SecondsPerDay: int := 86400

  const UserIdRequired: string := "User ID is required"
  const IdsRequired: string := "User ID and Device ID are required"

  datatype RegisterRequest = RegisterRequest(userId: string, deviceName: Option<string>, rememberDays: Option<int>)
  datatype ValidateRequest = ValidateRequest(userId: string, deviceId: string)

  /** The serial primary key: a row id determines the row, and every id is below the next serial value. */
  predicate KeysValid(rows: seq<TrustedDevice>, next: nat) {
    && (forall d, e :: d in rows && e in rows && d.id == e.id ==> d == e)
    && (forall d :: d in rows ==> d.id < next)
  }

  /** `rememberDays` with its default of 30. */
  function RememberDays(days: Option<int>): (n: int)
    ensures days.None? ==> n == DefaultRememberDays
    ensures days.Some? ==> n == days.value
  {
    if days.Some? then days.value else DefaultRememberDays
  }

  /** POST: register a device until `now + rememberDays` days, and audit the registration. */
  method Register(db: Database, body: Option<RegisterRequest>, deviceId: string, now: int,
                  forwardedFor: Option<string>, userAgent: Option<string>, insertError: Option<string>)
    returns (resp: Response<string>)
    requires KeysValid(db.trustedDevices, db.nextDeviceRowId)
    modifies db`trustedDevices, db`nextDeviceRowId, db`auditLogs
    ensures KeysValid(db.trustedDevices, db.nextDeviceRowId)
    ensures body.None? ==> resp == Failure(500, InternalError)
    ensures body.Some? && insertError.Some? ==> resp == Failure(500, insertError.value)
    ensures resp.Failure? ==>
      && db.trustedDevices == old(db.trustedDevices) && db.nextDeviceRowId == old(db.nextDeviceRowId)
      && db.auditLogs == old(db.auditLogs)
    ensures body.Some? && insertError.None? ==>
      var req := body.value;
      var agent := OrUnknown(userAgent);
      var ipAddress := OrUnknown(forwardedFor);
      var name := if Present(req.deviceName) then req.deviceName.value else agent;
      && resp == Success(deviceId)
      && db.nextDeviceRowId == old(db.nextDeviceRowId) + 1
      && db.trustedDevices == old(db.trustedDevices)
           + [TrustedDevice(old(db.nextDeviceRowId), req.userId, deviceId, name, ipAddress,
                            now + RememberDays(req.rememberDays) * SecondsPerDay, now)]
      && db.auditLogs == old(db.auditLogs)
           + [AuditEntry(req.userId, "add_trusted_device", "trusted_devices", None,
                         Fields([("device_name", req.deviceName), ("device_id", Some(deviceId))]),
                         ipAddress, Some(agent), now)]
  {
    if body.None? {
      return Failure(500, InternalError);
    }
    var req := body.value;
    var expiresAt := now + RememberDays(req.rememberDays) * SecondsPerDay;
    var ipAddress := OrUnknown(forwardedFor);
    var agent := OrUnknown(userAgent);
    if insertError.Some? {
      return Failure(500, insertError.value);
    }
    var name := if Present(req.deviceName) then req.deviceName.value else agent;
    db.trustedDevices := db.trustedDevices
      + [TrustedDevice(db.nextDeviceRowId, req.userId, deviceId, name, ipAddress, expiresAt, now)];
    db.nextDeviceRowId := db.nextDeviceRowId + 1;
    db.auditLogs := db.auditLogs
      + [AuditEntry(req.userId, "add_trusted_device", "trusted_devices", None,
                    Fields([("device_name", req.deviceName), ("device_id", Some(deviceId))]),
                    ipAddress, Some(agent), now)];
    resp := Success(deviceId);
  }

  function LastUsedAt(d: TrustedDevice): int {
    d.lastUsedAt
  }

  /** `.eq("user_id", userId)`. */
  function DevicesOf(rows: seq<TrustedDevice>, userId: string): seq<TrustedDevice> {
    Where(rows, (d: TrustedDevice) => d.userId == userId)
  }

  /** GET: the user's devices and only those, most recently used first. */
  function ListDevices(rows: seq<TrustedDevice>, userId: Option<string>, queryError: Option<string>)
    : (r: Response<seq<TrustedDevice>>)
    ensures !Present(userId) ==> r == Failure(400, UserIdRequired)
    ensures Present(userId) && queryError.Some? ==> r == Failure(500, queryError.value)
    ensures Present(userId) && queryError.None? ==>
      && r.Success?
      && SortedDesc(r.value, LastUsedAt)
      && multiset(r.value) == multiset(DevicesOf(rows, userId.value))
      && (forall d :: d in r.value <==> d in rows && d.userId == userId.value)
  {
    if !Present(userId) then Failure(400, UserIdRequired)
    else if queryError.Some? then Failure(500, queryError.value)
    else
      var mine := DevicesOf(rows, userId.value);
      var sorted := SortDesc(mine, LastUsedAt);
      assert forall d :: d in sorted <==> d in multiset(mine);
      Success(sorted)
  }

  /** `.eq("user_id", u).eq("device_id", d).gte("expires_at", now).single()`. */
  function MatchingDevice(rows: seq<TrustedDevice>, userId: string, deviceId: string, now: int)
    : (r: Option<TrustedDevice>)
    ensures r.Some? ==> r.value in rows && r.value.userId == userId && r.value.deviceId == deviceId
                        && r.value.expiresAt >= now
    ensures (forall d :: d in rows && d.userId == userId && d.deviceId == deviceId ==> d.expiresAt < now)
            ==> r.None?
  {
    Single(rows, (d: TrustedDevice) => d.userId == userId && d.deviceId == deviceId && d.expiresAt >= now)
  }

  /** A device that is the only unexpired row for the pair validates. */
  lemma OnlyMatchValidates(rows: seq<TrustedDevice>, userId: string, deviceId: string, now: int, i: nat)
    requires i < |rows|
    requires rows[i].userId == userId && rows[i].deviceId == deviceId && rows[i].expiresAt >= now
    requires forall j :: 0 <= j < |rows| && j != i && rows[j].userId == userId && rows[j].deviceId == deviceId
               ==> rows[j].expiresAt < now
    ensures MatchingDevice(rows, userId, deviceId, now) == Some(rows[i])
  {
    WhereSingleton(rows, (d: TrustedDevice) => d.userId == userId && d.deviceId == deviceId && d.expiresAt >= now, i);
  }

  /** `.update({ last_used_at: now }).eq("id", id)`. */
  function Touch(rows: seq<TrustedDevice>, id: nat, now: int): (r: seq<TrustedDevice>)
    ensures |r| == |rows|
    ensures forall i :: 0 <= i < |rows| ==>
      r[i] == if rows[i].id == id then rows[i].(lastUsedAt := now) else rows[i]
  {
    if rows == [] then []
    else [if rows[0].id == id then rows[0].(lastUsedAt := now) else rows[0]] + Touch(rows[1..], id, now)
  }

  /** With a primary key, refreshing by id changes the matched row and no other. */
  lemma TouchOnlyMatched(rows: seq<TrustedDevice>, next: nat, d: TrustedDevice, now: int)
    requires KeysValid(rows, next) && d in rows
    ensures forall i :: 0 <= i < |rows| ==>
      Touch(rows, d.id, now)[i] == if rows[i] == d then d.(lastUsedAt := now) else rows[i]
  {
  }

  /** Refreshing `last_used_at` keeps the primary key valid: ids are left as they were. */
  lemma TouchKeepsKeys(rows: seq<TrustedDevice>, next: nat, id: nat, now: int)
    requires KeysValid(rows, next)
    ensures KeysValid(Touch(rows, id, now), next)
  {
    var t := Touch(rows, id, now);
    forall d, e | d in t && e in t && d.id == e.id ensures d == e {
      var i :| 0 <= i < |t| && t[i] == d;
      var j :| 0 <= j < |t| && t[j] == e;
      assert rows[i] in rows && rows[j] in rows;
    }
    forall d | d in t ensures d.id < next {
      var i :| 0 <= i < |t| && t[i] == d;
      assert rows[i] in rows;
    }
  }

  /** PUT: `valid` when one unexpired row matches the pair; only then is its `last_used_at` refreshed. */
  method Validate(db: Database, body: Option<ValidateRequest>, now: int) returns (resp: Response<bool>)
    requires KeysValid(db.trustedDevices, db.nextDeviceRowId)
    modifies db`trustedDevices
    ensures KeysValid(db.trustedDevices, db.nextDeviceRowId)
    ensures body.None? ==> resp == Failure(500, InternalError)
    ensures body.Some? ==>
      var found := MatchingDevice(old(db.trustedDevices), body.value.userId, body.value.deviceId, now);
      && resp == Success(found.Some?)
      && db.trustedDevices == if found.Some? then Touch(old(db.trustedDevices), found.value.id, now)
                              else old(db.trustedDevices)
    ensures body.None? ==> db.trustedDevices == old(db.trustedDevices)
  {
    if body.None? {
      return Failure(500, InternalError);
    }
    var found := MatchingDevice(db.trustedDevices, body.value.userId, body.value.deviceId, now);
    if found.None? {
      return Success(false);
    }
    TouchKeepsKeys(db.trustedDevices, db.nextDeviceRowId, found.value.id, now);
    db.trustedDevices := Touch(db.trustedDevices, found.value.id, now);
    resp := Success(true);
  }

  /** `.delete().eq("user_id", u).eq("device_id", d)`: what stays. */
  function Remaining(rows: seq<TrustedDevice>, userId: string, deviceId: string): (r: seq<TrustedDevice>)
    ensures forall d :: d in r <==> d in rows && !(d.userId == userId && d.deviceId == deviceId)
    ensures IsSubsequence(r, rows)
    ensures forall d :: multiset(r)[d] == if d.userId == userId && d.deviceId == deviceId then 0 else multiset(rows)[d]
  {
    WhereCounts(rows, (d: TrustedDevice) => !(d.userId == userId && d.deviceId == deviceId));
    Where(rows, (d: TrustedDevice) => !(d.userId == userId && d.deviceId == deviceId))
  }

  /** DELETE: both ids are required; then exactly the rows matching both go, and the rest stay in order. */
  method Remove(db: Database, userId: Option<string>, deviceId: Option<string>, now: int,
                forwardedFor: Option<string>, userAgent: Option<string>, deleteError: Option<string>)
    returns (resp: Response<()>)
    requires KeysValid(db.trustedDevices, db.nextDeviceRowId)
    modifies db`trustedDevices, db`auditLogs
    ensures KeysValid(db.trustedDevices, db.nextDeviceRowId)
    ensures !Present(userId) || !Present(deviceId) ==> resp == Failure(400, IdsRequired)
    ensures Present(userId) && Present(deviceId) && deleteError.Some? ==> resp == Failure(500, deleteError.value)
    ensures resp.Failure? ==> db.trustedDevices == old(db.trustedDevices) && db.auditLogs == old(db.auditLogs)
    ensures Present(userId) && Present(deviceId) && deleteError.None? ==>
      && resp == Success(())
      && db.trustedDevices == Remaining(old(db.trustedDevices), userId.value, deviceId.value)
      && db.auditLogs == old(db.auditLogs)
           + [AuditEntry(userId.value, "remove_trusted_device", "trusted_devices", Some(deviceId.value),
                         NoDetails, OrUnknown(forwardedFor), Some(OrUnknown(userAgent)), now)]
  {
    if !Present(userId) || !Present(deviceId) {
      return Failure(400, IdsRequired);
    }
    if deleteError.Some? {
      return Failure(500, deleteError.value);
    }
    db.trustedDevices := Remaining(db.trustedDevices, userId.value, deviceId.value);
    db.auditLogs := db.auditLogs
      + [AuditEntry(userId.value, "remove_trusted_device", "trusted_devices", Some(deviceId.value),
                    NoDetails, OrUnknown(forwardedFor), Some(OrUnknown(userAgent)), now)];
    resp := Success(());
  }
}
