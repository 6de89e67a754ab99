/**
 * The platform settings server actions (app/actions/platform/settings.ts)
 * over an in-memory copy of the settings tables.
 */
module SettingsActions {
  import opened Wrappers
  import opened Response
  import opened Permissions
  import opened Ordering
  import opened SettingsSchema

  /** `description || existing`: an absent or empty description keeps the stored one. */
  function KeptDescription(given: Option<string>, existing: Option<string>): (r: Option<string>)
    ensures given.None? || given == Some("") ==> r == existing
    ensures given.Some? && given.value != "" ==> r == given
  {
    if given.None? || given == Some("") then existing else given
  }

  /** The settings rows holding `key`. */
  function SettingsWithKey(settings: map<int, Setting>, key: string): (r: set<int>)
    ensures forall k :: k in r <==> k in settings && settings[k].key == key
  {
    set k | k in settings && settings[k].key == key
  }

  /** The preference rows for (userId, t, category). */
  function PreferenceIds(prefs: map<int, Preference>, userId: string, t: NotificationType, category: string): (r: set<int>)
    ensures forall k :: k in r <==> k in prefs && PreferenceFor(prefs[k], userId, t, category)
  {
    set k | k in prefs && PreferenceFor(prefs[k], userId, t, category)
  }

  function NotificationOf(userId: string): Notification -> bool { (n: Notification) => n.userId == userId }
  function PreferenceOf(userId: string): Preference -> bool { (p: Preference) => p.userId == userId }
  function NotificationCreatedAt(n: Notification): int { n.createdAt }
  function PreferenceId(p: Preference): int { p.id }

  /** `update notifications set read = true where id = id and user_id = userId`. */
  function MarkRead(notifications: map<int, Notification>, id: int, userId: string): (r: map<int, Notification>)
    ensures r.Keys == notifications.Keys
    ensures forall k :: k in r && (k != id || notifications[k].userId != userId) ==> r[k] == notifications[k]
    ensures id in r && notifications[id].userId == userId ==> r[id] == notifications[id].(read := true)
  {
    if id in notifications && notifications[id].userId == userId then notifications[id := notifications[id].(read := true)]
    else notifications
  }

  /** Marking twice is marking once. */
  lemma MarkReadIdempotent(notifications: map<int, Notification>, id: int, userId: string)
    ensures MarkRead(MarkRead(notifications, id, userId), id, userId) == MarkRead(notifications, id, userId)
  {
  }

  /** The audit row a log call writes: the caller's id, or none when there is no caller; no IP address. */
  function AuditRow(id: int, caller: Option<User>, action: string, entityType: string, entityId: string,
                    details: Option<string>, now: nat): (a: AuditLog)
    ensures a.userId.Some? <==> caller.Some?
    ensures caller.Some? ==> a.userId == Some(caller.value.id)
    ensures a.ipAddress.None? && a.action == action && a.entityType == entityType && a.entityId == entityId
  {
    AuditLog(id, if caller.Some? then Some(caller.value.id) else None, action, entityType, entityId, details, None, now)
  }

  class SettingsStore {
    var settings: map<int, Setting>
    var preferences: map<int, Preference>
    var notifications: map<int, Notification>
    var auditLogs: map<int, AuditLog>
    var nextSettingId: int
    var nextPreferenceId: int
    var nextAuditId: int
    /** The paths handed to `revalidatePath`, in order. */
    ghost var revalidated: seq<string>

    ghost predicate Valid()
      reads this
    {
      && SettingsOk(settings, nextSettingId)
      && PreferencesOk(preferences, nextPreferenceId)
      && NotificationsOk(notifications)
      && AuditLogsOk(auditLogs, nextAuditId)
    }

    /** Nothing in the tables, nothing in the log. */
    ghost predicate Unchanged(
      settings0: map<int, Setting>, preferences0: map<int, Preference>, notifications0: map<int, Notification>,
      auditLogs0: map<int, AuditLog>, log0: seq<string>)
      reads this
    {
      && settings == settings0 && preferences == preferences0 && notifications == notifications0
      && auditLogs == auditLogs0 && revalidated == log0
    }

    constructor ()
      ensures Valid()
      ensures settings == map[] && preferences == map[] && notifications == map[] && auditLogs == map[]
      ensures revalidated == []
    {
      settings, preferences, notifications, auditLogs := map[], map[], map[], map[];
      nextSettingId, nextPreferenceId, nextAuditId := 1, 1, 1;
      revalidated := [];
    }

    /** getSystemSetting: the stored value for `key`; a missing key is a success without data. */
    method GetSystemSetting(key: string) returns (r: ServerResponse<Option<string>>)
      requires Valid()
      ensures r.Success?
      ensures r.data.None? <==> SettingsWithKey(settings, key) == {}
      ensures forall k :: k in settings && settings[k].key == key ==> r.data == Some(settings[k].value)
    {
      if k :| k in settings && settings[k].key == key {
        r := Success(Some(settings[k].value));
      } else {
        NoSetting(settings, key);
        r := Success(None);
      }
    }

    /**
     * updateSystemSetting: an admin updates the row for `key`, or inserts one;
     * either way the key then has exactly one row, holding `value` and the caller as `updatedBy`.
     */
    method UpdateSystemSetting(caller: Option<User>, key: string, value: string, description: Option<string>, now: nat)
      returns (r: ServerResponse<()>)
      requires Valid()
      modifies this
      ensures Valid()
      ensures r.Success? <==> AdminGate(caller)
      ensures r.Failure? ==> r == Failure(Unauthorized)
      ensures r.Failure? ==> Unchanged(old(settings), old(preferences), old(notifications), old(auditLogs), old(revalidated))
      ensures r.Success? ==> |SettingsWithKey(settings, key)| == 1
      ensures r.Success? ==> forall k :: k in settings && settings[k].key == key ==>
        settings[k].value == value && settings[k].updatedBy == Some(caller.value.id)
      ensures r.Success? ==> forall k :: k in old(settings) && old(settings)[k].key == key ==>
        settings == old(settings)[k := old(settings)[k].(value := value,
          description := KeptDescription(description, old(settings)[k].description), updatedAt := now,
          updatedBy := Some(caller.value.id))]
      ensures r.Success? && SettingsWithKey(old(settings), key) == {} ==>
        settings == old(settings)[old(nextSettingId) := Setting(old(nextSettingId), key, value, description, now, Some(caller.value.id))]
      ensures r.Success? ==> revalidated == old(revalidated) + ["/admin/settings"]
      ensures preferences == old(preferences) && notifications == old(notifications) && auditLogs == old(auditLogs)
    {
      if !AdminGate(caller) {
        return Failure(Unauthorized);
      }
      var row;
      if k :| k in settings && settings[k].key == key {
        var existing := settings[k];
        row := existing.(value := value, description := KeptDescription(description, existing.description),
                         updatedAt := now, updatedBy := Some(caller.value.id));
        OnlySetting(settings, nextSettingId, k);
      } else {
        NoSetting(settings, key);
        row := Setting(nextSettingId, key, value, description, now, Some(caller.value.id));
        nextSettingId := nextSettingId + 1;
      }
      SettingReplaced(settings, row);
      settings := settings[row.id := row];
      revalidated := revalidated + ["/admin/settings"];
      r := Success(());
    }

    /** getNotifications: the caller's notifications only, newest first. */
    method GetNotifications(caller: Option<User>) returns (r: ServerResponse<seq<Notification>>)
      requires Valid()
      ensures r.Success? <==> caller.Some?
      ensures r.Failure? ==> r == Failure(Unauthorized)
      ensures r.Success? ==> Listing(r.data, notifications, NotificationOf(caller.value.id), NotificationCreatedAt)
    {
      if caller.None? {
        return Failure(Unauthorized);
      }
      NotificationsInjective(notifications);
      var rows := SelectDesc(notifications, NotificationOf(caller.value.id), NotificationCreatedAt);
      r := Success(rows);
    }

    /** markNotificationAsRead: sets `read` on that notification only if it is the caller's; success either way. */
    method MarkNotificationAsRead(caller: Option<User>, id: int) returns (r: ServerResponse<()>)
      requires Valid()
      modifies this
      ensures Valid()
      ensures r.Success? <==> caller.Some?
      ensures r.Failure? ==> r == Failure(Unauthorized)
      ensures r.Failure? ==> Unchanged(old(settings), old(preferences), old(notifications), old(auditLogs), old(revalidated))
      ensures r.Success? ==>
        && notifications == MarkRead(old(notifications), id, caller.value.id)
        && revalidated == old(revalidated) + ["/notifications"]
      ensures settings == old(settings) && preferences == old(preferences) && auditLogs == old(auditLogs)
    {
      if caller.None? {
        return Failure(Unauthorized);
      }
      notifications := MarkRead(notifications, id, caller.value.id);
      revalidated := revalidated + ["/notifications"];
      r := Success(());
    }

    /** getNotificationPreferences: the caller's preference rows, each once; the query names no order. */
    method GetNotificationPreferences(caller: Option<User>) returns (r: ServerResponse<seq<Preference>>)
      requires Valid()
      ensures r.Success? <==> caller.Some?
      ensures r.Failure? ==> r == Failure(Unauthorized)
      ensures r.Success? ==> multiset(r.data) == multiset(Selected(preferences, PreferenceOf(caller.value.id)))
    {
      if caller.None? {
        return Failure(Unauthorized);
      }
      PreferencesInjective(preferences, nextPreferenceId);
      var rows := SelectDesc(preferences, PreferenceOf(caller.value.id), PreferenceId);
      r := Success(rows);
    }

    /**
     * updateNotificationPreference: sets `enabled` on a row for (caller, type,
     * category), or inserts exactly one such row when there is none.
     */
    method UpdateNotificationPreference(caller: Option<User>, t: NotificationType, category: string, enabled: bool, now: nat)
      returns (r: ServerResponse<()>)
      requires Valid()
      modifies this
      ensures Valid()
      ensures r.Success? <==> caller.Some?
      ensures r.Failure? ==> r == Failure(Unauthorized)
      ensures r.Failure? ==> Unchanged(old(settings), old(preferences), old(notifications), old(auditLogs), old(revalidated))
      ensures r.Success? && PreferenceIds(old(preferences), caller.value.id, t, category) == {} ==>
        preferences == old(preferences)[old(nextPreferenceId) := Preference(old(nextPreferenceId), caller.value.id, t, enabled, category, now)]
        && old(nextPreferenceId) !in old(preferences)
      ensures r.Success? && PreferenceIds(old(preferences), caller.value.id, t, category) != {} ==>
        exists k :: k in PreferenceIds(old(preferences), caller.value.id, t, category) &&
          preferences == old(preferences)[k := old(preferences)[k].(enabled := enabled, updatedAt := now)]
      ensures r.Success? ==> PreferenceIds(preferences, caller.value.id, t, category) != {}
      ensures PreferencesUnique(old(preferences)) ==> PreferencesUnique(preferences)
      ensures r.Success? ==> revalidated == old(revalidated) + ["/settings/notifications"]
      ensures settings == old(settings) && notifications == old(notifications) && auditLogs == old(auditLogs)
    {
      if caller.None? {
        return Failure(Unauthorized);
      }
      var userId := caller.value.id;
      var row;
      if k :| k in preferences && PreferenceFor(preferences[k], userId, t, category) {
        row := preferences[k].(enabled := enabled, updatedAt := now);
        PreferenceUpdatedUnique(preferences, k, row);
      } else {
        row := Preference(nextPreferenceId, userId, t, enabled, category, now);
        PreferenceInsertedUnique(preferences, nextPreferenceId, row);
        nextPreferenceId := nextPreferenceId + 1;
      }
      assert row.id in PreferenceIds(preferences[row.id := row], userId, t, category);
      preferences := preferences[row.id := row];
      revalidated := revalidated + ["/settings/notifications"];
      r := Success(());
    }

    /** logAuditAction: always appends one audit row and reports nothing. */
    method LogAuditAction(caller: Option<User>, action: string, entityType: string, entityId: string,
                          details: Option<string>, now: nat)
      requires Valid()
      modifies this
      ensures Valid()
      ensures old(nextAuditId) !in old(auditLogs)
      ensures auditLogs == old(auditLogs)[old(nextAuditId) := AuditRow(old(nextAuditId), caller, action, entityType, entityId, details, now)]
      ensures settings == old(settings) && preferences == old(preferences) && notifications == old(notifications)
      ensures revalidated == old(revalidated)
    {
      auditLogs := auditLogs[nextAuditId := AuditRow(nextAuditId, caller, action, entityType, entityId, details, now)];
      nextAuditId := nextAuditId + 1;
    }
  }

  lemma NoSetting(settings: map<int, Setting>, key: string)
    requires forall k :: k in settings ==> settings[k].key != key
    ensures SettingsWithKey(settings, key) == {}
  {
    forall j | j in SettingsWithKey(settings, key) ensures false {
    }
  }

  lemma OnlySetting(settings: map<int, Setting>, next: int, k: int)
    requires SettingsOk(settings, next) && k in settings
    ensures SettingsWithKey(settings, settings[k].key) == {k}
  {
    forall j | j in SettingsWithKey(settings, settings[k].key) ensures j == k {
    }
  }

  /** Storing `s` at its own key: its key then has exactly that row if it had at most that row before. */
  lemma SettingReplaced(settings: map<int, Setting>, s: Setting)
    requires SettingsWithKey(settings, s.key) <= {s.id}
    ensures SettingsWithKey(settings[s.id := s], s.key) == {s.id}
  {
    var m := settings[s.id := s];
    forall j | j in SettingsWithKey(m, s.key) ensures j == s.id {
      assert j != s.id ==> j in SettingsWithKey(settings, s.key);
    }
  }

  /** Changing `enabled` on an existing row keeps the triples, so uniqueness survives. */
  lemma PreferenceUpdatedUnique(prefs: map<int, Preference>, k: int, row: Preference)
    requires k in prefs && row == prefs[k].(enabled := row.enabled, updatedAt := row.updatedAt)
    ensures PreferencesUnique(prefs) ==> PreferencesUnique(prefs[k := row])
  {
  }

  /** A row for a triple that had none keeps uniqueness. */
  lemma PreferenceInsertedUnique(prefs: map<int, Preference>, id: int, row: Preference)
    requires id !in prefs && row.id == id
    requires forall k :: k in prefs ==> !PreferenceFor(prefs[k], row.userId, row.notificationType, row.category)
    ensures PreferencesUnique(prefs) ==> PreferencesUnique(prefs[id := row])
  {
  }

  lemma NotificationsInjective(notifications: map<int, Notification>)
    requires NotificationsOk(notifications)
    ensures Injective(notifications)
  {
  }

  lemma PreferencesInjective(prefs: map<int, Preference>, next: int)
    requires PreferencesOk(prefs, next)
    ensures Injective(prefs)
  {
  }
}
