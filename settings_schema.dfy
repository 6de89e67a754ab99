/**
 * The platform settings tables (core/db/schemas/platform/settings.ts):
 * system settings, notification preferences, notifications and audit logs.
 */
module SettingsSchema {
  import opened Wrappers

  datatype NotificationType = Email | Push | InApp

  function NotificationTypeName(t: NotificationType): string {
    match t
    case Email => "email"
    case Push => "push"
    case InApp => "in_app"
  }

  /** The three labels are distinct. */
  lemma NotificationTypeNamesDistinct()
    ensures forall s, t :: NotificationTypeName(s) == NotificationTypeName(t) ==> s == t
  {
  }

  /** A row of system_settings.  `value` is the JSON text of a non-null jsonb value. */
  datatype Setting = Setting(
    id: int, key: string, value: string, description: Option<string>, updatedAt: nat, updatedBy: Option<string>)

  datatype Preference = Preference(
    id: int, userId: string, notificationType: NotificationType, enabled: bool, category: string, updatedAt: nat)

  datatype Notification = Notification(
    id: int, userId: string, title: string, message: string, kind: string,
    link: Option<string>, read: bool, createdAt: nat)

  datatype AuditLog = AuditLog(
    id: int, userId: Option<string>, action: string, entityType: string, entityId: string,
    details: Option<string>, ipAddress: Option<string>, createdAt: nat)

  /** The row a notification insert produces: `read` takes its default, false. */
  function NotificationRow(id: int, userId: string, title: string, message: string, kind: string,
                           link: Option<string>, now: nat): (n: Notification)
    ensures !n.read && n.userId == userId && n.id == id && n.createdAt == now
  {
    Notification(id, userId, title, message, kind, link, false, now)
  }

  /** The row a preference insert produces without `enabled`: it takes its default, true. */
  function DefaultPreferenceRow(id: int, userId: string, t: NotificationType, category: string, now: nat): (p: Preference)
    ensures p.enabled && p.userId == userId && p.notificationType == t && p.category == category
  {
    Preference(id, userId, t, true, category, now)
  }

  // Constraints of the tables.  `next` is the serial sequence's next value.

  ghost predicate SettingsOk(settings: map<int, Setting>, next: int) {
    && (forall k :: k in settings ==> settings[k].id == k && k < next)
    && (forall a, b :: a in settings && b in settings && settings[a].key == settings[b].key ==> a == b)
  }

  /** Nothing makes (userId, type, category) unique: only keys are constrained. */
  ghost predicate PreferencesOk(prefs: map<int, Preference>, next: int) {
    forall k :: k in prefs ==> prefs[k].id == k && k < next
  }

  ghost predicate NotificationsOk(notifications: map<int, Notification>) {
    forall k :: k in notifications ==> notifications[k].id == k
  }

  ghost predicate AuditLogsOk(logs: map<int, AuditLog>, next: int) {
    forall k :: k in logs ==> logs[k].id == k && k < next
  }

  /** Whether preference row `p` is for (userId, t, category). */
  predicate PreferenceFor(p: Preference, userId: string, t: NotificationType, category: string) {
    p.userId == userId && p.notificationType == t && p.category == category
  }

  /** At most one preference row per (user, type, category): what the handler's lookup keeps, not the table. */
  ghost predicate PreferencesUnique(prefs: map<int, Preference>) {
    forall a, b :: a in prefs && b in prefs && PreferenceFor(prefs[b], prefs[a].userId, prefs[a].notificationType, prefs[a].category) ==> a == b
  }

  /** The table itself admits two rows for the same triple. */
  lemma PreferencesMayRepeat()
    ensures var p := map[1 := Preference(1, "u", Email, true, "security", 0), 2 := Preference(2, "u", Email, false, "security", 0)];
      PreferencesOk(p, 3) && !PreferencesUnique(p)
  {
    var p := map[1 := Preference(1, "u", Email, true, "security", 0), 2 := Preference(2, "u", Email, false, "security", 0)];
    assert PreferenceFor(p[2], p[1].userId, p[1].notificationType, p[1].category);
  }

  // Deleting a user (core/db/schemas/platform/settings.ts): SET NULL on settings.updated_by and
  // audit_logs.user_id, CASCADE on preferences and notifications.

  function SettingsAfterUserDelete(settings: map<int, Setting>, userId: string): (r: map<int, Setting>)
    ensures r.Keys == settings.Keys
    ensures forall k :: k in r ==> r[k] == if settings[k].updatedBy == Some(userId) then settings[k].(updatedBy := None) else settings[k]
  {
    map k | k in settings :: if settings[k].updatedBy == Some(userId) then settings[k].(updatedBy := None) else settings[k]
  }

  function AuditLogsAfterUserDelete(logs: map<int, AuditLog>, userId: string): (r: map<int, AuditLog>)
    ensures r.Keys == logs.Keys
    ensures forall k :: k in r ==> r[k] == if logs[k].userId == Some(userId) then logs[k].(userId := None) else logs[k]
  {
    map k | k in logs :: if logs[k].userId == Some(userId) then logs[k].(userId := None) else logs[k]
  }

  function PreferencesAfterUserDelete(prefs: map<int, Preference>, userId: string): (r: map<int, Preference>)
    ensures forall k :: k in r <==> k in prefs && prefs[k].userId != userId
    ensures forall k :: k in r ==> r[k] == prefs[k]
  {
    map k | k in prefs && prefs[k].userId != userId :: prefs[k]
  }

  function NotificationsAfterUserDelete(notifications: map<int, Notification>, userId: string): (r: map<int, Notification>)
    ensures forall k :: k in r <==> k in notifications && notifications[k].userId != userId
    ensures forall k :: k in r ==> r[k] == notifications[k]
  {
    map k | k in notifications && notifications[k].userId != userId :: notifications[k]
  }

  /**
   * After a user is deleted, settings and audit rows survive with the user
   * cleared, the user's preferences and notifications are gone, and every
   * table constraint still holds.
   */
  lemma UserDeleteOk(
    settings: map<int, Setting>, nextSetting: int, prefs: map<int, Preference>, nextPref: int,
    notifications: map<int, Notification>, logs: map<int, AuditLog>, nextLog: int, userId: string)
    requires SettingsOk(settings, nextSetting) && PreferencesOk(prefs, nextPref)
    requires NotificationsOk(notifications) && AuditLogsOk(logs, nextLog)
    ensures SettingsOk(SettingsAfterUserDelete(settings, userId), nextSetting)
    ensures PreferencesOk(PreferencesAfterUserDelete(prefs, userId), nextPref)
    ensures NotificationsOk(NotificationsAfterUserDelete(notifications, userId))
    ensures AuditLogsOk(AuditLogsAfterUserDelete(logs, userId), nextLog)
    ensures forall k :: k in SettingsAfterUserDelete(settings, userId) ==> SettingsAfterUserDelete(settings, userId)[k].updatedBy != Some(userId)
    ensures forall k :: k in AuditLogsAfterUserDelete(logs, userId) ==> AuditLogsAfterUserDelete(logs, userId)[k].userId != Some(userId)
    ensures forall k :: k in NotificationsAfterUserDelete(notifications, userId) ==> NotificationsAfterUserDelete(notifications, userId)[k].userId != userId
    ensures PreferencesUnique(prefs) ==> PreferencesUnique(PreferencesAfterUserDelete(prefs, userId))
  {
  }

  /** One `relations(...)` declaration: its exported name, its table and the column that references user.id. */
  datatype Relation = Relation(name: string, table: string, field: string)

  /** No two declarations export the same name, as a module's block-scoped constants require. */
  predicate DeclaredOnce(rs: seq<Relation>) {
    forall i, j :: 0 <= i < j < |rs| ==> rs[i].name != rs[j].name
  }

  /**
   * The relation declarations of the settings schema as written: the
   * notifications, audit-log and activity-log relations are declared a
   * second time after the type exports.
   */
  function RelationsAsWritten(): seq<Relation> {
    [ Relation("systemSettingsRelations", "systemSettings", "updatedBy"),
      Relation("notificationPreferencesRelations", "notificationPreferences", "userId"),
      Relation("notificationsRelations", "notifications", "userId"),
      Relation("auditLogsRelations", "auditLogs", "userId"),
      Relation("activityLogsRelations", "activityLogs", "userId"),
      Relation("notificationsRelations", "notifications", "userId"),
      Relation("auditLogsRelations", "auditLogs", "userId"),
      Relation("activityLogsRelations", "activityLogs", "userId") ]
  }

  /** The schema as written redeclares three names, each with the same relation as its first declaration. */
  lemma RelationsRedeclared()
    ensures !DeclaredOnce(RelationsAsWritten())
    ensures forall i :: 5 <= i < |RelationsAsWritten()| ==>
      RelationsAsWritten()[i] == RelationsAsWritten()[i - 3]
  {
    var rs := RelationsAsWritten();
    assert rs[2].name == rs[5].name;
  }

  /** The relation declarations with the repeated block dropped: one per table. */
  function SettingsRelations(): seq<Relation> {
    [ Relation("systemSettingsRelations", "systemSettings", "updatedBy"),
      Relation("notificationPreferencesRelations", "notificationPreferences", "userId"),
      Relation("notificationsRelations", "notifications", "userId"),
      Relation("auditLogsRelations", "auditLogs", "userId"),
      Relation("activityLogsRelations", "activityLogs", "userId") ]
  }

  /**
   * The corrected schema declares every name once, loses no relation of
   * the written one, and gives each table a single relation.
   */
  lemma RelationsDeclaredOnce()
    ensures DeclaredOnce(SettingsRelations())
    ensures forall r :: r in RelationsAsWritten() <==> r in SettingsRelations()
    ensures forall i, j :: 0 <= i < j < |SettingsRelations()| ==> SettingsRelations()[i].table != SettingsRelations()[j].table
  {
    var rs, ws := SettingsRelations(), RelationsAsWritten();
    forall r ensures r in ws <==> r in rs {
      assert r in ws <==> r == ws[0] || r == ws[1] || r == ws[2] || r == ws[3] || r == ws[4] || r == ws[5] || r == ws[6] || r == ws[7];
      assert r in rs <==> r == rs[0] || r == rs[1] || r == rs[2] || r == rs[3] || r == rs[4];
    }
  }
}
