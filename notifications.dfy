/**
 * The daily reminder scheduler (utils/notifications.ts): a wrapper over the
 * platform's queue of scheduled local notifications and three AsyncStorage
 * settings ("@notification_enabled", "@notification_time",
 * "@notification_id").
 *
 * The platform queue and the settings are the fields of `Scheduler`. Every
 * awaited call is one step; the id the platform hands out, the user's answer
 * to a permission prompt and the call that throws are parameters.
 */
module Notifications {
  import opened Optional
  import opened JsText

  /** A local hour, as `Date.prototype.getHours` returns it. */
  type Hour = h: int | 0 <= h < 24
  /** A minute, as `Date.prototype.getMinutes` returns it. */
  type Minute = m: int | 0 <= m < 60

  /** The `time` argument of `manageNotifications`: omitted, an invalid Date, or a valid Date's local hour and minute. */
  datatype TimeArg = NoTime | InvalidDate | At(hour: Hour, minute: Minute)

  /** What a delivered notification shows, and the screen it opens. */
  datatype Content = Content(title: string, body: string, screen: string)

  /** A scheduled notification with a daily trigger at `hour`:`minute`. */
  datatype Trigger = DailyTrigger(id: string, content: Content, hour: Hour, minute: Minute, repeats: bool)

  const ReminderContent: Content := Content("Daily Reminder", "Time to check your app!", "/")
  const ReflectionContent: Content :=
    Content("Daily Reflection", "Take a moment to reflect on your day. What positive thing happened today?", "today")

  /** The reminder time used when none (or an invalid one) is given: 6 PM. */
  const DefaultHour: Hour := 18
  const DefaultMinute: Minute := 0

  /** A settings key: "@notification_enabled", "@notification_time" or "@notification_id". */
  datatype SettingKey = EnabledKey | TimeKey | IdKey

  /** The platform's scheduled notifications and the three stored settings (absent until written). */
  datatype ReminderState = ReminderState(
    triggers: seq<Trigger>,
    enabled: Option<bool>,
    time: Option<string>,
    notificationId: Option<string>)

  /** The stored time text `${hours}:${minutes}`: decimal, not zero-padded. */
  function TimeString(hour: Hour, minute: Minute): string {
    Decimal(hour) + ":" + Decimal(minute)
  }

  /** Reads "h:m" text back into its two numbers. */
  function ParseTime(s: string): Option<(nat, nat)> {
    match IndexOf(s, ':')
    case None => None
    case Some(k) =>
      if 0 < k < |s| - 1 && AllDigits(s[..k]) && AllDigits(s[k + 1..]) then
        Some((DecimalValue(s[..k]), DecimalValue(s[k + 1..])))
      else
        None
  }

  /** The stored time text reads back as the hour and minute it was made from. */
  lemma {:induction false} TimeStringRoundTrip(hour: Hour, minute: Minute)
    ensures ParseTime(TimeString(hour, minute)) == Some((hour as nat, minute as nat))
  {
    var h, m := Decimal(hour), Decimal(minute);
    var s := TimeString(hour, minute);
    assert s[|h|] == ':';
    assert forall i :: 0 <= i < |h| ==> s[i] == h[i] && IsDigit(s[i]);
    var k := IndexOf(s, ':').value;
    assert k == |h|;
    assert s[..k] == h;
    assert s[k + 1..] == m;
    DecimalRoundTrip(hour);
    DecimalRoundTrip(minute);
  }

  /** The hour and minute `manageNotifications` uses: the given Date's, or 18:00 when it is absent or invalid. */
  function ChosenTime(time: TimeArg): (Hour, Minute) {
    if time.At? then (time.hour, time.minute) else (DefaultHour, DefaultMinute)
  }

  /** The call of `manageNotifications` that throws, when one does. */
  datatype ManageCall = CancelAll | WriteEnabled | WriteTime | ScheduleReminder | ListScheduled

  /** The state after a call, what it returned (None for `null` or a throw), and the settings keys it wrote, in order. */
  datatype Transition = Transition(after: ReminderState, returned: Option<string>, written: seq<SettingKey>)

  /**
   * `manageNotifications(enabled, time)`: cancel every scheduled
   * notification; if `enabled === false`, store false and return null;
   * otherwise store true and the time text, schedule one repeating daily
   * trigger at the chosen time and return its id. Any throw is caught and
   * yields null; whatever was already done stays done.
   */
  function Manage(st: ReminderState, enabled: Option<bool>, time: TimeArg, newId: string, failing: Option<ManageCall>): Transition {
    if failing == Some(CancelAll) then Transition(st, None, [])
    else
      var cleared := st.(triggers := []);
      if enabled == Some(false) then
        if failing == Some(WriteEnabled) then Transition(cleared, None, [])
        else Transition(cleared.(enabled := Some(false)), None, [EnabledKey])
      else
        var (hour, minute) := ChosenTime(time);
        if failing == Some(WriteEnabled) then Transition(cleared, None, [])
        else
          var s1 := cleared.(enabled := Some(true));
          if failing == Some(WriteTime) then Transition(s1, None, [EnabledKey])
          else
            var s2 := s1.(time := Some(TimeString(hour, minute)));
            if failing == Some(ScheduleReminder) then Transition(s2, None, [EnabledKey, TimeKey])
            else
              var s3 := s2.(triggers := [DailyTrigger(newId, ReminderContent, hour, minute, true)]);
              if failing == Some(ListScheduled) then Transition(s3, None, [EnabledKey, TimeKey])
              else Transition(s3, Some(newId), [EnabledKey, TimeKey])
  }

  /**
   * `manageNotifications(false)` returns null and leaves nothing scheduled,
   * with false stored and the time and id settings untouched, whatever the
   * state before, including an already disabled one.
   */
  lemma ManageDisabled(st: ReminderState, time: TimeArg, newId: string, failing: Option<ManageCall>)
    ensures var t := Manage(st, Some(false), time, newId, failing);
            && t.returned == None
            && (failing != Some(CancelAll) ==> t.after.triggers == [])
            && (failing != Some(CancelAll) && failing != Some(WriteEnabled) ==> t.after.enabled == Some(false) && t.written == [EnabledKey])
            && t.after.time == st.time && t.after.notificationId == st.notificationId
  {
  }

  /**
   * For any `enabled` other than false (omitted included), a call that does
   * not fail leaves exactly one repeating daily trigger, at the given time if
   * it is a valid Date and at 18:00 otherwise, with true and the unpadded
   * "h:m" text stored (enabled first), and returns that trigger's id.
   */
  lemma ManageEnabledSchedulesOne(st: ReminderState, enabled: Option<bool>, time: TimeArg, newId: string)
    requires enabled != Some(false)
    ensures var t := Manage(st, enabled, time, newId, None);
            var hour := if time.At? then time.hour else 18;
            var minute := if time.At? then time.minute else 0;
            && |t.after.triggers| == 1
            && t.after.triggers[0] == DailyTrigger(newId, ReminderContent, hour, minute, true)
            && t.after.enabled == Some(true)
            && t.after.time == Some(Decimal(hour) + ":" + Decimal(minute))
            && t.written == [EnabledKey, TimeKey]
            && t.returned == Some(newId)
  {
  }

  /**
   * Whatever the call and however it fails after cancelling, at most one
   * trigger is left, and it is the one this call scheduled.
   */
  lemma ManageLeavesAtMostOne(st: ReminderState, enabled: Option<bool>, time: TimeArg, newId: string, failing: Option<ManageCall>)
    requires failing != Some(CancelAll)
    ensures var t := Manage(st, enabled, time, newId, failing);
            && |t.after.triggers| <= 1
            && (forall k :: 0 <= k < |t.after.triggers| ==> t.after.triggers[k].id == newId && t.after.triggers[k].repeats)
  {
  }

  /**
   * Any failure makes `manageNotifications` return null, and settings
   * written before it stay written: a failing schedule leaves true stored
   * with nothing scheduled. The call never stores a notification id.
   */
  lemma {:induction false} ManageFailureReturnsNull(st: ReminderState, enabled: Option<bool>, time: TimeArg, newId: string, failing: Option<ManageCall>)
    ensures var t := Manage(st, enabled, time, newId, failing);
            && (t.returned.Some? <==> enabled != Some(false) && failing == None)
            && (enabled != Some(false) && failing == Some(ScheduleReminder) ==>
                  t.after.triggers == [] && t.after.enabled == Some(true) && t.written == [EnabledKey, TimeKey])
            && t.after.notificationId == st.notificationId
  {
    if enabled != Some(false) && failing == None {
      ManageEnabledSchedulesOne(st, enabled, time, newId);
    } else if failing.Some? {
      match failing.value
      case CancelAll =>
      case WriteEnabled =>
      case WriteTime =>
      case ScheduleReminder =>
      case ListScheduled =>
    }
  }

  /**
   * For an enabling call, a failure part-way keeps every step before it: a
   * throwing cancel changes nothing; a throwing write of true leaves the queue
   * empty and the settings as they were; a throwing time write leaves true
   * stored beside the old time text; a throwing schedule leaves true and the
   * new time text with nothing scheduled; and a throwing listing of the queue
   * leaves the reminder scheduled and both settings written, yet returns null.
   */
  lemma ManagePartialFailure(st: ReminderState, enabled: Option<bool>, time: TimeArg, newId: string, failing: ManageCall)
    requires enabled != Some(false)
    ensures var t := Manage(st, enabled, time, newId, Some(failing));
            var (hour, minute) := ChosenTime(time);
            && t.returned == None
            && t.after.notificationId == st.notificationId
            && (failing == CancelAll ==> t.after == st && t.written == [])
            && (failing == WriteEnabled ==>
                  t.after.triggers == [] && t.after.enabled == st.enabled && t.after.time == st.time && t.written == [])
            && (failing == WriteTime ==>
                  t.after.triggers == [] && t.after.enabled == Some(true) && t.after.time == st.time && t.written == [EnabledKey])
            && (failing == ScheduleReminder ==>
                  t.after.triggers == [] && t.after.enabled == Some(true) && t.after.time == Some(TimeString(hour, minute))
                  && t.written == [EnabledKey, TimeKey])
            && (failing == ListScheduled ==>
                  t.after.triggers == [DailyTrigger(newId, ReminderContent, hour, minute, true)]
                  && t.after.enabled == Some(true) && t.after.time == Some(TimeString(hour, minute))
                  && t.written == [EnabledKey, TimeKey])
  {
  }

  /**
   * Re-applying the same setting, as every app launch does, ends in the same
   * state as applying it once: the queue is rebuilt, not added to.
   */
  lemma {:induction false} ManageIdempotent(st: ReminderState, enabled: Option<bool>, time: TimeArg, id1: string, id2: string)
    ensures Manage(Manage(st, enabled, time, id1, None).after, enabled, time, id2, None).after
         == Manage(st, enabled, time, id2, None).after
  {
    if enabled != Some(false) {
      ManageEnabledSchedulesOne(st, enabled, time, id1);
      ManageEnabledSchedulesOne(st, enabled, time, id2);
      ManageEnabledSchedulesOne(Manage(st, enabled, time, id1, None).after, enabled, time, id2);
    }
  }

  /**
   * The launch call `manageNotifications()` (no arguments) always schedules
   * the 18:00 reminder and stores "18:0".
   */
  lemma {:induction false} LaunchSchedulesSixPm(st: ReminderState, newId: string)
    ensures var t := Manage(st, None, NoTime, newId, None);
            t.after.triggers == [DailyTrigger(newId, ReminderContent, 18, 0, true)] && t.after.time == Some("18:0")
  {
    ManageEnabledSchedulesOne(st, None, NoTime, newId);
    assert Decimal(18) == "18" by {
      assert Decimal(1) == "1";
      assert Decimal(8) == "8";
    }
    assert Decimal(0) == "0";
    assert Decimal(18) + ":" + Decimal(0) == "18:0";
  }

  /** The call of `scheduleDailyNotification` that throws, when one does. */
  datatype ScheduleCall = CancelExisting | ScheduleReflection | WriteId

  /**
   * `scheduleDailyNotification(time)`: cancel every scheduled notification,
   * schedule one repeating daily trigger at the time's hour and minute, store
   * its id under "@notification_id" and return it. A throw is not caught: it
   * reaches the caller (None here) with the earlier steps done.
   */
  function ScheduleDaily(st: ReminderState, hour: Hour, minute: Minute, newId: string, failing: Option<ScheduleCall>): Transition {
    if failing == Some(CancelExisting) then Transition(st, None, [])
    else
      var cleared := st.(triggers := []);
      if failing == Some(ScheduleReflection) then Transition(cleared, None, [])
      else
        var scheduled := cleared.(triggers := [DailyTrigger(newId, ReflectionContent, hour, minute, true)]);
        if failing == Some(WriteId) then Transition(scheduled, None, [])
        else Transition(scheduled.(notificationId := Some(newId)), Some(newId), [IdKey])
  }

  /**
   * Without a failure, `scheduleDailyNotification` leaves exactly one
   * repeating trigger, at the given hour and minute, and stores and returns
   * its id; the enabled and time settings are untouched.
   */
  lemma ScheduleDailyLeavesOne(st: ReminderState, hour: Hour, minute: Minute, newId: string)
    ensures var t := ScheduleDaily(st, hour, minute, newId, None);
            && t.after.triggers == [DailyTrigger(newId, ReflectionContent, hour, minute, true)]
            && t.after.notificationId == Some(newId) && t.returned == Some(newId) && t.written == [IdKey]
            && t.after.enabled == st.enabled && t.after.time == st.time
  {
  }

  /** The permission status the platform reports. */
  datatype PermissionStatus = Granted | Denied | Undetermined

  /** Whether the user was asked, the final status, and the push token obtained (None for `null`). */
  datatype Registration = Registration(asked: bool, finalStatus: PermissionStatus, token: Option<string>)

  /**
   * The permission decision of `registerForPushNotificationsAsync`: ask only
   * when the existing status is not granted (`answer` is what the prompt
   * returns), and return null unless the final status is granted;
   * `pushToken` stands for the token the push service hands out.
   */
  function RegisterForPush(existing: PermissionStatus, answer: PermissionStatus, pushToken: string): (r: Registration)
    ensures r.asked <==> existing != Granted
    ensures r.token.Some? <==> existing == Granted || answer == Granted
    ensures r.token.Some? ==> r.token.value == pushToken
  {
    var finalStatus := if existing != Granted then answer else existing;
    if finalStatus != Granted then Registration(existing != Granted, finalStatus, None)
    else Registration(existing != Granted, finalStatus, Some(pushToken))
  }

  /** `checkNotificationPermissions`: true exactly for granted; a throwing status query (None) gives false. */
  function CheckNotificationPermissions(status: Option<PermissionStatus>): (granted: bool)
    ensures granted <==> status == Some(Granted)
  {
    match status
    case None => false
    case Some(s) => s == Granted
  }

  /**
   * A registration yields a token exactly when a permission check made
   * right after it reports granted, and once granted a later registration
   * does not ask again.
   */
  lemma RegistrationAgreesWithCheck(existing: PermissionStatus, answer: PermissionStatus, pushToken: string, again: PermissionStatus)
    ensures var r := RegisterForPush(existing, answer, pushToken);
            && (r.token.Some? <==> CheckNotificationPermissions(Some(r.finalStatus)))
            && (r.token.Some? ==> !RegisterForPush(r.finalStatus, again, pushToken).asked)
  {
  }

  /** The platform's notification queue and the reminder settings in AsyncStorage. */
  class Scheduler {
    var triggers: seq<Trigger>
    var enabledSetting: Option<bool>
    var timeSetting: Option<string>
    var idSetting: Option<string>
    ghost var written: seq<SettingKey>

    function State(): ReminderState
      reads this
    {
      ReminderState(triggers, enabledSetting, timeSetting, idSetting)
    }

    /** A scheduler over whatever the platform and storage already hold. */
    constructor (st: ReminderState)
      ensures State() == st && written == []
    {
      triggers := st.triggers;
      enabledSetting := st.enabled;
      timeSetting := st.time;
      idSetting := st.notificationId;
      written := [];
    }

    /** `cancelAllScheduledNotifications`: empty the platform queue; settings are untouched. */
    method CancelAllScheduledNotifications()
      modifies this
      ensures State() == old(State()).(triggers := []) && written == old(written)
    {
      triggers := [];
    }

    /** `manageNotifications`, step by step. */
    method ManageNotifications(enabled: Option<bool>, time: TimeArg, newId: string, failing: Option<ManageCall>)
      returns (id: Option<string>)
      modifies this
      ensures var t := Manage(old(State()), enabled, time, newId, failing);
              State() == t.after && id == t.returned && written == old(written) + t.written
    {
      if failing == Some(CancelAll) {
        return None;
      }
      triggers := [];
      if enabled == Some(false) {
        if failing == Some(WriteEnabled) {
          return None;
        }
        enabledSetting := Some(false);
        written := written + [EnabledKey];
        return None;
      }
      var hours: Hour, minutes: Minute;
      if time.At? {
        hours, minutes := time.hour, time.minute;
      } else {
        hours, minutes := DefaultHour, DefaultMinute;
      }
      var timeString := TimeString(hours, minutes);
      if failing == Some(WriteEnabled) {
        return None;
      }
      enabledSetting := Some(true);
      written := written + [EnabledKey];
      if failing == Some(WriteTime) {
        return None;
      }
      timeSetting := Some(timeString);
      written := written + [TimeKey];
      if failing == Some(ScheduleReminder) {
        return None;
      }
      triggers := triggers + [DailyTrigger(newId, ReminderContent, hours, minutes, true)];
      if failing == Some(ListScheduled) {
        return None;
      }
      id := Some(newId);
    }

    /** `scheduleDailyNotification`, step by step; None when a call throws. */
    method ScheduleDailyNotification(hour: Hour, minute: Minute, newId: string, failing: Option<ScheduleCall>)
      returns (id: Option<string>)
      modifies this
      ensures var t := ScheduleDaily(old(State()), hour, minute, newId, failing);
              State() == t.after && id == t.returned && written == old(written) + t.written
    {
      if failing == Some(CancelExisting) {
        return None;
      }
      CancelAllScheduledNotifications();
      if failing == Some(ScheduleReflection) {
        return None;
      }
      triggers := triggers + [DailyTrigger(newId, ReflectionContent, hour, minute, true)];
      if failing == Some(WriteId) {
        return None;
      }
      idSetting := Some(newId);
      written := written + [IdKey];
      id := Some(newId);
    }
  }

  /** Disabled, then enabled at 09:30: one trigger at 9:30 and nothing left from before. */
  method DisableThenEnableAtNineThirty(st: ReminderState)
  {
    var s := new Scheduler(st);
    var none := s.ManageNotifications(Some(false), NoTime, "a", None);
    assert s.triggers == [] && s.enabledSetting == Some(false) && none == None;
    var id := s.ManageNotifications(Some(true), At(9, 30), "b", None);
    assert s.triggers == [DailyTrigger("b", ReminderContent, 9, 30, true)];
    assert id == Some("b");
  }
}
