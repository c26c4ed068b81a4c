/**
 * The notifications page. Notifications are kept in the browser's storage; the
 * page shows them split into unread and read, keeps a counter of the unread
 * ones beside the list, and can mark one, or all, as read. Times are shown as a
 * coarse "time ago" computed from the elapsed minutes.
 */
module Notifications {
  import opened Common
  import opened Text

  /**
   * One notification. `platform` is `None` when the field is absent; the
   * timestamp is in milliseconds since the epoch.
   */
  datatype Notification = Notification(
    id: string,
    kind: string,
    title: string,
    message: string,
    platform: Option<string>,
    points: int,
    timestampMs: int,
    read: bool)

  // ---------------------------------------------------------------- read and unread

  /** `notifications.filter(n => !n.read)`. */
  function Unread(ns: seq<Notification>): (r: seq<Notification>)
    ensures |r| <= |ns|
    ensures forall i | 0 <= i < |r| :: !r[i].read
    ensures forall n | n in ns && !n.read :: n in r
    ensures forall n | n in r :: n in ns
  {
    if ns == [] then []
    else if !ns[0].read then [ns[0]] + Unread(ns[1..])
    else Unread(ns[1..])
  }

  /** `notifications.filter(n => n.read)`. */
  function Read(ns: seq<Notification>): (r: seq<Notification>)
    ensures |r| <= |ns|
    ensures forall i | 0 <= i < |r| :: r[i].read
    ensures forall n | n in ns && n.read :: n in r
    ensures forall n | n in r :: n in ns
  {
    if ns == [] then []
    else if ns[0].read then [ns[0]] + Read(ns[1..])
    else Read(ns[1..])
  }

  /**
   * The unread and the read tabs split the list: together they hold every
   * notification exactly as often as the list does, and no notification is in both.
   */
  lemma {:induction false} ReadUnreadPartition(ns: seq<Notification>)
    ensures |Unread(ns)| + |Read(ns)| == |ns|
    ensures multiset(Unread(ns)) + multiset(Read(ns)) == multiset(ns)
    ensures forall n | n in Unread(ns) :: n !in Read(ns)
  {
    if ns != [] {
      ReadUnreadPartition(ns[1..]);
      assert ns == [ns[0]] + ns[1..];
    }
  }

  // ---------------------------------------------------------------- marking as read

  /** `markAsRead`'s new list: every item with that id becomes read. */
  function MarkRead(ns: seq<Notification>, id: string): (r: seq<Notification>)
    ensures |r| == |ns|
    ensures forall i | 0 <= i < |ns| :: r[i] == if ns[i].id == id then ns[i].(read := true) else ns[i]
  {
    seq(|ns|, i requires 0 <= i < |ns| => if ns[i].id == id then ns[i].(read := true) else ns[i])
  }

  /** `markAllAsRead`'s new list: every item becomes read. */
  function MarkAllRead(ns: seq<Notification>): (r: seq<Notification>)
    ensures |r| == |ns|
    ensures forall i | 0 <= i < |ns| :: r[i] == ns[i].(read := true)
  {
    seq(|ns|, i requires 0 <= i < |ns| => ns[i].(read := true))
  }

  /** Marking the same id twice is marking it once. */
  lemma MarkReadIdempotent(ns: seq<Notification>, id: string)
    ensures MarkRead(MarkRead(ns, id), id) == MarkRead(ns, id)
  {
  }

  /** Marking everything twice is marking it once. */
  lemma MarkAllReadIdempotent(ns: seq<Notification>)
    ensures MarkAllRead(MarkAllRead(ns)) == MarkAllRead(ns)
  {
  }

  /** The number of unread items that carry the id. */
  function UnreadWithId(ns: seq<Notification>, id: string): (k: nat)
    ensures k <= |Unread(ns)|
    ensures k == 0 <==> forall i | 0 <= i < |ns| :: ns[i].id == id ==> ns[i].read
  {
    if ns == [] then 0
    else UnreadWithId(ns[1..], id) + (if ns[0].id == id && !ns[0].read then 1 else 0)
  }

  /**
   * `markAsRead` lowers the unread count by exactly the number of unread items
   * carrying the id: by one when ids are unique and that item was unread, and not
   * at all for an unknown or already read id.
   */
  lemma {:induction false} MarkReadUnreadCount(ns: seq<Notification>, id: string)
    ensures |Unread(MarkRead(ns, id))| == |Unread(ns)| - UnreadWithId(ns, id)
  {
    if ns != [] {
      MarkReadUnreadCount(ns[1..], id);
      assert MarkRead(ns, id)[1..] == MarkRead(ns[1..], id);
    }
  }

  /** After `markAllAsRead` nothing is unread, so the counter's 0 is the recount. */
  lemma {:induction false} MarkAllReadLeavesNoneUnread(ns: seq<Notification>)
    ensures Unread(MarkAllRead(ns)) == []
    ensures Read(MarkAllRead(ns)) == MarkAllRead(ns)
  {
    if ns != [] {
      MarkAllReadLeavesNoneUnread(ns[1..]);
      assert MarkAllRead(ns)[1..] == MarkAllRead(ns[1..]);
    }
  }

  // ---------------------------------------------------------------- icons and colours

  datatype Icon = Bell | CheckCircle | Star | TrendingUp | Trophy | Twitter | Youtube | Instagram | MessageCircle

  /** The platform table of `getNotificationIcon` (keys are compared exactly). */
  function PlatformIconEntry(platform: string): Option<Icon> {
    if platform == "twitter" then Some(Twitter)
    else if platform == "youtube" then Some(Youtube)
    else if platform == "instagram" then Some(Instagram)
    else if platform == "discord" || platform == "telegram" || platform == "reddit" then Some(MessageCircle)
    else None
  }

  /** The type table of `getNotificationIcon`. */
  function KindIconEntry(kind: string): Option<Icon> {
    if kind == "task_completed" then Some(CheckCircle)
    else if kind == "points_earned" then Some(Star)
    else if kind == "task_created" then Some(TrendingUp)
    else if kind == "milestone" then Some(Trophy)
    else if kind == "system" then Some(Bell)
    else None
  }

  /** A JavaScript string is truthy when it is not empty. */
  predicate PlatformPresent(platform: Option<string>) {
    platform.Some? && platform.value != ""
  }

  /**
   * `getNotificationIcon(type, platform)`: a present platform decides alone, with
   * `Bell` for one the table lacks; only without a platform does the type decide,
   * again with `Bell` as the fallback.
   */
  function NotificationIcon(kind: string, platform: Option<string>): (icon: Icon)
    ensures PlatformPresent(platform) ==> icon == PlatformIconEntry(platform.value).GetOr(Bell)
    ensures !PlatformPresent(platform) ==> icon == KindIconEntry(kind).GetOr(Bell)
  {
    if PlatformPresent(platform) then PlatformIconEntry(platform.value).GetOr(Bell)
    else KindIconEntry(kind).GetOr(Bell)
  }

  /** A present platform overrides the type, whatever the type is. */
  lemma PlatformOverridesKind(kind1: string, kind2: string, platform: Option<string>)
    requires PlatformPresent(platform)
    ensures NotificationIcon(kind1, platform) == NotificationIcon(kind2, platform)
  {
  }

  /** Without a platform, a type outside the table shows the bell. */
  lemma UnknownKindShowsBell(kind: string)
    requires KindIconEntry(kind).None?
    ensures NotificationIcon(kind, None) == Bell
    ensures NotificationIcon(kind, Some("")) == Bell
  {
  }

  /** `getNotificationColor(type)`, with `text-gray-400` for a type the table lacks. */
  function NotificationColor(kind: string): (colour: string)
    ensures kind !in {"task_completed", "points_earned", "task_created", "milestone"} ==> colour == "text-gray-400"
    ensures kind == "task_completed" ==> colour == "text-green-400"
    ensures kind == "points_earned" ==> colour == "text-yellow-400"
    ensures kind == "task_created" ==> colour == "text-blue-400"
    ensures kind == "milestone" ==> colour == "text-purple-400"
  {
    if kind == "task_completed" then "text-green-400"
    else if kind == "points_earned" then "text-yellow-400"
    else if kind == "task_created" then "text-blue-400"
    else if kind == "milestone" then "text-purple-400"
    else "text-gray-400"
  }

  // ---------------------------------------------------------------- time ago

  const MsPerMinute := 60000
  const MinutesPerHour := 60
  const MinutesPerDay := 1440

  /** The bucket `formatTimeAgo` picks, with the count it shows. */
  datatype TimeAgo = JustNow | MinutesAgo(minutes: nat) | HoursAgo(hours: nat) | DaysAgo(days: nat)

  /**
   * The bucket for an elapsed time in milliseconds (negative when the timestamp is
   * in the future): whole minutes by floor division, then "just now" under one
   * minute, minutes under an hour, whole hours under a day, whole days after.
   */
  function TimeAgoOf(elapsedMs: int): (t: TimeAgo)
    ensures t.JustNow? <==> elapsedMs < MsPerMinute
    ensures t.MinutesAgo? ==> 1 <= t.minutes < 60
    ensures t.HoursAgo? ==> 1 <= t.hours < 24
    ensures t.DaysAgo? ==> t.days >= 1
  {
    var minutes := elapsedMs / MsPerMinute;
    if minutes < 1 then JustNow
    else if minutes < MinutesPerHour then MinutesAgo(minutes)
    else if minutes < MinutesPerDay then HoursAgo(minutes / MinutesPerHour)
    else DaysAgo(minutes / MinutesPerDay)
  }

  /** The bucket's text: "Just now", or the count read back by `parseInt` and then its unit. */
  function RenderTimeAgo(t: TimeAgo): (text: string)
    ensures text == "Just now" <==> t.JustNow?
    ensures t.MinutesAgo? ==> text == NatToString(t.minutes) + "m ago" && ParseInt(text) == Some(t.minutes)
    ensures t.HoursAgo? ==> text == NatToString(t.hours) + "h ago" && ParseInt(text) == Some(t.hours)
    ensures t.DaysAgo? ==> text == NatToString(t.days) + "d ago" && ParseInt(text) == Some(t.days)
  {
    match t
    case JustNow => "Just now"
    case MinutesAgo(m) => ParseIntOfNumberAndSuffix(m, "m ago"); NatToString(m) + "m ago"
    case HoursAgo(h) => ParseIntOfNumberAndSuffix(h, "h ago"); NatToString(h) + "h ago"
    case DaysAgo(d) => ParseIntOfNumberAndSuffix(d, "d ago"); NatToString(d) + "d ago"
  }

  /**
   * `formatTimeAgo`, given how many milliseconds ago the timestamp lies: "Just now"
   * under a minute, then the whole minutes, hours or days elapsed with their unit.
   */
  function FormatTimeAgo(elapsedMs: int): (text: string)
    ensures text == "Just now" <==> elapsedMs < MsPerMinute
    ensures MsPerMinute <= elapsedMs < MsPerMinute * MinutesPerHour ==>
      && text == NatToString(elapsedMs / MsPerMinute) + "m ago"
      && ParseInt(text) == Some(elapsedMs / MsPerMinute)
    ensures MsPerMinute * MinutesPerHour <= elapsedMs < MsPerMinute * MinutesPerDay ==>
      && text == NatToString(elapsedMs / (MsPerMinute * MinutesPerHour)) + "h ago"
      && ParseInt(text) == Some(elapsedMs / (MsPerMinute * MinutesPerHour))
    ensures MsPerMinute * MinutesPerDay <= elapsedMs ==>
      && text == NatToString(elapsedMs / (MsPerMinute * MinutesPerDay)) + "d ago"
      && ParseInt(text) == Some(elapsedMs / (MsPerMinute * MinutesPerDay))
  {
    var minutes := elapsedMs / MsPerMinute;
    assert minutes / MinutesPerHour == elapsedMs / (MsPerMinute * MinutesPerHour);
    assert minutes / MinutesPerDay == elapsedMs / (MsPerMinute * MinutesPerDay);
    RenderTimeAgo(TimeAgoOf(elapsedMs))
  }

  /**
   * Each bucket is exactly an interval of elapsed time: `k` minutes for
   * `[k, k+1)` minutes below an hour, `h` hours for `[60h, 60h+60)` minutes below a
   * day, and `d` days for `[1440d, 1440d+1440)` minutes.
   */
  lemma TimeAgoIntervals(elapsedMs: int)
    ensures TimeAgoOf(elapsedMs).MinutesAgo? ==>
      var k := TimeAgoOf(elapsedMs).minutes;
      MsPerMinute * k <= elapsedMs < MsPerMinute * (k + 1)
    ensures TimeAgoOf(elapsedMs).HoursAgo? ==>
      var h := TimeAgoOf(elapsedMs).hours;
      MsPerMinute * MinutesPerHour * h <= elapsedMs < MsPerMinute * MinutesPerHour * (h + 1)
    ensures TimeAgoOf(elapsedMs).DaysAgo? ==>
      var d := TimeAgoOf(elapsedMs).days;
      MsPerMinute * MinutesPerDay * d <= elapsedMs < MsPerMinute * MinutesPerDay * (d + 1)
  {
    var minutes := elapsedMs / MsPerMinute;
    assert MsPerMinute * minutes <= elapsedMs < MsPerMinute * (minutes + 1);
    if 60 <= minutes < MinutesPerDay {
      var h := minutes / MinutesPerHour;
      assert MinutesPerHour * h <= minutes < MinutesPerHour * (h + 1);
      assert MsPerMinute * (MinutesPerHour * h) <= MsPerMinute * minutes;
      assert MsPerMinute * (minutes + 1) <= MsPerMinute * (MinutesPerHour * (h + 1));
    } else if minutes >= MinutesPerDay {
      var d := minutes / MinutesPerDay;
      assert MinutesPerDay * d <= minutes < MinutesPerDay * (d + 1);
      assert MsPerMinute * (MinutesPerDay * d) <= MsPerMinute * minutes;
      assert MsPerMinute * (minutes + 1) <= MsPerMinute * (MinutesPerDay * (d + 1));
    }
  }

  // ---------------------------------------------------------------- the demo list

  /**
   * The four demo notifications written on first visit, dated relative to `now`:
   * distinct ids, none dated after `now`, newest first.
   */
  function DemoNotifications(now: int): (r: seq<Notification>)
    ensures |r| == 4
    ensures forall i, j | 0 <= i < j < |r| :: r[i].id != r[j].id
    ensures forall i | 0 <= i < |r| :: r[i].timestampMs < now
    ensures forall i, j | 0 <= i < j < |r| :: r[i].timestampMs > r[j].timestampMs
  {
    [
      Notification("1", "task_completed", "Task Completed!", "Someone followed your Twitter account",
        Some("twitter"), 50, now - 1000 * 60 * 30, false),
      Notification("2", "points_earned", "Points Earned!",
        "You earned 75 points for subscribing to a YouTube channel",
        Some("youtube"), 75, now - 1000 * 60 * 60 * 2, false),
      Notification("3", "task_created", "Task Posted!", "Your Instagram like task is now live",
        Some("instagram"), 25, now - 1000 * 60 * 60 * 6, true),
      Notification("4", "milestone", "Milestone Reached!", "Congratulations! You've earned over 1000 points",
        None, 0, now - 1000 * 60 * 60 * 24, true)
    ]
  }

  /** The demo list starts with two unread and two read notifications. */
  lemma DemoUnreadCount(now: int)
    ensures |Unread(DemoNotifications(now))| == 2
    ensures |Read(DemoNotifications(now))| == 2
  {
    var demo := DemoNotifications(now);
    assert demo[1..][1..] == demo[2..];
    assert demo[2..][1..] == demo[3..];
    assert demo[3..][1..] == [];
    assert Unread(demo[3..]) == [];
    assert Unread(demo[2..]) == [];
    assert Unread(demo) == [demo[0], demo[1]];
    ReadUnreadPartition(demo);
  }

  /** Read at the moment they are written, the demo notifications show 30m, 2h, 6h and 1d ago. */
  lemma DemoAges(now: int)
    ensures TimeAgoOf(now - DemoNotifications(now)[0].timestampMs) == MinutesAgo(30)
    ensures TimeAgoOf(now - DemoNotifications(now)[1].timestampMs) == HoursAgo(2)
    ensures TimeAgoOf(now - DemoNotifications(now)[2].timestampMs) == HoursAgo(6)
    ensures TimeAgoOf(now - DemoNotifications(now)[3].timestampMs) == DaysAgo(1)
  {
    var demo := DemoNotifications(now);
    assert now - demo[0].timestampMs == 1800000;
    assert now - demo[1].timestampMs == 7200000;
    assert now - demo[2].timestampMs == 21600000;
    assert now - demo[3].timestampMs == 86400000;
  }

  // ---------------------------------------------------------------- the page

  class NotificationsPage {
    /** The `hypehub_notifications` storage entry; `None` when absent or empty. */
    var stored: Option<seq<Notification>>
    var notifications: seq<Notification>
    var unreadCount: int

    /** The counter always agrees with a recount of the list. */
    ghost predicate Valid()
      reads this
    {
      unreadCount == |Unread(notifications)|
    }

    /**
     * The page as it stands after its mount effect: a stored list is shown as it is;
     * without one, the demo list dated from `now` is shown and written to storage.
     */
    constructor (stored: Option<seq<Notification>>, now: int)
      ensures Valid()
      ensures stored.Some? ==> notifications == stored.value && this.stored == stored
      ensures stored.None? ==> notifications == DemoNotifications(now) && this.stored == Some(notifications)
    {
      var shown := if stored.Some? then stored.value else DemoNotifications(now);
      notifications := shown;
      unreadCount := |Unread(shown)|;
      this.stored := Some(shown);
    }

    /** `markAsRead(id)`: replace the list, recount, and store the new list. */
    method MarkAsRead(id: string)
      requires Valid()
      modifies this
      ensures Valid()
      ensures notifications == MarkRead(old(notifications), id)
      ensures unreadCount == old(unreadCount) - UnreadWithId(old(notifications), id)
      ensures stored == Some(notifications)
    {
      MarkReadUnreadCount(notifications, id);
      notifications := MarkRead(notifications, id);
      unreadCount := |Unread(notifications)|;
      stored := Some(notifications);
    }

    /** `markAllAsRead()`: everything read, the counter set to 0, the list stored. */
    method MarkAllAsRead()
      requires Valid()
      modifies this
      ensures Valid()
      ensures notifications == MarkAllRead(old(notifications))
      ensures unreadCount == 0
      ensures stored == Some(notifications)
    {
      notifications := MarkAllRead(notifications);
      unreadCount := 0;
      stored := Some(notifications);
      MarkAllReadLeavesNoneUnread(old(notifications));
    }
  }
}
