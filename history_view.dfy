/** The display side of the history (fix-anonymous-user-frontend.js):
    `getTypeDisplayName`, `formatTime` and the structure `renderHistory` writes
    into the page, without the HTML markup. */
module HistoryView {
  import opened Options
  import Decimal
  import opened HistorySync

  /** The names an object literal inherits from `Object.prototype`: looking
      one of them up in the type map finds the inherited member instead of
      `undefined`. */
  predicate InheritedKey(kind: string) {
    kind in {"constructor", "hasOwnProperty", "isPrototypeOf", "propertyIsEnumerable",
             "toLocaleString", "toString", "valueOf", "__proto__",
             "__defineGetter__", "__defineSetter__", "__lookupGetter__", "__lookupSetter__"}
  }

  /** The text an inherited member shows as when interpolated into the page:
      `__proto__` is `Object.prototype` itself, `constructor` is the `Object`
      function, and every other inherited member is a built-in function of
      that name (in the native-code form V8 and SpiderMonkey print). */
  function InheritedText(kind: string): (shown: string)
    requires InheritedKey(kind)
    ensures shown != kind
  {
    if kind == "__proto__" then "[object Object]"
    else if kind == "constructor" then "function Object() { [native code] }"
    else "function " + kind + "() { [native code] }"
  }

  /** The label shown for an entry's `type`: `typeMap[type] || type`. */
  function TypeDisplayName(kind: string): (shown: string)
    ensures kind == "text-to-image" ==> shown == "text generation"
    ensures kind == "image-edit" ==> shown == "image editing"
    ensures kind == "multi-image" ==> shown == "multi-image"
    ensures InheritedKey(kind) ==> shown == InheritedText(kind) && shown != kind
    ensures kind !in {"text-to-image", "image-edit", "multi-image"} && !InheritedKey(kind) ==> shown == kind
  {
    if kind == "text-to-image" then "text generation"
    else if kind == "image-edit" then "image editing"
    else if kind == "multi-image" then "multi-image"
    else if InheritedKey(kind) then InheritedText(kind)
    else kind
  }

  /** Only an empty type is shown as an empty label. */
  lemma TypeDisplayNameEmpty(kind: string)
    ensures TypeDisplayName(kind) == "" <==> kind == ""
  {
  }

  const MinuteMs := 60000
  const HourMs := 3600000
  const DayMs := 86400000

  /** A relative time. `Absolute(at)` is shown with the browser's locale date
      and time of `at`; `at` is `None` for an entry whose `createdAt` is
      missing (`undefined` gives an invalid date, `null` the epoch). The two
      locale texts are parameters of `TimeText`, so which of these dates is
      meant makes no difference to the model. */
  datatype TimeLabel = Just | MinutesAgo(minutes: nat) | HoursAgo(hours: nat) | Absolute(at: Option<int>)

  /** `formatTime(createdAt)` at the instant `now` (both in milliseconds). */
  function FormatTime(createdAt: Option<int>, now: int): (t: TimeLabel)
    ensures t.MinutesAgo? ==> 1 <= t.minutes <= 59
    ensures t.HoursAgo? ==> 1 <= t.hours <= 23
  {
    match createdAt
    case None => Absolute(None)
    case Some(at) =>
      var diff := now - at;
      if diff < MinuteMs then Just
      else if diff < HourMs then MinutesAgo(diff / MinuteMs)
      else if diff < DayMs then HoursAgo(diff / HourMs)
      else Absolute(Some(at))
  }

  /** The buckets: which label each difference gets, and that the number shown
      is the whole count of minutes or hours elapsed (the floor). */
  lemma FormatTimeBuckets(at: int, now: int)
    ensures var t := FormatTime(Some(at), now);
      && (now - at < MinuteMs <==> t == Just)
      && (MinuteMs <= now - at < HourMs <==> t.MinutesAgo?)
      && (HourMs <= now - at < DayMs <==> t.HoursAgo?)
      && (DayMs <= now - at <==> t == Absolute(Some(at)))
      && (t.MinutesAgo? ==> t.minutes * MinuteMs <= now - at < (t.minutes + 1) * MinuteMs)
      && (t.HoursAgo? ==> t.hours * HourMs <= now - at < (t.hours + 1) * HourMs)
  {
  }

  /** Later instants never move an entry to an earlier bucket. */
  lemma FormatTimeMonotone(at: int, now: int, later: int)
    requires now <= later
    ensures var (t, u) := (FormatTime(Some(at), now), FormatTime(Some(at), later));
      && (t.MinutesAgo? ==> !u.Just?)
      && (t.HoursAgo? ==> u.HoursAgo? || u.Absolute?)
      && (t.Absolute? ==> u.Absolute?)
      && (t.MinutesAgo? && u.MinutesAgo? ==> t.minutes <= u.minutes)
      && (t.HoursAgo? && u.HoursAgo? ==> t.hours <= u.hours)
  {
  }

  /** The text `formatTime` returns. `localeDate` and `localeTime` stand for
      `toLocaleDateString()` and `toLocaleTimeString()` of the date. */
  function TimeText(t: TimeLabel, localeDate: string, localeTime: string): (s: string)
    ensures t.Just? ==> s == "just"
    ensures t.MinutesAgo? ==> s == Decimal.Show(t.minutes) + "minute ago"
    ensures t.HoursAgo? ==> s == Decimal.Show(t.hours) + "hour ago"
    ensures t.Absolute? ==> s == localeDate + " " + localeTime
  {
    match t
    case Just => "just"
    case MinutesAgo(m) => Decimal.Show(m) + "minute ago"
    case HoursAgo(h) => Decimal.Show(h) + "hour ago"
    case Absolute(_) => localeDate + " " + localeTime
  }

  /** The minute and hour texts determine the count they show. */
  lemma {:induction false} TimeTextInjective(t: TimeLabel, u: TimeLabel, d: string, tm: string)
    requires (t.MinutesAgo? && u.MinutesAgo?) || (t.HoursAgo? && u.HoursAgo?)
    requires TimeText(t, d, tm) == TimeText(u, d, tm)
    ensures t == u
  {
    var suffix := if t.MinutesAgo? then "minute ago" else "hour ago";
    var m := if t.MinutesAgo? then t.minutes else t.hours;
    var n := if u.MinutesAgo? then u.minutes else u.hours;
    var a, b := Decimal.Show(m), Decimal.Show(n);
    assert a + suffix == b + suffix;
    assert a == (a + suffix)[..|a|];
    assert b == (b + suffix)[..|b|];
    Decimal.ShowInjective(m, n);
  }

  /** One rendered history item. */
  datatype Block = Block(
    id: Option<string>,
    image: string,
    prompt: string,
    typeLabel: string,
    time: TimeLabel,
    userName: Option<string>)

  /** What the history list shows: the empty-state message and hint, or one
      block per entry. */
  datatype Display = EmptyState(message: string, hint: string) | Listing(blocks: seq<Block>)

  const OwnedEmptyMessage := "You haven't generated an image yet"
  const AnonymousEmptyMessage := "You haven't generated an image yet (not logged in)"
  const OwnedEmptyHint := "Start generate your first image! "
  const AnonymousEmptyHint := "Start generate your first image! After logging in, you can synchronize to the cloud. "

  function BlockFor(e: Entry, now: int): (b: Block)
    ensures b.id == e.id && b.image == e.resultImage && b.prompt == e.prompt
    ensures b.typeLabel == TypeDisplayName(e.kind)
    ensures b.time == FormatTime(e.createdAt, now)
    ensures b.userName.Some? <==> e.userInfo.Some?
    ensures e.userInfo.Some? ==> b.userName == Some(e.userInfo.value.name)
  {
    Block(e.id, e.resultImage, e.prompt, TypeDisplayName(e.kind), FormatTime(e.createdAt, now),
      if e.userInfo.Some? then Some(e.userInfo.value.name) else None)
  }

  /** `renderHistory()` for the list `history`, whether a user is logged in,
      at the instant `now`. */
  function Render(history: seq<Entry>, loggedIn: bool, now: int): (d: Display)
    ensures d.EmptyState? <==> history == []
    ensures d.EmptyState? ==> d.message == (if loggedIn then OwnedEmptyMessage else AnonymousEmptyMessage)
    ensures d.EmptyState? ==> d.hint == (if loggedIn then OwnedEmptyHint else AnonymousEmptyHint)
    ensures d.Listing? ==> |d.blocks| == |history|
    ensures d.Listing? ==> forall i :: 0 <= i < |history| ==> d.blocks[i] == BlockFor(history[i], now)
  {
    if history == [] then
      if loggedIn then EmptyState(OwnedEmptyMessage, OwnedEmptyHint)
      else EmptyState(AnonymousEmptyMessage, AnonymousEmptyHint)
    else
      Listing(seq(|history|, i requires 0 <= i < |history| => BlockFor(history[i], now)))
  }

  /** The empty state depends on the login state only, and tells the two
      apart. */
  lemma EmptyStateOnlyByLogin(loggedIn: bool, now: int, loggedIn': bool, now': int)
    ensures Render([], loggedIn, now) == Render([], loggedIn', now') <==> loggedIn == loggedIn'
  {
  }

  /** Rendering commutes with prepending: the new first entry gets the first
      block and every other block moves down by one. */
  lemma RenderPrepend(e: Entry, history: seq<Entry>, loggedIn: bool, now: int)
    ensures var d := Render([e] + history, loggedIn, now);
      && d.Listing? && d.blocks[0] == BlockFor(e, now)
      && (history != [] ==> d.blocks[1..] == Render(history, loggedIn, now).blocks)
  {
  }
}
