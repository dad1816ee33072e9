/** The two decisions of `src/components/ContentCard.tsx`: which icon a
    content type gets, and the "time ago" label for a creation time. */
module ContentCard {

  import opened Text

  datatype Icon = VideoIcon | TwitterIcon | ArticleIcon | DocumentIcon

  /** `getIcon()`: the type, lower-cased, picks the icon; anything else gets
      the article icon. */
  function GetIcon(contentType: string): (icon: Icon)
    ensures icon == VideoIcon <==> Lower(contentType) == "youtube"
    ensures icon == TwitterIcon <==> Lower(contentType) == "twitter"
    ensures icon == DocumentIcon <==> Lower(contentType) == "document"
    ensures icon == ArticleIcon <==> Lower(contentType) !in {"youtube", "twitter", "document"}
  {
    match Lower(contentType)
    case "youtube" => VideoIcon
    case "twitter" => TwitterIcon
    case "article" => ArticleIcon
    case "document" => DocumentIcon
    case _ => ArticleIcon
  }

  /** The icon ignores case: lower-casing the type first changes nothing. */
  lemma GetIconIgnoresCase(contentType: string)
    ensures GetIcon(Lower(contentType)) == GetIcon(contentType)
  {
    LowerIdempotent(contentType);
  }

  /** The type names the creation form offers get their own icons. */
  lemma FormTypesGetTheirIcons()
    ensures GetIcon("Youtube") == VideoIcon && GetIcon("Twitter") == TwitterIcon
    ensures GetIcon("Article") == ArticleIcon && GetIcon("Document") == DocumentIcon
  {
    assert Lower("Youtube") == "youtube";
    assert Lower("Twitter") == "twitter";
    assert Lower("Article") == "article";
    assert Lower("Document") == "document";
  }

  const HourMs: int := 3600000
  const DayMs: int := 24 * HourMs

  /** `Math.floor(ms / (1000 * 60 * 60))`: whole hours, rounded down, also for
      negative spans. */
  function ElapsedHours(elapsedMs: int): (h: int)
    ensures h * HourMs <= elapsedMs < (h + 1) * HourMs
  {
    elapsedMs / HourMs
  }

  /** Which of the three label forms a span gets. */
  datatype TimeAgo = HoursAgo(hours: int) | Yesterday | DaysAgo(days: int)

  /** Under a day in whole hours, then "Yesterday" for the second day, then
      whole days, never fewer than two. */
  function Classify(elapsedMs: int): (t: TimeAgo)
    ensures t.HoursAgo? <==> elapsedMs < DayMs
    ensures t.HoursAgo? ==> t.hours * HourMs <= elapsedMs < (t.hours + 1) * HourMs
    ensures t.Yesterday? <==> DayMs <= elapsedMs < 2 * DayMs
    ensures t.DaysAgo? ==> t.days >= 2 && t.days * DayMs <= elapsedMs < (t.days + 1) * DayMs
  {
    var h := ElapsedHours(elapsedMs);
    if h < 24 then HoursAgo(h)
    else if h < 48 then Yesterday
    else DaysAgo(h / 24)
  }

  /** The text of a label; "Yesterday" is never the text of a count. */
  function Label(t: TimeAgo): (r: string)
    ensures r == "Yesterday" <==> t.Yesterday?
  {
    match t
    case HoursAgo(h) => SuffixesDiffer(IntToString(h), ""); IntToString(h) + " hours ago"
    case Yesterday => "Yesterday"
    case DaysAgo(d) => SuffixesDiffer("", IntToString(d)); IntToString(d) + " days ago"
  }

  /** `getTimeAgo(date)` read at clock time `now`: the floor of the elapsed
      hours under a day, "Yesterday" exactly for the second day, and the floor
      of the elapsed hours over 24 after that. */
  function GetTimeAgo(now: int, created: int): (text: string)
    ensures now - created < DayMs ==> text == IntToString((now - created) / HourMs) + " hours ago"
    ensures text == "Yesterday" <==> DayMs <= now - created < 2 * DayMs
    ensures now - created >= 2 * DayMs ==> text == IntToString((now - created) / HourMs / 24) + " days ago"
  {
    Label(Classify(now - created))
  }

  /** The label depends only on the span between the two times. */
  lemma TimeAgoDependsOnSpanOnly(now: int, created: int, shift: int)
    ensures GetTimeAgo(now + shift, created + shift) == GetTimeAgo(now, created)
  {
    assert (now + shift) - (created + shift) == now - created;
  }

  /** No label of one form is also a label of another. */
  lemma SuffixesDiffer(x: string, y: string)
    ensures x + " hours ago" != y + " days ago"
    ensures x + " hours ago" != "Yesterday" && y + " days ago" != "Yesterday"
  {
    var h, d := x + " hours ago", y + " days ago";
    assert h[|h| - 9] == 'h' && d[|d| - 9] == ' ';
    assert h[|h| - 1] == 'o' && d[|d| - 1] == 'o';
  }

  /** Equal labels of one form have equal counts. */
  lemma SameSuffix(x: string, y: string, suffix: string)
    requires x + suffix == y + suffix
    ensures x == y
  {
    assert x == (x + suffix)[..|x|];
    assert y == (y + suffix)[..|y|];
  }

  /** The three forms never produce the same text, so the label tells which
      bucket the span fell into and the count in it. */
  lemma LabelsDistinct(a: TimeAgo, b: TimeAgo)
    requires Label(a) == Label(b)
    ensures a == b
  {
    match a {
      case HoursAgo(h) =>
        match b {
          case HoursAgo(h2) =>
            SameSuffix(IntToString(h), IntToString(h2), " hours ago");
            IntToStringInjective(h, h2);
          case DaysAgo(d2) => SuffixesDiffer(IntToString(h), IntToString(d2));
          case Yesterday => SuffixesDiffer(IntToString(h), "");
        }
      case DaysAgo(d) =>
        match b {
          case DaysAgo(d2) =>
            SameSuffix(IntToString(d), IntToString(d2), " days ago");
            IntToStringInjective(d, d2);
          case HoursAgo(h2) => SuffixesDiffer(IntToString(h2), IntToString(d));
          case Yesterday => SuffixesDiffer("", IntToString(d));
        }
      case Yesterday =>
        match b {
          case Yesterday =>
          case HoursAgo(h2) => SuffixesDiffer(IntToString(h2), "");
          case DaysAgo(d2) => SuffixesDiffer("", IntToString(d2));
        }
    }
  }

  /** A card whose time is the current time reads "0 hours ago". */
  lemma JustNowLabel(now: int)
    ensures GetTimeAgo(now, now) == "0 hours ago"
  {
    assert Classify(0) == HoursAgo(0);
  }
}
