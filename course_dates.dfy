/**
 * A course's important dates: the lenient parsing of the dates endpoint's
 * JSON into blocks, and the badge each block shows at a given moment.
 */
module CourseDates {
  import opened Wrappers
  import opened Json
  import opened CourseStatusTypes

  /**
   * A point in time, counted at the resolution at which
   * `DateFormatting.compareTwoDates` compares two dates.
   */
  type Instant = int

  /** Foundation's `ComparisonResult`. */
  datatype Ordering = OrderedAscending | OrderedSame | OrderedDescending

  /** `DateFormatting.compareTwoDates(fromDate:toDate:)`: ascending when `from` is the earlier. */
  function CompareDates(from: Instant, to: Instant): (r: Ordering)
    ensures r == OrderedAscending <==> from < to
    ensures r == OrderedDescending <==> to < from
  {
    if from < to then OrderedAscending
    else if from == to then OrderedSame
    else OrderedDescending
  }

  /**
   * What the app asks of `DateFormatting` when it reads a block: turning the
   * server's date string into an instant, which may fail, and rendering an
   * instant in the medium display style.
   */
  datatype DateFormatter = DateFormatter(parse: string -> Option<Instant>, format: Instant -> string)

  /** One dated item of a course, as the app stores it after parsing. */
  datatype CourseDateBlock = CourseDateBlock(
    complete: bool,
    blockDate: Instant,
    dateType: string,
    descriptionField: string,
    learnerHasAccess: bool,
    link: string,
    linkText: string,
    title: string,
    dateText: string,
    isAssignment: bool)

  /** The assignment flag agrees with the tag, as parsing guarantees. */
  predicate WellFormed(block: CourseDateBlock) {
    block.isAssignment == IsAssignment(block.dateType)
  }

  // ---------------------------------------------------------------------------
  // Parsing

  /** A stored flag holds exactly when the key is present with the value `true`. */
  predicate BoolFromJson(json: Json, key: string, v: bool) {
    v <==> BoolAt(json, key) == Some(true)
  }

  /** A stored string is the key's string value, or empty when the key has none. */
  predicate StringFromJson(json: Json, key: string, v: string) {
    && (StringAt(json, key).Some? ==> v == StringAt(json, key).value)
    && (StringAt(json, key).None? ==> v == "")
  }

  /**
   * `CourseDateBlock.init?(json:)`. `createdAt` is the moment the block is
   * made, which `blockDate` keeps when the date string does not parse.
   */
  function ParseBlock(json: Json, createdAt: Instant, formatter: DateFormatter): (r: Option<CourseDateBlock>)
    ensures r.Some? && WellFormed(r.value)
    ensures var b := r.value;
      && BoolFromJson(json, "complete", b.complete)
      && StringFromJson(json, "date_type", b.dateType)
      && StringFromJson(json, "description", b.descriptionField)
      && BoolFromJson(json, "learner_has_access", b.learnerHasAccess)
      && StringFromJson(json, "link", b.link)
      && StringFromJson(json, "link_text", b.linkText)
      && StringFromJson(json, "title", b.title)
      && (b.isAssignment <==> b.dateType == AssignmentTag)
    ensures var b := r.value;
      var parsed := formatter.parse(StringAt(json, "date").GetOr(""));
      && (parsed.None? ==> b.dateText == "" && b.blockDate == createdAt)
      && (parsed.Some? ==> b.blockDate == parsed.value && b.dateText == formatter.format(parsed.value))
  {
    var complete := BoolAt(json, "complete").GetOr(false);
    var date := StringAt(json, "date").GetOr("");
    var dateType := StringAt(json, "date_type").GetOr("");
    var descriptionField := StringAt(json, "description").GetOr("");
    var learnerHasAccess := BoolAt(json, "learner_has_access").GetOr(false);
    var link := StringAt(json, "link").GetOr("");
    var linkText := StringAt(json, "link_text").GetOr("");
    var title := StringAt(json, "title").GetOr("");
    var isAssignment := IsAssignment(dateType);
    match formatter.parse(date)
    case None =>
      Some(CourseDateBlock(complete, createdAt, dateType, descriptionField, learnerHasAccess,
                           link, linkText, title, "", isAssignment))
    case Some(formattedDate) =>
      Some(CourseDateBlock(complete, formattedDate, dateType, descriptionField, learnerHasAccess,
                           link, linkText, title, formatter.format(formattedDate), isAssignment))
  }

  /**
   * When the display style never renders an instant as the empty string, a
   * block's display text is empty exactly when its date string failed to parse.
   */
  lemma DateTextEmptyIffUnparsed(json: Json, createdAt: Instant, formatter: DateFormatter)
    requires forall t :: formatter.format(t) != ""
    ensures var b := ParseBlock(json, createdAt, formatter).value;
      b.dateText == "" <==> formatter.parse(StringAt(json, "date").GetOr("")).None?
  {
  }

  /** The JSON record the server sends for a block with these stored fields and date string. */
  function BlockJson(block: CourseDateBlock, date: string): Json {
    JObject(map[
      "complete" := JBool(block.complete),
      "date" := JString(date),
      "date_type" := JString(block.dateType),
      "description" := JString(block.descriptionField),
      "learner_has_access" := JBool(block.learnerHasAccess),
      "link" := JString(block.link),
      "link_text" := JString(block.linkText),
      "title" := JString(block.title)
    ])
  }

  /**
   * Parsing a complete record gives back every field it carries; the date
   * and its display text come from the date string.
   */
  lemma ParseBlockJson(block: CourseDateBlock, date: string, createdAt: Instant, formatter: DateFormatter)
    requires WellFormed(block)
    requires formatter.parse(date) == Some(block.blockDate)
    requires block.dateText == formatter.format(block.blockDate)
    ensures ParseBlock(BlockJson(block, date), createdAt, formatter) == Some(block)
  {
  }

  /** The banner that tells a learner about missed deadlines and upgrades. */
  datatype DatesBannerInfo = DatesBannerInfo(
    contentTypeGatingEnabled: bool,
    missedDeadlines: bool,
    missedGatedContent: bool,
    verifiedUpgradeLink: string)

  /** `DatesBannerInfo.init?(json:)`: never fails, whatever it is given. */
  function ParseBannerInfo(json: Json): (r: Option<DatesBannerInfo>)
    ensures r.Some?
    ensures var info := r.value;
      && BoolFromJson(json, "content_type_gating_enabled", info.contentTypeGatingEnabled)
      && BoolFromJson(json, "missed_deadlines", info.missedDeadlines)
      && BoolFromJson(json, "missed_gated_content", info.missedGatedContent)
      && StringFromJson(json, "verified_upgrade_link", info.verifiedUpgradeLink)
  {
    Some(DatesBannerInfo(
      BoolAt(json, "content_type_gating_enabled").GetOr(false),
      BoolAt(json, "missed_deadlines").GetOr(false),
      BoolAt(json, "missed_gated_content").GetOr(false),
      StringAt(json, "verified_upgrade_link").GetOr("")))
  }

  /** The dates of one course, as the dates endpoint reports them. */
  class CourseDateModel {
    var courseDateBlocks: seq<CourseDateBlock>
    const datesBannerInfo: Option<DatesBannerInfo>
    const learnerIsFullAccess: bool
    const missedDeadlines: bool
    const missedGatedContent: bool
    const userTimezone: string
    const verifiedUpgradeLink: string

    /**
     * `CourseDateModel.init?(json:)`: one block per element of
     * `course_date_blocks`, in order, none when the array is missing; every
     * other field falls back to `false` or `""`, and the banner is always present.
     */
    constructor (json: Json, createdAt: Instant, formatter: DateFormatter)
      ensures var items := ArrayAt(json, "course_date_blocks").GetOr([]);
        && |courseDateBlocks| == |items|
        && forall i :: 0 <= i < |items| ==>
             Some(courseDateBlocks[i]) == ParseBlock(items[i], createdAt, formatter)
      ensures datesBannerInfo == ParseBannerInfo(Member(json, "dates_banner_info"))
      ensures datesBannerInfo.Some?
      ensures BoolFromJson(json, "learner_is_full_access", learnerIsFullAccess)
      ensures BoolFromJson(json, "missed_deadlines", missedDeadlines)
      ensures BoolFromJson(json, "missed_gated_content", missedGatedContent)
      ensures StringFromJson(json, "user_timezone", userTimezone)
      ensures StringFromJson(json, "verified_upgrade_link", verifiedUpgradeLink)
    {
      courseDateBlocks := [];
      datesBannerInfo := ParseBannerInfo(Member(json, "dates_banner_info"));
      learnerIsFullAccess := BoolAt(json, "learner_is_full_access").GetOr(false);
      missedDeadlines := BoolAt(json, "missed_deadlines").GetOr(false);
      missedGatedContent := BoolAt(json, "missed_gated_content").GetOr(false);
      userTimezone := StringAt(json, "user_timezone").GetOr("");
      verifiedUpgradeLink := StringAt(json, "verified_upgrade_link").GetOr("");
      new;
      var items := ArrayAt(json, "course_date_blocks").GetOr([]);
      for i := 0 to |items|
        invariant |courseDateBlocks| == i
        invariant forall k :: 0 <= k < i ==>
                    Some(courseDateBlocks[k]) == ParseBlock(items[k], createdAt, formatter)
      {
        var block := ParseBlock(items[i], createdAt, formatter);
        if block.Some? {
          courseDateBlocks := courseDateBlocks + [block.value];
        }
      }
    }
  }

  // ---------------------------------------------------------------------------
  // Badge classification

  /** `isInPast`: the block's date is before `now`. */
  predicate IsInPast(block: CourseDateBlock, now: Instant) {
    CompareDates(block.blockDate, now) == OrderedAscending
  }

  /** `isToday`: the block's date compares the same as `now`. */
  predicate IsToday(block: CourseDateBlock, now: Instant) {
    CompareDates(block.blockDate, now) == OrderedSame
  }

  /** `isInFuture`: the block's date is after `now`. */
  predicate IsInFuture(block: CourseDateBlock, now: Instant) {
    CompareDates(block.blockDate, now) == OrderedDescending
  }

  /**
   * `calculateStatus(date:type:)` at the moment `now`: the first rule that
   * applies wins. Completion beats everything; a learner without access sees
   * "verified only"; an assignment is past due or due next by its date, and
   * one dated exactly now is an event; any other item shows its tag's badge.
   */
  function CalculateStatus(block: CourseDateBlock, dateType: string, now: Instant): (s: CourseStatus)
    ensures s == Completed <==> block.complete
    ensures s == VerifiedOnly <==> !block.complete && !block.learnerHasAccess
    ensures s == PastDue <==>
      !block.complete && block.learnerHasAccess && block.isAssignment && block.blockDate < now
    ensures s == DueNext <==>
      !block.complete && block.learnerHasAccess && block.isAssignment && now < block.blockDate
    ensures !block.complete && block.learnerHasAccess && block.isAssignment && block.blockDate == now ==>
      s == Event
    ensures !block.complete && block.learnerHasAccess && !block.isAssignment ==> s == TypeOf(dateType)
    ensures s != Unreleased
  {
    if block.complete then Completed
    else if block.learnerHasAccess then
      if block.isAssignment then
        if !block.complete then
          if IsInPast(block, now) then PastDue
          else if IsInFuture(block, now) then DueNext
          else Event
        else if block.link == "" then Unreleased
        else Event
      else TypeOf(dateType)
    else VerifiedOnly
  }

  /**
   * `blockStatus`: the badge of a parsed block at `now`. It is never
   * "unreleased" and never "assignment", and it is an event exactly for an
   * accessible, incomplete assignment dated now or an accessible item whose
   * tag is unknown or `event`.
   */
  function BlockStatus(block: CourseDateBlock, now: Instant): (s: CourseStatus)
    requires WellFormed(block)
    ensures s != Unreleased && s != Assignment
    ensures s == Event <==>
      && !block.complete && block.learnerHasAccess
      && (if block.isAssignment then block.blockDate == now else TypeOf(block.dateType) == Event)
  {
    CalculateStatus(block, block.dateType, now)
  }

  /**
   * As time passes a badge only moves forward: what is past due stays past
   * due, and what is due next was due next at every earlier moment.
   */
  lemma StatusMovesForward(block: CourseDateBlock, earlier: Instant, later: Instant)
    requires WellFormed(block) && earlier <= later
    ensures BlockStatus(block, earlier) == PastDue ==> BlockStatus(block, later) == PastDue
    ensures BlockStatus(block, later) == DueNext ==> BlockStatus(block, earlier) == DueNext
  {
  }
}
