/**
 * The badge a course-date item shows, and the decoding of the server's
 * `date_type` tag into it.
 */
module CourseStatusTypes {

  /** The thirteen badges, in the order the app declares them. */
  datatype CourseStatus =
    | Completed
    | PastDue
    | DueNext
    | Unreleased
    | VerifiedOnly
    | Event
    | Assignment
    | VerifiedUpgradeDeadline
    | CourseExpiredDate
    | VerificationDeadlineDate
    | CertificateAvailableDate
    | CourseStartDate
    | CourseEndDate

  /** The tag that marks a date item as graded work. */
  const AssignmentTag: string := "assignment-due-date"

  /**
   * The server tags the app recognises, with the badge each one names.
   * Every other tag reads as an event.
   */
  const KnownTags: map<string, CourseStatus> := map[
    AssignmentTag := Assignment,
    "verified-upgrade-deadline" := VerifiedUpgradeDeadline,
    "course-expired-date" := CourseExpiredDate,
    "verification-deadline-date" := VerificationDeadlineDate,
    "certificate-available-date" := CertificateAvailableDate,
    "course-start-date" := CourseStartDate,
    "course-end-date" := CourseEndDate,
    "event" := Event
  ]

  /**
   * The badges that only the classifier's own rules produce; no server tag
   * names one of them.
   */
  predicate IsDerivedBadge(s: CourseStatus) {
    s.Completed? || s.PastDue? || s.DueNext? || s.Unreleased? || s.VerifiedOnly?
  }

  /** `CourseStatusType.typeOf(dateType:)` */
  function TypeOf(dateType: string): (r: CourseStatus)
    ensures dateType in KnownTags ==> r == KnownTags[dateType]
    ensures dateType !in KnownTags ==> r == Event
    ensures !IsDerivedBadge(r)
  {
    match dateType
    case "assignment-due-date" => Assignment
    case "verified-upgrade-deadline" => VerifiedUpgradeDeadline
    case "course-expired-date" => CourseExpiredDate
    case "verification-deadline-date" => VerificationDeadlineDate
    case "certificate-available-date" => CertificateAvailableDate
    case "course-start-date" => CourseStartDate
    case "course-end-date" => CourseEndDate
    case "event" => Event
    case _ => Event
  }

  /** `CourseStatusType.isAssignment(type:)` */
  function IsAssignment(dateType: string): (b: bool)
    ensures b <==> TypeOf(dateType) == Assignment
  {
    dateType == AssignmentTag
  }

  /**
   * Two tags that decode to the same badge other than `Event` are the same
   * tag: the decoding loses nothing but the difference between unknown tags.
   */
  lemma TypeOfInjective(t: string, u: string)
    requires TypeOf(t) == TypeOf(u) && TypeOf(t) != Event
    ensures t == u
  {
  }
}
