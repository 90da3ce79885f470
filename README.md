# Course dates and the language cookie, modelled in Dafny

This project models two pieces of the edX iOS app.

**Course dates** (`course_status.dfy`, `course_dates.dfy`). The dates endpoint returns a JSON
document that lists a course's dated items ("blocks"). The app reads it leniently: a missing
or mistyped field becomes `false` or `""`, and a date string that does not parse leaves the
block's date at the moment the block was made, with empty display text. Each block then shows
one badge. The badge comes from an ordered, first-match-wins rule over the completion flag,
the access flag, the assignment flag and a three-way comparison of the block's date with the
current moment. Otherwise it comes from decoding the server's `date_type` tag.

**Language cookie** (`labels.dfy`, `language_cookie.dfy`). Before the web view loads a page,
the app scopes a language cookie to the URL's root domain. The root domain is the host's last
two dot-separated labels. The cookie's value is the first app localisation that contains the
device language's prefix, or `en`. Where the cookie store is unavailable, the app sends a
`Cookie` header instead.

Supporting modules:
- `wrappers.dfy` holds Swift's optional type.
- `json.dfy` models the JSON library's subscript and its `.bool`, `.string` and `.array`
  views. A subscript on a non-object, or on a missing key, gives `null`. A typed view of a
  value of another type gives no value.

The wall clock becomes explicit parameters:
- `now` for the badge.
- `createdAt` for the default value of a block's date.

Dates are integers, at whatever resolution `DateFormatting.compareTwoDates` compares.
Date parsing and display formatting are not shown in the source. They are passed in as a
`DateFormatter` holding two functions.

## Model

| member | source | states |
|---|---|---|
| `CourseStatusTypes.TypeOf` | Source/CourseDateModel.swift:70-99 | each of the eight known tags decodes to its own badge and every other string to `Event`; no tag ever decodes to completed, past due, due next, unreleased or verified only |
| `CourseStatusTypes.IsAssignment` | Source/CourseDateModel.swift:101-103 | a tag is the assignment tag exactly when it decodes to `Assignment` |
| `CourseStatusTypes.TypeOfInjective` | Source/CourseDateModel.swift:70-99 | two tags that decode to the same badge other than `Event` are the same tag |
| `CourseDates.CompareDates` | Source/CourseDateModel.swift:183-193 | the three-way comparison is ascending exactly when the block's date is earlier and descending exactly when it is later |
| `CourseDates.ParseBlock` | Source/CourseDateModel.swift:164-181 | parsing a block never fails. Each flag is true only when its key holds `true`. Each string is the key's string or `""`. The assignment flag is true exactly for tag `assignment-due-date`. An unparsable date leaves the date at the creation moment with empty display text; a parsed date is stored and rendered |
| `CourseDates.DateTextEmptyIffUnparsed` | Source/CourseDateModel.swift:175-180 | if rendering never yields `""`, the display text is empty exactly when the date string failed to parse |
| `CourseDates.ParseBlockJson` | Source/CourseDateModel.swift:164-181 | parsing the full JSON record of a block gives back exactly that block (round trip) |
| `CourseDates.ParseBannerInfo` | Source/CourseDateModel.swift:138-143 | the banner never fails to parse, and its fields fall back to `false` or `""` |
| `CourseDates.CourseDateModel.constructor` | Source/CourseDateModel.swift:115-129 | one block per element of `course_date_blocks`, in input order, and none when the array is missing; the banner is always present; the top-level fields fall back to `false` or `""` |
| `CourseDates.CalculateStatus` | Source/CourseDateModel.swift:207-230 | `Completed` exactly when complete. `VerifiedOnly` exactly when incomplete and without access, even for assignments. `PastDue` or `DueNext` exactly for an accessible, incomplete assignment dated before or after now. An assignment dated exactly now falls through to `Event`. A non-assignment with access gets its tag's badge. Never `Unreleased` |
| `CourseDates.BlockStatus` | Source/CourseDateModel.swift:158-162 | a parsed block's badge is never `Unreleased` or `Assignment`; it is `Event` exactly for an accessible incomplete assignment dated now, or an accessible non-assignment whose tag reads as an event |
| `CourseDates.StatusMovesForward` | Source/CourseDateModel.swift:212-218 | as time passes, past due stays past due, and due next was due next at every earlier moment |
| `Labels.Split` | Source/WKWebView+LanguageCookie.swift:94 | splitting on a separator always gives at least one piece, and no piece contains the separator |
| `Labels.JoinSplit` | Source/WKWebView+LanguageCookie.swift:94-96 | joining the pieces of a split with the same separator gives the string back |
| `Labels.SplitJoin` | Source/WKWebView+LanguageCookie.swift:94-96 | splitting a join of one or more separator-free pieces gives the pieces back |
| `Labels.JoinAt` | Source/WKWebView+LanguageCookie.swift:96 | joining a list equals joining its front, the separator, and joining its back |
| `LanguageCookie.RootDomain` | Source/WKWebView+LanguageCookie.swift:90-100 | there is no root domain exactly when the URL has no host |
| `LanguageCookie.RootDomainLabels` | Source/WKWebView+LanguageCookie.swift:94-99 | the root domain's labels are exactly the host's last two labels, or all of them when the host has at most two; a host with at most two labels is returned unchanged |
| `LanguageCookie.RootDomainIsShortSuffix` | Source/WKWebView+LanguageCookie.swift:94-99 | the root domain is a suffix of the host and has at most two labels |
| `LanguageCookie.RootDomainIdempotent` | Source/WKWebView+LanguageCookie.swift:94-99 | taking the root domain of a root domain changes nothing |
| `LanguageCookie.LanguagePrefix` | Source/WKWebView+LanguageCookie.swift:19-20 | the language part is a prefix of the device language, contains no `-`, and is followed by `-` when shorter |
| `LanguageCookie.DefaultLanguage` | Source/WKWebView+LanguageCookie.swift:18-31 | `en` when the device lists no language. Otherwise the first localisation, in list order, that contains the language part, or `en` when none does |
| `LanguageCookie.LanguageCookieHeaderAsWritten` | Source/WKWebView+LanguageCookie.swift:68 | the fallback header is `prod-edx-language-preference=` followed by the language and a trailing `)`, so a server reads the cookie's value as the language plus `)` |
| `LanguageCookie.AsWrittenHeaderMisreadsLanguage` | Source/WKWebView+LanguageCookie.swift:68 | the value read back from that header is never the language it was built from |
| `LanguageCookie.LanguageCookieHeader` | Source/WKWebView+LanguageCookie.swift:68 | the corrected header reads back as exactly the language |

The model follows what the code does, where that differs from what its declarations and comments suggest:
- `CourseDateBlock.init?`, `DatesBannerInfo.init?` and `CourseDateModel.init?` are declared
  failable but have no failing path. A missing or malformed record yields an all-default value,
  not a parse error. In particular, the banner is present even when the key `dates_banner_info`
  is absent.
- The comment above `calculateStatus` (Source/CourseDateModel.swift:195-206) promises
  "unreleased" for an assignment without a link. In the code, that branch is nested inside
  `complete == true` on the `!complete` path, so it is dead. `CalculateStatus` proves that
  `Unreleased` is never produced.

## Left out

- The display names of the badges (`localized`, Source/CourseDateModel.swift:27-68): they are external string resources.
- `DateFormatting`: it is not part of this model. Parsing the server date and rendering it are function parameters. The comparison is integer order at the comparison's own resolution; any calendar-day truncation it performs is not modelled.
- `calculateStatus`'s `date` parameter: the source never reads it (the date predicates read the stored `blockDate`), so `CalculateStatus` does not take it.
- `CourseDateModel.constructor`: every block shares one `createdAt` moment, where the source reads the clock once per block.
- The JSON library's handling of numbers, and its conversions between JSON types: these are not modelled; only exact-type views are.
- `ContainsText` follows Foundation's `range(of:)`: an empty language part is never found. Unicode canonical equivalence and locale-aware matching are not modelled; strings compare by `char`.
- `loadRequest`'s cookie-store calls, `getCookie`'s asynchronous enumeration, and the persisted cookie value in `UserDefaults`: these are I/O and asynchronous.
- URL parsing: a URL is reduced to its optional host.
- Source/IndicatorTabBarController.swift: UIKit layout and animation, with floating-point geometry.
- Source/NetworkManager+Authenticators.swift: the token-refresh flow rests on networking, session and error-classification code that is not part of this model.

## Findings

| source | as written | input that shows it | evidently intended | confidence | as-written member | corrected member |
|---|---|---|---|---|---|---|
| Source/WKWebView+LanguageCookie.swift:68 | the fallback `Cookie` header is `prod-edx-language-preference=<lang>)`, with a stray `)` from the string interpolation | language `en`: the server reads the cookie value `en)` | `prod-edx-language-preference=<lang>` | high; not executed | `LanguageCookie.LanguageCookieHeaderAsWritten` (with `LanguageCookie.AsWrittenHeaderMisreadsLanguage`) | `LanguageCookie.LanguageCookieHeader` |
