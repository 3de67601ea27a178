# Debut and wedding invitation site: verified model of its decision logic

The site is a Next.js invitation with a guest dashboard. Most of it is
markup. This project models, in Dafny, the parts that take decisions.

- **Guest book** (`book_of_guests.dfy`): from a fetched guest list it keeps
  the confirmed guests. It orders them VIPs first, then latest update
  first, and counts their seats. It flags a rise of the total. It also
  holds the `getInitials` helper.
- **Wedding-details route** (`wedding_details_route.dfy`): the four
  handlers of the proxy route. Each one turns the request body and what
  the upstream script answered into a status and a JSON body.
- **Dashboard page** (`dashboard.dfy`): the password gate, the session
  flag, and the guest list state. Also the load, add, update and delete
  handlers with their loading, error and success fields.
- **Small helpers**:
  - `details.dfy`: the address title-casing and the set of "copied" items;
  - `faq.dfy`: the single-open accordion and answers with an embedded
    `[RSVP_LINK]` link;
  - `dashboard_sidebar.dfy`: the sidebar tabs and badges;
  - `snap_share.dfy`: the share file names, links, hashtags and copy
    buttons;
  - `convert_to_webp.dfy`: the image conversion script's traversal,
    extension filter, output paths and counters.
- **Shared modules**: `text.dfy` holds the JavaScript string operations
  used, restricted to ASCII. `web.dfy` holds JSON values, JavaScript
  truthiness and `String()`, and the outcome of an upstream `fetch`.
  `wrappers.dfy` holds `Option` and `Result`.

State that the components update in place is a `class` whose methods
state the whole new state. These are `GuestBook`, `DashboardPage`,
`CopyTracker`, `Accordion` and `ShareState`. Each network response, the
clipboard's success, the user's confirmation, the file system and the
image library become method parameters (oracles).

Two behaviours of the code are worth spelling out:

- A guest without `updatedAt` counts as time 0. It therefore sorts after
  guests with a positive time only, ties with a time of 0 and precedes a
  negative time (`MissingTimeSortsAfterPositive`).
- `PUT` accepts any body with `typeof body === 'object'`, arrays included.
  Their elements are forwarded under the keys "0", "1", …
  (`PutSpreadsArray`).

## Model

| member | source | states |
|---|---|---|
| BookOfGuests.ConfirmedOnly | components/sections/book-of-guests.tsx:70 | every kept guest is confirmed, and the result is never longer than the input |
| BookOfGuests.ConfirmedOnlyCounts | components/sections/book-of-guests.tsx:70 | each confirmed guest is kept exactly as often as the input holds it; every other guest is dropped |
| BookOfGuests.InOrder | components/sections/book-of-guests.tsx:73-82 | a guest may precede another exactly when the comparator as written answers at most 0 for the pair |
| BookOfGuests.InOrderTotal | components/sections/book-of-guests.tsx:73-82 | the comparator orders any two guests one way or the other |
| BookOfGuests.InOrderTransitive | components/sections/book-of-guests.tsx:73-82 | the comparator's order is transitive |
| BookOfGuests.Insert | components/sections/book-of-guests.tsx:73-82 | inserting adds exactly the one guest: same multiset plus that guest, one longer |
| BookOfGuests.InsertSorted | components/sections/book-of-guests.tsx:73-82 | inserting into a sorted list keeps it sorted |
| BookOfGuests.SortGuests | components/sections/book-of-guests.tsx:73-82 | the sort keeps the length and its result is sorted for the comparator |
| BookOfGuests.SortGuestsPermutes | components/sections/book-of-guests.tsx:73 | the sort is a permutation of its input |
| BookOfGuests.SortedOrder | components/sections/book-of-guests.tsx:75-81 | in a sorted list every VIP precedes every non-VIP; with equal VIP flags, update times do not increase |
| BookOfGuests.MissingTimeSortsAfterPositive | components/sections/book-of-guests.tsx:79-81 | a guest without update time comes after every guest of the same VIP flag whose time is positive |
| BookOfGuests.Seats | components/sections/book-of-guests.tsx:86 | a guest holds at least one seat; an allowance of 0 counts as 1 |
| BookOfGuests.HeadCount | components/sections/book-of-guests.tsx:85-87 | the headcount is never below the number of guests, each counting at least one seat |
| BookOfGuests.HeadCountInsert | components/sections/book-of-guests.tsx:85-87 | inserting a guest adds exactly its seats to the headcount |
| BookOfGuests.HeadCountSorted | components/sections/book-of-guests.tsx:73-87 | sorting does not change the headcount |
| BookOfGuests.HeadCountOfConfirmed | components/sections/book-of-guests.tsx:70-87 | the headcount of the filtered list equals the seats of the confirmed guests of the input |
| BookOfGuests.Derive | components/sections/book-of-guests.tsx:70-97 | the derived list is sorted, the count is its length, and the total is never below the count; DeriveCorrect relates all three to the input |
| BookOfGuests.DeriveCorrect | components/sections/book-of-guests.tsx:70-97 | a fetch keeps exactly the confirmed guests (with multiplicity), sorted; the count is their number; the total is their seats and at least the count |
| BookOfGuests.DeriveConsistent | components/sections/book-of-guests.tsx:70-98 | the derived list holds only confirmed guests, is sorted, and the count and total belong to it |
| BookOfGuests.GuestBook.constructor | components/sections/book-of-guests.tsx:30-36 | the initial state: zero totals, empty list, flags down, and the invariant holds |
| BookOfGuests.GuestBook.FetchGuests | components/sections/book-of-guests.tsx:54-107 | keeps the invariant. The refresh flag is raised only with `showLoading`. A failed fetch leaves total, count, list and last update unchanged. A successful one replaces them from the data. The increase flag and previous total change only when the new total exceeds a non-zero old total |
| BookOfGuests.GuestBook.EndIncrease | components/sections/book-of-guests.tsx:93 | the increase timer lowers the flag |
| BookOfGuests.GuestBook.EndRefresh | components/sections/book-of-guests.tsx:103-105 | the refresh timer lowers the flag |
| BookOfGuests.Words | components/sections/book-of-guests.tsx:40 | the words are the trimmed name split on " "; with two or more, the first and last are non-empty and the first begins the trimmed name |
| BookOfGuests.Initials | components/sections/book-of-guests.tsx:39-45 | as written: at most two characters, none of them a lower-case letter |
| BookOfGuests.InitialsOfSeveralWords | components/sections/book-of-guests.tsx:40-42 | for every name whose trimmed form splits into two or more words: the upper-cased first character of the trimmed name, then the upper-cased first letter of the last word |
| BookOfGuests.InitialsFallback | components/sections/book-of-guests.tsx:40-44 | for every name whose trimmed form is fewer than two words: the first two characters of the untrimmed name, upper-cased |
| BookOfGuests.InitialsOfWords | components/sections/book-of-guests.tsx:40-42 | for two or more words of no whitespace joined by spaces: the upper-cased first letters of the first and last word |
| BookOfGuests.InitialsOfOneWord | components/sections/book-of-guests.tsx:40-44 | for a single word: its first two characters, upper-cased |
| BookOfGuests.InitialsOfIndentedWord | components/sections/book-of-guests.tsx:40-44 | as written, a single word after two leading spaces gives two spaces |
| BookOfGuests.InitialsOfTrimmed | components/sections/book-of-guests.tsx:39-45 | corrected: at most two characters; the first is the upper-cased first character of the trimmed name; empty exactly when the trimmed name is |
| BookOfGuests.InitialsOfTrimmedIndentedWord | components/sections/book-of-guests.tsx:39-45 | corrected: leading spaces no longer matter; an indented word gives the word's own initials |
| WeddingDetailsRoute.BlankIsBlank | app/api/wedding-details/route.ts:55-100 | a blank section has exactly the given keys, each holding "" |
| WeddingDetailsRoute.EmptyWeddingDetailsIsBlank | app/api/wedding-details/route.ts:55-100 | the empty record holds only objects and empty strings |
| WeddingDetailsRoute.EmptyWeddingDetailsSections | app/api/wedding-details/route.ts:55-100 | the empty record has exactly the ten sections of the details |
| WeddingDetailsRoute.Get | app/api/wedding-details/route.ts:103-134 | `GET` always answers status 200 |
| WeddingDetailsRoute.GetOutcome | app/api/wedding-details/route.ts:113-133 | a usable upstream record (ok, JSON, not null, no `error`) passes unchanged; every other outcome, thrown errors included, answers the empty record |
| WeddingDetailsRoute.Put | app/api/wedding-details/route.ts:137-212 | `PUT` calls upstream exactly when the body is a readable object (or array) |
| WeddingDetailsRoute.PutRejectsNonObject | app/api/wedding-details/route.ts:142-147 | a null or non-object body gets 400 "Invalid request body" and no upstream call |
| WeddingDetailsRoute.UpdatePayload | app/api/wedding-details/route.ts:149-152 | the payload is an object with every spread entry of the body unchanged plus `action`, which is 'update' unless the body has its own |
| WeddingDetailsRoute.NotJsonFailure | app/api/wedding-details/route.ts:172-180 | a reply that is neither ok nor JSON never answers a success status; the body holds `error` and at most 200 characters of the reply as `details` |
| WeddingDetailsRoute.PutAnswer | app/api/wedding-details/route.ts:186-204 | answers 200 exactly when the data is not null, has no truthy `error` and the status is ok, and then with the data unchanged; a truthy `error` always gives 400 |
| WeddingDetailsRoute.PutForwardsEveryField | app/api/wedding-details/route.ts:149-152 | the forwarded payload has every body field unchanged plus `action`; the body's own `action` overrides 'update' |
| WeddingDetailsRoute.PutSpreadsArray | app/api/wedding-details/route.ts:149-152 | an array body is forwarded with each element under its decimal index |
| WeddingDetailsRoute.PutErrorFieldFirst | app/api/wedding-details/route.ts:187-193 | a truthy `error` in the reply gives 400 with that error whatever the upstream status |
| WeddingDetailsRoute.PutNotJson | app/api/wedding-details/route.ts:166-184 | a non-JSON reply: when not ok, the upstream status (or 500) with the first 200 characters as details; when ok, 200 with the success stub |
| WeddingDetailsRoute.PutUpstreamFailure | app/api/wedding-details/route.ts:196-202 | parsed data without `error` and a status that is not ok: answers the upstream status, or 500 when it is 0, never 200 |
| WeddingDetailsRoute.PutSuccess | app/api/wedding-details/route.ts:204 | ok, JSON, no `error`: 200 with the upstream data unchanged |
| WeddingDetailsRoute.Delete | app/api/wedding-details/route.ts:215-238 | `DELETE` always forwards exactly `{action: 'delete'}` |
| WeddingDetailsRoute.DeleteOutcome | app/api/wedding-details/route.ts:225-236 | 200 with the upstream data exactly when the reply is ok and JSON; 500 otherwise, with "Failed to clear wedding details" for a non-ok status |
| WeddingDetailsRoute.Post | app/api/wedding-details/route.ts:241-273 | `POST` only ever forwards `{action: 'initialize'}` |
| WeddingDetailsRoute.PostOutcome | app/api/wedding-details/route.ts:245-271 | a null body gets 500 "Failed to initialize wedding details"; any other action gets 400 "Invalid action" without an upstream call; initialize is forwarded, and a non-ok reply gets 500 |
| Web.TaggedObject | app/api/wedding-details/route.ts:149-152 | `{key: value, ...rest}` has the keys of `rest` plus `key`; `rest` wins on every key it has |
| Web.IndexKeysAt | app/api/wedding-details/route.ts:151 | spreading an array puts element i under the key "i" |
| Web.StatusOr500 | app/api/wedding-details/route.ts:200 | `status || 500` is never 0 and keeps every non-zero status |
| Dashboard.ApiUrl | app/dashboard-improved/page.tsx:30 | the placeholder is used exactly when the variable is unset, empty or the placeholder itself; otherwise its value |
| Dashboard.Checked | app/dashboard-improved/page.tsx:82-91 | a response is accepted exactly when it is ok, JSON, not null and has no truthy `error`; a thrown fetch keeps its message; a bad status gives "HTTP error! status: N" |
| Dashboard.FetchOutcome | app/dashboard-improved/page.tsx:82-101 | an accepted array replaces the list; another accepted value empties it; a failure gives "Failed to load guests: …", or the configuration message when no URL is configured |
| Dashboard.UnconfiguredFailure | app/dashboard-improved/page.tsx:98-101 | without a configured URL every failed load shows the configuration message |
| Dashboard.FindGuest | app/dashboard-improved/page.tsx:191 | finds an entry with that id, reports none when no entry has it, and throws only when the list holds null |
| Dashboard.DeletePrompt | app/dashboard-improved/page.tsx:193 | the confirmation is always the question "Are you sure you want to delete …?"; which name it holds is stated by the next two rows |
| Dashboard.DeletePromptNamesGuest | app/dashboard-improved/page.tsx:193 | the confirmation names the guest when it has a non-empty name |
| Dashboard.DeletePromptFallback | app/dashboard-improved/page.tsx:193 | without the guest or its name, the confirmation says "this guest" |
| Dashboard.DeletePayload | app/dashboard-improved/page.tsx:207-210 | the delete body is exactly `{action: 'delete', id}` |
| Dashboard.DashboardPage.constructor | app/dashboard-improved/page.tsx:30-42 | the initial state: logged out, no messages, empty list, no request sent |
| Dashboard.DashboardPage.FetchGuests | app/dashboard-improved/page.tsx:70-105 | sends one GET; success replaces the list and clears the error; failure keeps the list and sets the error; loading is down afterwards |
| Dashboard.DashboardPage.Restore | app/dashboard-improved/page.tsx:48-54 | a remembered session logs in and sends exactly one GET, with loading down afterwards; the list and error are those of the load (the new list and no error on success, the old list and the load's error on failure). Without a session nothing changes |
| Dashboard.DashboardPage.TypePassword | app/dashboard-improved/page.tsx:295 | the field holds what was typed |
| Dashboard.DashboardPage.Login | app/dashboard-improved/page.tsx:236-247 | the right password logs in, clears the auth error, sets the session flag and sends exactly one GET, leaving the list and error the load gives (new list and no error, or old list and the load's error). A wrong one sets the fixed message, clears the field and changes nothing else |
| Dashboard.DashboardPage.Logout | app/dashboard-improved/page.tsx:252-257 | logged out, session flag removed, password and list emptied |
| Dashboard.DashboardPage.Mutate | app/dashboard-improved/page.tsx:110-145 | one POST. On success: the success message and exactly one reload. On failure: the prefixed error and the list unchanged. Loading is down afterwards |
| Dashboard.DashboardPage.AddGuest | app/dashboard-improved/page.tsx:110-145 | posts `{action: 'create', ...guest}`; success names the guest in the message and sends exactly one GET after the POST, leaving the list and error the reload gives; failure gives "Failed to add guest: …", sends no GET, keeps the list and shows no success message |
| Dashboard.DashboardPage.UpdateGuest | app/dashboard-improved/page.tsx:150-185 | posts `{action: 'update', ...guest}`; success names the guest in the message and sends exactly one GET after the POST, leaving the list and error the reload gives; failure gives "Failed to update guest: …", sends no GET, keeps the list and shows no success message |
| Dashboard.DashboardPage.DeleteGuest | app/dashboard-improved/page.tsx:190-231 | declining, or a lookup that throws, sends nothing and changes nothing. Otherwise it posts exactly `{action: 'delete', id}` with loading down afterwards. Success shows the message and sends exactly one GET, leaving the list and error the reload gives. Failure shows the prefixed error, sends no GET, keeps the list and shows no success message |
| Dashboard.DashboardPage.BulkImport | app/dashboard-improved/page.tsx:262-265 | sets the "coming soon" error |
| Dashboard.DashboardPage.DismissMessages | app/dashboard-improved/page.tsx:57-65 | the auto-dismiss timer clears both messages |
| Dashboard.DashboardPage.DismissError | app/dashboard-improved/page.tsx:387 | the close button clears the error |
| Dashboard.DashboardPage.DismissSuccess | app/dashboard-improved/page.tsx:377 | the close button clears the success message |
| Details.FormatPart | components/sections/details.tsx:34 | a part becomes its trim, first character upper-cased and the rest lower-cased, same length; empty exactly when the trim is; no surrounding whitespace |
| Details.FormatPartNoComma | components/sections/details.tsx:34 | formatting a part introduces no comma |
| Details.FormatPartIdempotent | components/sections/details.tsx:34 | formatting a formatted part changes nothing |
| Details.FormatParts | components/sections/details.tsx:33-34 | each part is formatted, and the count is kept |
| Details.JoinIndent | components/sections/details.tsx:35 | joining with ", " is joining with "," after indenting every part but the first |
| Details.SplitPiecesLackSeparator | components/sections/details.tsx:33 | no piece of a split on "," contains a comma |
| Details.SplitFormatted | components/sections/details.tsx:31-36 | splitting the result on "," gives back the formatted parts, every one but the first after the space of ", " |
| Details.FormatAddress | components/sections/details.tsx:31-36 | the result has exactly as many commas, hence parts, as the input; SplitFormatted gives the parts themselves |
| Details.FormatAddressIdempotent | components/sections/details.tsx:31-36 | formatting a formatted address changes nothing |
| Details.CopyTracker.constructor | components/sections/details.tsx:27 | no item starts as copied |
| Details.CopyTracker.CopyToClipboard | components/sections/details.tsx:61-75 | a successful write adds exactly that item and sets the clipboard; a failed one changes nothing |
| Details.CopyTracker.ExpireCopied | components/sections/details.tsx:65-70 | the timer removes only that item |
| Faq.Toggled | components/sections/faq.tsx:85-87 | toggling the open item closes it; toggling another opens it; no other item is open afterwards |
| Faq.AtMostOneOpen | components/sections/faq.tsx:143 | two open items are the same item |
| Faq.ToggleTwiceFromClosed | components/sections/faq.tsx:85-87 | toggling an item twice from all-closed closes everything again |
| Faq.Accordion.constructor | components/sections/faq.tsx:83 | every item starts closed |
| Faq.Accordion.ToggleItem | components/sections/faq.tsx:85-87 | the open index becomes the toggled one |
| Faq.LinkText | components/sections/faq.tsx:186 | the lazy match's link text holds no line terminator and no closing marker |
| Faq.InnerLacksMarker | components/sections/faq.tsx:186 | the text up to the first closing marker contains no closing marker |
| Faq.RenderAnswer | components/sections/faq.tsx:175-193 | verbatim exactly when the opening marker is absent; otherwise the text before the first opening marker comes first |
| Faq.LinkedAnswerOpen | components/sections/faq.tsx:177 | the piece before the first opening marker is the text written before it |
| Faq.LinkedAnswerLink | components/sections/faq.tsx:186 | the link text is the text written between the markers |
| Faq.LinkedAnswerClose | components/sections/faq.tsx:188 | the first closing marker is the one after the link |
| Faq.LinkedAnswerAfter | components/sections/faq.tsx:188 | the piece after the first closing marker is the text written after it |
| Faq.RenderLinkedAnswer | components/sections/faq.tsx:175-189 | `pre[RSVP_LINK]link[/RSVP_LINK]post` (no '[' in the three texts, no line break in the link) renders as pre, link and post |
| Faq.RenderPlainAnswer | components/sections/faq.tsx:190-193 | an answer without '[' is rendered verbatim |
| DashboardSidebar.NavItems | components/dashboard-sidebar.tsx:27-58 | five entries; only requests and messages carry a badge, holding their two counts |
| DashboardSidebar.NavItemIds | components/dashboard-sidebar.tsx:27-58 | the ids are pairwise distinct and every tab has an entry |
| DashboardSidebar.ExactlyOneActive | components/dashboard-sidebar.tsx:75-77 | whatever the active tab, exactly one entry is highlighted |
| DashboardSidebar.OnClick | components/dashboard-sidebar.tsx:82 | a click reports the clicked entry's id |
| DashboardSidebar.ClickHighlightsOnlyThat | components/dashboard-sidebar.tsx:77-82 | after a click, the clicked entry and no other is highlighted |
| DashboardSidebar.BadgeText | components/dashboard-sidebar.tsx:92-97 | shown exactly for a non-null count above 0; "99+" above 99, else the number in one or two digits |
| DashboardSidebar.BadgeCapped | components/dashboard-sidebar.tsx:97 | a count up to 99 is never shown as "99+" |
| DashboardSidebar.OnlyCountsShowBadges | components/dashboard-sidebar.tsx:32-56 | only the requests and messages entries can show a badge, and only with a positive count |
| SnapShare.StripWhitespace | components/sections/snap-share.tsx:29-30 | no whitespace is left, and the result is no longer than the name |
| SnapShare.StripWhitespaceCounts | components/sections/snap-share.tsx:29-30 | every character other than whitespace is kept as often as it occurs in the name |
| SnapShare.StripWhitespaceAppend | components/sections/snap-share.tsx:29-30 | stripping a concatenation is the concatenation of the stripped parts, so the kept characters stay in their original order |
| SnapShare.StripWhitespaceChar | components/sections/snap-share.tsx:29-30 | a single whitespace character is removed and any other character is kept |
| SnapShare.StripWhitespaceKeeps | components/sections/snap-share.tsx:29-30 | a name without whitespace is unchanged |
| SnapShare.StripWhitespaceIdempotent | components/sections/snap-share.tsx:29-30 | stripping twice is stripping once |
| SnapShare.LoweredStrippedClean | components/sections/snap-share.tsx:67 | a lower-cased stripped name has no whitespace and no upper-case letter |
| SnapShare.QrFileName | components/sections/snap-share.tsx:67 | the QR file name has no whitespace, no upper-case letter, and ends with "-wedding-qr.png" |
| SnapShare.QrFileNameReadBack | components/sections/snap-share.tsx:67 | splitting the QR file name on "-" gives the lower-cased, whitespace-free groom nickname, then the bride nickname, then "wedding" and "qr.png", when the nicknames hold no "-" |
| SnapShare.HashtagsText | components/sections/snap-share.tsx:26 | no hashtags give the empty text, one hashtag gives itself, and the text always begins with the first hashtag |
| SnapShare.HashtagsTextSplits | components/sections/snap-share.tsx:26 | hashtags without spaces are read back by splitting the joined text on " " |
| SnapShare.AllHashtagsText | components/sections/snap-share.tsx:25-26 | with the site's one hashtag the text is that hashtag |
| SnapShare.WebsiteUrl | components/sections/snap-share.tsx:23 | the page address, or "https://example.com" without a window |
| SnapShare.DriveLink | components/sections/snap-share.tsx:24 | the configured link when there is one, otherwise ""; so non-empty exactly when a non-empty link is configured |
| SnapShare.ShareText | components/sections/snap-share.tsx:32 | the shared text opens with "Celebrate " and both nicknames, and closes with the site address, the hashtags and a sparkle |
| SnapShare.ShareTarget | components/sections/snap-share.tsx:46-61 | every platform has a non-empty target, so a window always opens |
| SnapShare.HomePageTargets | components/sections/snap-share.tsx:51-54 | Instagram and TikTok targets do not depend on what is shared |
| SnapShare.SharedContent | components/sections/snap-share.tsx:52-53 | Facebook carries the encoded address and Twitter the encoded text after their fixed prefixes |
| SnapShare.ShareState.constructor | components/sections/snap-share.tsx:18-26 | nothing copied; the link and hashtag text are the configured ones |
| SnapShare.ShareState.CopyHashtag | components/sections/snap-share.tsx:81-89 | a successful write sets the clipboard and the copied index; a failure changes neither |
| SnapShare.ShareState.CopyAllHashtags | components/sections/snap-share.tsx:91-99 | a successful write copies the joined hashtags and raises the flag; a failure changes neither |
| SnapShare.ShareState.CopyDriveLink | components/sections/snap-share.tsx:101-111 | without a link, or on failure, nothing changes; otherwise the link is copied and the flag raised |
| SnapShare.ShareState.ExpireHashtag | components/sections/snap-share.tsx:85 | the timer clears the copied index |
| SnapShare.ShareState.ExpireAllHashtags | components/sections/snap-share.tsx:95 | the timer lowers the flag |
| SnapShare.ShareState.ExpireDriveLink | components/sections/snap-share.tsx:106 | the timer lowers the flag |
| ConvertToWebp.ImageDirs | scripts/convert-to-webp.ts:5-9 | three directories, each two levels under the working directory |
| ConvertToWebp.Extname | scripts/convert-to-webp.ts:14 | empty, or a '.' followed by no other '.', ending the name and shorter than it; empty for a name without '.' |
| ConvertToWebp.ExtnameOf | scripts/convert-to-webp.ts:44 | the extension of a non-empty stem followed by `.ext` is `.ext` |
| ConvertToWebp.MixedCaseRejected | scripts/convert-to-webp.ts:11 | ".Jpg" is not accepted: the match is case-sensitive |
| ConvertToWebp.ListedAccepted | scripts/convert-to-webp.ts:44-47 | a non-empty stem with any of the six extensions is collected |
| ConvertToWebp.Stem | scripts/convert-to-webp.ts:15 | the base name followed by the extension is the name |
| ConvertToWebp.OutputPath | scripts/convert-to-webp.ts:14-16 | same directory; the base name without extension plus ".webp" |
| ConvertToWebp.OutputOfImage | scripts/convert-to-webp.ts:89-92 | for `stem.ext` with a listed extension the output is `stem.webp` in the same directory |
| ConvertToWebp.ImageFilesUnder | scripts/convert-to-webp.ts:35-50 | every collected file lies under the directory traversed and has a listed extension |
| ConvertToWebp.EntryFilesUnder | scripts/convert-to-webp.ts:41-47 | the same for the files found under one entry |
| ConvertToWebp.Traverse | scripts/convert-to-webp.ts:35-50 | the traversal appends exactly the image files of the tree, in order, to those already collected |
| ConvertToWebp.GetAllImageFiles | scripts/convert-to-webp.ts:32-54 | the result is exactly the image files of the tree |
| ConvertToWebp.ExistingDirs | scripts/convert-to-webp.ts:58 | exactly the listed directories that exist |
| ConvertToWebp.CollectTargets | scripts/convert-to-webp.ts:67-72 | the targets are the image files of each existing directory in turn |
| ConvertToWebp.CollectedUnderDirs | scripts/convert-to-webp.ts:67-72 | every target lies under one of the existing directories |
| ConvertToWebp.PresentAfter | scripts/convert-to-webp.ts:94-100 | files are only ever added during the run |
| ConvertToWebp.PresentGrows | scripts/convert-to-webp.ts:87-105 | the files present after a prefix of the targets remain present after all of them |
| ConvertToWebp.CountsCoverTargets | scripts/convert-to-webp.ts:83-105 | each target is counted exactly once as converted, skipped or failed |
| ConvertToWebp.ExistingOutputSkipped | scripts/convert-to-webp.ts:94-97 | a target whose WebP file exists before the run is skipped and never converted |
| ConvertToWebp.ConvertTargets | scripts/convert-to-webp.ts:83-105 | the three counters are the counts of the dispositions, sum to the number of targets, and the written files are those present at the end |
| ConvertToWebp.ConvertAll | scripts/convert-to-webp.ts:56-112 | no existing directory: exit code 1 before collecting. No target: return with nothing written. Otherwise converted, skipped and failed counts summing to the total |
| Text.Trim | components/sections/details.tsx:34 | the result has no surrounding whitespace and is never longer |
| Text.TrimEndSlice | components/sections/details.tsx:34 | cutting trailing whitespace leaves a prefix of the string, and everything cut is whitespace |
| Text.TrimSlice | components/sections/details.tsx:34 | the trimmed string is the slice of the input between its leading and trailing whitespace, and everything cut on both sides is whitespace |
| Text.IndexOf | components/sections/faq.tsx:175 | the first occurrence at or after the start, or none at all |
| Text.JoinSplit | components/sections/details.tsx:33-35 | joining the pieces of a split with the same separator gives the string back |
| Text.SplitJoin | components/sections/details.tsx:33-35 | splitting parts joined by a character none contains gives the parts back |

## Left out

- Network, timers and browser APIs are not executed. Each `fetch` is an
  input value. The 30-second polling, the 500, 2000 and 5000 ms timers and
  the dashboard's auto-dismiss are separate methods run when the timer
  fires. The clipboard, `confirm()` and `window.open` are boolean or
  string inputs. `sessionStorage` is one boolean field. `encodeURIComponent`
  is a function parameter.
- Concurrency is left out. Overlapping fetches and the dashboard's login
  fetch, which is not awaited, are modelled as if each ran to completion
  before the next event.
- `JSON.parse` and `response.json()` are modelled abstractly: a reply is
  either parsed to a value or not JSON, with the parser's message. Numbers
  are integers. Floating-point values and dates are not modelled.
- BookOfGuests.Guest: `updatedAt` is a millisecond time already parsed.
  Date-string parsing and `formatDate` are left out. A guest response that
  is not an array of guests counts as a failed fetch.
- BookOfGuests.SortGuests: the sort is modelled as a stable insertion sort.
  Its contract states sortedness and permutation, not the exact order of
  the engine's algorithm among guests the comparator ties.
- Text: `trim`, `\s`, `toUpperCase` and `toLowerCase` are ASCII only.
  Unicode whitespace and case mapping are not modelled.
- Faq.RenderAnswer: the link text is modelled with the lazy regular
  expression's semantics. The properties are proved for answers whose
  three texts contain no '['.
- ConvertToWebp: paths are directory components and a name. Path string
  formatting is not modelled, and neither are names containing "/".
  `sharp`'s conversion is the `failing` set, and a failed conversion leaves
  no file. `convertImageToWebp`'s own existence re-check (lines 18-21) is
  not modelled separately: it runs right after the loop's identical check
  and cannot differ in a sequential run. The quality argument, logging
  and the outer `main().catch` exit on a file-system error are left out.
- Dashboard: the rendering of the tabs, the statistics and the guest table
  are markup and are left out. So are the image modal, styling and the
  mobile-width listener of the sections.
- The other pages and sections (guest information, timeline, registry,
  narrative, gallery layout, dashboard overview cards) hold no decision
  logic and are not part of this model.

## Findings

| source | as written | input that shows it | evidently intended | confidence | as-written member | corrected member |
|---|---|---|---|---|---|---|
| components/sections/book-of-guests.tsx:44 | the fallback takes the first two characters of the untrimmed name | "  Maria" gives "  " (two spaces) | the fallback takes them from the trimmed name, giving "MA" | not executed | BookOfGuests.InitialsOfIndentedWord | BookOfGuests.InitialsOfTrimmed |
