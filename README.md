# NFC Link Manager — a verified model of its core

NFC Link Manager is a Next.js application. Users sign in and keep NFC cards that point to links.
This project models in Dafny the parts of it that decide something:

- the store-backed API handlers for two-factor authentication, magic links, trusted devices,
  password login and the audit log;
- the recovery-code generator;
- the Web NFC compatibility checks and the Apple test mode;
- the client-side rules of the manager page.

Layout:

- `common.dfy` (`Common`): `Option`, the handler response type (`Success` or `Failure(status, error)`),
  the two environment variables, and the string helpers `StartsAt`, `Contains` (`includes`) and
  ASCII `Lower` (`toLowerCase`).
- `tables.dfy` (`Tables`): the store. Every table is a sequence of rows held in a field of the
  `Database` class. The query-builder filters are functions over those sequences: `Where` is a
  chain of `.eq`/`.gte`, `Single` is `.single()` (a row only when exactly one matches) and
  `SortDesc` is `.order(col, { ascending: false })`.
- `recovery_codes.dfy`, `two_factor.dfy`, `magic_link.dfy`, `trusted_devices.dfy`, `login.dfy` and
  `audit_logs.dfy`: one module per source file. A handler that writes to the store is a method
  with `modifies` on the tables it writes. A handler that only reads is a function.
- `nfc_support.dfy` (`NfcSupport`): `navigator` and `window` become input records. Each regular
  expression becomes a hand-written scanner that finds the leftmost match.
- `page.dfy` (`NfcManager`): the page's state hooks are the fields of the class `Manager`, and
  each event handler is a method on it.

Values that come from outside the program are parameters:

- the current time `now`, in integer seconds;
- `Math.random()` draws;
- the random bytes and UUIDs;
- the otplib secret;
- the request headers;
- the outcome of a store write (`insertError`, `deleteError`, `queryError`: `Some(message)` when
  the store reports an error);
- the TOTP check and `bcrypt.compare`, as function-valued parameters.

A request body that cannot be parsed is `None`: the handler's `catch` turns it into a 500.

## Model

| member | source | states |
|---|---|---|
| Common.OrUnknown | src/app/api/trusted-devices/route.js:16-20 | the `'unknown'` fallback for a header: a present, non-empty header is kept; a missing or empty one reads as "unknown", so the result is never empty |
| Common.Lower | src/app/page.tsx:269-272 | `toLowerCase`: the same length, each ASCII capital lowered, every other character kept, and no capital left |
| Tables.ProfileOf | src/app/api/login/route.js:31 | the returned profile carries the user's id, name and email, and nothing else (no password hash) |
| Tables.Single | src/app/api/login/route.js:16-24 | `.single()` yields a row exactly when one row matches; the row is in the table and passes the filter; no match gives none |
| Tables.Where | src/app/api/trusted-devices/route.js:95-101 | a chain of `.eq`/`.gte` filters keeps exactly the rows that pass, in table order, and no more rows than the table has; all rows when every row passes, none when none does |
| Tables.WhereCounts | src/app/api/trusted-devices/route.js:95-101 | the filters keep every copy of a passing row and no copy of a failing one, so duplicate rows are never merged |
| Tables.SingleOfUnique | src/app/api/2fa/route.js:62-70 | `.single()` over filters that exactly one row passes yields that row |
| Tables.UserByEmail | src/app/api/magic-link/route.js:10-18 | the user found carries the email and is the only user with it; a user whose email nobody else has is found; an email nobody has finds no one |
| Tables.UserById | src/app/api/magic-link/route.js:78 | the embedded `users(id, name, email)` resource: the user found has the id and is the only one with it; a user with a unique id is found; an unknown id finds no one |
| Tables.SortDesc | src/app/api/trusted-devices/route.js:70-74 | the result is ordered by the key, largest first, and is a permutation of the input |
| Tables.WhereSingleton | src/app/api/trusted-devices/route.js:95-101 | when exactly one row passes the filters, the selection is that row alone |
| Tables.WhereTwo | src/app/api/login/route.js:16-24 | when two rows pass the filters, the selection has at least two rows (so `.single()` fails) |
| RecoveryCodes.DrawIndex | src/lib/twoFactorAuth.js:38 | `Math.floor(Math.random() * 36)` is a valid index into the alphabet and is the floor of the scaled draw |
| RecoveryCodes.RawCharsInAlphabet | src/lib/twoFactorAuth.js:36-39 | the inner loop produces exactly `n` characters, each from A-Z0-9 |
| RecoveryCodes.CodeAtWellFormed | src/lib/twoFactorAuth.js:35-42 | every generated code has the `XXXXX-XXXXX` shape: 11 characters, a hyphen at 5, alphabet characters elsewhere |
| RecoveryCodes.RequestedCount | src/lib/twoFactorAuth.js:31-35 | `count` defaults to 10; a negative count runs no iteration |
| RecoveryCodes.GenerateRecoveryCodes | src/lib/twoFactorAuth.js:31-45 | returns as many codes as requested; the i-th is built from draws 10i..10i+9; every code is well formed |
| TwoFactor.RowOf | src/app/api/2fa/route.js:62-70 | a row is found exactly when the user has one row; it is that row, in the table; a user with a single row always finds it; a user with no row finds none (404) |
| TwoFactor.SetCodesFor | src/app/api/2fa/route.js:122-125 | the update rewrites the codes of exactly the user's rows and leaves every other row as it was |
| TwoFactor.EnableOnlyThatUser | src/app/api/2fa/route.js:80-83 | enabling sets `is_enabled` on the user's rows only; every other field and every other row is unchanged |
| TwoFactor.IndexOf | src/app/api/2fa/route.js:112-116 | `indexOf` gives -1 exactly when the code is absent, and otherwise the position of its first occurrence |
| TwoFactor.SpliceRemovesOneOccurrence | src/app/api/2fa/route.js:112-119 | spending a present code removes one occurrence: one fewer code, the multiset minus that code, the rest in order |
| TwoFactor.RowOfSetCodes | src/app/api/2fa/route.js:100-125 | after the codes are rewritten, the user still has exactly one row, now holding the new codes |
| TwoFactor.Enroll | src/app/api/2fa/route.js:5-54 | 503 without configuration (nothing inserted); 500 on a bad body, a QR failure or an insert error (nothing inserted); otherwise one pending row (`is_enabled` false) holding the secret and ten well-formed codes, which are the codes returned |
| TwoFactor.Verify | src/app/api/2fa/route.js:57-92 | 404 without a single row for the user; 401 when the verifier rejects the token; only on acceptance is the user's row enabled; every failure leaves the table unchanged |
| TwoFactor.RedeemRecoveryCode | src/app/api/2fa/route.js:95-134 | 404 without a row; 401 for an absent code with the list unchanged; otherwise the code's first occurrence is spliced out of that user's list |
| TwoFactor.SpentCodeIsGone | src/app/api/2fa/route.js:110-125 | with distinct codes, a spent code is no longer in the list, so a second redemption answers 401 |
| MagicLink.HexEncode | src/app/api/magic-link/route.js:21 | `toString('hex')` gives two lower-case hex digits per byte |
| MagicLink.DecodeEncode | src/app/api/magic-link/route.js:21 | reading the hex text back gives the original bytes |
| MagicLink.EncodeInjective | src/app/api/magic-link/route.js:21 | distinct random bytes give distinct tokens |
| MagicLink.TokenOf | src/app/api/magic-link/route.js:21 | the token is 64 hex digits that decode to the 32 random bytes |
| MagicLink.LiveLink | src/app/api/magic-link/route.js:76-86 | a link is found only if it carries the token, is unused and has not expired; with no such row the answer is 401 |
| MagicLink.MarkUsed | src/app/api/magic-link/route.js:89-92 | rows with the token become used; every other row is unchanged |
| MagicLink.IssueLink | src/app/api/magic-link/route.js:5-63 | 404 for an unknown email, and nothing is written; otherwise appends an unused link that expires in 3600 s plus a `magic_link_created` audit entry, and returns the login URL with the token |
| MagicLink.RedeemLink | src/app/api/magic-link/route.js:66-130 | 400 without a token; 401 without a live link, and nothing is written; otherwise the link is marked used, one successful login attempt and a `magic_link_login` entry are appended, and the owner's public profile is returned |
| MagicLink.RedeemedLinkIsDead | src/app/api/magic-link/route.js:76-92 | after redemption the token never selects a live link again, at any later time |
| MagicLink.IssuedLinkIsLive | src/app/api/magic-link/route.js:20-33 | a freshly issued link with a fresh token is redeemable exactly up to issue time plus one hour |
| TrustedDevices.RememberDays | src/app/api/trusted-devices/route.js:7 | `rememberDays` defaults to 30, and a supplied number is used as given |
| TrustedDevices.Register | src/app/api/trusted-devices/route.js:5-57 | keeps the row ids unique; on an insert error (500) nothing is written; otherwise appends the device expiring `rememberDays` days from now, named `deviceName` or the user agent, plus an `add_trusted_device` audit entry, and returns the device id |
| TrustedDevices.ListDevices | src/app/api/trusted-devices/route.js:60-87 | 400 without a user id; 500 with the store's message when the query fails; otherwise exactly the user's devices (as a multiset), most recently used first |
| TrustedDevices.MatchingDevice | src/app/api/trusted-devices/route.js:95-101 | a device is found only for the user and device id and when unexpired; when every match has expired there is none |
| TrustedDevices.OnlyMatchValidates | src/app/api/trusted-devices/route.js:95-105 | the only unexpired row for the pair is the one found |
| TrustedDevices.Touch | src/app/api/trusted-devices/route.js:108-111 | the update sets `last_used_at` on rows with the id and leaves the others |
| TrustedDevices.TouchOnlyMatched | src/app/api/trusted-devices/route.js:108-111 | with unique row ids, the refresh changes the found row and no other |
| TrustedDevices.TouchKeepsKeys | src/app/api/trusted-devices/route.js:108-111 | the refresh keeps the row ids unique and below the serial counter |
| TrustedDevices.Validate | src/app/api/trusted-devices/route.js:90-120 | `valid` is true exactly when one unexpired row matches; only then is that row's `last_used_at` refreshed |
| TrustedDevices.Remaining | src/app/api/trusted-devices/route.js:134-138 | the delete removes exactly the rows matching both ids, keeps every copy of the rest, and keeps them in order |
| TrustedDevices.Remove | src/app/api/trusted-devices/route.js:123-167 | 400 unless both ids are given; 500 on a delete error; on failure nothing changes; otherwise the matching rows go and a `remove_trusted_device` entry is appended |
| Login.Login | src/app/api/login/route.js:4-38 | 503 without configuration; 401 when no user has the email; success only for a user with that email whose hash the password matches, returning that user's profile without the hash; failures are 401, 500 or 503 |
| Login.UniqueEmailLogsIn | src/app/api/login/route.js:16-31 | a user whose email is unique logs in exactly when the password matches; otherwise the answer is 401 |
| Login.DuplicateEmailRefused | src/app/api/login/route.js:16-24 | when two accounts share an email, neither can log in: `.single()` fails and the answer is 401 |
| AuditLogs.Window | src/app/api/audit-logs/route.js:30-32 | `.range(offset, offset + limit - 1)` holds at most `limit` rows, taken in order from `offset` |
| AuditLogs.PageOfSorted | src/app/api/audit-logs/route.js:30-32 | a page of the newest-first order is newest first and holds only selected entries |
| AuditLogs.QueryLogs | src/app/api/audit-logs/route.js:4-51 | 500 on a query error; otherwise the limit (default 50) and offset (default 0) are echoed, `total` counts every matching entry, and the page is positions `offset` to `offset + limit - 1` of the matching entries sorted newest first: `min(limit, total - offset)` entries, none past the end |
| AuditLogs.NoFiltersKeepAll | src/app/api/audit-logs/route.js:18-27 | without filter parameters, every entry is selected |
| AuditLogs.UserFilterNarrows | src/app/api/audit-logs/route.js:23 | adding a user filter keeps exactly that user's entries, in order |
| AuditLogs.ConsecutivePages | src/app/api/audit-logs/route.js:32 | two consecutive pages are the page of twice the size: no gap and no overlap |
| AuditLogs.AllPagesCover | src/app/api/audit-logs/route.js:29-32 | paging from an offset in steps of `limit` covers the rest of the sorted selection exactly |
| AuditLogs.Append | src/app/api/audit-logs/route.js:54-87 | 500 on an insert error, with nothing written; otherwise one entry is appended, stamped with the address and user agent or `unknown` |
| AuditLogs.AppendedEntryIsFound | src/app/api/audit-logs/route.js:65-73 | an appended entry is selected by a query for its user and action from its creation time on |
| NfcSupport.LeadingDigits | src/lib/nfcSupport.js:54 | a greedy `[0-9]+` takes the longest leading run of digits, and the next character is not a digit |
| NfcSupport.LeadingDigitsOf | src/lib/nfcSupport.js:23 | digits followed by a non-digit are taken whole |
| NfcSupport.Decimal | src/lib/nfcSupport.js:77 | a number renders as a non-empty string of digits |
| NfcSupport.DecimalRoundTrip | src/lib/nfcSupport.js:55 | `parseInt` of a rendered number gives the number back |
| NfcSupport.Groups | src/lib/nfcSupport.js:23 | the captured groups are digit runs; the first two are non-empty |
| NfcSupport.GroupsThree | src/lib/nfcSupport.js:23 | "a_b_c" not followed by a digit is read as the three groups a, b and c |
| NfcSupport.GroupsTwo | src/lib/nfcSupport.js:28 | "a.b" followed by neither a digit nor a dot is read as two groups with the third undefined |
| NfcSupport.FirstVersion | src/lib/nfcSupport.js:23 | a leftmost match, when there is one, captures digit groups |
| NfcSupport.FirstVersionAt | src/lib/nfcSupport.js:23 | a match at a position with no marker before it is the one `match` returns |
| NfcSupport.FirstVersionNone | src/lib/nfcSupport.js:23-24 | without the marker there is no match, and the version text is '' |
| NfcSupport.IosVersionReads | src/lib/nfcSupport.js:23-24 | when the first "OS " starts "OS a_b_c", the iOS version text is "a.b.c" |
| NfcSupport.AndroidVersionReads | src/lib/nfcSupport.js:28-29 | when the first "Android " starts "Android a.b" (with no third group), the Android version text is "a.b" |
| NfcSupport.LineRest | src/lib/nfcSupport.js:58 | `.*` stops at the first line terminator: the result is the prefix before it |
| NfcSupport.FirstNumberAt | src/lib/nfcSupport.js:54 | a match at a position with no marker before it is the one `match` returns |
| NfcSupport.FirstNumberNone | src/lib/nfcSupport.js:54-59 | without the marker there is no match |
| NfcSupport.ChromeVersionReads | src/lib/nfcSupport.js:54-55 | when the first "Chrome/" is followed by a number n and no further digit, `chromeVersion` is n |
| NfcSupport.NoChromeMarker | src/lib/nfcSupport.js:54-55 | without "Chrome/", `chromeVersion` is 0 |
| NfcSupport.SafariVersionReads | src/lib/nfcSupport.js:58-59 | "Version/n" followed by "Safari" on the same line gives `safariVersion` n |
| NfcSupport.DetectDevice | src/lib/nfcSupport.js:8-33 | each flag holds exactly when its user-agent test (or the touch-MacIntel test) holds: iOS for iPhone, iPad, iPod or a touch Mac; iPad for iPad or a touch Mac; mobile for "Mobi", Android or iOS; the OS version is the iOS version, else the Android version, else '' |
| NfcSupport.IPhoneVersion | src/lib/nfcSupport.js:11-25 | an iPhone agent whose first "OS " reads "OS a_b_c" is iOS and mobile with OS version "a.b.c" |
| NfcSupport.AndroidDeviceVersion | src/lib/nfcSupport.js:11-30 | an Android agent that is no Apple device, whose first "Android " reads "Android a.b", is Android and mobile with OS version "a.b" |
| NfcSupport.OsVersionShape | src/lib/nfcSupport.js:21-30 | the OS version text is '' or "major.minor[.patch]" made of digit runs |
| NfcSupport.DesktopModeIPad | src/lib/nfcSupport.js:11-17 | a MacIntel platform with a touch screen is an iOS iPad, mobile and not a Mac, whatever the user agent says |
| NfcSupport.Diagnose | src/lib/nfcSupport.js:65-91 | the first failing check, in the order NDEFReader, Chrome, version 89, secure context, Android; each outcome holds exactly under its conditions |
| NfcSupport.Requirements | src/lib/nfcSupport.js:65-91 | no advice when supported, two items for missing hardware, one otherwise |
| NfcSupport.CheckNfcCompatibility | src/lib/nfcSupport.js:39-94 | the versions are what the scanners read; the browser is suitable iff the user agent includes "Chrome" and the version is at least 89; supported and hardware both mean NDEFReader is present; details and requirements follow the diagnosis |
| NfcSupport.SuitableBrowserPassesBrowserChecks | src/lib/nfcSupport.js:62-78 | without a reader, a suitable browser is exactly one whose diagnosis is past the two browser checks |
| NfcSupport.GetNfcSupportMessage | src/lib/nfcSupport.js:99-115 | the plain message exactly when supported; otherwise the title, the diagnosis text, at least one requirement and the general advice |
| NfcSupport.ConfigureAppleTestMode | src/lib/nfcSupport.js:121-140 | for each of the eight keys, a supplied value wins and an unsupplied key keeps its default |
| NfcSupport.MergeLaws | src/lib/nfcSupport.js:121-134 | no options give the defaults; a full set of options gives exactly those options |
| NfcSupport.KeepLast | src/lib/nfcSupport.js:221 | for a positive count, `slice(-10)` keeps the last ten entries, or all of them when there are fewer |
| NfcSupport.KeepLastAppend | src/lib/nfcSupport.js:216-221 | truncating after every append keeps what truncating the whole history once keeps |
| NfcSupport.WrittenTagLog.SimulateAppleNfcWriting | src/lib/nfcSupport.js:202-228 | a simulated error throws and leaves the log unchanged; otherwise a persisted write appends the tag, keeps the ten most recent, and the newest is last; the log never exceeds ten |
| NfcSupport.LogAfter | src/lib/nfcSupport.js:214-225 | the log a run of writes leaves holds at most ten tags |
| NfcSupport.LogAfterIsLastTen | src/lib/nfcSupport.js:214-225 | whatever the number of writes, the log is the ten most recent, oldest first |
| NfcManager.FilteredCards | src/app/page.tsx:269-272 | a card is kept iff its lower-cased uid or link contains the lower-cased term; the order is kept; an empty term keeps every card; every copy of a kept card stays |
| NfcManager.SearchIgnoresCase | src/app/page.tsx:269-272 | a term and its lower-cased form select the same cards |
| NfcManager.UserCards | src/app/page.tsx:100 | exactly the cards whose `user_id` is the user's, every copy of each, in order |
| NfcManager.Manager.constructor | src/app/page.tsx:55-66 | the initial value of every state hook |
| NfcManager.Manager.FetchCards | src/app/page.tsx:93-105 | nothing without a user or after a failed request; otherwise the list becomes the user's own cards only |
| NfcManager.Manager.HandleAuth | src/app/page.tsx:108-162 | no request iff the email or password is empty, or the name is empty when registering; otherwise the login or registration body built from the fields |
| NfcManager.Manager.AuthSucceeded | src/app/page.tsx:125-154 | the user is signed in; email and password are cleared, and the name too after a registration |
| NfcManager.Manager.HandleLogout | src/app/page.tsx:165-171 | no user, no cards, and the home tab |
| NfcManager.Manager.SimulateNfcScan | src/app/page.tsx:174-184 | nothing changes without a user; otherwise the operation is set, scanning starts, and the scanned card and link are cleared |
| NfcManager.Manager.FinishScan | src/app/page.tsx:186-197 | the scanned uid starts with "NFC-"; the link is the example site only for a read; scanning stops |
| NfcManager.Manager.WriteCard | src/app/page.tsx:202-219 | no request iff the link is empty or there is no scanned card or user; otherwise the card's uid, the link and the user's id |
| NfcManager.Manager.WriteSucceeded | src/app/page.tsx:221-225 | the operation ends and the scanned card and link are cleared |
| NfcManager.Manager.DismissCard | src/app/page.tsx:234-245 | `resetCard` and `lockCard`: the operation ends and the scanned card is dismissed |

## Left out

- The otplib secret, `verify` and `keyuri`, and QR rendering are foreign calls. The secret is a parameter, `verifyToken` is a function-valued parameter, and a QR failure is `qrCode == None`, which gives 500.
- `bcrypt.compare` is a function-valued parameter of `Login.Login`, and `crypto.randomUUID`/`randomBytes` are parameters.
- Dates are integer seconds. Calendar arithmetic (`setDate`, `setHours`) is taken as adding whole days or hours, and ISO-string comparison as comparing seconds.
- The store's column defaults are assumed: `created_at` and `last_used_at` on insert are the insertion time `now`. Audit entries without a `user_agent` column value have `None`.
- The store schema is not part of this model, so no uniqueness constraint is assumed. Instead, trusted-device rows carry a serial `id` (the table's primary key, used by `.eq("id", ...)`).
- Write errors of the store are not modelled on the paths where the code does not inspect them; each such write is taken to succeed:
  - the magic-link insert (src/app/api/magic-link/route.js:26-33);
  - the `used` update of a redeemed link (src/app/api/magic-link/route.js:89-92);
  - the `login_attempts` insert (src/app/api/magic-link/route.js:98-104);
  - the `last_used_at` update of a validated device (src/app/api/trusted-devices/route.js:108-111);
  - the audit inserts of the magic-link and trusted-device routes;
  - the 2FA enable and code updates.
- Checked write errors are modelled: the 2FA insert, the trusted-device insert and delete, and the audit-log POST.
- Checked read errors are modelled: the audit-log GET and the trusted-device GET answer 500. A `.single()` lookup that finds no single row answers 404 (2FA, magic-link POST), 401 (login, magic-link GET) or 200 with `valid: false` (trusted-device validation); a failure for any other reason gives the same answer, as in the code.
- The `users(name, email)` join in the audit-log GET adds fields to each row and changes no selection; it is not modelled.
- AuditLogs.QueryLogs: rows with equal `created_at` are ordered here in table order, because the sort is stable. The store gives no tie-breaker, so their order is unspecified and may differ between requests. The same holds for `last_used_at` ties in TrustedDevices.ListDevices. AuditLogs.ConsecutivePages and AuditLogs.AllPagesCover therefore hold for one fixed order. Across separate GET requests they hold only when no two matching entries share a timestamp.
- AuditLogs.QueryLogs: `parseInt` of a non-numeric `limit`/`offset` (NaN) and negative values are not modelled. Both are natural numbers, or absent.
- AuditLogs.Window: PostgREST's error for an offset past the end is modelled as an empty page.
- TrustedDevices.RememberDays: a `rememberDays` that is not a number is not modelled. An explicit `null` is not the absent key: the destructuring default does not apply and `getDate() + null` adds no days, which callers of the model express as `Some(0)`.
- `String.prototype.toLowerCase` is modelled on ASCII letters only. The page's search and the other string tests are exact on everything else.
- `testNfcHardware` is not modelled because its outcome depends on a browser scan racing a timer.
- `simulateAppleNfcReading` is not modelled because its output is formatted from `Math.random()` in base 36.
- `getAppleTestConfig` is not modelled. It is only a `localStorage` read and a JSON parse, so the saved configuration is passed in.
- NfcSupport.ConfigureAppleTestMode: the object spread with extra, unknown keys or with keys set to `undefined` is not modelled. Options are the eight known keys, each supplied or not. The `localStorage` write is left out.
- NfcSupport.WrittenTagLog.SimulateAppleNfcWriting:
  - the delay is left out;
  - a stored tag list that fails to parse is not modelled (the source logs it and skips the write);
  - `writeData` is an NDEF message object in the source; here it is `Option<string>`: the message as text, or `None` (or "") for a falsy value, which the source does not persist.
- The page: React effects, toasts, translations and `localStorage` are left out.
  - The `fetch` calls are the requests that `HandleAuth` and `WriteCard` return. Responses arrive through `AuthSucceeded`, `WriteSucceeded` and `FetchCards`.
  - `copyToClipboard`, `deleteCard` (a plain request and refetch) and `changeLanguage` are not modelled.
- src/app/api/cards/route.js and src/app/api/users/route.js are not part of this model, nor are the store client and the build configuration.
- Concurrency between requests is not modelled: each handler runs alone against the store.
