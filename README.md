# app-donate, modelled in Dafny

This project models the logic of the app-donate donation platform: an Express/Mongoose
server and its React Native and TSX clients. The model covers five areas.

- **Donation intents.** A client allocates a donation id and registers it with the server
  (`POST /initiate-donation`, insert if absent). It turns the id into a bank-transfer memo
  inside a Sepay QR code. The server later decides whether the donation is confirmed by
  searching the stored bank transactions for the id (`GET /check-donation/:donationId`).
- **The transaction ledger.** `GET /transactions` de-duplicates transactions by the bank's
  reference code, keeping the newest.
- **Server bookkeeping.**
  - Donation creation, which inserts a donation and increments the campaign's amount and
    donor count together.
  - Paginated donation listing.
  - The campaign getters and the direct `donateToCampaign`.
  - Event listing and event registration with a deadline and a capacity.
  - User registration and login.
- **Client validators.** The register, login, forgot-password and reset-password guard chains
  with their shared e-mail pattern, and the campaign-creation form.
- **Client list transforms.** Urgency buckets, statistics and filters on the landing page.
  Keys, days left, filtering and the in-place sort on the support page. The explore page's
  filters, progress rounding and organization ranking. The transaction history's sort and
  total. The case detail screen's bank content, progress and days remaining. The news feed's
  relative times and post styles.

Each source file is one module: `InitDonation`, `Ledger`, `DonationController`,
`CampaignController`, `Events`, `AuthController`, `DonationScreen`, `RegisterScreen`,
`LoginScreen`, `ForgotPasswordScreen`, `ResetPasswordScreen`, `CreateCampaignScreen`,
`CaseDetailScreen`, `LandingPage`, `SupportPage`, `ExplorePage`, `TransactionHistory` and
`NewsFeed`. Shared modules sit beside them:

- `ServerModels`: the stored documents.
- `Reconciliation`: how the client memo and the server search meet.
- `JsText`: JavaScript string semantics, namely `\s`, `trim`, case mapping, `includes`,
  `split`, number rendering, `parseInt` and UTF-16 length.
- `JsNumber`: `Number(text)` and the IEEE cases of a division.
- `UriCodec`: `encodeURIComponent` and `decodeURIComponent` over UTF-8.
- `NfdTable`: the base letter of every code point whose canonical decomposition holds an
  ASCII letter or digit.
- `Ordering`: the stable sort (`SortStable`: the elements of one key keep their input order), filter and sum every list transform uses.
- `EmailFormat`: the e-mail pattern.
- `Wrappers`: `Option`.

Collections are sequences. State the source updates in place is a class whose methods
`modifies` it:

- the DonationInit store;
- the campaign and donation collections;
- events;
- users;
- the donation screen;
- the campaign form;
- the support page's campaign list;
- the transaction history.

A Mongo session is one atomic method. Dates are integer milliseconds, and the current time,
generated ids and network answers are parameters.

## Model

| member | source | states |
|---|---|---|
| InitDonation.Initiated | app-donate/Server/routes/initDonation.js:7-34 | Status is 400, 200, 201 or 500. 201 exactly when both ids are truthy, the donation id is not yet stored and the amount and date cast; then one record is appended and nothing else changes. 500 exactly when such a new record fails its casts on save. 400, 200 and 500 leave the store as it was. |
| InitDonation.InitiatedRecord | app-donate/Server/routes/initDonation.js:21-29 | The appended record carries the posted donation id, campaign id and amount (none when no amount was posted), and `createdAt` is the posted one when it was truthy as posted, else the current time. |
| InitDonation.EpochDateKept | app-donate/Server/routes/initDonation.js:25 | A posted date text for the epoch is truthy, so it is kept and the record is dated 0, not now. |
| InitDonation.UncastableAmountFails | app-donate/Server/model/DonationInit.js:7 | A new id posted with an amount that is no number answers 500 and stores nothing. |
| InitDonation.InitiatedKeepsUnique | app-donate/Server/model/DonationInit.js:5 | Initiation never gives two records the same donation id. |
| InitDonation.InitiateTwice | app-donate/Server/routes/initDonation.js:16-19 | Posting the same valid body again answers 200 and leaves the store unchanged; a body whose save failed fails the same way again. |
| InitDonation.ExistingIdUnchanged | app-donate/Server/routes/initDonation.js:16-19 | A stored id answers 200, and its record keeps its first campaign id and amount. |
| InitDonation.DonationInitStore.constructor | app-donate/Server/model/DonationInit.js:4-9 | The store starts empty and has unique ids. |
| InitDonation.DonationInitStore.Initiate | app-donate/Server/routes/initDonation.js:7-34 | The stored records and the status become those `Initiated` gives for the old records, 500 on a failed cast included, so the unique-id invariant is kept. |
| InitDonation.Fold | app-donate/Server/routes/initDonation.js:48 | Case folding keeps letters, digits, `-` and `_` within that alphabet. |
| InitDonation.FoldString | app-donate/Server/routes/initDonation.js:48 | Folds a text character by character and keeps its length. |
| InitDonation.CheckDonation | app-donate/Server/routes/initDonation.js:37-60 | 400 (`invalid_request`) exactly for an empty id. Otherwise `confirmed` exactly when some stored description contains the id under case folding. The store of initiated ids is never read. |
| InitDonation.VerbatimConfirms | app-donate/Server/routes/initDonation.js:47-55 | A description that contains the id verbatim confirms it. |
| InitDonation.VerbatimMatches | app-donate/Server/routes/initDonation.js:47-49 | A description holding the id verbatim is a match. |
| InitDonation.CheckIgnoresCase | app-donate/Server/routes/initDonation.js:48 | Upper-casing the id does not change the answer. |
| InitDonation.CheckMonotone | app-donate/Server/routes/initDonation.js:47-53 | Adding transactions can turn `pending` into `confirmed` but never the reverse. |
| InitDonation.HyphenNeeded | app-donate/Server/routes/initDonation.js:47-55 | An id with a hyphen stays pending while no description has a hyphen. |
| Reconciliation.UuidIsPlain | app-donate/Server/routes/initDonation.js:48 | A version-4 uuid uses only letters, digits and hyphens, so the regular expression matches it literally, and it does contain a hyphen. |
| Reconciliation.MemoOnlyNeverConfirms | app-donate/MobileApp/screens/DonationScreen.js:54 | A uuid donation whose bank descriptions hold only the QR memo stays `pending` forever (finding 1, as written). |
| Reconciliation.MemoOfPlainId | app-donate/MobileApp/screens/DonationScreen.js:54 | The memo of an id made of letters, digits, `-` and `_` is again such a text. |
| Reconciliation.PlainStrip | app-donate/MobileApp/screens/DonationScreen.js:41-47 | Sanitising such an id leaves only ASCII letters and digits. |
| Reconciliation.CheckDonationWithMemo | app-donate/Server/routes/initDonation.js:37-60 | Corrected check that also accepts the QR memo. Its 400 case is the same, and every id the original confirms is still confirmed. |
| Reconciliation.QrTransferConfirms | app-donate/MobileApp/screens/DonationScreen.js:54 | With the correction, a transfer whose description carries the QR memo confirms the donation. |
| DonationScreen.Project | app-donate/MobileApp/screens/DonationScreen.js:42-45 | One character after NFD, mark removal, the đ/Đ replacements and the `[^a-zA-Z0-9\s]` filter is at most one kept character. |
| DonationScreen.StripKept | app-donate/MobileApp/screens/DonationScreen.js:42-45 | The filtered text is no longer than the input and holds only ASCII letters, digits and white space. |
| DonationScreen.RemoveTonesOutput | app-donate/MobileApp/screens/DonationScreen.js:41-47 | `removeVietnameseTones` gives only ASCII letters, digits and white space, no longer than its input, with no white space at either end. |
| DonationScreen.TrimKeepsKept | app-donate/MobileApp/screens/DonationScreen.js:46 | Trimming keeps that alphabet. |
| DonationScreen.StripConcat | app-donate/MobileApp/screens/DonationScreen.js:42-45 | Sanitising works character by character: it distributes over concatenation. |
| DonationScreen.ProjectCases | app-donate/MobileApp/screens/DonationScreen.js:42-45 | ASCII letters and digits are kept. `đ` becomes `d` and `Đ` becomes `D`. U+0300 to U+036F are dropped. |
| DonationScreen.ProjectPrecomposed | app-donate/MobileApp/screens/DonationScreen.js:42-45 | A precomposed Latin letter becomes its base letter alone: NFD splits off its marks and the mark range then drops them. |
| DonationScreen.StripOfKept | app-donate/MobileApp/screens/DonationScreen.js:42-45 | A text already in the alphabet passes the filter unchanged. |
| DonationScreen.RemoveTonesIdempotent | app-donate/MobileApp/screens/DonationScreen.js:41-47 | Applying `removeVietnameseTones` twice gives the same as once. |
| DonationScreen.SanitisedIsFixed | app-donate/MobileApp/screens/DonationScreen.js:41-47 | Every text in the output alphabet without surrounding spaces is its own sanitisation, so the outputs are exactly those texts. |
| DonationScreen.RemoveTonesExample | app-donate/MobileApp/screens/DonationScreen.js:41-47 | `Ủng hộ` becomes `Ung ho`. |
| DonationScreen.RemoveMarkup | app-donate/MobileApp/screens/DonationScreen.js:54 | Removing `<>"'&` never lengthens the text. |
| DonationScreen.RemoveMarkupOfKept | app-donate/MobileApp/screens/DonationScreen.js:54 | A sanitised text has no markup character to remove. |
| DonationScreen.QrMemoIsSanitised | app-donate/MobileApp/screens/DonationScreen.js:54 | The second cleaning changes nothing: the memo is `removeVietnameseTones(id)`. |
| DonationScreen.QueryParameters | app-donate/MobileApp/screens/DonationScreen.js:56 | A memo value without `&` splits the query back into exactly its five parameters. |
| DonationScreen.QrUrlParameters | app-donate/MobileApp/screens/DonationScreen.js:49-61 | The QR URL is the endpoint plus a query that splits into the five parameters `acc`, `bank`, `des`, `template` and `download`, and the `des` value percent-decodes to the sanitised id. |
| DonationScreen.MemoParameter | app-donate/MobileApp/screens/DonationScreen.js:56 | For any memo, the encoded value keeps the query at five parameters and decodes back to the memo. |
| DonationScreen.Substr | app-donate/MobileApp/screens/DonationScreen.js:71 | `substr(start, length)`: at most `length` characters, taken from `start` on, and empty past the end. |
| DonationScreen.CreateDonationId | app-donate/MobileApp/screens/DonationScreen.js:66-74 | The uuid when one is generated. Otherwise `DON_`, then the timestamp, `_` and characters 2 to 10 of the random base-36 text. |
| DonationScreen.FallbackIdCarriesTimestamp | app-donate/MobileApp/screens/DonationScreen.js:70-72 | The fallback id splits on `_` into `DON`, the timestamp's digits (which read back as the timestamp) and the random part. |
| DonationScreen.BankContent | app-donate/MobileApp/screens/DonationScreen.js:37-39 | The donation id when truthy, else `Ung ho CLYT`. |
| DonationScreen.UuidMemo | app-donate/MobileApp/screens/DonationScreen.js:37-39 | For a uuid the memo is its 32 hex digits with the four hyphens removed, and it differs from the bank content shown and posted. |
| DonationScreen.UuidGroups | app-donate/MobileApp/screens/DonationScreen.js:42-45 | A version-4 uuid is five hex groups joined by hyphens, and dropping its hyphens gives the 32 digits. |
| DonationScreen.DonationScreenState.constructor | app-donate/MobileApp/screens/DonationScreen.js:22-27 | No donation id or QR image, and every flag false. |
| DonationScreen.DonationScreenState.HandleGenerateQR | app-donate/MobileApp/screens/DonationScreen.js:76-125 | With no campaign id, only the missing-campaign alert, and nothing else changes. Otherwise a fresh id is stored and posted. The QR URL of that id is set and shown only after a 2xx answer; a failed post alerts and keeps the old image. |
| DonationScreen.DonationScreenState.AutoInitDonation | app-donate/MobileApp/screens/DonationScreen.js:143-180 | Acts only when there is a campaign id and no donation id yet, posting a fresh id. On a 2xx answer its QR is shown; otherwise the automatic alert appears and the image is kept. In every other state nothing changes. |
| DonationScreen.DonationScreenState.RetryLoadQR | app-donate/MobileApp/screens/DonationScreen.js:134-140 | Sets loading and clears the error. Rebuilds the QR URL from the stored id, or throws when there is none, leaving the image. |
| Ledger.GetTransactions | app-donate/Server/routes/transactionRoutes.js:24-28 | `success` is true, and `count` is the length of `data` and at most the number of stored transactions. |
| Ledger.FirstPerKeyMembers | app-donate/Server/routes/transactionRoutes.js:14-20 | `$group` with `$first` returns stored documents unchanged and no more than there are. |
| Ledger.FirstPerKeyDistinct | app-donate/Server/routes/transactionRoutes.js:14-17 | At most one document per reference code. |
| Ledger.FirstPerKeyCovers | app-donate/Server/routes/transactionRoutes.js:14-17 | Every stored reference code is represented. |
| Ledger.FirstPerKeyNewest | app-donate/Server/routes/transactionRoutes.js:11-16 | On a list sorted newest first, the kept document of a code is at least as new as every document with that code. |
| Ledger.RestSorted | app-donate/Server/routes/transactionRoutes.js:11-16 | Setting aside the head's group keeps the rest in newest-first order. |
| Ledger.LatestMembers | app-donate/Server/routes/transactionRoutes.js:9-22 | The pipeline returns stored documents, no more than there are. |
| Ledger.LatestDistinct | app-donate/Server/routes/transactionRoutes.js:14-17 | No two returned documents share a reference code. |
| Ledger.LatestCovers | app-donate/Server/routes/transactionRoutes.js:14-17 | Every stored reference code, null included, has a returned document. |
| Ledger.LatestNewest | app-donate/Server/routes/transactionRoutes.js:11-16 | The returned document of a code is at least as new as every stored document with that code. |
| Ledger.LatestPerReferenceSpec | app-donate/Server/routes/transactionRoutes.js:9-22 | The pipeline returns stored documents, one per reference code, covering every code present, each the newest of its code. |
| Ledger.NullGroupIsOne | app-donate/Server/routes/transactionRoutes.js:15-16 | Documents without a reference code form one group: exactly one of them is returned, the newest. |
| ServerModels.FindCampaign | app-donate/Server/controllers/donationController.js:21 | `findById`: an index holding the id, or `None` when no campaign has it. |
| ServerModels.CampaignDb.constructor | app-donate/Server/model/Campaign.js:1-19 | The collections start with the given campaigns, which have unique ids, and no donations. |
| DonationController.Increment | app-donate/Server/controllers/donationController.js:53-63 | `$inc` adds the amount to `current_amount` and 1 to `total_donors`, a missing field counting from 0, and changes no other field. |
| DonationController.Created | app-donate/Server/controllers/donationController.js:6-90 | Status is 201, 400 or 404. Any status but 201 leaves both collections as they were (the session aborts). 201 appends exactly one donation and keeps the number of campaigns. |
| DonationController.CreatedOutcome | app-donate/Server/controllers/donationController.js:21-48 | 404 exactly for a missing or unknown campaign id. 201 exactly for a known, `active` campaign with a parseable amount and a donor e-mail and phone. |
| DonationController.CreatedEffects | app-donate/Server/controllers/donationController.js:40-63 | On 201 the donation is `completed`, carries `parseInt(amount)`, and has donor name `Ẩn danh` when none is given. The campaign's amount rises by exactly that amount and its donors by exactly 1. Every other campaign is unchanged. |
| DonationController.CreatedKeepsBalance | app-donate/Server/controllers/donationController.js:53-70 | For every campaign, raised amount minus stored donations, and donor count minus their number, are invariant: insert and increment happen together or not at all. |
| DonationController.CreateDonation | app-donate/Server/controllers/donationController.js:6-90 | The session as one atomic step: the collections and status become those `Created` gives. |
| DonationController.CeilDivBounds | app-donate/Server/controllers/donationController.js:115-117 | `Math.ceil(a / b)`: the least multiple bound for a positive divisor, and the mirrored bound for a negative one. |
| DonationController.ListedSpec | app-donate/Server/controllers/donationController.js:97-101 | The listing holds exactly the stored `completed` donations of the campaign, newest `created_at` first. |
| DonationController.Window | app-donate/Server/controllers/donationController.js:102-103 | `skip`/`limit`: a contiguous slice from `skip`, of length `limit` where the list allows, with `limit` 0 meaning no limit. |
| DonationController.PageOf | app-donate/Server/controllers/donationController.js:101-117 | For a listing already filtered and sorted: a page exactly when the skip `(page - 1) * limit` is not negative, with `total_donations` the listing's length and the current page defaulting to 1. `total_pages` is null for a limit of 0 and otherwise the listing's length divided by the limit, rounded up. |
| DonationController.TotalPagesBounds | app-donate/Server/controllers/donationController.js:116 | `total_pages` is `Math.ceil(total / limit)`: with a positive limit, the fewest pages of that size that hold every listed donation. |
| DonationController.PageSlice | app-donate/Server/controllers/donationController.js:101-103 | A page is the run of the listing that starts at the skip, at most as long as the absolute value of `limit`. |
| DonationController.SliceOfListed | app-donate/Server/controllers/donationController.js:97-101 | Any run of a campaign's listing holds only its completed donations, newest first. |
| DonationController.PageAtIndex | app-donate/Server/controllers/donationController.js:101-115 | Position `j` of a listing is at position `j % limit` of page `j / limit + 1`, within `total_pages`. |
| DonationController.GetDonationsByCampaign | app-donate/Server/controllers/donationController.js:93-127 | Answers with a page exactly when the id casts and the skip is not negative. `total_donations` counts every completed donation of the campaign. The current page defaults to 1. `total_pages` is null for a limit of 0 and otherwise that count divided by the limit, rounded up. |
| DonationController.PageContents | app-donate/Server/controllers/donationController.js:97-104 | A page holds only completed donations of the campaign, newest first, and at most `limit` of them. |
| DonationController.PageOfIndex | app-donate/Server/controllers/donationController.js:95-117 | The j-th donation of the listing is at position `j % limit` of page `j / limit + 1`, and that page is within `total_pages`. |
| CampaignController.GetCampaigns | app-donate/Server/controllers/campaignController.js:4-12 | 200 with every campaign, in stored order, unfiltered. |
| CampaignController.GetCampaignById | app-donate/Server/controllers/campaignController.js:14-24 | 200 with the stored campaign holding the id. 404 exactly when the id casts but no campaign has it. 500 exactly when the id does not cast. |
| CampaignController.PlusAmount | app-donate/Server/controllers/campaignController.js:33 | `+=` with a number adds it, and with `null` keeps the amount. A missing amount or field gives NaN, which fails the save. |
| CampaignController.Donated | app-donate/Server/controllers/campaignController.js:26-41 | Status is 200, 404 or 500. Any failure leaves the campaigns as they were, and no campaign is added or removed. |
| CampaignController.DonatedUnknown | app-donate/Server/controllers/campaignController.js:29-31 | An unknown campaign id answers 404 and changes nothing. |
| CampaignController.DonatedEffects | app-donate/Server/controllers/campaignController.js:33-34 | With a numeric amount the campaign's amount becomes old amount plus amount, negative amounts included. No other field of it and no other campaign changes; donors are never counted. |
| CampaignController.DonatedAt | app-donate/Server/controllers/campaignController.js:29-36 | Whenever the new amount is defined, the answer is 200 and exactly that campaign's amount is replaced. |
| CampaignController.TextAmountAppends | app-donate/Server/controllers/campaignController.js:28-34 | An amount sent as a digit string is appended to the decimal digits of the current amount (finding 2, as written). |
| CampaignController.TextAmountExample | app-donate/Server/controllers/campaignController.js:28-34 | 100 plus the text `50` is stored as 10050, while 100 plus the number 50 is 150. |
| CampaignController.PlusAmountAsNumber | app-donate/Server/controllers/campaignController.js:33 | Corrected addition that converts a digit string to its value first, and otherwise agrees with the original. |
| CampaignController.DonatedAsNumber | app-donate/Server/controllers/campaignController.js:26-41 | The corrected handler keeps the original's status set and frame. |
| CampaignController.DigitsDonateLikeNumbers | app-donate/Server/controllers/campaignController.js:28-34 | With the correction, donating the text of n is the same as donating n. |
| CampaignController.DonateToCampaign | app-donate/Server/controllers/campaignController.js:26-41 | Updates the stored campaigns as `Donated` says and leaves the donations alone. |
| Events.Event.constructor | app-donate/Server/model/Event.js:10-29 | A new event has no participants, a count of 0 and the default cap of 100. |
| Events.ListEvents | app-donate/Server/routes/events.js:6-13 | The same events, ordered by start date ascending. |
| Events.FindEvent | app-donate/Server/routes/events.js:63-64 | An index holding the id, or `None` when no event has it. |
| Events.StatusCode | app-donate/Server/routes/events.js:60-86 | Every outcome is 200, 400, 404 or 500, and 200 means registered. |
| Events.RegisterOutcome | app-donate/Server/routes/events.js:66-79 | A found event never answers "not found". |
| Events.DeadlineInclusive | app-donate/Server/routes/events.js:67-70 | With no deadline, or a current time not after it, registration is never refused as expired. |
| Events.ZeroCapIsNoCap | app-donate/Server/routes/events.js:73 | A cap of 0, or no cap, never refuses as full. |
| Events.DeadlineBeforeCapacity | app-donate/Server/routes/events.js:67-75 | An event both expired and full is reported expired: the deadline check comes first. |
| Events.RegisteredIff | app-donate/Server/routes/events.js:66-82 | Registration succeeds exactly when the deadline has not passed, the truthy cap is not reached and a user name is given. |
| Events.RegisterKeepsCap | app-donate/Server/routes/events.js:73-79 | A successful registration keeps `0 <= participants_count <= max_participants`. |
| Events.Register | app-donate/Server/routes/events.js:60-86 | An id that does not cast fails and one that is unknown answers 404. Otherwise the outcome is `RegisterOutcome`, and on success exactly one participant is appended and the count rises by 1. No other event changes, and every event keeps its cap invariant. |
| AuthController.FindByEmail | app-donate/Server/controllers/authController.js:9 | `findOne({ email })`: an index with that e-mail, `None` exactly when no user has it. |
| AuthController.Registered | app-donate/Server/controllers/authController.js:2-23 | Status is 201, 400 or 500. Any failure leaves the users as they were. 201 appends exactly one user and answers with its public fields, without the password. |
| AuthController.RegisteredOutcome | app-donate/Server/controllers/authController.js:5-22 | 201 exactly when all three fields are truthy and neither the e-mail nor the name is taken. 500 exactly when only the name is taken, since only the e-mail is checked before the unique index refuses the insert. |
| AuthController.RegisteredKeepsUnique | app-donate/Server/model/User.js:5-14 | Registration keeps e-mails and names unique. |
| AuthController.Login | app-donate/Server/controllers/authController.js:25-46 | Status is 200, 400 or 401. 400 exactly when a field is missing. 200 exactly when a user is returned, and that user's stored e-mail and password equal the given ones; the answer never holds the password. |
| AuthController.LoginIff | app-donate/Server/controllers/authController.js:32-38 | With unique e-mails, login succeeds exactly when a user with that e-mail and that exact password exists. |
| AuthController.RegisterThenLogin | app-donate/Server/controllers/authController.js:15-42 | After a successful registration, logging in with the same e-mail and password answers 200 with the new user. |
| AuthController.UserStore.constructor | app-donate/Server/model/User.js:3-43 | The store starts empty. |
| AuthController.UserStore.Register | app-donate/Server/controllers/authController.js:2-23 | The stored users, status and answer become those `Registered` gives, keeping the unique indexes. |
| EmailFormat.EmailShapeIff | app-donate/MobileApp/screens/RegisterScreen.js:66-69 | The pattern `^[^\s@]+@[^\s@]+\.[^\s@]+$` accepts exactly the texts with no white space, exactly one `@` with something before it, and after it a `.` that is neither first nor last. |
| EmailFormat.LeadingSpaceRejected | app-donate/MobileApp/screens/RegisterScreen.js:67 | A text starting with white space never matches. |
| EmailFormat.TwoAtsRejected | app-donate/MobileApp/screens/RegisterScreen.js:67 | A text with two `@` never matches. |
| EmailFormat.EmailExamples | app-donate/MobileApp/screens/LoginScreen.js:60-63 | `a@b.co` matches, while `a@b.` and `@b.co` do not. |
| RegisterScreen.NotBlankIff | app-donate/MobileApp/screens/RegisterScreen.js:27 | `s.trim()` is truthy exactly when `s` has a character that is not white space. |
| RegisterScreen.SubmittedIff | app-donate/MobileApp/screens/RegisterScreen.js:26-47 | The submit path is reached exactly when no field is blank, the untrimmed e-mail matches, the password has at least 6 UTF-16 units and the confirmation is equal. Only the first failing check is reported. |
| RegisterScreen.LeadingSpaceEmail | app-donate/MobileApp/screens/RegisterScreen.js:27-35 | An e-mail with a leading space passes the blank check and is then refused as invalid. |
| RegisterScreen.EmojiPasswordLength | app-donate/MobileApp/screens/RegisterScreen.js:37 | The length rule counts UTF-16 units, so three emoji are six characters. |
| LoginScreen.LoggedInIff | app-donate/MobileApp/screens/LoginScreen.js:27-52 | Login proceeds exactly when the e-mail matches and the password is not blank, with no length rule, and then the stack is reset to `Home` alone. |
| LoginScreen.RegisteredCredentialsAccepted | app-donate/MobileApp/screens/LoginScreen.js:28-36 | Credentials the registration screen accepts are accepted by the login screen. |
| LoginScreen.ShortPasswordOnlyAtLogin | app-donate/MobileApp/screens/LoginScreen.js:27-38 | A one-character password logs in but cannot register. |
| ForgotPasswordScreen.LinkRequestedIff | app-donate/MobileApp/screens/ForgotPasswordScreen.js:21-32 | The request is sent exactly when the e-mail matches the pattern; a blank e-mail gets the "enter your e-mail" alert. |
| ResetPasswordScreen.ResetRequestedIff | app-donate/MobileApp/screens/ResetPasswordScreen.js:9-19 | `resetPassword` is called, with the route's e-mail and the new password, exactly when the password is not empty and equals the confirmation. An empty password gets the "fill everything" alert. |
| ResetPasswordScreen.WhitespacePasswordAccepted | app-donate/MobileApp/screens/ResetPasswordScreen.js:10-16 | A password of one space, or of one letter, is accepted: no trim and no minimum length. |
| CreateCampaignScreen.Get | app-donate/MobileApp/screens/CreateCampaignScreen.js:26-34 | Each field holds the kind of value it is declared with. |
| CreateCampaignScreen.WithFieldOnlyThatField | app-donate/MobileApp/screens/CreateCampaignScreen.js:39 | Setting a field changes that field and no other. |
| CreateCampaignScreen.FormErrors | app-donate/MobileApp/screens/CreateCampaignScreen.js:49-67 | Every check runs. Title and description get an error exactly when blank after trim, and the goal exactly when empty, not a number or not positive. The end date gets one exactly when not after the start, and no other key is set. |
| CreateCampaignScreen.Shown | app-donate/MobileApp/screens/CreateCampaignScreen.js:68 | The error state holds exactly the recorded messages. |
| CreateCampaignScreen.ClearError | app-donate/MobileApp/screens/CreateCampaignScreen.js:40-42 | Only the edited field's error is cleared, and no key is added. |
| CreateCampaignScreen.PayloadIsValid | app-donate/MobileApp/screens/CreateCampaignScreen.js:80-88 | A payload built after validation has non-blank trimmed title and description, a positive goal and an end date after the start. |
| CreateCampaignScreen.GoalExamples | app-donate/MobileApp/screens/CreateCampaignScreen.js:60 | A positive whole number is a valid goal with its own value, and a blank goal is refused. |
| CreateCampaignScreen.CreateCampaign.constructor | app-donate/MobileApp/screens/CreateCampaignScreen.js:26-34 | The empty form: type `fundraising`, status `active`, an end date 30 days after the start, and no errors. |
| CreateCampaignScreen.CreateCampaign.HandleInputChange | app-donate/MobileApp/screens/CreateCampaignScreen.js:38-43 | The form gets the new field value and only that field's error is cleared. |
| CreateCampaignScreen.CreateCampaign.ValidateForm | app-donate/MobileApp/screens/CreateCampaignScreen.js:49-70 | The errors become the recorded ones, the form is untouched, and the answer is true exactly when there is none. |
| CreateCampaignScreen.CreateCampaign.HandleSubmit | app-donate/MobileApp/screens/CreateCampaignScreen.js:72-88 | A payload is built exactly when validation passes, and it is the trimmed and converted form. |
| CaseDetailScreen.Prefix | app-donate/Client/Donate/src/screens/CaseDetailScreen.tsx:154 | `substring(0, n)`: the first n characters, or the whole shorter text. |
| CaseDetailScreen.LastChars | app-donate/Client/Donate/src/screens/CaseDetailScreen.tsx:153 | `slice(-n)`: the last n characters, or the whole shorter text. |
| CaseDetailScreen.BankContent | app-donate/Client/Donate/src/screens/CaseDetailScreen.tsx:150-155 | Empty without a campaign, and at most 29 characters. |
| CaseDetailScreen.BankContentParts | app-donate/Client/Donate/src/screens/CaseDetailScreen.tsx:153-154 | The content is the verbatim title prefix of at most 20 characters, one space, and the last 8 characters of the id upper-cased. |
| CaseDetailScreen.CampaignCodeRoundTrip | app-donate/Client/Donate/src/screens/CaseDetailScreen.tsx:153 | For a hex id, lower-casing the campaign code gives back the id's last 8 characters. |
| CaseDetailScreen.BankContentDeterministic | app-donate/Client/Donate/src/screens/CaseDetailScreen.tsx:153-154 | The content depends only on the title and the id. |
| CaseDetailScreen.ProgressPercentage | app-donate/Client/Donate/src/screens/CaseDetailScreen.tsx:116-122 | 0 without a campaign, never above 100 and never +Infinity. |
| CaseDetailScreen.ProgressCases | app-donate/Client/Donate/src/screens/CaseDetailScreen.tsx:118-121 | With a positive goal, the raised share in percent capped at 100. With a goal of 0, 100 for a positive amount, NaN for 0 and -Infinity for a negative one. |
| CaseDetailScreen.CeilDays | app-donate/Client/Donate/src/screens/CaseDetailScreen.tsx:129 | The days rounded up: `(d-1)*86400000 < diff <= d*86400000`. |
| CaseDetailScreen.DaysRemaining | app-donate/Client/Donate/src/screens/CaseDetailScreen.tsx:124-131 | 0 without a campaign and never negative. NaN exactly for a campaign without an end date. |
| CaseDetailScreen.DaysRemainingBounds | app-donate/Client/Donate/src/screens/CaseDetailScreen.tsx:128-130 | 0 once the end has passed, otherwise the whole days rounded up. |
| LandingPage.UrgencyName | app-donate/MobileApp/components/LandingPage.js:116-121 | The level is one of `urgent`, `nearly_complete` or `new`. |
| LandingPage.UrgencyByAmounts | app-donate/MobileApp/components/LandingPage.js:116-121 | With a goal, `urgent` exactly when 5·raised < goal, `nearly_complete` exactly when 5·raised > 4·goal, and `new` in between. |
| LandingPage.UrgencyBoundaries | app-donate/MobileApp/components/LandingPage.js:118-120 | Exactly 20% and exactly 80% are `new`. |
| LandingPage.Process | app-donate/MobileApp/components/LandingPage.js:88-93 | Keeps count and order. Each record gets its progress, its urgency and the missing amount `(goal or 0) - (raised or 0)`. |
| LandingPage.CountProcessed | app-donate/MobileApp/components/LandingPage.js:88-102 | Counting processed records by a test is counting the fetched ones by the matching test. |
| LandingPage.ScholarshipsAsWritten | app-donate/MobileApp/components/LandingPage.js:102 | As written, the count filters the fetched records, which carry no percentage (finding 3). |
| LandingPage.ScholarshipsMissFunded | app-donate/MobileApp/components/LandingPage.js:88-102 | A person fully funded (100 of 100) counts as 0 scholarships as written, in the count and in the header, and as 1 when corrected. |
| LandingPage.TotalScholarships | app-donate/MobileApp/components/LandingPage.js:102 | Corrected count over the processed records, never more than the records (finding 3). |
| LandingPage.ScholarshipsCountFunded | app-donate/MobileApp/components/LandingPage.js:88-102 | With positive goals, the corrected count, and so the corrected header's, is the number of people whose raised amount reaches their goal. |
| LandingPage.StatsOf | app-donate/MobileApp/components/LandingPage.js:98-103 | The header as written: `totalSupported` is the record count, and the scholarships, counted on the fetched records' own `progressPercentage`, never exceed it. |
| LandingPage.StoredRecordsShowNoScholarships | app-donate/MobileApp/components/LandingPage.js:102 | Records without a stored percentage, as the server stores them, make the header as written show 0 scholarships. |
| LandingPage.CorrectedStatsOf | app-donate/MobileApp/components/LandingPage.js:98-103 | The corrected header of finding 3: the same count and sums as the header as written, with scholarships never more than the records. |
| LandingPage.StatsOrderFree | app-donate/MobileApp/components/LandingPage.js:98-103 | The whole header as written, with the count, the donor and amount sums (missing fields as 0) and the scholarship count, does not depend on the order of the records. |
| LandingPage.PersonSearch | app-donate/MobileApp/components/LandingPage.js:134-137 | The search test matches exactly when the lower-cased name contains the query, or it does not and the location does. It throws exactly when the name is missing, or when the name does not match and the location is missing. |
| LandingPage.SearchPeople | app-donate/MobileApp/components/LandingPage.js:133-138 | The search throws exactly when some record's test throws, and otherwise keeps the records whose test matches. |
| LandingPage.FilteredPeopleSpec | app-donate/MobileApp/components/LandingPage.js:124-141 | The render fails exactly when a query is set and some record of the chosen level throws in the search test. Otherwise the result is a subsequence of the list holding exactly the records whose urgency matches (or `all`) and that match the query (or there is none). |
| LandingPage.UnmatchedNameWithoutLocationFails | app-donate/Server/model/SupportedPerson.js:3-12 | The stored schema has no `location`, so a query that some shown record's name does not match makes `getFilteredPeople` throw instead of narrowing the list. |
| LandingPage.SubmitDonationIff | app-donate/MobileApp/components/LandingPage.js:194-209 | Confirmation is asked exactly when amount, name and phone are given and a `custom` choice has a custom amount. The amount is the custom one exactly when `custom` was chosen, read with `parseInt`. |
| LandingPage.CustomAmountParsed | app-donate/MobileApp/components/LandingPage.js:205-209 | A custom amount written as digits is confirmed with its own value. |
| LandingPage.QrUrlVerbatim | app-donate/MobileApp/components/LandingPage.js:251-258 | The id goes into `des=` verbatim, and with no `&` in it the query has exactly the five parameters. |
| LandingPage.AmpersandAddsParameters | app-donate/MobileApp/components/LandingPage.js:256 | Each `&` in the id adds one parameter to the query, since nothing is encoded. |
| SupportPage.FallbackId | app-donate/MobileApp/screens/SupportPage.js:40 | Never empty. The id when truthy, and `${prefix}-${index}` when none of id, uuid and key is truthy. |
| SupportPage.NormalizeData | app-donate/MobileApp/screens/SupportPage.js:45-51 | `[]` for a value that is not an array. Otherwise the same length and order, each record with its id set by the fallback chain. |
| SupportPage.NormalizeIdempotent | app-donate/MobileApp/screens/SupportPage.js:45-51 | Every normalized record has a truthy id, and normalizing twice is normalizing once. |
| SupportPage.SafeKeyOfNormalized | app-donate/MobileApp/screens/SupportPage.js:39-42 | A normalized record's key is the prefix, `-` and its id. |
| SupportPage.FallbackIdsDistinct | app-donate/MobileApp/screens/SupportPage.js:49 | Two records with none of the three fields get different ids. |
| SupportPage.DaysLeft | app-donate/MobileApp/screens/SupportPage.js:130-137 | Never negative, and 0 without a date or for an unparseable one. |
| SupportPage.DaysLeftAgrees | app-donate/MobileApp/screens/SupportPage.js:130-137 | For a real date the count equals the detail screen's days remaining: the whole days rounded up. |
| SupportPage.SelectedSpec | app-donate/MobileApp/screens/SupportPage.js:140-157 | The selection is a subsequence holding exactly the campaigns that match. A campaign matches when its lower-cased title or description contains the query (when there is one), and its `category_id` or `category.id` equals the category (unless `all`). With neither filter it is the list itself. |
| SupportPage.Arranged | app-donate/MobileApp/screens/SupportPage.js:159-175 | A permutation. `newest` gives `created_at` descending and `oldest` ascending, a missing `created_at` counted as 0. `most_funded` gives the amount descending, missing as 0, and `deadline` the end date ascending. Any other key leaves the list as it is. |
| SupportPage.Support.constructor | app-donate/MobileApp/screens/SupportPage.js:45-51 | The state is the normalized fetch. |
| SupportPage.Support.GetFilteredCampaigns | app-donate/MobileApp/screens/SupportPage.js:140-178 | Returns the selection in the chosen order. With no search and category `all`, the in-place sort also reorders the page's own campaign state; otherwise the state is untouched. |
| ExplorePage.RoundedPercent | app-donate/MobileApp/screens/ExplorePage.js:27 | `Math.round(raised/target*100)`: the nearest whole percent, with halves rounded up. |
| ExplorePage.Progress | app-donate/MobileApp/screens/ExplorePage.js:27 | 0 when the target is not positive. |
| ExplorePage.ProgressWithinTarget | app-donate/MobileApp/screens/ExplorePage.js:27 | Between 0 and 100 while the raised amount is within the target. |
| ExplorePage.ProgressNotCapped | app-donate/MobileApp/screens/ExplorePage.js:27 | A met target shows at least 100: the percentage is not capped. |
| ExplorePage.ProcessCampaign | app-donate/MobileApp/screens/ExplorePage.js:24-36 | Keeps the campaign, and the location and image are never empty. |
| ExplorePage.ProcessCampaignFields | app-donate/MobileApp/screens/ExplorePage.js:25-35 | Missing amounts count as 0 and the progress is the rounded percentage. The location falls back to `Chưa có thông tin` and the image to the placeholder only when missing or empty. |
| ExplorePage.ProcessCampaigns | app-donate/MobileApp/screens/ExplorePage.js:23-38 | Same length and order. |
| ExplorePage.SearchMatch | app-donate/MobileApp/screens/ExplorePage.js:69-72 | A match exactly when the lower-cased title, or failing that the description, contains the query. It throws exactly when the title is missing, or the title misses and the description is missing. |
| ExplorePage.SearchFilter | app-donate/MobileApp/screens/ExplorePage.js:68-73 | Throws exactly when some campaign's test throws; otherwise it is the filter by the search test. |
| ExplorePage.FilteredSpec | app-donate/MobileApp/screens/ExplorePage.js:68-83 | The filter chain throws exactly when a search is set and some test throws. Otherwise the result is a subsequence holding exactly the campaigns that pass every set test: search, address and some tag. |
| ExplorePage.MissingTitleFailsSearch | app-donate/MobileApp/screens/ExplorePage.js:70 | A campaign without a title makes any search fail the whole fetch. |
| ExplorePage.ProcessOrganization | app-donate/MobileApp/screens/ExplorePage.js:42-52 | Keeps id, name and activity. Counts and totals default to 0, and the logo to the placeholder. |
| ExplorePage.ProcessOrganizations | app-donate/MobileApp/screens/ExplorePage.js:40-53 | A missing list gives `[]`; otherwise one processed record per organization, in order. |
| ExplorePage.Ranked | app-donate/MobileApp/screens/ExplorePage.js:90-92 | The active organizations, re-ordered by `total_raised` descending. |
| ExplorePage.RankedMembers | app-donate/MobileApp/screens/ExplorePage.js:90-92 | The ranking holds exactly the active organizations. |
| ExplorePage.TrendingOf | app-donate/MobileApp/screens/ExplorePage.js:64-85 | A failed campaign request throws; with no search set it never does. |
| ExplorePage.FetchExploreData | app-donate/MobileApp/screens/ExplorePage.js:55-98 | The alert is shown exactly when the campaign step throws, and then both lists stay. Otherwise the trending cards are replaced, and the ranking too when the organization request succeeded, else it stays. |
| TransactionHistory.TimeOf | app-donate/MobileApp/screens/TransactionHistory.js:34-35 | `raw.transactionDate`, else `time`, else 0. |
| TransactionHistory.AmountOf | app-donate/MobileApp/screens/TransactionHistory.js:44 | `raw.transferAmount` when truthy, 0 without `raw`. A non-zero amount is the transfer amount or the amount field. |
| TransactionHistory.RowOf | app-donate/MobileApp/screens/TransactionHistory.js:122-139 | The row shows the same amount the total adds and the same date the sort reads. Every text field falls back to a non-empty default. |
| TransactionHistory.History.constructor | app-donate/MobileApp/screens/TransactionHistory.js:26-58 | No transactions and a total of 0. |
| TransactionHistory.History.Summary | app-donate/MobileApp/screens/TransactionHistory.js:113 | The shown count is the list length. |
| TransactionHistory.History.FetchTransactions | app-donate/MobileApp/screens/TransactionHistory.js:26-58 | A failed request or a refused answer alerts and changes nothing. A successful one stores a permutation of the transfers, newest first. The total is the sum of their amounts, independent of the in-place sort. |
| TransactionHistory.TotalMatchesRows | app-donate/MobileApp/screens/TransactionHistory.js:43-46 | The total is the sum of the amounts shown on the rows. |
| Ordering.SortStable | app-donate/MobileApp/screens/TransactionHistory.js:33-37 | `Array.prototype.sort` is stable: after sorting, the elements of any one key appear in their input order. |
| NewsFeed.AgeOf | app-donate/MobileApp/screens/NewsFeed.js:52-65 | Under an hour (future dates included) is "just now". 1 to 23 whole hours gives h with `h` hours ≤ diff < `h+1` hours. Otherwise d whole days with d ≥ 1. An unparseable date is the NaN case. |
| NewsFeed.Render | app-donate/MobileApp/screens/NewsFeed.js:57-63 | `Vừa xong` exactly for "just now". |
| NewsFeed.FormatTime | app-donate/MobileApp/screens/NewsFeed.js:52-65 | A date in the future shows `Vừa xong`. |
| NewsFeed.RenderInjective | app-donate/MobileApp/screens/NewsFeed.js:57-63 | Different ages render differently: the text determines the age. |
| NewsFeed.PostIcon | app-donate/MobileApp/screens/NewsFeed.js:68-83 | The default icon exactly for a type outside the five feed types. |
| NewsFeed.PostColor | app-donate/MobileApp/screens/NewsFeed.js:86-101 | The default colour exactly for a type outside the five feed types. |
| NewsFeed.StylesIdentifyType | app-donate/Server/model/FeedItem.js:5-9 | Each of the five types has its own icon and its own colour. |
| UriCodec.DecodeEncode | app-donate/MobileApp/screens/DonationScreen.js:56 | `decodeURIComponent(encodeURIComponent(s)) == s` for every text. |
| UriCodec.EncodedAlphabet | app-donate/MobileApp/screens/DonationScreen.js:56 | The encoding uses only unreserved characters and `%`, and is 1 to 12 times as long as the input. |
| UriCodec.EncodeInjective | app-donate/MobileApp/screens/DonationScreen.js:56 | Different memos encode differently. |
| UriCodec.EncodedHasNoSeparator | app-donate/MobileApp/screens/DonationScreen.js:56 | An encoded value contains neither `&` nor `=`. |
| UriCodec.Utf8RoundTrip | app-donate/MobileApp/screens/DonationScreen.js:56 | Decoding the UTF-8 bytes of a character gives the character back. |
| JsText.TrimSpec | app-donate/MobileApp/screens/DonationScreen.js:46 | `trim()` removes exactly the leading and trailing white space: the result is a slice with no white space at either end, and everything cut is white space. |
| JsText.NatToStringRoundTrip | app-donate/MobileApp/screens/DonationScreen.js:70 | A rendered number reads back as itself. |
| JsText.JoinSplit | app-donate/MobileApp/screens/DonationScreen.js:56 | Splitting a text and joining it again gives it back. |
| JsText.SplitJoin | app-donate/MobileApp/screens/DonationScreen.js:56 | Joining pieces without the separator and splitting again gives the pieces back. |
| JsText.ParseIntOfNat | app-donate/Server/controllers/donationController.js:42 | `parseInt` of a rendered number is that number. |
| JsNumber.NumberOfNat | app-donate/MobileApp/screens/CreateCampaignScreen.js:84 | `Number` of a rendered whole number is its value. |
| JsNumber.MinWith | app-donate/Client/Donate/src/screens/CaseDetailScreen.tsx:118-121 | `Math.min(x, m)` is at most m, never +Infinity, and NaN exactly for NaN. |

## Left out

- Network, database and UI. HTTP, Mongoose queries, sessions, JSX, styles, navigation wiring, animations, loading and refreshing flags, and the 5-minute refresh timer are not modelled. Answers and stored collections are parameters or fields, and a Mongo session is one atomic step. Concurrent requests and their races are not modelled.
- The Sepay webhook route points at a handler the controller does not define. Confirmation is only the derived search of `check-donation`.
- InitDonation.CheckDonation: requires ids made of ASCII letters, digits, `-` and `_`. Regular-expression metacharacters in an id, which the server would interpret, are not modelled.
- JsText.ToLowerChar: exact for ASCII, Latin-1 and the Latin letters Vietnamese uses, except U+0130, which JavaScript lowers to two code units and the model leaves unchanged. Other scripts keep their case.
- JsText.AsciiUpper: `toUpperCase` is modelled on ASCII letters only, because its one input is the tail of an ObjectId.
- JsNumber.NumberOf: covers decimal numerals with an optional sign and point. Exponents, hexadecimal, `Infinity` and digit separators are not modelled.
- Floating point. The landing page's percentages are exact rationals, and the explore page's `Math.round` is taken on the exact quotient. The case detail screen models NaN and the infinities of the division, not IEEE rounding.
- CampaignController.PlusAmount: a text amount is modelled only for digit strings. Other texts, and objects or booleans in the body, are not modelled.
- ServerModels.IsObjectId: only 24-digit hexadecimal ids cast. Twelve-byte binary ids are not modelled.
- Clocks and randomness, namely `Date.now()`, `new Date()`, `uuidv4` and `Math.random`, are parameters.
- SupportPage.DeadlineKey: a missing or unparsable end date sorts as 0. JavaScript compares NaN there, which leaves the order of such campaigns to the engine's sort.
- SupportPage.Arranged: a missing or unparsable `created_at` sorts as 0 under `newest` and `oldest`. In the source the comparator answers NaN for it, and the engine's sort decides the order; the model's order for such lists is its own choice.
- GetFilteredCampaigns (SupportPage.Support): returns `Arranged` of the selection, so for campaigns without a usable `created_at` or end date its order is the model's choice, as stated for `SupportPage.Arranged`.
- TransactionHistory.TimeOf: dates are parsed milliseconds. A date text that does not parse gives NaN in the source and is not modelled.
- DonationController.GetDonationsByCampaign: `page` and `limit` are integers. Non-numeric query values, which give NaN in the source, are not modelled.
- The Campaign schema shown has no `total_donors` field, which the controller increments anyway. The model follows the controller.
- Query-operator injection through request bodies is not modelled.
- `formatDate`, `formatCurrency` and `toLocaleString` formatting are left out, since they are display formatting.
- CaseDetailScreen.Prefix: counts code points. `substring` counts UTF-16 units, which differs only for titles with characters outside the Basic Multilingual Plane.
- RegisterScreen.HandleRegister, LoginScreen.HandleLogin and ForgotPasswordScreen.HandleForgotPassword: the simulated request after the checks always succeeds. The catch branches cannot occur and are not modelled.
- ResetPasswordScreen.HandleReset: the answer of `resetPassword` is a foreign service and is not modelled.
- ExplorePage.SearchMatch: a title or description that is not a string, or tags that are not strings, are not modelled. Only a missing field throws.
- LandingPage.PersonSearch: a name or location that is present but not a string is not modelled. Only a missing field throws.
- NewsFeed's `handlePostPress` and `fetchFeedData`, the landing page's `fetchSupportedPeople` network flow, and the after-confirmation POST of `submitDonation` are I/O and not modelled.

## Findings

| source | as written | input that shows it | evidently intended | confidence | as-written member | corrected member |
|---|---|---|---|---|---|---|
| app-donate/Server/routes/initDonation.js:48 | The poll searches bank descriptions for the hyphenated donation id. The QR memo the donor's bank copies is that id with its hyphens stripped (DonationScreen.js:54). | A uuid id such as `9b2f…-…`, where every transfer description is the QR memo: the status stays `pending`. | A transfer carrying the QR memo confirms the donation. | not executed | Reconciliation.MemoOnlyNeverConfirms | Reconciliation.QrTransferConfirms |
| app-donate/Server/controllers/campaignController.js:33 | `current_amount += amount` with the amount as the JSON body gave it. A string amount is concatenated. | `current_amount` 100 and body `{ "amount": "50" }`: the stored amount becomes 10050. | Add the numeric value: 150. | not executed | CampaignController.TextAmountExample | CampaignController.DigitsDonateLikeNumbers |
| app-donate/MobileApp/components/LandingPage.js:102 | `totalScholarships` filters the fetched `data`, whose records have no `progressPercentage`. | One person with raised 100 and goal 100: processed progress is 100, but the count is 0. | Count the processed records with progress at least 100. | not executed | LandingPage.ScholarshipsMissFunded | LandingPage.ScholarshipsCountFunded |
