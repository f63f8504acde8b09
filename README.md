# Invites, bootstrap checks and notification tokens — a Dafny model

This project models three parts of a Node.js library of backend building blocks:

- **The invite engine `AMInvite`** (`invites.dfy`, module `Invites`). It issues share links: the inviter's one reusable "main" link, or one-off links. It creates one-off invites for an email or phone and composes the invitation email. It looks invites up by email, then phone. It accepts invites: a pending record is marked, and an already accepted record spawns a new record for the same inviter. It records clicks and computes windowed statistics: invites sent, invites accepted, clicks. The engine is the class `InviteEngine`. It holds the configuration, whether an accept callback is registered, and the invite collection as a `seq<Invite>` whose index is the record id. A ghost `acceptLog` lists every record passed to the accept callback. Each store change is also a function on the sequence (`LinkStep`, `AcceptStep`, `ClickStep`): each method is proved equal to its function, and the properties are lemmas about the functions.
- **The configuration checks of `setup`** in the API bootstrap (`bootstrap.dfy`, module `ApiBootstrap`). `Validate` returns the first error `setup` would throw, or the resolved configuration together with the process environment after `NODE_ENV` is forced. `ClientCheck` is the `client`-header middleware.
- **Push-token bookkeeping** (`notification.dfy`, module `Notification`). `WithToken` gives the record that `saveUserToken` stores, or its error. `UserCollection.SaveUserToken` updates the users collection in place. `Send` performs the argument checks of `send` and builds its per-user dispatch plan.

`wrappers.dfy` holds `Option`, `Result`, `Outcome` and JavaScript truthiness for optional strings (`Truthy`).

Inputs that the code gets from outside are parameters:
- The current time is `now`, an integer day number.
- The mailer's success or failure is a boolean (`mailOk`, `mailOutcomes`).
- The process environment is a `map<string, string>`.

Behaviour the code shows that is evidently not intended, modelled as the code does:
- Without a configuration, `getUserLink` still creates its record and only then fails (`NotConfigured`).
- `addInvite` keeps the record and returns nothing when the configuration is missing or the mail fails.
- An `accept` on an unknown id fails with `NotFound`; the code would dereference `null` there.
- The clicked statistic fails when no click falls in the window, where the other two statistics give 0 (see Findings).

## Model

| member | source | states |
|---|---|---|
| `Invites.InviteEngine.constructor` | lib/am-invite.js:308-309 | before setup there is no configuration, no callback, and the collection is empty |
| `Invites.InviteEngine.IsActive` | lib/am-invite.js:38-40 | active exactly when a configuration is stored: then every record's link can be built, otherwise every link request fails with `NotConfigured` |
| `Invites.LinkFor` | lib/am-invite.js:67-71 | the link answered for a record: `base + "/" + id` when configured, `NotConfigured` otherwise |
| `Invites.InviteEngine.Setup` | lib/am-invite.js:14-36 | stores the configuration, after which `isActive` holds; returns true; nothing else changes |
| `Invites.InviteEngine.SetAcceptCallback` | lib/am-invite.js:42-44 | registers or clears the accept callback and changes nothing else |
| `Invites.InviteEngine.GetUserLink` | lib/am-invite.js:46-73 | the store becomes `LinkStep` of the old store; the result is `base + "/" + id` of the linked record, or `NotConfigured` after the record was created; the store invariant is kept |
| `Invites.LinkStepWellFormed` | lib/am-invite.js:46-69 | the linked record belongs to the inviter and is main exactly when `unique` is asked for; the store stays well formed |
| `Invites.UniqueLinkIsTheOnlyMain` | lib/am-invite.js:53-69 | with `unique`, exactly one main record of the inviter exists afterwards (the linked one), and a record is added only when none existed |
| `Invites.UniqueLinkIdempotent` | lib/am-invite.js:53-69 | a second unique request returns the same record and leaves the store unchanged |
| `Invites.OneOffLinkAlwaysNew` | lib/am-invite.js:57-69 | without `unique`, a new pending non-main record is always appended, and it is the one linked |
| `Invites.DecimalRoundTrip` | lib/am-invite.js:71 | the id text in a link reads back to the id |
| `Invites.LinkDeterminesInvite` | lib/am-invite.js:71 | two records never share a link |
| `Invites.OneOff` | lib/am-invite.js:90-97 | the one-off record belongs to the inviter, carries the given email and phone, is created now, is neither main nor accepted, and has no clicks |
| `Invites.AppendOneOffWellFormed` | lib/am-invite.js:90-97 | appending a one-off record keeps the store invariant |
| `Invites.InviteEngine.AddInvite` | lib/am-invite.js:75-113 | exactly one one-off record is appended whatever follows; the mail is composed only with `sendEmail` and a truthy email; the result is the record unless the configuration is missing or the mailer failed |
| `Invites.InviteEmail` | lib/am-invite.js:98-106 | the mail goes to the invitee with the fixed subject `[fromName] Você recebeu um convite` |
| `Invites.InviteEmailShape` | lib/am-invite.js:99-104 | the invitation's text ends with the invite's link, and its HTML holds no line break |
| `Invites.ToHtmlRemovesBreaks` | lib/am-invite.js:104 | replacing every CRLF, CR and LF leaves no line-break character |
| `Invites.ToHtmlKeepsPlainPrefix` | lib/am-invite.js:104 | text without line breaks passes through the replacement unchanged |
| `Invites.ToHtmlBlankLine` | lib/am-invite.js:104 | a blank line between two plain lines becomes two `<br/>` |
| `Invites.InviteHtml` | lib/am-invite.js:99-104 | the invitation's HTML is its text with the blank line turned into `<br/><br/>` |
| `Invites.InviteEngine.AddInvites` | lib/am-invite.js:115-121 | one result per person, in order; the i-th new record is the i-th person's; the i-th result is that record or nothing, as for a single `addInvite` |
| `Invites.FindFirst` | lib/am-invite.js:138-150 | the lookup gives the first record in store order that matches, or nothing if none matches |
| `Invites.FindInviteByEmailPhone` | lib/am-invite.js:134-152 | an email match whenever one exists, otherwise a phone match, otherwise nothing; an absent or empty email or phone is skipped; the result is a stored record |
| `Invites.InviteEngine.CheckInvite` | lib/am-invite.js:126-132 | looks up by the new user's email only; accepts the found invite for that user, and changes nothing when there is none |
| `Invites.InviteEngine.Accept` | lib/am-invite.js:154-179 | unknown id: `NotFound` and no change; otherwise the store becomes `AcceptStep`, the result is the accepted record, and a registered callback receives it exactly once |
| `Invites.AcceptStepWellFormed` | lib/am-invite.js:158-173 | the returned record is stored, belongs to the original inviter, and is accepted now by the new user; the invariant is kept |
| `Invites.AcceptPending` | lib/am-invite.js:170-173 | a pending record is marked in place and nothing else changes |
| `Invites.AcceptConflictSpawnsSibling` | lib/am-invite.js:161-168 | on an accepted record, the old store is kept as it was and one new non-main record of the same inviter is appended |
| `Invites.AcceptedRecordsAreFinal` | lib/am-invite.js:161-173 | accepting never changes an already accepted record, and no record is removed |
| `Invites.DoubleAccept` | lib/am-invite.js:159-178 | after two accepts of one pending link, the link keeps the first acceptance; the second user gets a new record of the same inviter |
| `Invites.InviteEngine.AddClick` | lib/am-invite.js:181-197 | the store becomes `ClickStep` of the old one; the invariant is kept |
| `Invites.ClickStepWellFormed` | lib/am-invite.js:190-196 | a click appends `now` to the log and the counter stays equal to the log's length; other records are untouched; an unknown id changes nothing |
| `Invites.ClickAllLogsEveryClick` | lib/am-invite.js:190-196 | after N clicks, the log has gained exactly those N timestamps in order, and the counter has grown by N |
| `Invites.StartDate` | lib/am-invite.js:200-204 | the window starts `days` days before now; an absent or zero `days` means 7 |
| `Invites.AmountSentSinceDays` | lib/am-invite.js:239-249 | counts the records created inside the window; never more than there are records |
| `Invites.AmountAcceptedSinceDays` | lib/am-invite.js:251-262 | counts the records accepted inside the window; never more than there are records |
| `Invites.AmountClickedSinceDays` | lib/am-invite.js:206-237 | fails exactly when no record has a click inside the window; otherwise gives the (positive) number of in-window clicks |
| `Invites.AmountClickedOrZero` | lib/am-invite.js:206-237 | the number of in-window clicks, which is 0 exactly when there are none; agrees with the as-written statistic whenever that one succeeds |
| `Invites.TotalClicksZeroIff` | lib/am-invite.js:211-236 | the filtered click sum is zero exactly when no click lies inside the window |
| `Invites.EmptyStoreStatistics` | lib/am-invite.js:206-262 | on an empty store, sent and accepted are 0, as-written clicked fails, and the corrected clicked is 0 |
| `Invites.ClickWindowExample` | lib/am-invite.js:211-236 | clicks 10 and 2 days ago count 1 in the default week and 2 in a 14-day window |
| `Invites.WiderWindowCountsMore` | lib/am-invite.js:200-262 | each count grows, or stays the same, as the window widens |
| `Invites.AcceptCountsOnce` | lib/am-invite.js:161-173 | every accept, marking or spawning, adds exactly one to the accepted count of each window that contains now |
| `Invites.AcceptSentEffect` | lib/am-invite.js:161-168 | marking does not change the sent count; a spawned record counts as sent now |
| `Invites.ClickCountsOnce` | lib/am-invite.js:190-196 | a click on a known record adds exactly one to the clicked total of each window that contains now, and leaves the sent and accepted counts unchanged |
| `Invites.OneOffCountsAsSent` | lib/am-invite.js:90-97 | a new one-off invite adds one to the sent count of each window that contains now |
| `ApiBootstrap.Validate` | lib/apiBootstrap.js:19-101 | the checks of `setup` as written; whatever it accepts is an environment other than production or staging, and its configuration is used as given |
| `ApiBootstrap.InlineCheck` | lib/apiBootstrap.js:27-38 | rejects a mongoose config with an inline URL, and a sequelize config with any inline host/port/database/user/password, each with its own message; no other message is ever given |
| `ApiBootstrap.ValidationOrder` | lib/apiBootstrap.js:21-40 | missing app, then envs, then package, then inline production params, then inline staging params, then a missing development env; each check in turn reports its own message |
| `ApiBootstrap.ResolveDatabase` | lib/apiBootstrap.js:62-101 | each database check of one environment gives its message under its condition: no database object, no driver, unknown driver, no URL, missing sequelize parameters, unset `DATABASE_URL`, the first unset `DATABASE_*` variable |
| `ApiBootstrap.ReachesDatabaseChecks` | lib/apiBootstrap.js:54-101 | once the early checks pass, a missing configuration for the selected environment is reported with its message, and any database-check error is the error of the whole setup |
| `ApiBootstrap.DriverErrors` | lib/apiBootstrap.js:62-70 | with the early checks passed, no driver, an unknown driver, a mongoose config without URL and a sequelize config without its parameters each stop the setup with their own message |
| `ApiBootstrap.DeploymentErrors` | lib/apiBootstrap.js:72-94 | in production or staging, an unset `DATABASE_URL` (mongoose), or the first unset of `DATABASE_HOST`, `DATABASE_DATABASE`, `DATABASE_USER`, `DATABASE_PORT`, `DATABASE_PASSWORD` in that order (sequelize), stops the setup with a message naming it |
| `ApiBootstrap.DevelopmentValidates` | lib/apiBootstrap.js:41-67 | a development-like environment with a known driver and that driver's parameters validates, with its configuration used as given and `NODE_ENV` forced |
| `ApiBootstrap.HerokuNeedsNodeEnv` | lib/apiBootstrap.js:44-46 | on Heroku, a missing `NODE_ENV` stops the setup |
| `ApiBootstrap.FirstUnset` | lib/apiBootstrap.js:84-94 | reports the first unset Heroku variable in checking order, or none when all are set |
| `ApiBootstrap.SetupSound` | lib/apiBootstrap.js:43-101 | on success: the env is `NODE_ENV`, or `development` which is then written to `NODE_ENV`; the driver is mongoose or sequelize and has the parameters it needs; in production or staging the parameters come from the process environment and are all set (including `DATABASE_PORT`); elsewhere the database config is unchanged |
| `ApiBootstrap.ProductionNeverValidates` | lib/apiBootstrap.js:27-81 | as written, no input validates with `NODE_ENV` production or staging |
| `ApiBootstrap.ValidateIntended` | lib/apiBootstrap.js:68-101 | the corrected checks: outside production and staging they agree with the code as written; an accepted production or staging setup has its database URL or parameters taken from the process environment, each of them set (including `DATABASE_PORT`) |
| `ApiBootstrap.IntendedProductionFromEnvironment` | lib/apiBootstrap.js:72-78 | under the correction, a production mongoose config without a URL validates and receives `DATABASE_URL` |
| `ApiBootstrap.ClientCheck` | lib/apiBootstrap.js:147-156 | a request passes exactly when the check is off or its `client` header is admin, web, mobile or client; a missing header and an unknown client fail with their own messages |
| `Notification.WithToken` | lib/notification.js:106-130 | the record that `saveUserToken` stores, for the same user. A missing type or value is refused with the body message. A missing user is an error. When the user already has notification data, a type with no entry in that data is an error, even web, android or ios. A user without notification data gets a token of any type stored |
| `Notification.MissingBodyRefused` | lib/notification.js:109-128 | a body without a truthy type or value is refused with the body message, whatever the user |
| `Notification.SaveTokenEffect` | lib/notification.js:110-124 | a new token is appended to its platform only, and a known token leaves the record as it was; a user without notification data gets exactly `{type: [value]}` |
| `Notification.SaveTokenIdempotent` | lib/notification.js:111-113 | saving the same token again changes nothing |
| `Notification.SaveTokenKeepsListsDuplicateFree` | lib/notification.js:111-116 | saving is set insertion: duplicate-free token lists stay duplicate-free |
| `Notification.UserCollection.SaveUserToken` | lib/notification.js:106-130 | stores the `WithToken` record under the user's id, and stores nothing on an error |
| `Notification.Send` | lib/notification.js:48-95 | a missing users or payload argument is rejected; a single user is a one-element list; each handled user gets the dispatch for its tokens, in order; a user without notification data ends the loop |
| `Notification.DispatchChoice` | lib/notification.js:57-62 | exactly the users with no web, android or ios token get the "no tokens" record; the others are sent every one of their tokens |
| `Notification.SavedTokenIsDelivered` | lib/notification.js:57-62 | a token saved for web, android or ios is among the tokens of the user's next dispatch |

## Left out

- The document store: `findOne`, `create`, `update`, `findItOneAndUpdate` and the aggregation pipeline run on an in-memory sequence. `findOne` returns the first match in insertion order, and an update of an unknown id matches nothing.
- Store failures: creating or reading a record never fails in the model. So the `catch` of `addInvite` is reached only through the missing configuration or the mailer.
- Record ids: a MongoDB ObjectId is the record's position, written in decimal inside the link. A malformed id string is not modelled.
- Dates: time is a whole day number. The calendar arithmetic of `getStartDate` (`setDate` rollover) and sub-day precision are not modelled. `AddInvites` stamps every record with the same `now`.
- Concurrency. Two `accept` calls racing on one record, and `checkInvite` not awaiting `accept`, are outside the sequential model.
- The accept callback's own behaviour: only whether one is registered, and the records it receives (`acceptLog`).
- The mailer (`AMMailing.sendEmail`) adds only its success or failure. Its answer is logged. The `AMMailing.config` fields the text reads are a parameter.
- The schema defaults of the invite collection are not shown. A spawned record (`{user}` only) and a unique record (`{user, main: true}`) are assumed pending, with no clicks.
- The mongooseit plugin check in `setup` of the invite engine, and the commented-out cron and queue code.
- `console` logging everywhere.
- Bootstrap wiring: CORS, version headers, body parsing, morgan, RdStation, the `databaseSetup` connection, `listen`, Rollbar and `passport` are I/O or library set-up. `global.config` is the `Resolved` record.
- Bootstrap shapes: `envs[nodeEnv].length === 0` is taken as always false (configurations are objects). An env name that is an inherited object key is not modelled. Configuration values are strings. `ClientCheck` takes the `checkClientOnDev` flag, so a missing `config.security` object is not modelled.
- `ClientCheck`: a repeated `client` header counts as one string value.
- Notification delivery: Firebase initialisation, `sendToDevice`, and the success and failure bookkeeping in its promise callbacks. `saveToDb` and the notification model are left out too. `Send` returns the plan: the tokens handed to the push service, or the "no tokens" failure record.
- `notifyAll`, `notifyAdmin`, `addUserToken`, `getUserNotifications` and `getCountUserUnseenNotifications` are HTTP handlers or thin queries.
- `Notification.WithToken`: the value returned is the stored record, not its `AMAuth` projection (`getUserData`). A platform entry is its token list directly, so a platform object without a `token` array is not modelled.

## Findings

| source | as written | input that shows it | evidently intended | confidence | as-written member | corrected member |
|---|---|---|---|---|---|---|
| lib/am-invite.js:236 | `amount[0].count` reads the first group of an aggregation that returns no group when no click is in the window | an empty store, or one whose clicks all precede the window (`Invites.EmptyStoreStatistics`) | the clicked statistic is 0 when there are no clicks, like the other two counts | not executed; high | `Invites.AmountClickedSinceDays` | `Invites.AmountClickedOrZero` |
| lib/apiBootstrap.js:27-81 | lines 27-38 reject production or staging configs with an inline database URL or parameters; lines 68-81 then require exactly those inline values for the selected env, which is the same config object | `NODE_ENV=production`, whatever the configuration (`ApiBootstrap.ProductionNeverValidates`) | production and staging take their parameters only from `DATABASE_URL` / `DATABASE_*`, as the rejection messages ask (`ApiBootstrap.IntendedProductionFromEnvironment`) | not executed; high | `ApiBootstrap.ProductionNeverValidates` | `ApiBootstrap.ValidateIntended` |
