# SorryBabu bot: slug registry and two-phase delivery, in Dafny

The bot (`bot.js`) lets one administrator register Telegram media under a short
*slug*. Anyone who opens the deep link `https://t.me/sorrybabubot?start=<slug>`
is shown the caption with a "Send me" button. Pressing the button makes the bot
look the slug up again and send the photo, video or document.

This project models that core as pure functions:

- The SQLite table `files` is a `map<string, Descriptor>` (`Registry.Store`).
  A descriptor is the file id, the raw `file_type` text and an optional caption.
  The map's keys are the primary key.
- Every Telegram call a handler makes is a `Handlers.Event` in a `seq<Event>`.
  Replies are kept by meaning (`Welcome`, `FileNotFound`, `FileOffer`, `SlugTaken`,
  `FileAdded`, `StatusReport`, …) together with the data that matters: slug,
  caption, link, count.
- Each handler is a transition `(store, request) -> Step(store', events)`. This
  covers `/start`, `/add`, `/status`, `/help` and the button callback. Seeding the
  demonstration row sends nothing, so it returns just the new table.
- How the database behaves during one run is a parameter `Fault`: `Healthy`,
  `ReadFails` or `WriteFails`. It lets the handlers' `catch` branches be modelled.
  A failed handler run replies with the generic error and leaves the table
  unchanged. A failed seeding only logs, so it sends nothing and also leaves the
  table unchanged.
- The command patterns are modelled as ECMAScript `RegExp.exec` reads them. This is
  module `Patterns` and module `Commands`:
  - `\s` is the full ECMAScript whitespace and line-terminator set.
  - `.` stops at line terminators.
  - The pattern matches at the leftmost position where it can.
  - A greedy `\s+` gives characters back when `.+` needs them.

  The recognisers compute the positions of the capture groups.
  - Soundness lemmas show these positions are a match of the pattern.
  - Completeness lemmas show that no match is missed, that the slug, file-id and kind
    groups are forced, and that the caption is the one a backtracking matcher picks.

Modules follow the components of the program. `Wrappers` holds `Option` and
`Result`. `Registry` is the table. `Auth` is the admin gate. `Patterns` and
`Commands` are the `onText` patterns. `Handlers` holds the listeners. `Properties`
holds lemmas across several runs. `Scenarios` holds the worked examples.

Some behaviours of `bot.js` follow from its patterns and operators rather than from
its messages. The model reproduces each of them:

- A kind other than `photo`, `video` or `document` makes the `/add` pattern fail
  (bot.js:191). Such a message gets no answer at all. `OnAdd` is silent for it.
- No Telegram call is awaited, so only database failures reach the `catch` blocks.
  The model has no transport failure.
- The `/add` pattern is unanchored and ends in `\s+(.+)`. The whitespace before the
  caption may contain line breaks, but the caption itself stops at the first line
  terminator. So `/add a b photo \ncap` registers the caption `cap`, and any later
  lines are ignored. If only spaces follow the kind, the caption can be a single space, as
  in `/add a b photo` followed by two spaces.
- `/start(?:\s+(.+))?` (bot.js:141) behaves the same way: `/start\nfoo` yields the
  slug `foo`. The slug runs to the end of its line, so it may contain spaces. Such a
  slug is never found, because `/add` slugs contain no whitespace.
- An empty caption is treated like a missing one, because the code uses `||`
  (bot.js:167, bot.js:296-302). It falls back to "File available" in the offer and to
  `''` in the delivery.

## Model

| member | source | states |
|---|---|---|
| Registry.ParseKind | bot.js:294-306 | a `file_type` is recognised exactly when it is `photo`, `video` or `document`, case-sensitively, and it reads back to a kind with that name |
| Registry.KindNameRoundTrip | bot.js:191-216 | the kind text `/add` stores is read back by the callback's switch as the same kind |
| Registry.Lookup | bot.js:147 | a lookup finds a row exactly when the slug is stored, and then it is that slug's row |
| Registry.LookupIgnoresOtherRows | bot.js:207 | writing a row under another slug never changes what a lookup returns |
| Registry.LookupKey | bot.js:281-286 | a callback finds a row exactly when it carries data and that data is a stored slug, and then it is that slug's row; missing data binds NULL and finds nothing |
| Registry.Insert | bot.js:43-48 | INSERT is rejected without change exactly when the slug is taken (PRIMARY KEY); otherwise the key set gains exactly that slug, the count grows by one, the slug maps to the new row and every other slug's row is unchanged |
| Registry.Count | bot.js:247-248 | `COUNT(*)` is the number of distinct slugs stored, and it is zero exactly for the empty table |
| Registry.ExtendsCount | bot.js:247-248 | a table that keeps all rows of another counts at least as many rows |
| Auth.OneAdmin | bot.js:98-100 | exactly one identity passes the gate: the configured administrator id passes, and any two ids that pass are the same |
| Patterns.SkipSpaces | bot.js:191 | greedy `\s*` stops at the end of the whitespace run: everything before is whitespace, the stop is the end of text or a non-space |
| Patterns.TokenEnd | bot.js:191 | greedy `\S+` stops at the first whitespace or the end of text, and the token has no whitespace |
| Patterns.LineEnd | bot.js:191 | greedy `.+` stops at the first line terminator or the end of text |
| Patterns.SkipSpacesAt | bot.js:191 | any end of a whitespace run is where greedy `\s*` stops |
| Patterns.TokenEndAt | bot.js:191 | any end of a token is where greedy `\S+` stops |
| Patterns.LineEndAt | bot.js:191 | any end of a line is where greedy `.+` stops |
| Patterns.LastNonBreak | bot.js:191 | the position backtracking gives back to `.+` is the last one in range that `.` can match; all later ones are line terminators |
| Patterns.SpaceLine | bot.js:141 | a reported `\s+(.+)` group is a match, runs to the end of its line, and starts as late as any match can |
| Patterns.SpaceLineComplete | bot.js:141 | whenever `\s+(.+)` can match, a match is reported, and no match starts its group later |
| Patterns.SpaceLineNone | bot.js:141 | when no match is reported, `\s+(.+)` cannot match there in any way |
| Patterns.SpaceLineAt | bot.js:191 | whitespace followed by a non-space line captures exactly that line |
| Patterns.Find | bot.js:141 | the reported position holds the literal, and no earlier position does |
| Patterns.Contains | bot.js:237 | an unanchored literal pattern matches exactly when the literal occurs somewhere in the text |
| Commands.AddSplitAt | bot.js:191 | a reported split of the `/add` pattern is a match at that position, with the caption as a backtracking matcher takes it |
| Commands.AddSplitComplete | bot.js:191 | every match of `/add` at a position is found; its slug, file-id and kind groups are the same in every match, and no match starts the caption later |
| Commands.FirstAdd | bot.js:191 | the reported match is the leftmost position where the `/add` pattern matches |
| Commands.MatchAdd | bot.js:191-203 | a registration comes out exactly when the `/add` pattern can match somewhere. Its arguments are the groups of the leftmost match, with the caption a backtracking matcher takes: a non-empty, whitespace-free slug and file id, an exact kind token and a non-empty one-line caption |
| Commands.MatchAddComplete | bot.js:191 | any text the `/add` pattern can match anywhere is recognised, at the leftmost such position |
| Commands.AddCommandRoundTrip | bot.js:191-203 | writing a registration as `/add slug fileId kind caption` and recognising it gives back the same four arguments |
| Commands.MatchStart | bot.js:141-143 | the `/start` listener fires exactly when the text contains `/start`. The group is read right after the leftmost `/start`. It is absent exactly when `\s+(.+)` cannot match there, and otherwise it is the non-empty one-line group a backtracking matcher captures |
| Commands.OptionalLine | bot.js:141 | `(?:\s+(.+))?` yields nothing exactly when `\s+(.+)` cannot match, and otherwise the line a backtracking matcher captures |
| Commands.StartCommandRoundTrip | bot.js:141-143 | the message `/start <slug>` sent by a deep link yields exactly that slug |
| Commands.MatchStatus | bot.js:237 | `/status` matches exactly when the text contains `/status` anywhere |
| Commands.MatchHelp | bot.js:264 | `/help` matches exactly when the text contains `/help` anywhere |
| Properties.OfferShowsCaption | bot.js:167 | the offer for a registered slug shows the row's caption when it is non-empty, and "File available" when it is missing or empty |
| Handlers.DeliveryCaption | bot.js:296-302 | the media goes out with the row's caption when it is present and non-empty, and with the empty string otherwise |
| Properties.OfferMatchesDelivery | bot.js:167 | the offer shows exactly the caption the media is later sent with; when there is none, the offer says "File available" and the media has an empty caption |
| Handlers.DeepLink | bot.js:219 | the share link is the bot's `?start=` prefix followed by exactly the slug |
| Properties.LinkLeadsBack | bot.js:141-219 | the `/start` message the reply's link sends is recognised with exactly the slug that was registered |
| Handlers.Start | bot.js:141-188 | `/start` never changes the table and sends one message to the chat. It is the welcome when there is no slug, the retrieval error when the read fails, and not-found for an unknown slug. It carries a button exactly when the slug is registered and the read succeeds; the button's data is the slug and the text is the row's caption or the default |
| Handlers.Add | bot.js:191-234 | `/add` sends one reply. It is the refusal exactly for a non-admin, and the conflict naming the slug exactly for the admin when the read succeeds and the slug is taken. The generic error comes exactly for the admin when the read fails or the write fails on a free slug. The table changes exactly when the admin registers a fresh slug on a working database, and then gains only that slug, mapped to (fileId, kind, caption), with a reply carrying the share link. No existing row is ever altered |
| Handlers.Status | bot.js:237-261 | `/status` never changes the table. It is refused exactly for a non-admin. The admin gets the error reply when the read fails, and otherwise a count equal to the number of rows |
| Properties.HelpReadsNothing | bot.js:264-276 | `/help` answers anyone with the one help message whatever the table holds, and leaves the table unchanged |
| Handlers.Deliver | bot.js:294-306 | photo, video and document each map to their own send call carrying the file id and the caption, or the empty string when there is none; any other type gives the "unknown file type" message and no delivery |
| Handlers.Callback | bot.js:279-311 | a button press never changes the table. The first call is the toast: error, not found, or "sending". A second call follows exactly when the row is found, and it is that row's delivery |
| Handlers.Seed | bot.js:61-95 | seeding keeps every existing row. It changes nothing when `testvideo1` exists or the database fails. It adds only the demonstration row, and does so on a working database |
| Handlers.OnStart | bot.js:141-143 | the `/start` listener stays silent exactly when the text has no `/start`, and never changes the table. Otherwise it runs the `/start` handler on the captured group, or on no slug when the group is absent |
| Handlers.OnAdd | bot.js:191-229 | the `/add` listener is silent and read-only unless the whole pattern matches. The table changes exactly when the admin's message matches on a working database with a slug not yet taken, and no existing row is ever altered. A matching message runs the handler on the captured arguments |
| Handlers.OnStatus | bot.js:237-261 | the `/status` listener fires exactly when the text contains `/status`, never changes the table, and on a matching message runs the admin-gated count |
| Properties.StatusMessageReports | bot.js:237-256 | any message containing `/status` gets the admin the number of rows on a working database, and anyone else the refusal, with the table unchanged |
| Handlers.OnHelp | bot.js:264-276 | the `/help` listener fires exactly when the text contains `/help`, never changes the table, and on a matching message sends the help text |
| Properties.HelpMessageAnswers | bot.js:264-276 | any message containing `/help`, from anyone, gets the one help message and leaves the table unchanged |
| Properties.HandleGrows | bot.js:207-217 | every handler keeps all existing rows unchanged, and adds exactly as many rows as it confirms registrations |
| Properties.RunGrows | bot.js:214-229 | after any sequence of requests, the table holds the initial rows unchanged plus exactly one row per confirmed registration |
| Properties.CountMonotone | bot.js:247-248 | the row count never decreases |
| Properties.StatusAfterRun | bot.js:247-256 | `/status` after any sequence of requests reports the initial rows plus the registrations confirmed since |
| Properties.HandleKeepsValidKinds | bot.js:214-217 | no handler stores a `file_type` outside the three kinds |
| Properties.RunKeepsValidKinds | bot.js:214-217 | the three-kinds invariant holds after any sequence of requests |
| Properties.SeedKeepsValidKinds | bot.js:62-67 | the demonstration row has a valid kind |
| Properties.SeedIdempotent | bot.js:69-91 | seeding twice is the same as seeding once; after a successful seeding, further seeding changes nothing |
| Properties.CallbackAckBeforeDelivery | bot.js:291-306 | for a found slug, the "sending" toast comes strictly before the delivery. There is at most one delivery, and exactly one when the table's kinds are valid |
| Properties.CallbackMissingNoDelivery | bot.js:284-289 | a press for a missing slug delivers nothing |
| Properties.AddThenLookup | bot.js:200-227 | when the admin adds a fresh slug, a lookup returns exactly (fileId, kind, caption), other slugs read as before, and the count grows by one. The reply's link is the `?start=` prefix plus the slug |
| Properties.AddDuplicateUnchanged | bot.js:207-212 | adding a taken slug leaves the table as it was and replies with a conflict naming the slug |
| Properties.DenialReadsNothing | bot.js:195-198 | a non-admin's `/add` or `/status` is refused with no change, and the reply does not depend on the table or the database, so nothing is read |
| Properties.WelcomeReadsNothing | bot.js:176-187 | `/start` without a slug gives the welcome whatever the table holds, so no lookup is made |
| Properties.AddMessageStores | bot.js:191-217 | the admin's message `/add slug fileId kind caption` stores exactly the row (fileId, kind, caption) under the fresh slug and changes nothing else |
| Properties.StartMessageOffers | bot.js:141-171 | anyone's deep-link message `/start slug` offers the registered row, with a button carrying the slug, or answers not-found |
| Properties.OfferOnlyForRegistered | bot.js:145-171 | `/start slug` yields one button if the slug is registered and none otherwise, and the button carries the slug |
| Properties.RegisterResolveDeliver | bot.js:284-306 | after the admin registers a fresh slug, the offer's button carries it, and pressing it sends the "sending" toast and then the media of the registered kind with its file id and caption |
| Scenarios.ParseAddPromo | bot.js:191-203 | `/add promo ABC123 video New Year Promo` reads as slug `promo`, file id `ABC123`, kind video, caption `New Year Promo` |
| Scenarios.ParseStartPromo | bot.js:141-143 | `/start promo` reads as slug `promo` |
| Scenarios.AddPromoStores | bot.js:200-229 | the admin's promo message stores the promo row and replies with the promo link |
| Scenarios.StartPromoOffers | bot.js:145-171 | `/start promo` offers "New Year Promo" with a button carrying `promo` |
| Scenarios.PressPromoSendsVideo | bot.js:291-300 | pressing the promo button sends the toast and then the video `ABC123` with its caption |
| Scenarios.UnknownSlugNotFound | bot.js:149-152 | an unregistered slug gets the not-found message and no button |
| Scenarios.NonAdminAddRefused | bot.js:195-198 | a non-admin's `/add x y photo z` is refused and the table is unchanged |
| Scenarios.StatusReportsTwo | bot.js:247-252 | with two rows, `/status` reports two |
| Scenarios.StatusMessageReportsTwo | bot.js:237-252 | the admin's raw `/status` message on a two-row table reports two |

## Left out

- Process bootstrap (bot.js:1-27): dotenv, the `BOT_TOKEN` check, the bot and Express construction. These are environment and I/O.
- SQLite plumbing (bot.js:29-58, 103-130): the connection, `CREATE TABLE IF NOT EXISTS` and the `dbRun`/`dbGet`/`dbAll` promise wrappers are replaced by the map. Seeding is modelled on its own; the table-creation error that would skip it is not.
- `parseCommand` (bot.js:133-138) is never called.
- The Express endpoints, server start, webhook registration and SIGINT shutdown (bot.js:313-358) are network and process lifecycle.
- Concurrency: handlers run as atomic steps. The check-then-insert race in `/add` (bot.js:207-217) is not modelled. `Registry.Insert` still models the PRIMARY KEY rejection that guards it.
- Several listeners firing on one message: the patterns are unanchored, so one text can trigger more than one handler. Their asynchronous steps may interleave. Each listener is modelled on its own.
- Exact message texts, emoji, HTML formatting, the `Environment` line of the status report and the help text's wording: replies are recorded by meaning.
- Logging (`console.log`/`console.error`) has no observable effect on the chat and is dropped.
- Transport behaviour: failures or rejections of unawaited Telegram calls, and Telegram's own limits (such as the 64-byte `callback_data`), belong to the transport.
- Text encoding: messages are sequences of code points. JavaScript strings are UTF-16, but surrogate halves are neither whitespace nor line terminators, so the captured groups are the same.
- Properties.HelpReadsNothing: fixes only the single help reply and the unchanged table; the help text's content is not modelled.
