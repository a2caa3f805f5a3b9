# Discord moderation bot: decision logic

This project models the decision logic of a small Discord bot:

- the message-command dispatcher: its gates, tokenizer and routing;
- the `purge` command: its guard chain, its `parseInt` amount check, the bulk delete and the error classification;
- the `setwelcome` / `getwelcome` handlers over the shared configuration object;
- the member-join greeter;
- the `discordConfig` validation schema with its defaults.

discord.js is described abstractly:

- An inbound message is a record (`Platform.InboundMessage`). It holds:
  - whether the author is a bot;
  - the content;
  - whether the message was sent in a guild;
  - the channel type;
  - the author's Manage Messages and Administrator permissions;
  - the bot's Manage Messages permission in the channel.
- The guild's channel cache is a sequence of (type, bot may send) records.
- Every outbound call is recorded as an `Action`, in order. This is true whether or not the call then throws. The calls are `reply`, `bulkDelete`, the scheduled clean-up, and `send`.
- How each call turns out is an input (`Transport`):
  - whether a reply throws, and what it throws;
  - what `bulkDelete` resolves to or throws.

  A handler's `try` block makes at most one reply, and its `catch` block one more.

Modules:

- `JsString`: the JavaScript string operations the bot uses: `startsWith`, `includes`, `trim`, `split(/ +/)`, `join(' ')` and `toLowerCase`.
- `JsParseInt`: `parseInt` without a radix.
- `Schema`: the configuration schema.
- `Commands`: the dispatcher and `purge`.
- `WelcomeCommands`: the welcome handlers and the `ConfigStore` class. The class holds the configuration object and is updated in place.
- `Events`: the greeter.
- `BotProperties`: properties that span these modules.

Facts about the code that shape the model:

- Any command name other than `purge` gets no reply at all.
- `bulkDelete(amount, true)` gets exactly the validated amount.
- No progress message is sent before the deletion.
- A missing bot member has no reply of its own: only the bot's Manage Messages permission in the channel is checked.
- The greeter picks the first guild text channel in cache order where the bot may send. Channel names play no part.
- Reply texts, emoji included, are compared as exact character sequences.
- `setwelcome` and `getwelcome` are not routed by the dispatcher's `switch` (`Commands.WelcomeCommandsNotRouted`). The member-join handler is never registered. Both are modelled as the functions they are.

## Model

| member | source | states |
|---|---|---|
| `Commands.ParseCommand` | server/discord/commands.ts:31-51 | a message is a command exactly when its author is not a bot, its content is non-empty and starts with the prefix, and something other than white space follows the prefix |
| `Commands.Tokenize` | server/discord/commands.ts:48-49 | the name and every argument hold no space; every argument is non-empty; the name is empty exactly when the text after the prefix trims to nothing (the contents are stated by `Commands.TokenizeCommandLine`) |
| `Commands.TokenizeCommandLine` | server/discord/commands.ts:48-49 | round trip: prefix, any white space, a name, arguments separated by runs of one or more spaces, then any white space, tokenize to the lower-cased name and the arguments exactly as typed (upper case and tabs inside a token kept) |
| `Commands.RouteOf` | server/discord/commands.ts:54-63 | only the name `purge` is routed to a handler |
| `Commands.WelcomeCommandsNotRouted` | server/discord/commands.ts:54-63 | `setwelcome` and `getwelcome` have no case in the switch |
| `Commands.HandleCommands` | server/discord/commands.ts:26-67 | a message that fails a gate, or names any command but `purge`, makes no call; for `purge` the calls are exactly the handler's full trace, to which the dispatcher's `catch` adds nothing |
| `Commands.FirstArgText` | server/discord/commands.ts:94 | `String(args[0])`: a missing argument reads as "undefined" (its consequence is `Commands.MissingAmount`) |
| `Commands.ParseAmount` | server/discord/commands.ts:94-97 | an amount is accepted exactly when `parseInt(args[0])` is a number in [1, 100], and it is that number |
| `Commands.MissingAmount` | server/discord/commands.ts:94-98 | with no argument, `parseInt(undefined)` is NaN and the amount is rejected |
| `Commands.AmountOfInteger` | server/discord/commands.ts:94-98 | every integer written out, with or without a non-numeric tail such as "abc" or ".9", is accepted exactly when it lies in [1, 100] |
| `Commands.RejectionReply` | server/discord/commands.ts:75-98 | the exact reply text of each guard, one per rejection |
| `Commands.CheckPurge` | server/discord/commands.ts:75-100 | the guards in order: not a guild text channel, member lacks Manage Messages, bot lacks Manage Messages, bad amount; each rejection holds exactly when the earlier guards passed and this one fails; success carries the validated amount |
| `Commands.PurgeOfInteger` | server/discord/commands.ts:94-100 | with both permissions, `purge n` proceeds to deletion exactly when 1 <= n <= 100; otherwise it gets the range reply |
| `Commands.ConfirmationReply` | server/discord/commands.ts:106 | "Successfully deleted N messages." (its read-back is `Commands.ConfirmationCount`) |
| `Commands.ConfirmationCount` | server/discord/commands.ts:106 | the count shown in the confirmation reads back, with `parseInt`, as exactly the size `bulkDelete` reported |
| `Commands.PurgeErrorReply` | server/discord/commands.ts:116-120 | the 14-day reply exactly when the thrown value is an `Error` and "14 days" occurs at some index of its message; the generic reply otherwise |
| `Commands.PurgeErrorClassification` | server/discord/commands.ts:116-120 | on cases: "14 days" anywhere in an `Error`'s message gives the 14-day reply; `Error("Missing Permissions")` and a non-`Error` value get the generic reply |
| `Commands.PurgeCaught` | server/discord/commands.ts:73-112 | the `catch` block receives nothing exactly when neither the reply made nor `bulkDelete` throws; a throwing `bulkDelete` is what it receives; otherwise it receives the error of the reply that threw |
| `Commands.PurgeTrace` | server/discord/commands.ts:72-122 | the calls of one purge run for a given guard outcome and transport (it is the contract of `Commands.HandlePurgeCommand` and of `Commands.HandleCommands`; its consequences are `Commands.PurgeTraceEffects`) |
| `Commands.PurgeTraceEffects` | server/discord/commands.ts:75-103 | in every run, a rejection replies first and deletes nothing; otherwise exactly one `bulkDelete(amount, true)` comes first |
| `Commands.DeleteAndConfirm` | server/discord/commands.ts:103-109 | `bulkDelete` gets exactly the amount with `filterOld` set; the confirmation reports the deleted size it resolved to; the 5-second clean-up is scheduled only after the confirmation was sent |
| `Commands.HandlePurgeCommand` | server/discord/commands.ts:72-122 | the whole call sequence of a purge; a throw in the `try` block is answered by one classified error reply; a throw from that reply escapes to the dispatcher |
| `JsString.StartsWith` | server/discord/commands.ts:43 | `startsWith`: the prefix is the first characters of the content (see `JsString.StartsWithConcat`) |
| `JsString.StartsWithConcat` | server/discord/commands.ts:43-48 | text after a prefix starts with it, and slicing the prefix length off gives the text back |
| `JsString.Contains` | server/discord/commands.ts:116 | `includes` as a search from the left (its meaning is `JsString.ContainsIff`) |
| `JsString.ContainsIff` | server/discord/commands.ts:116 | the search succeeds exactly when the needle occurs at some index of the string |
| `JsString.IsWhiteSpace` | server/discord/commands.ts:48 | the ECMAScript WhiteSpace and LineTerminator code points, which `trim` removes and `parseInt` skips (their use is stated by `JsString.TrimStart`, `JsString.TrimEnd` and `JsString.Trim`) |
| `JsString.TrimStart` | server/discord/commands.ts:48 | `trimStart` drops exactly the leading white space |
| `JsString.TrimEnd` | server/discord/commands.ts:48 | `trimEnd` drops exactly the trailing white space |
| `JsString.Trim` | server/discord/commands.ts:48 | `trim` is a slice of its input with only white space outside it, and no white space at either end |
| `JsString.TrimUnchanged` | server/discord/welcomeCommands.ts:26 | a string with no white space at either end is its own trim |
| `JsString.TrimPadded` | server/discord/commands.ts:48 | `trim` removes exactly the white space around a text whose ends are not white space |
| `JsString.SplitOnSpaces` | server/discord/commands.ts:48 | `split(/ +/)` yields at least one field, and no field holds a space |
| `JsString.SplitKeepsText` | server/discord/commands.ts:48 | the fields laid end to end are the input with its spaces removed: the split drops spaces and nothing else, in order |
| `JsString.SplitFieldsNonEmpty` | server/discord/commands.ts:48-51 | a trimmed, non-empty string splits into non-empty fields, so the command name is non-empty |
| `JsString.SplitJoinRuns` | server/discord/commands.ts:48 | round trip: fields separated by runs of one or more spaces split back into those fields |
| `JsString.JoinSingleRuns` | server/discord/welcomeCommands.ts:26 | `join(' ')` is the run-separated form in which every run is one space |
| `JsString.SplitJoin` | server/discord/commands.ts:48 | round trip: fields joined by single spaces split back into those fields (the case of `JsString.SplitJoinRuns` with runs of one space) |
| `JsString.PaddedRunsSplit` | server/discord/commands.ts:48 | white space around fields separated by runs of spaces is trimmed off, and the rest splits into the fields |
| `JsString.Join` | server/discord/welcomeCommands.ts:26 | `join(' ')` of no parts is ""; otherwise the result begins with the first part and ends with the last |
| `JsString.ToLowerAscii` | server/discord/commands.ts:49 | lower-casing keeps the length and maps each ASCII capital to its small letter |
| `JsParseInt.ParseInt` | server/discord/commands.ts:94 | `parseInt` gives a number only when the input holds a decimal digit, and a negative one only when a minus sign follows the leading white space |
| `JsParseInt.DigitPrefix` | server/discord/commands.ts:94 | `parseInt` reads the longest run of digits: all digits, stopped by a non-digit or the end |
| `JsParseInt.DecimalStringValue` | server/discord/commands.ts:106 | the decimal rendering of a count has that count as its value |
| `JsParseInt.ParseIntString` | server/discord/commands.ts:94 | `parseInt(String(n) + rest)` is n when `rest` does not continue the number: "10abc" is 10, "7.9" is 7, "-3" is -3 |
| `JsParseInt.ParseIntNoDigit` | server/discord/commands.ts:94 | input whose first character after white space is neither a sign nor a digit is NaN |
| `JsParseInt.ParseIntHex` | server/discord/commands.ts:94 | without a radix, after `0x` or `0X` the longest run of hexadecimal digits is the value in base 16: "0x1f" is 31, "0xAg" is 10 |
| `JsParseInt.MagnitudeOfHex` | server/discord/commands.ts:94 | after a `0x` prefix, the hexadecimal digits up to the first other character make up the magnitude |
| `JsParseInt.DecimalString` | server/discord/commands.ts:106 | `String(n)` of a count: a non-empty run of decimal digits, with a leading `0` only for zero (its value is `JsParseInt.DecimalStringValue`) |
| `JsParseInt.IntString` | server/discord/commands.ts:106 | `String(n)` of an integer: a minus sign for a negative number, then the decimal rendering (`JsParseInt.ParseIntString` reads it back) |
| `WelcomeCommands.ConfigStore.constructor` | server/discord/welcomeCommands.ts:11 | the store holds the configuration object it is given; the handlers then read it or assign its custom message in place |
| `WelcomeCommands.SetWelcomeRejectionReply` | server/discord/welcomeCommands.ts:15-29 | the exact text of each of the three rejections; none opens with the check mark of the confirmation |
| `WelcomeCommands.NewWelcomeText` | server/discord/welcomeCommands.ts:26 | `args.join(' ').trim()`: a slice of the joined arguments with only white space outside it and none at either end |
| `WelcomeCommands.CheckSetWelcome` | server/discord/welcomeCommands.ts:14-31 | the checks in order: not in a guild, then not Administrator, then empty joined-and-trimmed text; on success, the text to store, non-empty with no white space at either end |
| `WelcomeCommands.ApplySetWelcome` | server/discord/welcomeCommands.ts:34 | `setwelcome` leaves token, clientId, prefix and top-level welcomeMessage untouched; on rejection the config is unchanged; on success the custom message is the new text |
| `WelcomeCommands.SetWelcomeIdempotent` | server/discord/welcomeCommands.ts:26-34 | repeating the same `setwelcome` leaves the config as one call left it |
| `WelcomeCommands.SetWelcomeOfWords` | server/discord/welcomeCommands.ts:26 | words without white space are stored as typed, joined by single spaces |
| `WelcomeCommands.SetWelcomeOfNothing` | server/discord/welcomeCommands.ts:26-31 | an admin's `setwelcome` whose arguments join to white space only, or that has none, gets the usage reply |
| `WelcomeCommands.Quoted` | server/discord/welcomeCommands.ts:37 | the `caption: "text"` template of both replies that show a welcome message, here and at line 55 (`WelcomeCommands.Unquote` is its inverse, by `WelcomeCommands.UnquoteQuoted`) |
| `WelcomeCommands.SetWelcomeReply` | server/discord/welcomeCommands.ts:14-37 | the first reply of `setwelcome`: the stored text reads back from the confirmation, and no rejection reads as a confirmation |
| `WelcomeCommands.UnquoteOther` | server/discord/welcomeCommands.ts:37 | a reply that does not open with the caption's first character is not a quoted reply under that caption |
| `WelcomeCommands.Unquote` | server/discord/welcomeCommands.ts:37 | whatever text it extracts, quoted under the same caption, gives back the reply |
| `WelcomeCommands.UnquoteQuoted` | server/discord/welcomeCommands.ts:37 | the confirmation quotes exactly the stored text: it can be read back |
| `WelcomeCommands.HandleSetWelcomeCommand` | server/discord/welcomeCommands.ts:11-44 | the new config is the old one with the custom message set only after all checks pass; first reply is the rejection or the quoted confirmation; a throwing reply gets the error reply, and the assignment stays |
| `WelcomeCommands.HandleGetWelcomeCommand` | server/discord/welcomeCommands.ts:49-61 | needs no permission; the reply quotes `customSettings.welcomeMessage` (not the top-level default); the config is not modified |
| `WelcomeCommands.SetWelcomeThenGetWelcome` | server/discord/welcomeCommands.ts:26-55 | round trip: the store ends as `setwelcome` left it; `getwelcome` then reports the joined-and-trimmed arguments after a successful `setwelcome`, and the earlier message after a refused one |
| `Events.FindGreetingChannel` | server/discord/events.ts:45-48 | the chosen channel is a guild text channel where the bot may send, and no earlier channel in cache order qualifies; none is chosen only when no channel qualifies |
| `Events.FindGreetingChannelPrefix` | server/discord/events.ts:45-48 | first match: appending channels to the cache never changes a choice already made |
| `Events.EffectiveWelcome` | server/discord/events.ts:56 | the custom message when it is non-empty; otherwise the top-level `welcomeMessage` |
| `Events.GreetingText` | server/discord/events.ts:57 | the sent text is the mention, one space, then the message, and each part can be cut back out |
| `Events.MemberJoinActions` | server/discord/events.ts:40-63 | no call when no channel qualifies; otherwise one send to the first qualifying channel with the greeting text; the config is only read |
| `Schema.RequiredStringIssues` | shared/schema.ts:22-23 | a required string field raises no issue exactly when it is present with length >= 1; otherwise one issue on that field's path |
| `Schema.WithDefault` | shared/schema.ts:24-25 | a present string is kept verbatim (even ""); an absent one becomes the default |
| `Schema.ValidateCustomSettings` | shared/schema.ts:27-31 | the custom message is the supplied one when `customSettings` and its message are both present, and the literal default otherwise |
| `Schema.ValidateConfig` | shared/schema.ts:21-32 | validation succeeds exactly when token and clientId are present and non-empty; failures list at most two issues, with the token issue first when the token fails |
| `Schema.ValidateUnparsed` | shared/schema.ts:21-32 | a config spelled out in full validates to itself, with no trimming and no replacement of "" |
| `Schema.ValidateDefaults` | shared/schema.ts:24-31 | absent welcomeMessage becomes "Welcome to immys server"; absent prefix becomes "."; absent customSettings, or absent custom message, becomes the literal, whatever top-level welcomeMessage was given; supplied values are kept |
| `Schema.ValidateBothAbsent` | shared/schema.ts:22-23 | with both required fields absent, two "Required" issues are reported, token first |
| `Schema.ValidateEmptyToken` | shared/schema.ts:22 | an empty token is reported with the token's own message |
| `Schema.ValidateEmptyClientId` | shared/schema.ts:23 | an empty clientId is reported with the clientId's own message |
| `BotProperties.GreetingAfterSetWelcome` | server/discord/events.ts:56-57 | after a successful `setwelcome`, a joining member is greeted with the new text in the same channel |
| `BotProperties.GreetingWithDefaults` | shared/schema.ts:27-31 | a config validated without customSettings greets with the literal default, not the top-level message |
| `BotProperties.GreetingWithEmptyCustomMessage` | server/discord/events.ts:56 | an empty custom message falls back to the top-level welcomeMessage |

## Left out

- Logging (`log`) is not modelled. A handler that only logs makes no call.
- Interleaving of async handlers is not modelled. Each handler run is one sequential step.
- The timer body of the confirmation clean-up is left out: the `reply.deletable` test, the deletion, and the logging of a failed deletion. Only the scheduling (`ScheduleCleanup(5000)`) is recorded.
- discord.js internals are inputs, not models: what `bulkDelete` removes, its 14-day filter, permission resolution, and a missing `guild.members.me`. The deleted size reported is whatever `bulkDelete` resolves to. The model takes no bound such as `size <= amount` for granted.
- `${member}` is taken as a given mention string.
- A send that fails in the greeter is only logged. The same `Send` call is recorded either way.
- `JsString.ToLowerAscii`: only ASCII letters are lower-cased. This does not affect routing, since the only name compared is the ASCII word `purge`.
- `Commands.Tokenize`: its own contract gives the tokens' shape. The tokens' contents are proved, in `Commands.TokenizeCommandLine`, for every message written as prefix, white space, space-free fields separated by runs of spaces, and white space. The model does not prove that every message has this form.
- `JsParseInt.ParseIntString`: works on exact integers, not IEEE doubles. Rounding and `Infinity` for very long digit strings are not modelled. Neither changes which amounts fall in [1, 100].
- `Schema.ValidateConfig`: the input is either absent or a string per field. Non-string values (other zod type errors) and the stripping of unknown keys are not modelled.
- server/discord/bot.ts (client construction, intents, `login`) is not part of this model. It is plumbing.
- server/routes.ts (HTTP health and ping endpoints) is not part of this model.
- The `users` table and `insertUserSchema` in shared/schema.ts are not part of this model. They are ORM declarations with no behaviour here.
