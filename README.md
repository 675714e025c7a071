# Prediction market front end: verified model

This project models the logic of a prediction-market web app. The app has
these parts:

- a chat widget that talks to an assistant and runs the wallet actions the
  assistant asks for;
- the chat API route that adds wallet context to the user's message;
- the prediction cards, the dashboard that lists the predictions, and the
  create-prediction form;
- the layout's popups and the wallet chip in the header;
- the contract-call descriptors that the front end hands to its transaction
  component.

One Dafny module models each source file:

| module | file | form |
|---|---|---|
| `JsText` | (shared) | JavaScript string semantics: `trim` with the ECMAScript white-space set, `slice` with negative and clamped indices, `split`/`join`, `startsWith`, decimal rendering, truthiness |
| `ChatInterface` | `app/components/ChatInterface.tsx` | the marker scan as pure functions; the widget as class `ChatSession` |
| `ChatRoute` | `app/api/chat/route.ts` | pure: the context prefix, its parser, and the reply shapes |
| `Contract` | `app/utils/contract.ts` | the ABI as constant data, and lookup by function name |
| `Calls` | `app/calls.ts` | the three call builders, checked against the ABI |
| `PredictionCard` | `app/components/PredictionCard.tsx` | pure: totals, percentages, expiry, label, footer |
| `PredictionsDashboard` | `app/components/PredictionsDashboard.tsx` | the filters are pure; the fetch runs in class `Dashboard` |
| `PredictionForm` | `app/components/PredictionForm.tsx` | class `FormState` |
| `Layout` | `app/components/Layout.tsx` | class `Popups`, plus the toggles as functions on a value |
| `WalletIdentity` | `app/components/WalletIdentity.tsx` | pure colours; class `WalletMenu` |
| `EndToEnd` | (several) | concrete replies and cross-module facts |

## How the model works

**Assistant reply markers.**
- An assistant reply can ask for an action with `<function>NAME</function>`.
- The widget uses `/<function>(.*?)<\/function>/` to find the marker. The
  model writes that regular expression out as an explicit scan, `FindMarker`.
  The match starts at the leftmost `<function>`. The capture ends at the first
  `</function>`. No line terminator may occur in between, since `.` does not
  match `\n`, `\r`, U+2028 or U+2029.
- `FindMarker` is proved complete and sound against a declarative
  definition of a match.
- `MarkerRoundTrip` proves that building a reply from a name and then
  parsing it gives the name back.
- The `replace` call has no `g` flag, so only the first marker is removed.

**Chat widget state.**
- The widget is a class with fields `messages`, `input` and `isLoading`.
- A ghost `log` records every effect in order.
- An effect is either appending a message or calling the wallet's `connect`.
- The class invariant says that `messages` is exactly the messages appended
  in `log`.
- `handleSubmit` is split at its `await`:
  - `Submit` runs up to sending the request.
  - `Settle` runs after the response.
  - `HandleSubmit` runs both.
- The response is an input to `Settle`. So are the parsed body and whether
  `connect` throws.

**Times and deadlines.**
- Times are whole milliseconds. Deadlines are whole seconds.
- The card reads the clock twice: `Date.now()` for the expiry flag and the
  footer, then `new Date()` for the label. The model takes both readings as
  parameters, `expiryMs` and `labelMs`. Every other clock reading is a
  parameter too.
- A `Date` holds at most 8.64e15 ms on either side of the epoch (section
  21.4.1.1 of ECMA-262). For a deadline beyond that, `new Date` is an
  invalid date, `diffTime` is NaN, and the label chain falls through to
  "Expired" or "Resolved". The model follows this path (`InDateRange`).
- Consequences of the card's code that the model proves:
  - `Math.ceil` of a positive number of days is at least 1. So a future
    deadline that a `Date` can hold always shows "N day(s) left", and the
    hours branch of the card's label chain can never be taken
    (`FutureDeadlineShowsDays`).
  - The label can read "Expired" on an unresolved card whose expiry flag
    is still false, and then the vote buttons still show. A resolved card
    shows the banner whatever its label says. The label says time is up
    while the flag is false exactly when the deadline is not before the
    expiry reading and either is not after the label reading or is beyond
    what a `Date` can hold. With a single reading and a representable
    deadline, that is only the deadline millisecond (`LabelFlagMismatch`).
    A deadline ten trillion seconds ahead, which the contract accepts,
    shows "Expired" above the vote buttons (`FarDeadlineLooksExpired`).

**Two consequences of the code worth knowing.**
- A reply without a marker is appended verbatim, not trimmed
  (`app/components/ChatInterface.tsx`, line 101).
- Only the first marker is removed: the `replace` call has no `g` flag
  (line 94), so a later marker stays in the displayed text.

## Model

| member | source | states |
|---|---|---|
| JsText.TrimStart | app/components/ChatInterface.tsx:64-66 | the result is a suffix of the input; every character dropped is ECMAScript white space or a line terminator; the first character kept is not |
| JsText.TrimEnd | app/components/ChatInterface.tsx:94 | the result is a prefix of the input; every character dropped is trimmable; the last character kept is not |
| JsText.Trim | app/components/ChatInterface.tsx:64-66 | `String.prototype.trim`, defined as `trimEnd` after `trimStart`; what it returns is stated by `TrimIsUniqueCore`, `TrimEmptyIff` and `TrimIdempotent` |
| JsText.TrimIsUniqueCore | app/components/ChatInterface.tsx:64-66 | `trim` returns the unique maximal slice with no trimmable character at either end |
| JsText.TrimStartAt | app/components/ChatInterface.tsx:64-66 | `trimStart` stops exactly at the first character that is not trimmable |
| JsText.TrimEndAt | app/components/ChatInterface.tsx:94 | `trimEnd` stops exactly after the last character that is not trimmable |
| JsText.TrimEmptyIff | app/components/ChatInterface.tsx:64 | `input.trim()` is empty exactly when every character is trimmable |
| JsText.TrimIdempotent | app/components/ChatInterface.tsx:94 | trimming twice is trimming once |
| JsText.Slice | app/components/WalletIdentity.tsx:13 | `s.slice(start, end)`: both indices count from the end when negative and are clamped to the length; an empty or reversed range gives `''`; stated by `SliceMeaning` |
| JsText.SliceFrom | app/components/WalletIdentity.tsx:14 | `s.slice(start)`: `slice` up to the length; stated by `SliceMeaning` |
| JsText.SliceMeaning | app/components/WalletIdentity.tsx:13-14 | within range `slice(a, b)` is the subsequence from `a` to `b`; `slice(-n)` is the last `n` characters, or the whole text when it is shorter; a reversed range is empty |
| JsText.Split | app/components/ChatInterface.tsx:132 | `split` on one character: at least one part; stated by `SplitJoin`, `SplitAfter` and `SplitWhole` |
| JsText.SplitJoin | app/components/ChatInterface.tsx:132 | `split` loses nothing (joining the parts gives the text back), and no part holds the separator |
| JsText.SplitAfter | app/components/ChatInterface.tsx:132 | splitting `a + sep + b`, where `a` has no separator, gives `a` followed by the parts of `b` |
| JsText.DecimalString | app/components/PredictionCard.tsx:51 | the decimal text of a number is non-empty digits with no leading zero |
| JsText.DecimalRoundTrip | app/components/PredictionCard.tsx:51 | reading the decimal text back gives the number |
| JsText.IsTruthy | app/components/ChatInterface.tsx:30 | an optional string is truthy when present and not empty, as `address` is in a JavaScript condition |
| ChatInterface.CloseFrom | app/components/ChatInterface.tsx:90 | the lazy `.*?` then `</function>`: the first closing tag reachable without a line terminator, and none exactly when no closing tag is reachable |
| ChatInterface.FindFrom | app/components/ChatInterface.tsx:90 | the leftmost match at or after a position, with the shortest capture; none exactly when no match starts there or later |
| ChatInterface.FindMarker | app/components/ChatInterface.tsx:90-92 | none exactly when the reply has no match; otherwise a match that starts leftmost and ends first |
| ChatInterface.ActionName | app/components/ChatInterface.tsx:92 | `functionMatch[1]`: the text between the tags of the match, possibly empty |
| ChatInterface.StripMarker | app/components/ChatInterface.tsx:94 | the reply with the first match cut out and everything else kept; stated by `MarkerDecomposition` |
| ChatInterface.ParseReply | app/components/ChatInterface.tsx:90-94 | no marker, or the first marker's name with the cut-out, trimmed text; inverted by `ParseBuiltReply` |
| ChatInterface.MarkerDecomposition | app/components/ChatInterface.tsx:90-94 | a reply with a marker is the text before it, `<function>`, the name, `</function>`, and the text after it; stripping keeps exactly the outer parts |
| ChatInterface.MarkerRoundTrip | app/components/ChatInterface.tsx:90-94 | in `before + <function>name</function> + after`, where `before` holds no `<function>` and `name` holds no `</function>` or line terminator, the match is there, the name is captured, and stripping gives `before + after` |
| ChatInterface.NoMatchInBefore | app/components/ChatInterface.tsx:90 | when `before` holds no `<function>`, no match starts inside it, even one that would run into the marker |
| ChatInterface.MarkerMatches | app/components/ChatInterface.tsx:90 | the marker around a name without `</function>` or line terminators matches, and no closing tag starts inside the name |
| ChatInterface.FirstMatch | app/components/ChatInterface.tsx:90 | a match with no match starting before it and no closing tag inside its capture is the one the expression finds |
| ChatInterface.ParseBuiltReply | app/components/ChatInterface.tsx:90-94 | a reply built around one marker is read as that marker's name and the trimmed text around it |
| ChatInterface.NoTagWithoutAngle | app/components/ChatInterface.tsx:90 | text without `<` holds neither tag |
| ChatInterface.AppendedConcat | app/components/ChatInterface.tsx:68 | appending effects appends their messages, in order |
| ChatInterface.ConnectsConcat | app/components/ChatInterface.tsx:41 | `connect` calls add up across concatenated effects |
| ChatInterface.DispatchEffects | app/components/ChatInterface.tsx:38-60 | `handleFunctionCall`: `connect_wallet` calls `connect` and adds the failure notice when it throws; any other name does nothing; stated by `DispatchShape` |
| ChatInterface.ShownEffects | app/components/ChatInterface.tsx:95-97 | the cleaned text as one assistant message, only when non-empty; stated by `ShownShape` |
| ChatInterface.MarkedEffects | app/components/ChatInterface.tsx:93-99 | the shown text followed by the action; stated by `MarkedShape` and `MarkedOrder` |
| ChatInterface.AnswerEffects | app/components/ChatInterface.tsx:89-102 | a reply with a marker gives its marked effects, any other the reply verbatim; stated by `NoMarkerVerbatim` and `MarkedReply`'s users `ConnectIffConnectWallet`, `TextBeforeAction` and `NoEmptyBubbleFromMarker` |
| ChatInterface.ReplyEffects | app/components/ChatInterface.tsx:84-108 | a failed request or an error body gives the apology, a response the answer's effects; stated by `FailureIsOneApology` |
| ChatInterface.NoMarkerVerbatim | app/components/ChatInterface.tsx:100-102 | with no match, the only effect is one assistant message with the reply verbatim, untrimmed |
| ChatInterface.FailureIsOneApology | app/components/ChatInterface.tsx:85-87 | a failed request, a body with `error` or a body without `response` gives exactly one effect: the apology message |
| ChatInterface.DispatchShape | app/components/ChatInterface.tsx:38-60 | `connect_wallet` calls `connect` exactly once and appends only the failure notice, and only when `connect` throws; any other name does nothing |
| ChatInterface.ShownShape | app/components/ChatInterface.tsx:95-97 | the cleaned text is appended as one assistant message when non-empty, and not at all otherwise |
| ChatInterface.MarkedShape | app/components/ChatInterface.tsx:38-99 | the effects of a marked reply call `connect` once exactly for `connect_wallet`; any other name appends only the cleaned text |
| ChatInterface.MarkedOrder | app/components/ChatInterface.tsx:95-99 | in those effects the cleaned text precedes `connect`, `connect` precedes its failure notice, and no assistant message is empty |
| ChatInterface.ConnectIffConnectWallet | app/components/ChatInterface.tsx:91-99 | for a reply with a marker, `connect` runs once exactly when the name is `connect_wallet`; any other name, `''` included, appends nothing beyond the cleaned text |
| ChatInterface.TextBeforeAction | app/components/ChatInterface.tsx:95-99 | the cleaned assistant message precedes the `connect` call, which precedes its failure notice |
| ChatInterface.NoEmptyBubbleFromMarker | app/components/ChatInterface.tsx:94-97 | a reply with a marker never yields an empty assistant message |
| ChatInterface.DisplayWalletCreated | app/components/ChatInterface.tsx:131-133 | a `WALLET_CREATED:` message is shown as the banner and the address, which is cut at its first `:` |
| ChatInterface.CreatedFields | app/components/ChatInterface.tsx:131-133 | the stored `WALLET_CREATED:<address>` splits into `WALLET_CREATED` followed by the address's own `:`-fields |
| ChatInterface.DisplayOther | app/components/ChatInterface.tsx:131-133 | any other content is shown unchanged |
| ChatInterface.Display | app/components/ChatInterface.tsx:131-133 | the shown text of a bubble: the banner and the second `:`-field for `WALLET_CREATED:` content, otherwise the content; stated by `DisplayWalletCreated` and `DisplayOther` |
| ChatInterface.WalletEffects | app/components/ChatInterface.tsx:29-36 | one `WALLET_CREATED:<address>` system message when connected with a truthy address, nothing otherwise; used by `ChatSession.AccountChanged` |
| ChatInterface.ChatSession.constructor | app/components/ChatInterface.tsx:13-36 | an empty transcript and input; not loading; the wallet effect runs once for the initial account |
| ChatInterface.ChatSession.EditInput | app/components/ChatInterface.tsx:150-153 | typing sets `input`, except while loading, when the field is disabled; nothing else changes |
| ChatInterface.ChatSession.AccountChanged | app/components/ChatInterface.tsx:29-36 | when the account pair changes, the transcript gains one `WALLET_CREATED:<address>` system message if connected with a truthy address, and nothing otherwise; input and loading flag are unchanged |
| ChatInterface.ChatSession.Submit | app/components/ChatInterface.tsx:62-82 | a blank input or an outstanding request changes nothing; otherwise exactly one user message with `input.trim()` is appended, `input` becomes `''`, `isLoading` becomes true, and the request carries the message and the account |
| ChatInterface.ChatSession.Say | app/components/ChatInterface.tsx:96-108 | appends exactly one message and nothing else changes |
| ChatInterface.ChatSession.HandleFunctionCall | app/components/ChatInterface.tsx:38-60 | the log grows by exactly the dispatcher's effects |
| ChatInterface.ChatSession.HandleMarked | app/components/ChatInterface.tsx:93-99 | the log grows by the cleaned text, when non-empty, and then by the dispatcher's effects; input, loading flag and account are unchanged |
| ChatInterface.ChatSession.HandleAnswer | app/components/ChatInterface.tsx:89-102 | the log grows by exactly the effects of the reply text, in order: the cleaned text, then the action |
| ChatInterface.ChatSession.Settle | app/components/ChatInterface.tsx:84-111 | the transcript grows by exactly the reply's effects, and `isLoading` ends false on every path |
| ChatInterface.ChatSession.HandleSubmit | app/components/ChatInterface.tsx:62-112 | an accepted submit appends the user message and then the messages of the reply's effects to the transcript, clears the input, ends not loading and sends the account as it was at submit time; a refused one changes nothing; the account is never changed |
| ChatRoute.Post | app/api/chat/route.ts:11-38 | status 200 with `{response}` unchanged exactly when the body parses and the chain answers; otherwise status 500 with `{error: "Internal server error"}` |
| ChatRoute.EnhancedMessage | app/api/chat/route.ts:17-19 | the wallet tag before the message when the address is truthy; stated by `ContextLayout` |
| ChatRoute.ContextMessage | app/api/chat/route.ts:22-24 | the status tag before the enhanced message; stated by `StatusTagIff`, `ContextLayout` and inverted by `ContextRoundTrip` |
| ChatRoute.StatusTagIff | app/api/chat/route.ts:22-24 | the message starts with `[Wallet Status: Connected] ` exactly when connected, and with `[Wallet Status: Not Connected] ` exactly when not |
| ChatRoute.ContextLayout | app/api/chat/route.ts:17-24 | the status tag comes first, then the wallet tag if the address is truthy, then the message, which is always a suffix |
| ChatRoute.TagsIndependent | app/api/chat/route.ts:17-24 | an address with `isConnected` false gives both "Not Connected" and the wallet tag |
| ChatRoute.IndexOf | app/api/chat/route.ts:18 | the first position of a character, or none when it does not occur |
| ChatRoute.ContextRoundTrip | app/api/chat/route.ts:17-24 | the prefix can be parsed back into the connection flag, the truthy address and the original message; this holds when the address has no `]` and, without an address, the message does not itself start with a wallet tag |
| ChatRoute.WalletTagRoundTrip | app/api/chat/route.ts:18 | a wallet tag around an address without `]` reads back as that address and the text after it |
| Contract.LookupFunction | app/utils/contract.ts:13-292 | the result is a function entry of the ABI with that name, and none only when the ABI has no such function |
| Contract.LookupFindsFirst | app/utils/contract.ts:13-292 | a function entry preceded by no other function entry of the same name is the one found |
| Calls.ArgsFitPointwise | app/calls.ts:15-32 | arguments fit parameters exactly when the counts agree and each argument fits its parameter's type |
| Calls.CreatePredictionCall | app/calls.ts:7-16 | the market's address and ABI, `createPrediction`, and the question, the options and the deadline; checked by `CreatePredictionEncodable` |
| Calls.VoteCall | app/calls.ts:18-23 | `vote` with the prediction id and the option; checked by `VoteEncodable` |
| Calls.ResolvePredictionCall | app/calls.ts:25-33 | `resolvePrediction` with the prediction id and the winning option; checked by `ResolvePredictionEncodable` |
| Calls.FunctionEntries | app/utils/contract.ts:14-126 | the ABI's `createPrediction`, `resolvePrediction` and `vote` entries are the ones given |
| Calls.ArgCountsMatchAbi | app/calls.ts:7-33 | each builder's arity is its ABI entry's: 3 for createPrediction, 2 for vote and for resolvePrediction |
| Calls.CreatePredictionEncodable | app/calls.ts:7-16 | the createPrediction descriptor is encodable exactly when the deadline lies in `0 .. 2^256 - 1` |
| Calls.VoteEncodable | app/calls.ts:18-23 | the vote descriptor is encodable exactly when both numbers lie in `0 .. 2^256 - 1` |
| Calls.ResolvePredictionEncodable | app/calls.ts:25-33 | the resolvePrediction descriptor is encodable exactly when both numbers lie in `0 .. 2^256 - 1` |
| PredictionCard.FoldIsSum | app/components/PredictionCard.tsx:31 | the left fold of `reduce` started at `acc` is `acc` plus the sum |
| PredictionCard.TotalIsSum | app/components/PredictionCard.tsx:31 | `totalVotes` is the sum of all entries, and no entry exceeds it |
| PredictionCard.SumAppend | app/components/PredictionCard.tsx:31 | the total of two tallies one after the other is the sum of their totals |
| PredictionCard.TotalVotes | app/components/PredictionCard.tsx:31 | `votes.reduce((acc, curr) => acc + Number(curr), 0)`; equal to the sum by `TotalIsSum` |
| PredictionCard.RoundHalfUp | app/components/PredictionCard.tsx:36 | `Math.round(n/d)`: the result is within one half of `n/d`, and halves round up |
| PredictionCard.Percentage | app/components/PredictionCard.tsx:34-41 | `getPercentage(votes[i])`; stated by `PercentageCases`, `PercentageOfEntry` and `TwoPercentagesSum` |
| PredictionCard.PercentageCases | app/components/PredictionCard.tsx:34-41 | 0 when there are no votes; NaN when the entry is missing but there are votes; every number produced is at most 100 |
| PredictionCard.PercentageOfEntry | app/components/PredictionCard.tsx:34-37 | an existing entry gets the integer nearest to `100 * v / total`, halves rounded up, and at most 100 |
| PredictionCard.TwoPercentagesSum | app/components/PredictionCard.tsx:40-41 | with two options and some votes, yes and no add up to 100, or to 101 exactly when `200 * yes` leaves the remainder `total` modulo `2 * total`, i.e. both shares end in exactly one half |
| PredictionCard.RoundedPairSum | app/components/PredictionCard.tsx:36 | two shares of `100 * d`, each rounded half up against `d`, add up to 100, or to 101 exactly when the first lies halfway between two integers |
| PredictionCard.ModUnique | app/components/PredictionCard.tsx:36 | a remainder in range that writes `n` as `D * q + r` is `n % D` |
| PredictionCard.HalfRemainder | app/components/PredictionCard.tsx:36 | `2x + d` is a multiple of `2d` exactly when `2x` leaves the remainder `d`, which is when `x / d` ends in one half |
| PredictionCard.GreenIffHalf | app/components/PredictionCard.tsx:98-107 | the ring is green exactly when there are votes and the yes share is at least 49.5%, the share that rounds to 50 |
| PredictionCard.RingTone | app/components/PredictionCard.tsx:98-107 | green when the yes percentage is a number of at least 50; stated by `GreenIffHalf` |
| PredictionCard.BarWidth | app/components/PredictionCard.tsx:124-138 | `${p \|\| 0}%`: the percentage, or 0 for NaN |
| PredictionCard.IsExpired | app/components/PredictionCard.tsx:39 | `Date.now() / 1000 > deadline` on whole milliseconds; stated by `IsExpiredExact` |
| PredictionCard.IsExpiredExact | app/components/PredictionCard.tsx:39 | the integer expiry test is the strict comparison `now / 1000 > deadline` |
| PredictionCard.CeilDiv | app/components/PredictionCard.tsx:47-53 | `Math.ceil(a / b)`: the least integer `r` with `a <= b * r` |
| PredictionCard.FutureDeadlineShowsDays | app/components/PredictionCard.tsx:44-54 | a future deadline that a `Date` can hold, and only one, shows the day label with at least 1 day, the days rounded up; the hours label never shows |
| PredictionCard.TimeLeftOf | app/components/PredictionCard.tsx:44-59 | the label chain: days, hours, "Resolved" or "Expired", with NaN differences for a deadline outside the `Date` range falling through to the last two; stated by `FutureDeadlineShowsDays` and `EndLabels` |
| PredictionCard.LabelText | app/components/PredictionCard.tsx:50-58 | the label's text, with the plural `s` above one; stated by `DayLabelText` |
| PredictionCard.EndLabels | app/components/PredictionCard.tsx:44-59 | "Resolved" shows exactly when resolved with the deadline not in the future or outside the `Date` range; "Expired" exactly when unresolved in the same cases |
| PredictionCard.LabelFlagMismatch | app/components/PredictionCard.tsx:39-59 | the label says time is up while the card is not expired exactly when the deadline is not before the expiry reading and either not after the label reading or outside the `Date` range; with one reading and a representable deadline, exactly at the deadline millisecond |
| PredictionCard.FarDeadlineLooksExpired | app/components/PredictionCard.tsx:39-59 | an unresolved prediction with a deadline ten trillion seconds ahead is labelled "Expired" yet still shows the vote buttons |
| PredictionCard.DayLabelText | app/components/PredictionCard.tsx:51 | the label reads "N day left" for one day and "N days left" otherwise |
| PredictionCard.FooterChoice | app/components/PredictionCard.tsx:167-186 | vote buttons exactly when unresolved and not expired, each a vote call for this prediction with option 0 or 1; otherwise the banner, which reads `Resolved: <winner> won` (`undefined` out of range) or "Waiting for resolution" |
| PredictionCard.OptionText | app/components/PredictionCard.tsx:186 | `options[winningOption]` in a template: the option, or `undefined` out of range |
| PredictionCard.BannerText | app/components/PredictionCard.tsx:186 | `Resolved: <winner> won` once resolved, "Waiting for resolution" otherwise; stated by `FooterChoice` |
| PredictionCard.FooterOf | app/components/PredictionCard.tsx:167-188 | the vote buttons while open at the expiry reading, otherwise the banner; stated by `FooterChoice` |
| PredictionCard.View | app/components/PredictionCard.tsx:31-59 | the card's derived values, the flag and footer from the `Date.now()` reading and the label from the `new Date()` reading; stated by `NoVotesView` and the lemmas on its parts |
| PredictionCard.NoVotesView | app/components/PredictionCard.tsx:34-41 | a card without votes shows 0% twice, in red |
| PredictionsDashboard.FilterByResolved | app/components/PredictionsDashboard.tsx:60-61 | every kept prediction has the flag, and a prediction is kept exactly when it is in the list with the flag |
| PredictionsDashboard.ActivePredictions | app/components/PredictionsDashboard.tsx:60 | the unresolved predictions in order; stated by `FilterByResolved` and `PartitionIsExact` |
| PredictionsDashboard.ClosedPredictions | app/components/PredictionsDashboard.tsx:61 | the resolved predictions in order; stated by `FilterByResolved` and `PartitionIsExact` |
| PredictionsDashboard.FilterAppend | app/components/PredictionsDashboard.tsx:60-61 | filtering distributes over concatenation, so the original order is kept |
| PredictionsDashboard.PartitionIsExact | app/components/PredictionsDashboard.tsx:60-61 | the active and the closed list together are a rearrangement of all predictions, and their lengths add up |
| PredictionsDashboard.FiltersCover | app/components/PredictionsDashboard.tsx:60-61 | the unresolved and the resolved filter together hold every prediction exactly as often as the list does |
| PredictionsDashboard.FetchAll | app/components/PredictionsDashboard.tsx:31-54 | ids `0 .. count - 1` are requested in order; the result exists exactly when every lookup succeeds, and then holds the details of id `i` at index `i` |
| PredictionsDashboard.Dashboard.constructor | app/components/PredictionsDashboard.tsx:21-22 | no predictions and not loading |
| PredictionsDashboard.Dashboard.StartFetch | app/components/PredictionsDashboard.tsx:27-29 | with a missing or zero count nothing changes; otherwise `isLoading` becomes true |
| PredictionsDashboard.Dashboard.FinishFetch | app/components/PredictionsDashboard.tsx:36-41 | a complete result replaces the list and a failure keeps it; `isLoading` ends false |
| PredictionsDashboard.Dashboard.FetchPredictions | app/components/PredictionsDashboard.tsx:26-42 | with no usable count nothing changes; otherwise ids `0 .. count - 1` are requested, the list holds the details of id `i` at index `i` when all succeed and stays unchanged otherwise, and `isLoading` ends false |
| PredictionsDashboard.Dashboard.RefreshPredictions | app/components/PredictionsDashboard.tsx:47-57 | the same fetch without touching `isLoading`; a failed lookup leaves the list unchanged |
| PredictionForm.SecondsOf | app/components/PredictionForm.tsx:58 | `Math.floor(ms / 1000)`: the whole second that contains the instant |
| PredictionForm.DefaultDeadline | app/components/PredictionForm.tsx:18 | the current second plus 86400; stated by `DefaultDeadlineMeaning` |
| PredictionForm.DefaultDeadlineMeaning | app/components/PredictionForm.tsx:18 | the default deadline is one day, 86400 seconds, after the current second |
| PredictionForm.FormState.constructor | app/components/PredictionForm.tsx:15-19 | question `''`, options `["Yes", "No"]`, deadline `floor(now / 1000) + 86400` |
| PredictionForm.FormState.EditQuestion | app/components/PredictionForm.tsx:32-37 | only the question changes, and nothing changes while confirming, when the box is disabled; the options stay the defaults |
| PredictionForm.FormState.EditDeadline | app/components/PredictionForm.tsx:54-63 | the deadline becomes `floor(ms / 1000)` of the chosen date, except while confirming, when the picker is disabled; question and options are unchanged |
| PredictionForm.FormState.Complete | app/components/PredictionForm.tsx:79-84 | the form is reset to its initial shape with a fresh deadline |
| PredictionForm.FormState.Call | app/components/PredictionForm.tsx:72-76 | the transaction carries `createPrediction` with the question, the options and the deadline, in that order |
| PredictionForm.FormState.CallEncodable | app/components/PredictionForm.tsx:72-76 | the form's call is encodable exactly when its deadline lies in `0 .. 2^256 - 1` |
| Layout.ToggleChatState | app/components/Layout.tsx:18-21 | flips `showChat`; opening chat closes the other popup; closing chat leaves it unchanged |
| Layout.ToggleCreateState | app/components/Layout.tsx:23-26 | flips `showCreatePrediction`; opening it closes chat; closing it leaves chat unchanged |
| Layout.RunExclusive | app/components/Layout.tsx:15-26 | from a state with at most one popup open, in particular the initial one, no sequence of clicks opens both |
| Layout.DoubleToggle | app/components/Layout.tsx:18-26 | two clicks on the same button give its popup its earlier state back |
| Layout.Popups.constructor | app/components/Layout.tsx:15-16 | both popups are closed |
| Layout.Popups.ToggleChat | app/components/Layout.tsx:18-21 | the new flags are `ToggleChatState` of the old ones, so at most one popup is open |
| Layout.Popups.ToggleCreatePrediction | app/components/Layout.tsx:23-26 | the new flags are `ToggleCreateState` of the old ones, so at most one popup is open |
| Layout.Popups.CompleteForm | app/components/Layout.tsx:94 | on the form's success the form resets first, then the create popup is toggled, so an open form closes and chat stays as it was |
| WalletIdentity.ColorSlices | app/components/WalletIdentity.tsx:11-16 | `color1` is `#` plus the characters at positions 2 to 7, clamped to the length; `color2` is `#` plus the last six, or the whole string if it is shorter |
| WalletIdentity.ColorsOfLongAddress | app/components/WalletIdentity.tsx:11-16 | for an address of at least 8 characters, both colours have 7 characters, start with `#`, and carry the six after `0x` and the last six |
| WalletIdentity.GradientColors | app/components/WalletIdentity.tsx:11-16 | `#` before `slice(2, 8)` and `#` before `slice(-6)` of the address; stated by `ColorSlices` and `ColorsOfLongAddress` |
| WalletIdentity.View | app/components/WalletIdentity.tsx:26-34 | only the connect button when not connected or without an address; otherwise the chip, with the colours of that address |
| WalletIdentity.WalletMenu.constructor | app/components/WalletIdentity.tsx:24 | the menu starts closed |
| WalletIdentity.WalletMenu.ChipClicked | app/components/WalletIdentity.tsx:41 | clicking the chip toggles `showPopup` |
| WalletIdentity.WalletMenu.BackdropClicked | app/components/WalletIdentity.tsx:66 | clicking the backdrop sets `showPopup` to false |
| WalletIdentity.WalletMenu.DisconnectClicked | app/components/WalletIdentity.tsx:113-116 | disconnecting calls `disconnect` once and then sets `showPopup` to false |
| EndToEnd.SureConnectWallet | app/components/ChatInterface.tsx:90-99 | "Sure! <function>connect_wallet</function>" shows "Sure!" and then calls `connect` |
| EndToEnd.SureParses | app/components/ChatInterface.tsx:90-94 | that reply is read as the name `connect_wallet` with the cleaned text "Sure!" |
| EndToEnd.OnlyMarker | app/components/ChatInterface.tsx:90-99 | a reply that is only the marker shows no bubble and calls `connect` |
| EndToEnd.UnknownAction | app/components/ChatInterface.tsx:52-99 | a reply that is only an unknown marker has no effect at all |
| EndToEnd.RouteReplyInWidget | app/api/chat/route.ts:30-36 | a route failure reaches the widget as the one apology; a route answer is handled as its text |
| EndToEnd.FreshPredictionIsOpen | app/components/PredictionForm.tsx:18 | a prediction with the form's default deadline shows "1 day left", is not expired, and shows the vote buttons, for any clock reading up to a day before the end of the `Date` range |
| EndToEnd.DefaultCallEncodable | app/components/PredictionForm.tsx:72-76 | the form's default call is encodable for any clock reading from 1970 up to about the year 10889 |

## Left out

- Network and I/O: `fetch`, `req.json()`, `NextResponse` and the JSON encoding. The chat chain is a parameter (`chain`), and so is the parsed body the widget sees (`data`). A body that does not parse is `None`.
- The LangChain/Groq chain, its lazy singleton and its prompt text (`app/utils/langchain.ts`) are not part of this model; the chain enters only as a parameter.
- The audio route, `app/components/TransactionHandler.tsx`, the UI kit, `GroqBadge`, the page shells and `app/prediction/[id]/page.tsx` are not part of this model. They hold presentation, file I/O or one foreign call each.
- Rendering is left out: JSX, scrolling, tooltips, the tabs and their spinner text, CSS class names, and the SVG dash arithmetic of the ring. The model keeps only the banner's resolved styling and the ring colour.
- The wallet's `connect` and `disconnect` are abstract actions that leave a trace in ghost state. Whether `connect` throws synchronously is a parameter. The account it produces later arrives through `AccountChanged`.
- React scheduling: each `setState` is a sequential assignment. `HandleSubmit` assumes no other event arrives between sending the request and handling the reply. `Submit` and `Settle` are separate members, so interleavings can still be composed by hand.
- Floating point: votes are naturals, and percentages are computed in exact arithmetic. `Number(bigint)` loses precision above 2^53 and `(v / total) * 100` can round differently at exact halves; neither is modelled.
- Clock and dates: `Date.now()` is a parameter in milliseconds. In the form, the `datetime-local` text, `toISOString` and an invalid date (`NaN`) are not modelled; `EditDeadline` receives the chosen instant as an integer. The card's invalid `new Date` for a deadline outside the `Date` range is modelled.
- The balance text (`formatEther` and `toFixed(4)`) and the confirmation hash preview of the form are not modelled.
- The inside of `getPredictionDetails` (two contract reads) is a parameter, `details`. A lookup that throws is `None`.
- Strings are sequences of Unicode scalar values, whereas JavaScript strings are UTF-16 code units. `slice`, `split` and `trim` therefore agree with the source only for text without astral characters, which includes hexadecimal addresses.
- JSON fields of a type other than string (`message`, `walletAddress`, and the reply's `response`) and other than boolean (`isConnected`) are not modelled. A non-string `response` makes `data.response.match` throw, which the widget turns into the apology; `Answer(Option<string>)` cannot express that case.
