# ts-polls in Dafny

ts-polls is a small polling application. An Express server keeps the polls in
memory. Each poll has a name, an end time in milliseconds, a list of options
and a map from voter to vote. The server has four routes: add a poll, vote in
a poll, get one poll, and list all polls. The list puts ongoing polls first,
soonest-ending first, then completed polls, most recently ended first. A React
client lists the polls, shows one poll (a vote form while it is ongoing, the
percentages once it has ended) and creates new polls. The client checks every
JSON answer with hand-written validators before it uses it.

This project models:

- `routes.dfy` (module `Routes`): the server's poll store. The store is a class
  holding a `map<string, Poll>`, and each route is a method that runs the
  route's checks in the route's order. The clock is a `now` parameter. Errors
  are a `RouteError` datatype whose `Message()` is the text the route sends
  with status 400. `listPolls` is specified as a sorted permutation by the
  comparator's rank. Lemmas show what that order means while end times stay
  below 5·10^14.
- `json.dfy` (module `Json`): JavaScript values as they arrive from
  `JSON.parse`, property access, and the `${…}` rendering used in the
  messages.
- `js_string.dfy` (module `JsString`): `trim` and `split`, with `split`'s
  round trip through `join`.
- `record.dfy` (module `Record`): `isRecord` and `isStringRecord`, including
  arrays, whose entries are keyed by their index as text.
- `client_poll.dfy` (module `ClientPoll`): `parsePoll` and its inverse,
  the JSON of a poll.
- `poll_list.dfy` (module `PollList`): the ongoing/completed split of the poll
  list and the all-or-nothing loading of `/api/list` answers.
- `poll_details.dfy` (module `PollDetails`): the completed test, the tally of
  a completed poll, and the checks before a vote is sent.
- `new_poll.dfy` (module `NewPoll`): the form edits and the checks before a
  new poll is sent.
- `interop.dfy` (module `Interop`): what the client makes of the server's
  answers, and where the two sides disagree about the end of a poll.

Where the intended design and the code disagree, the model follows the code:

- The server accepts a poll with fewer than two options, with options that
  are not strings, and with an empty name.
- The server records a vote that is not one of the options.
- The server accepts an empty voter and an empty vote: `voteInPoll` checks
  only that both are strings.
- At the instant `now == endTime`, three rules apply. The comparator ranks
  the poll as ongoing. `voteInPoll` refuses votes. The client shows the poll
  as completed.
- A poll with one option is stored by the server. The client's `parsePoll`
  rejects it, and one such poll keeps the whole list from loading
  (`Interop.ListParses`).

`addPoll` tests `Math.round(minutes) !== minutes`. The model tests the floor
instead. For numbers of at least one, both tests accept exactly the whole
numbers.

## Model

| member | source | states |
|---|---|---|
| Routes.PollStore.constructor | server/src/routes.ts:21 | The store starts empty and every poll is stored under its own name. |
| Routes.PollStore.ResetForTesting | server/src/routes.ts:25-27 | The store is empty afterwards. |
| Routes.PollStore.AdvanceTimeForTesting | server/src/routes.ts:30-34 | Every stored poll's end time drops by exactly `ms`. The same names stay stored and no other field changes. |
| Routes.AdvanceIsClockShift | server/src/routes.ts:30-44 | Lowering two end times by `ms` orders them as letting `ms` more time pass would. This holds while the end times stay below 5·10^14. It also holds for the vote window. |
| Routes.CompareByLifecycle | server/src/routes.ts:39-44 | With end times below 5·10^14, an ongoing poll compares before a completed one. Two ongoing polls compare by end time, ascending. Two completed polls compare by end time, descending. |
| Routes.HorizonBoundNeeded | server/src/routes.ts:41-43 | Without the bound, an ongoing poll can rank after a completed one. The lemma gives concrete end times that show it. |
| Routes.InsertByRank | server/src/routes.ts:55 | Inserting a poll into a rank-sorted list keeps it sorted. The result is the old list plus that poll, as a multiset. |
| Routes.SortByRank | server/src/routes.ts:55 | The result is sorted by rank and is a permutation of its input. |
| Routes.PollStore.ListPolls | server/src/routes.ts:53-57 | The list has one entry per stored name and is a permutation of the stored polls, sorted ascending by rank. It does not change the store. |
| Routes.ListOrder | server/src/routes_test.ts:271-358 | In a rank-sorted list with end times below 5·10^14, every ongoing poll comes before every completed one. Ongoing polls are in ascending end-time order. Completed polls are in descending end-time order. |
| Routes.PollStore.AddPoll | server/src/routes.ts:65-103 | Checks run in order: name is a string, minutes is a number, minutes is a whole number ≥ 1, options is an array, name is new. Each failure gives its own error and leaves the store unchanged. On success the poll ends `minutes`·60000 ms after `now`, keeps the given options and has no votes. It is stored under its name, every other entry stays, and the stored poll is returned. |
| Routes.AddErrorMessages | server/src/routes_test.ts:8-66 | The texts addPoll sends for a missing name, for minutes `undefined`, `0` and `3.5`, and for options `3` and `"hello"`. |
| Routes.PollStore.VoteInPoll | server/src/routes.ts:111-144 | Checks run in order: voter, name, the poll exists, `now < endTime`, vote is a string. An ended poll therefore reports that it ended, whatever the vote. A failure leaves the store unchanged. A success sets `votes[voter]` to the vote, overwriting any earlier vote, and changes nothing else. Any string is accepted, the voter `__proto__` aside (see below). |
| Routes.VoteValueMessages | server/src/routes_test.ts:140-157 | The texts voteInPoll sends for the votes `undefined` and `-1`. |
| Routes.PollStore.GetPoll | server/src/routes.ts:152-166 | Returns the poll stored under the name, or the error for a missing or non-string name or an unknown poll. It never changes the store. |
| Routes.CreateGetList | server/src/routes_test.ts:68-89 | A poll added under a new name is returned by getPoll unchanged and appears in the list. The list grows by one. |
| Routes.ValuesOfNamedPolls | server/src/routes.ts:21 | When every poll is stored under its own name, there are as many stored polls as names. |
| Json.NatText | client/src/record.ts:17 | The key of an array entry: a string of decimal digits whose value is the index, one digit exactly for indexes below ten. |
| Json.NatTextInjective | client/src/record.ts:17 | Different indexes give different keys. |
| JsString.TrimStart | client/src/NewPoll.tsx:77 | Removes only white space from the front and stops at the first other character. |
| JsString.TrimEnd | client/src/NewPoll.tsx:77 | Removes only white space from the end and stops at the last other character. |
| JsString.TrimEmptyIffBlank | client/src/PollDetails.tsx:198-199 | A string trims to nothing exactly when every character is white space. |
| JsString.Count | client/src/NewPoll.tsx:91 | The count of a character is zero exactly when the character does not occur. |
| JsString.Split | client/src/NewPoll.tsx:91 | Splitting gives one piece more than there are separators, and no piece holds a separator. |
| JsString.JoinSplit | client/src/NewPoll.tsx:91 | Joining the pieces with the separator gives back the text. |
| Record.Entries | client/src/record.ts:17 | An object's entries are its fields. An array's entries are its elements, keyed by index text, and have no other keys. |
| Record.IndexEntries | client/src/record.ts:17 | Each array element sits under the text of its index, and there are no other keys. |
| Record.RecordsAreObjects | client/src/record.ts:6-8 | A value is a record exactly when it is an object or an array. Null, undefined, booleans, numbers and strings are not. |
| Record.StringRecordShapes | client/src/record.ts:15-23 | A string record is a record. It is exactly an object whose fields are all strings or an array whose elements are all strings. The empty object is one. |
| Record.NonStringEntryRejects | client/src/record.ts:18-19 | One non-string value, wherever it sits in an object or an array, makes the value not a string record. |
| ClientPoll.VotesOf | client/src/poll.ts:41-48 | The votes of a string record have its keys, and each vote is that entry's string. |
| ClientPoll.ParsePoll | client/src/poll.ts:20-50 | The result is undefined for a non-record, a non-string name, an end time that is not a number or is negative, options that are not an array of at least two, and votes that are not a string record. A value that passes all five checks is accepted, whatever the shape of its votes (object or array), and the result holds its four fields. |
| ClientPoll.ParseToJson | client/src/poll.ts:20-50 | Parsing the JSON of a poll gives the poll back exactly when its end time is not negative and it has two options or more. Otherwise the result is undefined. |
| ClientPoll.ParseIdempotent | client/src/poll.ts:46-49 | A parsed poll survives another round through JSON unchanged. |
| ClientPoll.ExtraFieldsIgnored | client/src/poll.ts:46-49 | Fields other than the four do not change the result. |
| PollList.Listed | client/src/PollList.tsx:51-67 | The ongoing list holds only polls with `endTime > now`, and the completed list only the others. |
| PollList.PartitionCovers | client/src/PollList.tsx:51-67 | Every poll lands in exactly one of the two lists, so the lengths add up to the input length. |
| PollList.ListedKeepsOrder | client/src/PollList.tsx:51-67 | The split of a concatenation is the concatenation of the splits, so each list keeps the server's order. |
| PollList.RenderPolls | client/src/PollList.tsx:45-78 | The loop builds exactly the ongoing list and the completed list. A poll whose end time equals `now` is completed. |
| PollList.ParseAll | client/src/PollList.tsx:103-109 | The result is none exactly when some element fails parsePoll. Otherwise it holds every parsed element, in order. |
| PollList.DoListJson | client/src/PollList.tsx:92-111 | Data that is not a record, or whose `polls` is not an array, leaves the state unchanged. So does a list with one poll that does not parse. Otherwise the state holds all parsed polls in order and the new time. |
| PollDetails.Percent | client/src/PollDetails.tsx:68 | The exact percentage of `count` in `total`, rounded half up. It is at most 100 when `count <= total`. |
| PollDetails.CountVotes | client/src/PollDetails.tsx:51-63 | The counts have a key for exactly the values some voter chose. Each count is the number of voters who chose that value. |
| PollDetails.Tally | client/src/PollDetails.tsx:51-69 | The rows are exactly the values some voter chose. A declared option nobody chose gets no row, and a chosen value outside the options gets one. Each row holds that value's share of all voters, rounded half up. Without votes there are no rows. |
| PollDetails.SumOverCounts | client/src/PollDetails.tsx:54-66 | Summing the counts of a set of values counts the voters who chose one of them. |
| PollDetails.CountsSumToVoters | client/src/PollDetails.tsx:54-66 | The counts of all rows add up to the number of voters. |
| PollDetails.VoteClick | client/src/PollDetails.tsx:193-212 | A blank voter or vote gives "a required field is missing.". A vote that is not one of the options gives "vote is not a valid option". Otherwise the untrimmed name, voter and vote are sent. |
| NewPoll.Edit | client/src/NewPoll.tsx:63-73 | Each field edit sets that field, leaves the others and clears the error. |
| NewPoll.StartClick | client/src/NewPoll.tsx:75-100 | Checks run in order: required fields, then minutes, then options. A blank name or an empty options text gives "a required field is missing.". Minutes that are NaN, below 1 or fractional give "minutes is not a positive integer". Text without a newline gives "poll must contain at least two options". Otherwise the body holds the untrimmed name and the parsed minutes. Its options are the newline count plus one lines, empty lines included, and they join back to the text. |
| NewPoll.EmptyLinesKept | client/src/NewPoll.tsx:91 | Empty lines become empty options, and a lone newline gives two empty options. |
| Interop.PollJsonParses | server/src/routes.ts:95-102 | A stored poll, sent as JSON, parses on the client with the same fields exactly when its end time is not negative and it has two options or more. |
| Interop.ListParses | server/src/routes.ts:53-57 | The JSON of a listed store parses exactly when every poll in it is loadable. It then gives the same polls in the same order. |
| Interop.LoadServerList | client/src/PollList.tsx:92-111 | Fed with the listPolls answer, the client shows every listed poll in the server's order. If any poll cannot be parsed, it keeps its old state. |
| Interop.ClientViewsAgree | client/src/PollDetails.tsx:38-42 | The details page shows a loaded poll as ongoing exactly when the list does. Both match the server's vote window. |
| Interop.EndInstant | server/src/routes.ts:41 | The comparator treats a poll as ongoing in one more case than the vote window: the end instant itself. There the poll ranks as ongoing, votes are refused and the client shows it as completed. |
| Interop.FormPollLoads | client/src/NewPoll.tsx:98-100 | The body the form sends passes every store-independent check of addPoll. The poll made from it at a time that is not negative loads on the client. |
| Interop.SentArgs | client/src/NewPoll.tsx:84-95 | A body the form sends has whole minutes of at least one and two options or more. |
| Interop.AddBodyLoads | server/src/routes.ts:65-102 | A body with whole minutes of at least one and two options or more passes addPoll's store-independent checks. The poll made from it at a time that is not negative loads on the client. |
| Interop.VoteBodyChecked | client/src/PollDetails.tsx:211-212 | The vote body the client sends passes voteInPoll's voter and name checks. Its vote is one of the poll's options, a check only the client makes. |

## Left out

- HTTP and Express: routing, body parsing, status codes and the wire format. Results are a `Result` of a poll or a `RouteError`. The response bodies `{poll: …}` and `{polls: […]}` are modelled only as the JSON the client parses.
- `Date.now()` is a parameter. `listPolls` reads the clock once per comparison, so the model takes one instant for the whole sort.
- The sorting algorithm of `Array.prototype.sort`, its stability, and the insertion order of `Map`. The list is specified only as a sorted permutation, so the order of polls with equal rank is not fixed.
- Aliasing: the server returns the stored poll object, and later votes and time shifts change it in place. The model stores and returns poll values.
- Floating point: NaN, infinities and the rounding of large numbers. Numbers in the error messages are written out in full; JavaScript writes whole numbers of 10^21 and more, and very small or long fractions, in exponent or shortened form.
- `parseFloat` in the new-poll form. Its result is a parameter: none for NaN, otherwise the number.
- The fractional-minute texts ("minutes remaining", "closed … ago") and all JSX rendering, `setState`, `fetch`, the response handlers and `console` logging.
- The order of the tally rows. The votes are a map, and row order follows JavaScript key order, which is not modelled.
- PollDetails.Percent: rounds the exact quotient `100·count/total`. JavaScript rounds the floating-point value of `(count / total) * 100`, which can fall just below a half: for 23 of 40 voters it is 57.49999999999999, so the page shows 57% where the model gives 58.
- Routes.PollStore.VoteInPoll: does not model the voter `__proto__`. The source writes the vote into a plain object, where that key hits the inherited `__proto__` setter, which ignores a string. The vote is dropped and the unchanged poll is sent with success. The model records it like any other voter.
- PollDetails.VoteClick: requires a loaded poll. The source throws on a missing poll, but its vote button is only rendered once the poll has loaded.
- PollDetails.VoteClick: does not model the loose `==` in the option check. It matches a string option equal to the vote only, while JavaScript also matches any non-string option that `==` converts to the vote: `true == "1"`, `["a"] == "a"`, `{} == "[object Object]"`, and numbers whose text differs from the vote, such as `3 == "3.0"` and `3 == " 3"`.
- The client entry point, the page switching in `App.tsx`, and the server's `index.ts` are not part of this model.
- Request bodies come from `JSON.parse`, so they never hold `undefined` inside an array. The model's values allow it, and such a value is carried through as it is.
