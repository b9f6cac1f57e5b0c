# Group travel planner: server handlers and login form

This project models the core of a group-travel planner. Users form groups
for a trip, state their travel preferences, and vote and comment on
itineraries. The planner can also ask a text-generation service for an
itinerary built from the preferences of a group's members.

The model covers the following parts:

- **Store.** The relational store the Express handlers reach through the
  Prisma client. It is one class, `Store.Db`, whose tables are maps, a
  set of (userId, groupId) memberships and a sequence of comments. Its
  invariant `Valid` says three things: emails are unique, every group's
  creator is one of its members, and every stored preference record has an
  activity level. Every handler preserves it.
- **Group handlers** (`GroupController`): create, update and delete
  groups, and add or remove members. The creator joins with the group, a
  duplicate membership is refused, and the creator can never be removed.
- **User handlers** (`UserController`): create, update and delete users,
  and read or upsert preferences. The first preferences write fills in
  defaults. Later writes merge under JavaScript's truthiness rules.
- **Itinerary handlers** (`ItineraryController`): create, update and
  delete itineraries. A vote is an upsert that overwrites and never adds
  up. Comments are append-only. Generation has three guards (required
  fields, the group exists, some member has preferences), then the
  preference filter and the data the prompt is built from.
- **Prompt composer** (`PromptComposer`): the string builder
  `constructItineraryPrompt`. It is written as the loop of appends the
  source uses and proved equal to a reference `Prompt` function. It emits
  a header, then one line per member that lists only the fields the
  member set, in a fixed order, then the fixed instructions and JSON
  template.
- **Text** (`Text`): `Array.join` and the decimal rendering of numbers in
  template literals. Each rendering is proved to round-trip.
- **Login form** (`Login`): `validateForm`, including the
  `/\S+@\S+\.\S+/` test and the UTF-16 `length` of the password, and the
  demo-credential gate of `handleSubmit`.

Request-body fields are `Option` values, where `None` is `undefined`.
JavaScript truthiness is written out in `Common`: a string is truthy when
non-empty, a number when non-zero, and an array always. Each handler
returns the HTTP status it would send and changes only the tables its
`modifies` clause names. Its postconditions give the status and the new
table contents for every branch.

## Model

| member | source | states |
|---|---|---|
| Text.Join | server/src/controllers/itineraryController.ts:436 | `join(', ')` of no elements is empty, and every character of the result comes from the separator or from one of the elements |
| Text.NatToString | server/src/controllers/itineraryController.ts:427 | The group size in the header is rendered as a non-empty run of decimal digits with no leading zero |
| Text.IntToString | server/src/controllers/itineraryController.ts:440 | The budget is rendered as decimal digits with a leading '-' exactly when it is negative |
| Text.ParseNatToString | server/src/controllers/itineraryController.ts:427 | Reading the rendered group size back gives the same number, so the header states the size exactly |
| Text.ParseIntToString | server/src/controllers/itineraryController.ts:440 | Reading the rendered budget back, sign included, gives the same number |
| PromptComposer.Fragment | server/src/controllers/itineraryController.ts:435-461 | Each field's text: its label, then the list joined by ", " or the value, then ". " (the notes have no trailing ". ") |
| PromptComposer.Header | server/src/controllers/itineraryController.ts:427-429 | The first line with group size, destination and date range, a blank line, and the members heading |
| PromptComposer.Prompt | server/src/controllers/itineraryController.ts:424-509 | The reference prompt: header, member lines, instructions, and the JSON template with the destination |
| PromptComposer.ShownFields | server/src/controllers/itineraryController.ts:435-461 | A field is described exactly when it is one of the fields tested and the member set it (non-empty array, non-zero budget, non-empty string), and the described fields keep the fixed order |
| PromptComposer.DescribeShownIsParts | server/src/controllers/itineraryController.ts:435-461 | Describing only the set fields, in order, gives the same text as testing every field in turn and appending the fragment of each one that is set |
| PromptComposer.PartsStep | server/src/controllers/itineraryController.ts:435-461 | Each further field test extends the text of the tests made so far by that field's fragment or by nothing |
| PromptComposer.LineBody | server/src/controllers/itineraryController.ts:435-461 | The seven tests in source order (travel style, budget, must-haves, avoid list, food, activity level, notes) together append exactly the description of the fields the member set |
| PromptComposer.AppendMemberLine | server/src/controllers/itineraryController.ts:431-464 | One pass of the `forEach` callback appends exactly that member's line: "- name: ", the set fields in order, then a line break |
| PromptComposer.ConstructItineraryPrompt | server/src/controllers/itineraryController.ts:424-509 | The appended string equals the reference prompt: the header with group size, destination and date range, one line per member in list order, the instructions, and the JSON template with the destination filled in |
| PromptComposer.JoinNoNewline | server/src/controllers/itineraryController.ts:436 | Joining strings that have no line break with ", " creates none |
| PromptComposer.FragmentNoNewline | server/src/controllers/itineraryController.ts:435-461 | No field's text adds a line break when the member's own strings hold none: the labels have none, joins add only ", ", and a budget renders as digits and a sign |
| PromptComposer.DescribeNoNewline | server/src/controllers/itineraryController.ts:435-461 | A member's field descriptions hold no line break when the member's own strings hold none |
| PromptComposer.MemberLineIsOneLine | server/src/controllers/itineraryController.ts:433-463 | A member's line starts with "- name: ", ends with its line break and holds no other line break |
| PromptComposer.MemberLinesCount | server/src/controllers/itineraryController.ts:431-464 | The member section has exactly as many line breaks as there are members, so each member contributes one line |
| Store.Db.Valid | server/src/controllers/groupController.ts:96-109 | The store invariant every handler keeps: a group's creator is among its members (they join as the group is created), beside unique emails and an activity level on every preference record |
| Store.FreshId | server/src/controllers/userController.ts:62-67 | A created row gets an id that is non-empty and used by no existing row |
| UserController.CreateUser | server/src/controllers/userController.ts:42-74 | 400 without a truthy name and email; 400 and no new row when the email is already used; otherwise 201 and exactly one new user under a fresh id |
| UserController.UpdateUser | server/src/controllers/userController.ts:77-105 | 404 for a missing id; 500 and no change when the new email belongs to another user; otherwise 200, name and email replaced only by truthy values, and every other user unchanged |
| UserController.DeleteUser | server/src/controllers/userController.ts:108-130 | 404 for a missing id; otherwise 204 and only that user row removed |
| UserController.GetUserPreferences | server/src/controllers/userController.ts:134-150 | 404 when the user has no preference record; otherwise 200 with that record |
| UserController.NewPreferences | server/src/controllers/userController.ts:199-209 | A first write takes each list as given or empty when absent, the budget when non-zero or else 0, the activity level when non-empty or else "medium", and the notes exactly as given |
| UserController.MergePreferences | server/src/controllers/userController.ts:185-195 | A list that is given replaces the stored one, even when empty, and an absent one keeps it; a truthy budget or activity level overwrites, a falsy one leaves the stored value, so 0 or "" cannot clear it; notes are replaced whenever they are given, even by "" |
| UserController.FirstWriteIsMergeIntoDefaults | server/src/controllers/userController.ts:181-211 | The create branch and the update branch agree: a first write equals a merge into the default record |
| UserController.MergeIdempotent | server/src/controllers/userController.ts:185-195 | Sending the same preferences again stores the same record |
| UserController.UpdateUserPreferences | server/src/controllers/userController.ts:154-218 | 404 and no change for a missing user; otherwise 200, and the user's one record is either the defaulted first write or the merge into the stored record |
| GroupController.CreateGroup | server/src/controllers/groupController.ts:75-132 | 400 without a truthy name and creator; 404 for an unknown creator; otherwise 201, one new group with that creator under a fresh id, each of its dates set exactly when the request gives a truthy one and then equal to it, and the creator as its only member |
| GroupController.UpdateGroup | server/src/controllers/groupController.ts:135-166 | 404 for a missing group; otherwise 200, name and dates replaced only by truthy values, description and destination whenever given, the creator kept, and every other group unchanged |
| GroupController.DeleteGroup | server/src/controllers/groupController.ts:169-192 | 404 for a missing group; otherwise 204 and only that group row removed |
| GroupController.AddGroupMember | server/src/controllers/groupController.ts:228-288 | 400 without a user id; 404 for a missing group or user; 400 and no change for an existing membership; otherwise 201 and exactly that one pair added |
| GroupController.RemoveGroupMember | server/src/controllers/groupController.ts:291-333 | 404 when the pair is not a membership (tested first); 400 and no change when the user is the group's creator; otherwise 204 and exactly that one pair removed |
| ItineraryController.CreateItinerary | server/src/controllers/itineraryController.ts:99-133 | 400 without a truthy group id, title and content; 404 for a missing group; otherwise 201 and one new, not finalized itinerary under a fresh id |
| ItineraryController.UpdateItinerary | server/src/controllers/itineraryController.ts:137-166 | 404 for a missing itinerary; otherwise 200, title and content replaced only by truthy values, description and the finalized flag whenever given, and every other itinerary unchanged |
| ItineraryController.DeleteItinerary | server/src/controllers/itineraryController.ts:170-192 | 404 for a missing itinerary; otherwise 204 and only that row removed |
| ItineraryController.VoteOnItinerary | server/src/controllers/itineraryController.ts:196-265 | 400 without a user id or a value (0 is a value); 404 for a missing itinerary, checked before the user, then 404 for a missing user; otherwise 200, the pair's single vote holds the new value, and no other vote changes |
| ItineraryController.RevoteOverwrites | server/src/controllers/itineraryController.ts:226-258 | Voting twice as the same user leaves only the second value, the same as voting once with it |
| ItineraryController.CommentOnItinerary | server/src/controllers/itineraryController.ts:268-320 | 400 without a user id or with empty content; 404 for a missing itinerary, then for a missing user; otherwise 201 and exactly one comment appended, with the earlier ones untouched |
| ItineraryController.ListMembers | server/src/controllers/itineraryController.ts:335-348 | The members loaded with the group list every member once and nothing else |
| ItineraryController.ListingSize | server/src/controllers/itineraryController.ts:377 | A list holding each member once is as long as the group, so `members.length` counts the whole group |
| ItineraryController.PreferenceEntries | server/src/controllers/itineraryController.ts:355-360 | The filter keeps every member that has preferences, paired with their name, adds no one else, and is never longer than the member list |
| ItineraryController.PreferenceEntriesAppend | server/src/controllers/itineraryController.ts:355-360 | The filter keeps member order: filtering a concatenation concatenates the filtered parts |
| ItineraryController.EntriesEmptyIff | server/src/controllers/itineraryController.ts:355-367 | The filtered list is empty exactly when no member of the group has preferences |
| ItineraryController.DateRange | server/src/controllers/itineraryController.ts:373-377 | The date range is "Flexible" exactly when a date is missing or empty, whatever the formatter returns; otherwise it is the two formatted dates joined by " to " |
| ItineraryController.RequestContents | server/src/controllers/itineraryController.ts:355-378 | The data handed to the composer carries the destination and date range, a group size counting every member, and between one and group-size entries: one for each member with preferences and no other |
| ItineraryController.GenerateItinerary | server/src/controllers/itineraryController.ts:323-421 | 400 without a truthy group id and destination; 404 for a missing group; 400 and no service call when no member has preferences; otherwise the prompt data is built as above; a missing or unparsable answer gives 500 and no change; a JSON answer gives 201 and one new draft itinerary titled after the destination |
| Login.Utf16Length | client/src/pages/Login.tsx:27 | `password.length` counts UTF-16 code units: between one and two per character, and zero only for the empty string |
| Login.Utf16LengthBmp | client/src/pages/Login.tsx:27 | For text in the Basic Multilingual Plane the length is the number of characters |
| Login.ValidateForm | client/src/pages/Login.tsx:13-32 | Both fields are always checked: the email error is "Email is required" for an empty email, "Email is invalid" when no `\S+@\S+\.\S+` substring exists, else none; the password error likewise for empty or shorter than 6; valid exactly when neither error is set |
| Login.EmailPatternIsRegex | client/src/pages/Login.tsx:20 | `MatchesEmailPattern`, which looks only at an '@' and a later '.' with the characters around them (`MatchAt`, with `IsSpace` as the `\s` class), holds exactly when some substring is three non-space runs joined by '@' and '.', as the regular expression reads |
| Login.AcceptedEmailShape | client/src/pages/Login.tsx:17-23 | An accepted email contains an '@' and a '.' and has at least five characters |
| Login.AcceptedPasswordShape | client/src/pages/Login.tsx:24-30 | An accepted password has at least 6 UTF-16 code units, so at least 3 characters |
| Login.DemoCredentialsValid | client/src/pages/Login.tsx:36-41 | The demo credentials pass validation, so the gate can let them through |
| Login.HandleSubmit | client/src/pages/Login.tsx:34-49 | The user is logged in, under the email typed, exactly when the credentials are `demo@example.com` / `password` |

## Left out

- The text-generation call and the parsing of its reply are not modelled. `GenerateItinerary` takes the parsed reply as the parameter `answer`. `None` stands for no content or content that is not JSON.
- GenerateItinerary: does not compose the prompt text itself. It returns the prompt data it would pass to the composer, and `PromptComposer.ConstructItineraryPrompt` models the composition separately. This keeps each proof within the solver's budget.
- `toLocaleDateString` and `new Date(...)` depend on the locale and the clock. The date formatting is the parameter `formatDate`, and group dates are stored as the strings the request gave.
- The order of a group's members is whatever the store returns, since the query has no `orderBy`. `ListMembers` picks an arbitrary order. The filter is proved to keep that order, but the order itself is not modelled.
- `null` is not told apart from `undefined`. A field that is given (`!== undefined`) is modelled as `Some` of a value, so setting a description or notes to `null` is not modelled.
- Cascading deletes and foreign-key failures depend on a schema that is not part of this model. Each delete removes only its own row.
- The `catch` blocks that answer 500 for store errors are not modelled, except for two cases: updating a user to an email another user has (the unique constraint) and a missing or unparsable generation reply.
- Each request is modelled as atomic, so the race between the lookup and the create in the vote and membership handlers is not modelled.
- The read-only handlers (`getUsers`, `getUserById`, `getGroups`, `getGroupById`, `getGroupMembers`, `getItineraries`, `getItineraryById`) are left out. They are projections defined by the ORM's `include` clauses.
- Login.HandleSubmit: the `isSubmitting` flag, the one-second delay and the context's `login` call are not modelled. The method returns the email it would log in with.
- Store.FreshId stands for the store's id generator. Its ids are non-empty and unused, not random cuid strings.
- Text.IntToString: renders an integer only. A JavaScript number can be fractional or large, and then renders as `1500.5` or `1e+21`, which the model does not produce.
- UserController.NewPreferences: the budget is an integer, not a JavaScript number, so a fractional budget is not modelled.
- UserController.MergePreferences: the budget is an integer, not a JavaScript number, so a fractional budget is not modelled.
- ItineraryController.VoteOnItinerary: the vote value is an integer, not a JavaScript number, so a fractional value is not modelled.
