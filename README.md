# therapy_assist core, modelled in Dafny

This project models the server-side core of the therapy_assist web application:

- the AI chat turn (`ChatWithAI.execute`): save the user's message, read the user's
  whole history, render it into a text prompt, call the text generator, and save and
  return the AI reply;
- the chat message repository, as an append-only table queried per user, oldest first;
- the generator call (`generateText`), as the chain of checks around one HTTP exchange
  with the AvalAI chat-completions endpoint;
- the tRPC request context (the caller read from the `Authorization` header) and the
  `isAuthed` gate of protected procedures;
- login and registration (`Login.execute`, `CreateUser.execute`) over the user table;
- the journal and mood tables: creation, newest-first listings, and owner-scoped
  deletion and update of journal entries.

The chat turn has no conversations, no message window and no usage records: the prompt
is built from the user's full history (`ChatWithAI.ts:23-25`), exactly one `user`
message is sent (`gemini.ts:20`), and a message's sender is only `USER` or `AI`
(`ChatMessage.ts:7`). An empty message is not rejected: the router's input schema is a
plain string and `execute` saves whatever text it is given.

Foreign code becomes parameters: `fetch` is a function from the request to the
response; `jwt.sign`/`jwt.verify`, `bcrypt.hash`/`bcrypt.compare` are function
parameters; `process.env` variables are optional strings; `new Date()` and Prisma's
`now()` are natural-number clock readings; `uuidv4()` and Prisma's generated ids are
counters on the owning object, so freshness is an invariant. Ids are natural numbers,
since only their equality matters. Prisma's `findMany` with `where`/`orderBy` is a
selection followed by a stable ordering (module `Rows`), so rows with equal
`createdAt` keep their table order (see "## Left out").

Files: `Wrappers.dfy` (Option, Result), `Strings.dfy` (JavaScript truthiness, `||`,
`join`, `split`), `Rows.dfy` (selection and ordering), `ChatMessages.dfy`,
`ChatWithAI.dfy` (module `ChatTurn`), `Gemini.dfy`, `Jwt.dfy`, `Trpc.dfy`, `Users.dfy`,
`Login.dfy`, `CreateUser.dfy` (module `Registration`), `Journal.dfy`, `Mood.dfy`.

## Model

| member | source | states |
|---|---|---|
| `Rows.Filter` | src/infrastructure/repositories/PrismaChatMessageRepository.ts:31-32 | the `where` selection keeps exactly the rows satisfying the condition, each as often as stored |
| `Rows.SortBy` | src/infrastructure/repositories/PrismaChatMessageRepository.ts:33 | the `orderBy` result is ordered by the key and is a permutation of its input |
| `Rows.FilterThenFilter` | src/infrastructure/repositories/PrismaJournalEntryRepository.ts:23-30 | selecting after a coarser selection equals selecting directly |
| `Rows.FilterKeepsAll` | src/infrastructure/repositories/PrismaJournalEntryRepository.ts:23-30 | a selection matching every row returns the table unchanged |
| `ChatMessages.SenderLabel` | src/domain/entities/ChatMessage.ts:7 | a sender is stored and printed as `USER` or `AI`, and `USER` exactly for user messages |
| `ChatMessages.History` | src/infrastructure/repositories/PrismaChatMessageRepository.ts:30-42 | `findByUserId(u)` holds only `u`'s messages, every one of them as often as stored, ordered by `createdAt` ascending |
| `ChatMessages.EmptyHistory` | src/infrastructure/repositories/PrismaChatMessageRepository.ts:30-41 | a user with no messages gets the empty sequence, not an error |
| `ChatMessages.SavedMessageInHistory` | src/infrastructure/repositories/PrismaChatMessageRepository.ts:10-34 | after `save(m)`, the history of `m`'s user contains `m`, and gains exactly `m` |
| `ChatMessages.OtherHistoriesUnchanged` | src/infrastructure/repositories/PrismaChatMessageRepository.ts:10-34 | after `save(m)`, every other user's history is exactly what it was |
| `ChatMessages.ChatMessageStore.Save` | src/infrastructure/repositories/PrismaChatMessageRepository.ts:10-27 | `save` appends the message with exactly its fields and returns the same field values |
| `ChatMessages.ChatMessageStore.FindByUserId` | src/infrastructure/repositories/PrismaChatMessageRepository.ts:30-42 | on the current table: only the user's messages, each exactly as often as stored (a permutation of the user's rows), oldest first |
| `ChatTurn.HistoryLines` | src/application/use-cases/ChatWithAI.ts:24 | one `SENDER: text` line per history message, same order, none dropped |
| `ChatTurn.Prompt` | src/application/use-cases/ChatWithAI.ts:24-25 | the prompt is the rendered history, then `\nUSER: <message>\nAI:`; it always ends with `AI:` |
| `ChatTurn.PromptIsJoinedLines` | src/application/use-cases/ChatWithAI.ts:23-25 | the prompt is exactly all history lines, then the new USER line, then `AI:`, joined by newlines: no truncation, no extra entry |
| `ChatTurn.PromptSplitsIntoLines` | src/application/use-cases/ChatWithAI.ts:23-25 | with single-line texts, splitting the prompt at newlines gives back exactly those lines (history length plus two, or three for an empty history) |
| `ChatTurn.MessageLineRepeated` | src/application/use-cases/ChatWithAI.ts:20-25 | if the history already holds the user's message, the line `USER: <message>` occurs at least twice among the prompt lines |
| `ChatTurn.TurnPromptRepeatsMessage` | src/application/use-cases/ChatWithAI.ts:20-25 | because the message is saved before history is read, the turn's prompt repeats it: once as history, once as the trailing USER line |
| `ChatTurn.TurnPrompt` | src/application/use-cases/ChatWithAI.ts:20-25 | the turn's prompt is the newline join of the lines of the history read right after saving the USER message, then `USER: <message>`, then `AI:` |
| `ChatTurn.ChatWithAI.constructor` | src/application/use-cases/ChatWithAI.ts:9 | the use case holds its repository; ids it draws are fresh for that repository |
| `ChatTurn.ChatWithAI.FreshId` | src/application/use-cases/ChatWithAI.ts:14 | `uuidv4()` gives an id no stored message has |
| `ChatTurn.ChatWithAI.SaveUserMessage` | src/application/use-cases/ChatWithAI.ts:12-25 | the store gains exactly the USER message with the caller's id and text and a fresh id, and the prompt is the turn's prompt over the history read after that save |
| `ChatTurn.ChatWithAI.Execute` | src/application/use-cases/ChatWithAI.ts:11-41 | the store gains a USER message with the caller's text and id, then, only if the generator succeeds on the prompt of the history read after that save, an AI message with the reply, which is returned; on failure the error propagates and only the USER message stays; both ids are fresh and distinct |
| `ChatTurn.Generator` | src/application/use-cases/ChatWithAI.ts:28 | the generator the turn calls is `generateText` on the prompt under the given key, model name and HTTP exchange; with the key unset or empty it fails with the key error on every prompt, and it never answers with an empty text |
| `ChatTurn.TurnWithoutKeyFails` | src/application/use-cases/ChatWithAI.ts:28 | with no or an empty API key the generator the turn calls fails with the key error, so the turn keeps only the USER message |
| `Gemini.ModelName` | src/infrastructure/gemini.ts:10 | the model is `AI_MODEL_NAME` when set and non-empty, else `gemini-2.5-pro` |
| `Gemini.Member` | src/infrastructure/gemini.ts:38 | optional property access yields a value only from an object holding that property, and then exactly that property's value |
| `Gemini.First` | src/infrastructure/gemini.ts:38 | `?.[0]` yields the first element of a non-empty array, nothing for an empty array, and nothing from values that are not arrays, objects or strings |
| `Gemini.ContentOf` | src/infrastructure/gemini.ts:38 | the content path yields a value only from an object with `choices`; when `choices` is a non-empty array it is `content` of `message` of its first element, and when `choices` is an empty array it yields nothing |
| `Gemini.Header` | src/infrastructure/gemini.ts:25-28 | a header lookup returns a header present in the request, or none when no header has that name |
| `Gemini.BuildRequest` | src/infrastructure/gemini.ts:16-30 | the request is a POST to the AvalAI URL with the model, exactly one `{role: 'user', content: prompt}` message, a JSON content type and `Authorization: Bearer <key>` |
| `Gemini.GenerateText` | src/infrastructure/gemini.ts:8-45 | an unset or empty key fails with the key error; otherwise success exactly when the response is ok, its body is JSON and `choices[0].message.content` is a non-empty string, which is returned; a non-ok status fails with status, status text and body text; a missing or falsy content fails with the content error |
| `Gemini.MissingKeyIssuesNoRequest` | src/infrastructure/gemini.ts:9-14 | without a usable key the result does not depend on the HTTP exchange: no request is issued |
| `Gemini.RejectedResponseNotReturned` | src/infrastructure/gemini.ts:32-35 | a non-ok response always fails with the request error, whatever its body holds |
| `Gemini.DecimalString` | src/infrastructure/gemini.ts:34 | the status code in the error text is written as decimal digits that spell exactly that number, without leading zeros |
| `Gemini.ErrorMessage` | src/infrastructure/gemini.ts:13-41 | exactly the key, request and content errors carry a message: `AVALAI_API_KEY is not set in the environment` for the key error, `Invalid response from AvalAI: missing choices[0].message.content` for the content error; the request error's text is the prefix, the status in decimal, then the status text and the body text |
| `Jwt.Secret` | src/interface-adapters/trpc/trpc.ts:13 | the secret is `JWT_SECRET` when set and non-empty, else `your-secret-key`; the same expression as at signing |
| `Strings.Split` | src/interface-adapters/trpc/trpc.ts:11 | `split(' ')` yields at least one part and no part holds the separator |
| `Strings.JoinSplit` | src/interface-adapters/trpc/trpc.ts:11 | joining the parts of a split with the separator gives the header back |
| `Strings.SplitJoin` | src/application/use-cases/ChatWithAI.ts:24 | splitting the join of separator-free parts gives the parts back |
| `Strings.SplitSingle` | src/interface-adapters/trpc/trpc.ts:11 | a string splits into a single part exactly when it holds no separator |
| `Trpc.TokenOf` | src/interface-adapters/trpc/trpc.ts:11 | the token is absent exactly when the header has no space; a present token holds no space |
| `Trpc.TokenAfterFirstSpace` | src/interface-adapters/trpc/trpc.ts:11 | the token is the text after the first space, up to the next space or the end |
| `Trpc.GetUserFromHeader` | src/interface-adapters/trpc/trpc.ts:9-20 | no user without a non-empty header or without a token; a verification failure gives no user rather than an error; a verified payload gives exactly `{id: decoded.id}` |
| `Trpc.CreateContext` | src/interface-adapters/trpc/trpc.ts:5-29 | the context holds no user without a non-empty header; when the header's token verifies under the configured secret the user is `{id: decoded.id}`, and a user is present only then |
| `Trpc.BearerTokenAuthenticates` | src/interface-adapters/trpc/trpc.ts:10-14 | `Bearer <token>` with a token signed under the same secret yields the signed id |
| `Trpc.Protected` | src/interface-adapters/trpc/trpc.ts:44-57 | a null user is refused with UNAUTHORIZED and the handler does not run; a user is passed to the handler unchanged |
| `Trpc.AnonymousCallRefused` | src/interface-adapters/trpc/trpc.ts:5-47 | with no Authorization header, or one without a space, a protected procedure is refused |
| `Trpc.PayloadWithoutIdPassesGate` | src/interface-adapters/trpc/trpc.ts:13-54 | a verified payload with no `id` yields a user with no id, whom the gate lets through |
| `Users.FindByEmail` | src/infrastructure/repositories/PrismaUserRepository.ts:12-18 | `getUserByEmail` returns a stored user with that email, and null exactly when there is none |
| `Users.FindAdded` | src/infrastructure/repositories/PrismaUserRepository.ts:6-18 | a user created under a new email is the one found by that email |
| `Users.UserTable.GetUserByEmail` | src/infrastructure/repositories/PrismaUserRepository.ts:12-18 | on the current table, a found user is stored and has the email, and null is returned exactly when no stored user has it |
| `Users.UserTable.CreateUser` | src/infrastructure/repositories/PrismaUserRepository.ts:6-10 | adds exactly one user with a fresh id and the given fields, or refuses a taken email leaving the table unchanged |
| `Login.ErrorMessage` | src/application/use-cases/Login.ts:11-31 | the error texts `Password is required` and `Invalid email or password`, each for its own error only |
| `Login.Login` | src/application/use-cases/Login.ts:8-38 | a missing or empty password fails first; an unknown email fails with the credentials error; a token is returned exactly when the user exists and the comparison accepts, and it is the signature of `{id: user.id}` under the configured secret with a one-day lifetime |
| `Login.PasswordCheckedBeforeLookup` | src/application/use-cases/Login.ts:11-16 | without a password the outcome does not depend on the user table |
| `Login.UnknownEmailLikeWrongPassword` | src/application/use-cases/Login.ts:18-31 | an unknown email and a wrong password give the same error and message |
| `Login.IssuedTokenAuthenticates` | src/application/use-cases/Login.ts:33-37 | under one configuration a token issued at login, sent as a bearer token, authenticates the user's id in the request context |
| `Registration.NameOrNull` | src/application/use-cases/CreateUser.ts:19 | an absent or empty name is stored as null, any other name as given |
| `Registration.NewUserRecord` | src/application/use-cases/CreateUser.ts:11-21 | fails with the password error exactly when the password is missing or empty; otherwise the record keeps the email, defaults the name and holds the hash of the password, not the password |
| `Registration.ErrorMessage` | src/application/use-cases/CreateUser.ts:11-13 | the password error, and only it, carries the text `Password is required`; a database error is passed on with the database's own text |
| `Registration.WithoutPassword` | src/application/use-cases/CreateUser.ts:25-27 | the result keeps id, email and name of the created user and drops the password |
| `Registration.CreateUser` | src/application/use-cases/CreateUser.ts:8-28 | without a password nothing is created; otherwise `createUser` adds exactly the hashed record with the email unchanged and the stripped user is returned; a taken email propagates the database error |
| `Registration.RegisteredUserCanLogIn` | src/application/use-cases/CreateUser.ts:15-23 | a user registered under a new email logs in with the same password when the comparison accepts a password against its own hash |
| `Journal.EntriesOf` | src/infrastructure/repositories/PrismaJournalEntryRepository.ts:12-21 | only the user's entries, each as often as stored, newest first |
| `Journal.CreateShowsOnlyToOwner` | src/infrastructure/repositories/PrismaJournalEntryRepository.ts:6-21 | a created entry appears in its owner's listing and other users' listings are unchanged |
| `Journal.WithoutEntry` | src/infrastructure/repositories/PrismaJournalEntryRepository.ts:23-30 | deletion removes exactly the rows matching both id and owner; every other row stays |
| `Journal.DeleteForeignEntryIsNoop` | src/infrastructure/repositories/PrismaJournalEntryRepository.ts:23-30 | deleting an entry the user does not own, or that does not exist, leaves the table unchanged |
| `Journal.DeleteKeepsOtherListings` | src/infrastructure/repositories/PrismaJournalEntryRepository.ts:12-30 | a deletion by one user leaves other users' listings unchanged |
| `Journal.Patched` | src/infrastructure/repositories/PrismaJournalEntryRepository.ts:32-40 | only the given fields change; an undefined title or content keeps its value; id, owner and creation time are kept |
| `Journal.IndexOf` | src/infrastructure/repositories/PrismaJournalEntryRepository.ts:32-40 | finds a row matching both id and owner, or reports that none does |
| `Journal.JournalTable.CreateJournalEntry` | src/infrastructure/repositories/PrismaJournalEntryRepository.ts:6-10 | adds exactly one row with the given owner, title and content, a fresh store-assigned id and the creation time |
| `Journal.JournalTable.GetJournalEntriesByUserId` | src/infrastructure/repositories/PrismaJournalEntryRepository.ts:12-21 | on the current table: only the user's entries, each exactly as often as stored (a permutation of the user's rows), newest first |
| `Journal.JournalTable.DeleteJournalEntry` | src/infrastructure/repositories/PrismaJournalEntryRepository.ts:23-30 | the table becomes the rows not matching id and owner; never fails |
| `Journal.JournalTable.UpdateJournalEntry` | src/infrastructure/repositories/PrismaJournalEntryRepository.ts:32-40 | with no row matching id and owner it fails and changes nothing; otherwise it rewrites that row in place and returns it; every non-matching row is unchanged |
| `Mood.MoodsOf` | src/infrastructure/repositories/PrismaMoodLogRepository.ts:12-21 | only the user's mood logs, each as often as stored, newest first |
| `Mood.LogShowsOnlyToOwner` | src/infrastructure/repositories/PrismaMoodLogRepository.ts:6-21 | a logged mood appears in its owner's history and other users' histories are unchanged |
| `Mood.MoodTable.LogMood` | src/infrastructure/repositories/PrismaMoodLogRepository.ts:6-10 | adds exactly one row with the given owner and mood and a fresh id; all existing rows are kept |
| `Mood.MoodTable.GetMoodsByUserId` | src/infrastructure/repositories/PrismaMoodLogRepository.ts:12-21 | on the current table: only the user's mood logs, each exactly as often as stored (a permutation of the user's rows), newest first |

## Left out

- `ChatTurn.ChatWithAI.Execute` takes the generator as a parameter; the application's generator is `ChatTurn.Generator`, which is `generateText` under the environment and the HTTP exchange. The turn's contract holds for any generator.
- Persistence failures (database unavailable, timeouts): every repository call succeeds in the model, except the errors the code itself relies on (update of a missing journal entry, a taken email).
- The JSON serialisation of the request body: the request keeps `model` and `messages` as fields.
- `Gemini.GenerateText`: a truthy but non-string `choices[0].message.content` is returned by the source and then refused by the database when the AI message is saved; the model reports it as the generator error `NonTextContent`, so the turn has the same outcome (USER message saved, no AI message, an error), with a different error.
- JSON numbers are integers only (no NaN, no fractions); property access on arrays and strings by name and prototype properties are not modelled.
- The text of errors raised by `fetch` and `res.json()`, and the `console.log` calls.
- Token expiry: `verify` is a function of token and secret only, so the one-day lifetime is passed to `sign` but its check against the clock is not modelled.
- Uniqueness of chat message ids is not enforced by the store; fresh ids come from the use case's id source.
- The User entity file is not part of this model; its fields are taken from how the use cases use them (id, email, name, password hash).
- Router wiring (`main.ts`, `chatRouter.ts`), zod input validation, the forwarding use cases, the React client, seed and test scripts: they only forward or render. `sendMessage` passes the context's user id, not an input field, to `ChatWithAI.execute`.
- `req` and `res` in the tRPC context.
- Concurrency: interleaving of simultaneous requests.
- Order of rows with equal `createdAt`: the model's ordering is stable, so ties keep their table order, which Prisma does not promise. `ChatTurn.ChatWithAI.Execute` (the exact prompt handed to the generator), `ChatMessages.OtherHistoriesUnchanged`, `Journal.CreateShowsOnlyToOwner`, `Journal.DeleteKeepsOtherListings` and `Mood.LogShowsOnlyToOwner` (listings equal as sequences) depend on it; the multiset and ordering clauses of the queries do not.
- Journal.WithoutEntry: owner ids are natural numbers, so a context user without an id (`Trpc.PayloadWithoutIdPassesGate`) never reaches a repository in the model. In the source that call passes `userId: undefined`, which Prisma drops from the `where` clause: `deleteJournalEntry` then deletes by id alone.
- Journal.DeleteForeignEntryIsNoop: holds for a present owner id only; with `userId: undefined` the source deletes another user's entry with that id.
- Journal.JournalTable.UpdateJournalEntry: matches by id and owner; with `userId: undefined` the source updates by id alone.
- ChatMessages.History, Journal.EntriesOf, Mood.MoodsOf: with `userId: undefined` the source's `findMany` has no condition and returns every user's rows; the model's owner is always present.
