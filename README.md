# Go backend labs, modelled in Dafny

This project models the core of a series of Go backend labs and proves properties of the model.

- **lab01.** A task list keyed by counter-issued ids, and a user record with a counting email check.
- **lab02.** A chat message broker that fans messages out to per-user channels, a message log queried by sender, and a user registry.
- **lab03.** An in-memory message store behind a REST API. The model keeps the API's path checks, the status-code range check, the `http.cat` picture address and the status descriptions.
- **lab04.** User and post validation, including a four-stage email automaton, and the numbered `SET` list that the user repository's `Update` builds.
- **lab05.** A password policy (length, letters, digits), a user entity with regular-expression email validation, and in-place name and email updates.

Each Go file keeps its own form:
- Objects whose methods update fields become classes: `Broker`, `UserManager`, `MessageStore`, `TaskManager`, `MemoryStorage` and the lab05 `User`.
- Loops become methods with loop invariants.
- Each loop method's `ensures` ties its result to a specification function or predicate, and the lemmas about that specification state what the source promises. Most are proved equal to a function. The loops over a Go map, whose order is unspecified, are described instead: `ListTasks` and `GetAll` by membership, no duplicates and (for `GetAll`) the count, and `PushToAll` by the `Delivered` predicate. `CharRange` is described by membership.
- Pure validators become functions. Their `ensures` clauses give the exact accepting condition (both directions) and the message of each refusal, in the order the source checks them. For the lab04 email automaton the messages are spread over its parts: `EmailCheck` states "empty username", `FinalCheck` the two post-scan messages, and the lemmas `DotAfterAtRefused` and `SecondDomainRefused` "empty mail server" and "multiple domains provided".

Shared conventions:
- Strings are `seq<char>` and are treated as ASCII, so Go's `len` and byte indices are sequence lengths and indices.
- A Go `error` is an `Option<string>` (`None` is `nil`), or a small error datatype where the source uses sentinel errors.
- `time.Now()` is a `now: int` parameter.
- A Go `context.Context` is the error `ctx.Err()` reports (module `GoContext`): `None` while it is live, then `Canceled` or `DeadlineExceeded`, whichever ended it first.
- bcrypt is passed in as a function parameter.
- `strings.Split`, `strings.Join`, `strings.TrimSpace`, `strings.ToLower`, `strconv.Itoa` and `strconv.Atoi` are modelled in the `Strings` and `Strconv` modules. The model proves the facts the labs rely on: `Split` undoes `Join`, and `Atoi` undoes `Itoa` for 64-bit values.

Modelled behaviour worth knowing:
- The lab04 email automaton accepts a domain that starts with a second `.`, as in `a@b..c`. Its stage 2 takes any one character. `Lab04User.EmailShape` states the accepted set exactly, quirk included.
- In lab04, `Post.Validate` checks the author's `UserID`, not the post's own `ID`.
- In lab02, a broadcast pushes one copy per registry entry. A channel registered under two ids gets two copies (`Lab02ChatCore.BroadcastSharedMailbox`).
- The lab01 validation returns `ErrEmptyName`, which the file never declares, and the file declares `NewUser` twice. The model follows the evident intent: an `EmptyName` error, and `NewUser` as the validating constructor.

## Model

| member | source | states |
|---|---|---|
| Lab01TaskManager.TaskManager.constructor | labs/lab01/backend/taskmanager/taskmanager.go:30-32 | empty task map, `nextID` 1, invariant established |
| Lab01TaskManager.TaskManager.AddTask | labs/lab01/backend/taskmanager/taskmanager.go:35-49 | empty title: `ErrEmptyTitle` and nothing changes; otherwise a not-done task stored under the old `nextID`, which was free, and `nextID` moves on; the id invariant is kept |
| Lab01TaskManager.TaskManager.UpdateTask | labs/lab01/backend/taskmanager/taskmanager.go:52-71 | the empty title is reported before a missing id; on success only that task's title, description and done flag change |
| Lab01TaskManager.TaskManager.DeleteTask | labs/lab01/backend/taskmanager/taskmanager.go:74-85 | a missing id is `ErrTaskNotFound` with no change; otherwise exactly that id is removed |
| Lab01TaskManager.TaskManager.GetTask | labs/lab01/backend/taskmanager/taskmanager.go:88-96 | the stored task, or the zero task with `ErrTaskNotFound` |
| Lab01TaskManager.TaskManager.ListTasks | labs/lab01/backend/taskmanager/taskmanager.go:99-108 | a task is listed iff it is stored and the filter keeps it (all for nil, else matching `Done`); no task is listed twice |
| Lab01User.IsValidEmail | labs/lab01/backend/user/user.go:65-108 | the early-exit counting scan answers exactly `EmailAccepted`: non-empty, no leading `@`, one `@`, one `.` after it |
| Lab01User.EmailAcceptedShape | labs/lab01/backend/user/user.go:71-107 | the accepted emails are exactly `local@domain` with a non-empty `@`-free local part and a domain holding no `@` and exactly one `.` |
| Lab01User.ValidationError | labs/lab01/backend/user/user.go:29-46 | empty name first, then age outside [0, 150], then the email; valid iff all three pass |
| Lab01User.NewUser | labs/lab01/backend/user/user.go:23-26 | the user as given, with its validation result, which is nil iff the fields are valid |
| Lab01User.ToString | labs/lab01/backend/user/user.go:49-55 | the text starts with the name and ends with the email |
| Lab01User.ToStringFields | labs/lab01/backend/user/user.go:49-55 | for space-free name and email the text splits on spaces into name, decimal age and email, and the age reads back through `Atoi` |
| Lab02ChatCore.PushToAll | labs/lab02/backend/chatcore/chatcore.go:57-64 | the broadcast loop leaves every channel extended by one copy per registry entry holding it, and changes no other channel |
| Lab02ChatCore.BroadcastOnePerUser | labs/lab02/backend/chatcore/chatcore.go:57-64 | with one channel per user, every registered user gets exactly one copy of a broadcast and unregistered channels get none |
| Lab02ChatCore.BroadcastSharedMailbox | labs/lab02/backend/chatcore/chatcore.go:60-63 | a channel registered under two ids receives at least two copies of a broadcast |
| Lab02ChatCore.FanoutStep | labs/lab02/backend/chatcore/chatcore.go:60-63 | one turn of the broadcast loop keeps the loop invariant: the visited entry's channel gains one copy |
| Lab02ChatCore.UnicastRegistered | labs/lab02/backend/chatcore/chatcore.go:70-76 | a direct message to a registered user adds one copy to that user's channel and none elsewhere |
| Lab02ChatCore.UnicastUnregistered | labs/lab02/backend/chatcore/chatcore.go:70-76 | a direct message to an unknown user is dropped |
| Lab02ChatCore.Broker.constructor | labs/lab02/backend/chatcore/chatcore.go:31-38 | empty registry and input queue, `done` open, the context's state as given |
| Lab02ChatCore.Broker.EndContext | labs/lab02/backend/chatcore/chatcore.go:44-46 | the context ends, by cancellation or deadline, and stays done with the error it first reported |
| Lab02ChatCore.Broker.Submit | labs/lab02/backend/chatcore/chatcore.go:48-49 | a producer's message joins the back of the input queue |
| Lab02ChatCore.Broker.RegisterUser | labs/lab02/backend/chatcore/chatcore.go:84-88 | the id maps to the given channel, replacing any earlier one; a new channel starts empty |
| Lab02ChatCore.Broker.UnregisterUser | labs/lab02/backend/chatcore/chatcore.go:91-95 | the id is removed; an absent id changes nothing |
| Lab02ChatCore.Broker.SendMessage | labs/lab02/backend/chatcore/chatcore.go:55-81 | delivery as `Delivered` states, then exactly the context's error: nil while it is live, else `Canceled` or `DeadlineExceeded` |
| Lab02ChatCore.Broker.Step | labs/lab02/backend/chatcore/chatcore.go:41-52 | one `select` turn: dispatch the oldest input message, or close `done` once the context is done, or block; the random choice between ready cases is a parameter |
| Lab02Message.MessageStore.constructor | labs/lab02/backend/message/message.go:24-28 | an empty log |
| Lab02Message.MessageStore.AddMessage | labs/lab02/backend/message/message.go:31-37 | appends at the end, never fails |
| Lab02Message.MessageStore.GetMessages | labs/lab02/backend/message/message.go:40-55 | the loop returns exactly `BySender(messages, user)` and changes nothing |
| Lab02Message.BySenderAll | labs/lab02/backend/message/message.go:45 | the empty user selects the whole log |
| Lab02Message.BySenderLength | labs/lab02/backend/message/message.go:44-51 | a query is never longer than the log |
| Lab02Message.BySenderExact | labs/lab02/backend/message/message.go:45-50 | a named user's query holds only that user's messages, each as often as in the log |
| Lab02Message.BySenderAppend | labs/lab02/backend/message/message.go:44-51 | querying distributes over appending, so earlier results keep their place and order |
| Lab02User.ValidationError | labs/lab02/backend/user/user.go:18-51 | valid iff name, email and id are non-empty and the email holds an `@` and a `.`; "empty name", then "invalid email", then "empty ID", in that order |
| Lab02User.Validate | labs/lab02/backend/user/user.go:18-51 | the flag-setting scan answers exactly `ValidationError` |
| Lab02User.UserManager.constructor | labs/lab02/backend/user/user.go:63-75 | an empty registry, with or without a context, the context's state as given |
| Lab02User.UserManager.EndContext | labs/lab02/backend/user/user.go:83-85 | the context `AddUser` consults ends between two calls, by cancellation or deadline, and keeps the error it first reported |
| Lab02User.UserManager.AddUser | labs/lab02/backend/user/user.go:78-88 | stores the user under its id unvalidated, then reports exactly the context's current error when there is a context, and nil otherwise |
| Lab02User.UserManager.RemoveUser | labs/lab02/backend/user/user.go:91-106 | an absent id is "not found" with no change; otherwise only that id is removed |
| Lab02User.UserManager.GetUser | labs/lab02/backend/user/user.go:109-119 | the stored user, or the zero user with "not found" |
| Lab03Models.NewMessage | labs/lab03/backend/models/message.go:42-49 | a message with the given id, username and content, stamped `now` |
| Lab03Models.ValidateCreate | labs/lab03/backend/models/message.go:52-66 | valid iff username and content are non-empty; the username is reported first |
| Lab03Models.ValidateUpdate | labs/lab03/backend/models/message.go:69-76 | valid iff the content is non-empty |
| Lab03Storage.MemoryStorage.constructor | labs/lab03/backend/storage/memory.go:18-23 | empty map, `NextID` 1 |
| Lab03Storage.MemoryStorage.Count | labs/lab03/backend/storage/memory.go:112-114 | the number of stored ids, which under the store's invariant is also the number of distinct stored messages |
| Lab03Storage.ValuesCount | labs/lab03/backend/storage/memory.go:112-114 | a map whose every entry carries its own key as id holds as many distinct messages as ids |
| Lab03Storage.MemoryStorage.GetAll | labs/lab03/backend/storage/memory.go:26-39 | a message is returned iff it is stored; none twice; exactly `Count()` of them |
| Lab03Storage.MemoryStorage.GetByID | labs/lab03/backend/storage/memory.go:42-54 | the stored message, or `ErrMessageNotFound` |
| Lab03Storage.MemoryStorage.Create | labs/lab03/backend/storage/memory.go:57-68 | a new message under the old `NextID`, which was free; `NextID` moves on; ids stay unique after deletes; `Count()` grows by one |
| Lab03Storage.MemoryStorage.Update | labs/lab03/backend/storage/memory.go:71-88 | a missing id is `ErrInvalidID` with no change; otherwise only that message's content and timestamp change |
| Lab03Storage.MemoryStorage.Delete | labs/lab03/backend/storage/memory.go:91-109 | a missing id is `ErrMessageNotFound` with no change; otherwise exactly that id is removed and `Count()` drops by one |
| Lab03Api.StatusDescription | labs/lab03/backend/api/handlers.go:315-333 | the phrase for each of the six named codes (100, 200, 400, 404, 418, 500), and "Unknown Status" exactly for every other code |
| Lab03Api.ImageURL | labs/lab03/backend/api/handlers.go:239 | the address starts with `https://http.cat/` |
| Lab03Api.ImageURLCode | labs/lab03/backend/api/handlers.go:239 | the code reads back from the end of its picture address |
| Lab03Api.CheckCollectionPath | labs/lab03/backend/api/handlers.go:64-71 | a collection path is accepted iff it holds exactly two `/`, else "Invalid path" |
| Lab03Api.ParseItemID | labs/lab03/backend/api/handlers.go:133-147 | an item path needs exactly three `/` ("Invalid path") and an integer last part ("ID must be an integer value") |
| Lab03Api.GetHTTPStatus | labs/lab03/backend/api/handlers.go:214-244 | accepted iff four parts, an integer code and 100 ≤ code ≤ 500; the answer carries that code's picture and description; otherwise "Invalid path", then "Status code must be an integer value", then the range message, in that order |
| Lab03Api.StatusPathSplit | labs/lab03/backend/api/handlers.go:216-217 | `/api/status/<code>` splits into "", "api", "status" and the decimal code |
| Lab03Api.StatusPathAccepted | labs/lab03/backend/api/handlers.go:214-244 | every code in [100, 500] on its route is answered with its own picture and description |
| Lab03Api.StatusPathOutOfRange | labs/lab03/backend/api/handlers.go:233-236 | every other 64-bit code on its route gets the range message |
| Lab04User.FinalCheck | labs/lab04/backend/models/user.go:87-97 | passes iff exactly one `@` and the scan completed; any other `@` count is "'@' symbol is met more than once", checked first; with one `@` and an unfinished scan, "incomplete email" |
| Lab04User.EmailCheck | labs/lab04/backend/models/user.go:32-98 | a leading `@` is "empty username"; acceptance implies one `@` and a character after the first `.` past it |
| Lab04User.ValidateEmail | labs/lab04/backend/models/user.go:32-98 | the four-stage automaton answers exactly `EmailCheck`, message included |
| Lab04User.EmailCheckShape | labs/lab04/backend/models/user.go:32-98 | accepted iff `user@server.domain` with non-empty parts, one `@`, no `.` in the server and none after the domain's first character |
| Lab04User.DotAfterAtRefused | labs/lab04/backend/models/user.go:63-68 | a `.` right after the first `@` is "empty mail server" |
| Lab04User.SecondDomainRefused | labs/lab04/backend/models/user.go:75-83 | a later `.` once the domain has begun is "multiple domains provided", even with a bad `@` count |
| Lab04User.UserInfoError | labs/lab04/backend/models/user.go:101-115 | a name under two bytes is refused with the name in the message; otherwise the email decides; valid iff both hold |
| Lab04User.ValidateUser | labs/lab04/backend/models/user.go:118-120 | valid iff the name has two bytes and the email has the accepted shape |
| Lab04User.ValidateCreateUser | labs/lab04/backend/models/user.go:123-125 | the same rule for a creation request |
| Lab04User.ValidateAgree | labs/lab04/backend/models/user.go:117-125 | a user and a request with the same fields get the same answer |
| Lab04User.ToUser | labs/lab04/backend/models/user.go:128-136 | name and email kept, both timestamps `now`, id zero |
| Lab04User.ToUserKeepsValidation | labs/lab04/backend/models/user.go:128-136 | a request and the user made from it get the same validation answer |
| Lab04Post.PostError | labs/lab04/backend/models/post.go:36-64 | valid iff title ≥ 5 bytes, content non-empty when published, id ≥ 1; each refusal with its own message, in that order |
| Lab04Post.ValidatePost | labs/lab04/backend/models/post.go:67-69 | the same rule on a post, with the author's id |
| Lab04Post.ValidateCreatePost | labs/lab04/backend/models/post.go:72-77 | the same rule on a creation request |
| Lab04Post.ToPost | labs/lab04/backend/models/post.go:80-91 | the request's fields kept, both timestamps `now`, id zero |
| Lab04Post.ToPostKeepsValidation | labs/lab04/backend/models/post.go:80-91 | a request and the post made from it get the same validation answer |
| Lab04Post.ValidateAgree | labs/lab04/backend/models/post.go:66-77 | a post and a request with the same fields get the same answer |
| Lab04Repository.Columns | labs/lab04/backend/repository/user_repository.go:112-133 | `name` and `email` are set iff supplied, `name` first, `updated_at` always last |
| Lab04Repository.AddClause | labs/lab04/backend/repository/user_repository.go:113-117 | one supplied field appends its clause at the current number, its value, and moves the number on |
| Lab04Repository.BuildSet | labs/lab04/backend/repository/user_repository.go:108-133 | the clauses are the columns numbered from 1 in order, the values line up with them, and the counter ends one past the last |
| Lab04Repository.BuildUpdate | labs/lab04/backend/repository/user_repository.go:108-142 | the statement joins the clauses with `,` and binds the id to the number after the last clause; one value per placeholder |
| Lab04Repository.SetListSplits | labs/lab04/backend/repository/user_repository.go:135-140 | the `SET` list splits back on `,` into exactly the clauses |
| Lab04Repository.PlaceholderNumbers | labs/lab04/backend/repository/user_repository.go:113-133 | the k-th clause's placeholder reads back as k + 1: consecutive from `$1`, no gap, no repeat |
| Lab05Security.StrCount | labs/lab05/backend/security/password.go:47-56 | the loop counts the occurrences of the character |
| Lab05Security.LettersStrExact | labs/lab05/backend/security/password.go:67 | the letter list holds exactly the 52 ASCII letters |
| Lab05Security.PasswordError | labs/lab05/backend/security/password.go:59-90 | valid iff at least 6 bytes with an ASCII letter and a digit; the length message first, the letter-and-digit message for every other refusal |
| Lab05Security.ContainsAnyOf | labs/lab05/backend/security/password.go:67-82 | the per-character `StrCount` loop finds whether some listed character occurs |
| Lab05Security.ContainsLetters | labs/lab05/backend/security/password.go:67-73 | scanning for the listed letters is scanning for an ASCII letter |
| Lab05Security.ContainsDigits | labs/lab05/backend/security/password.go:76-82 | scanning for the listed digits is scanning for a digit |
| Lab05Security.ValidatePassword | labs/lab05/backend/security/password.go:59-90 | the two scans answer exactly `PasswordError` |
| Lab05Security.HashPassword | labs/lab05/backend/security/password.go:19-32 | the empty password is refused without hashing; otherwise bcrypt's answer |
| Lab05Security.VerifyPassword | labs/lab05/backend/security/password.go:35-44 | true iff both sides are non-empty and bcrypt's comparison matches |
| Lab05UserDomain.NameError | labs/lab05/backend/userdomain/user.go:79-92 | valid iff the trimmed name is 2 to 50 bytes long |
| Lab05UserDomain.MatchesEmailPattern | labs/lab05/backend/userdomain/user.go:69-70 | the deterministic matcher accepts exactly the strings of the pattern `^[a-zA-Z0-9._%+-]+@[a-zA-Z0-9.-]+\.[a-zA-Z]{2,}$` |
| Lab05UserDomain.EmailError | labs/lab05/backend/userdomain/user.go:58-76 | an input that trims to nothing gets the empty-email message; a non-empty one the matcher refuses after lower-casing gets the format message; accepted iff neither (the pattern itself is `EmailErrorPattern`) |
| Lab05UserDomain.EmailErrorPattern | labs/lab05/backend/userdomain/user.go:58-76 | accepted iff the trimmed, lower-cased input matches the pattern |
| Lab05UserDomain.PasswordError | labs/lab05/backend/userdomain/user.go:96-170 | valid iff at least 8 bytes with a lower-case letter, an upper-case letter and a digit; one message for every refusal |
| Lab05UserDomain.CharRange | labs/lab05/backend/userdomain/user.go:97-107 | the rune loop collects exactly the characters from `lo` to `hi` |
| Lab05UserDomain.HasAnyOf | labs/lab05/backend/userdomain/user.go:113-125 | the nested loops with breaks find whether some byte of the password is in the list |
| Lab05UserDomain.ValidatePassword | labs/lab05/backend/userdomain/user.go:96-170 | the loops answer exactly `PasswordError` |
| Lab05UserDomain.UserDataError | labs/lab05/backend/userdomain/user.go:41-55 | "invalid user data" unless name, email and password all pass |
| Lab05UserDomain.NormalizeEmailIdempotent | labs/lab05/backend/userdomain/user.go:187 | normalising a stored email changes nothing |
| Lab05UserDomain.EmailErrorNormalized | labs/lab05/backend/userdomain/user.go:184-187 | the stored email gets the same validation answer as the input it came from |
| Lab05UserDomain.UpdateNameKeepsValid | labs/lab05/backend/userdomain/user.go:173-180 | a valid user stays valid after a successful name update |
| Lab05UserDomain.UpdateEmailKeepsValid | labs/lab05/backend/userdomain/user.go:183-190 | a valid user stays valid after a successful email update |
| Lab05UserDomain.User.constructor | labs/lab05/backend/userdomain/user.go:11-18 | a user with the given fields |
| Lab05UserDomain.User.Validate | labs/lab05/backend/userdomain/user.go:41-55 | answers exactly `UserDataError` of the user's fields |
| Lab05UserDomain.User.UpdateName | labs/lab05/backend/userdomain/user.go:173-180 | an invalid name changes nothing; otherwise the trimmed name is stored and the update time set; no other field changes |
| Lab05UserDomain.User.UpdateEmail | labs/lab05/backend/userdomain/user.go:183-190 | an invalid email changes nothing; otherwise the trimmed, lower-cased email is stored and the update time set; no other field changes |
| Lab05UserDomain.NewUser | labs/lab05/backend/userdomain/user.go:21-38 | no user and the validation error when invalid; otherwise a fresh valid user stamped `now` |

## Left out

- Concurrency: mutexes, goroutines and channel blocking. Each locked section is one atomic method, and a channel is a queue in the broker's state.
- The broker's `Run` is a single `Step`; the endless loop around it is not modelled. When both `select` cases are ready, Go picks at random; here that choice is the `preferInput` parameter.
- HTTP routing, the JSON encoding and decoding, the response writers, the CORS middleware and the health check of lab03. The handlers keep only their path, integer and range checks. Storage calls and the validators are modelled separately.
- Database connection, migrations, running statements and reading rows back. `ScanRow`, `ScanUsers`, `ScanPosts` and the repository's other queries are left out. For `Update`, the model keeps only the statement and argument list.
- bcrypt hashing and comparison; they are function parameters. The JWT service is not part of this model.
- The clock: every `time.Now()` is a `now` parameter.
- Context timers: a deadline passing, like a call to `cancel()`, is an `EndContext` event of the owning object, not tied to the clock.
- Unicode: strings are ASCII, and `TrimSpace` and `ToLower` act on ASCII bytes only.
- Go's 64-bit `int` wrap-around of the id counters (`nextID`, `NextID`). The model uses unbounded integers.
- Map iteration order: listings state membership and no repetition, not an order.
- Pointer aliasing in lab03: Go hands out pointers to the stored messages, so a caller's copy sees later updates. The model returns values.
- The lab01 `NewUser` stub that returns `nil, nil` and the unimplemented `IsValidAge`; the declared `ErrInvalidName` is never used.
- Lab05UserDomain.User.UpdateName: validity preservation is not in the method's contract. It is the separate lemma `UpdateNameKeepsValid`.
- Lab05UserDomain.User.UpdateEmail: validity preservation is not in the method's contract. It is the separate lemma `UpdateEmailKeepsValid`.
- The lab05 letter list is written as a concatenation of its keyboard rows. It is the same string as the source's literal.
