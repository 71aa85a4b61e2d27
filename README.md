# Patient/doctor chat and signup: a Dafny model

This project models the logic of a small telemedicine back end. There are two services.

The chat server keeps one chat document per (patient, doctor) pair. Each chat embeds
an ordered list of messages and a `lastMessage` time. The chat server also has a
second, independent design: a flat collection of direct messages that each carry a
`read` flag. The account service validates doctor and user signups and inserts
records whose password is the bcrypt hash of the input.

The database is replaced by in-memory stores:
- `ChatRoutes.ChatStore` holds a `seq<Chat>`.
- `FlatMessages.MessageStore` holds a `seq<DirectMessage>`.
- `AuthController.AccountStore` holds a `seq<DoctorRecord>` and a `seq<UserRecord>`.

Each store has a `Valid()` invariant that its methods preserve. The invariants are:
- ids come from a counter, which stands for the ObjectId generator: every stored id is below it, and ids are distinct within each store (for accounts, also across the doctor and user collections, which share the generator);
- at most one chat exists per (patient, doctor) pair;
- a chat's `lastMessage` equals its newest message's timestamp;
- every message stored in a chat has trimmed, non-empty content;
- every account record passes its schema, and emails are unique within each account collection.

Request handlers are methods when they write and functions when they only read.
A handler returns `Response<T>`, which is one of `Ok(body)`, `NotFound`, `Forbidden`,
`BadRequest(msg)` or `ServerError`. `ServerError` stands for every 500.

These things are inputs, not modelled code:
- the authenticated caller's id and role;
- the server's user collection, passed as a snapshot `seq<User>`;
- the clock, passed as `Time` parameters;
- bcrypt, passed as a function `hash(password, salt)` together with the salt.

Notes on fidelity:
- The send handler reads the clock twice (`t1` for the message, `t2` for
  `chat.lastMessage`). The `pre('save')` hook then overwrites `lastMessage` with `t1`.
  `SendMessage` proves that the stored `lastMessage` is `t1`, whatever `t2` is.
- `GET /:chatId/messages` tests participation through the populated `doctor` and
  `patient` references. If one of them names a user that no longer exists, the handler
  throws, which gives a 500. `&&` short-circuits, so the patient is read only when the
  caller is not the doctor. `GetMessages` models these cases.
- `/with-patient` accepts any existing user id as the patient. It does not check that
  user's role.
- On a sequential run, the check-then-create in find-or-create never reaches the unique
  index. `FindOrCreate` and `SendMessage` prove that their `save()` succeeds.
- Mongoose's `required` rejects an absent or empty string. `trim` runs before validation,
  so a blank message fails to save and the chat is left unchanged.
- In a Number path, the default `""` casts to null. `phoneNumber` and `dateOfBirth`
  therefore start as `None`.
- JavaScript's `password.length` counts UTF-16 code units. This is `Utf16Length`.
- MongoDB compares strings by their UTF-8 bytes, which is code-point order. This is
  `CodePointLe`. A MongoDB sort leaves ties in no particular order, so the sorts are
  specified as "sorted, and a permutation of the matches".
- The flat message router is defined in `server/routes/messages.js`, but
  `server/index.js` does not mount it. It is modelled as written.

The system's design description differs from the code in a few places. The model follows the code:
- Blank content: the design answers with an invalid-argument error. The code lets `save()` fail validation, so the caller gets a 500.
- Message times: the design repairs a clock that runs backwards so that times never decrease. The code stamps `new Date()` as it is, so the model proves nothing about the order of chat message timestamps.
- Uniqueness conflicts: the design re-fetches the winning chat after a conflict. The code has no such step; a conflict would be a 500.
- Read state: the design tracks `read` per chat message. Embedded chat messages have no `read` field. Only the flat collection has one, and it is marked by (sender, receiver) pair, not per chat.
- Live delivery: the design delivers a message to the recipient's live connection after it is stored. The code relays socket events without touching any store (see "## Left out").

## Model

| member | source | states |
|---|---|---|
| Text.Trim | server/models/Chat.js:9-13 | the `trim` setter's result has no leading/trailing JavaScript whitespace and is the slice of the input left after dropping whitespace at both ends |
| Text.TrimOfTrimmed | server/models/Chat.js:12 | a string without whitespace at its ends is left unchanged by trimming |
| Text.TrimIdempotent | server/models/Chat.js:12 | trimming twice gives the same string as trimming once |
| Text.TrimEmptyIffBlank | server/models/Chat.js:11-12 | the trimmed content is empty exactly when the input is whitespace only, which is when `required` rejects it |
| Text.Utf16Length | backend/controllers/auth.controller.js:15 | JavaScript's `length` lies between the code-point count and twice it |
| Text.CodePointLeTotal | server/routes/chat.js:16 | the string order of a MongoDB sort relates any two names |
| Text.CodePointLeTransitive | server/routes/chat.js:16 | the string order of a MongoDB sort is transitive |
| Collections.Filter | server/routes/chat.js:36 | a MongoDB filter keeps exactly the matching elements, each as often as stored |
| Collections.FilterAppend | server/routes/chat.js:36 | a filter keeps the stored order: filtering a concatenation concatenates the filtered parts |
| Collections.Sort | server/routes/chat.js:40 | a MongoDB sort returns the input reordered so that the key order holds between every pair |
| ChatSchema.CastMessage | server/models/Chat.js:3-18 | a pushed message is stored iff it has a sender and non-blank content; the stored content is the trimmed input, the timestamp defaults to now, and the result satisfies the message schema |
| ChatSchema.NewChat | server/models/Chat.js:31-39 | a new chat has no messages, `lastMessage` = creation time and `isActive` = true |
| ChatSchema.ValidMessage | server/models/Chat.js:9-13 | a stored message's content is a fixed point of the `trim` setter and not whitespace only, which is what `required` after `trim` accepts |
| ChatSchema.ValidChat | server/models/Chat.js:31 | a stored chat has only schema-valid messages and is a document the `pre('save')` hook leaves unchanged |
| ChatSchema.UniquePairs | server/models/Chat.js:45 | the unique index `{patient: 1, doctor: 1}`: no two positions of the collection hold the same (patient, doctor) pair |
| ChatSchema.PreSave | server/models/Chat.js:49-54 | the hook leaves `lastMessage` equal to the newest message's timestamp, changes no other field, and changes nothing when there are no messages |
| ChatRoutes.FindUser | server/routes/chat.js:59-62 | `findById` finds a user with that id exactly when one exists |
| ChatRoutes.FirstDoctor | server/routes/chat.js:100-103 | `findOne({role: 'doctor'})` gives the first doctor in stored order, or nothing iff there is no doctor |
| ChatRoutes.NameLeIsTotalPreorder | server/routes/chat.js:16 | ordering patient summaries by name is a total preorder |
| ChatRoutes.ListPatients | server/routes/chat.js:8-23 | non-doctors get Forbidden; doctors get the id/name/username of exactly the patient users, each as often as stored, ordered by name |
| ChatRoutes.IndexOfId | server/routes/chat.js:140-143 | `findById` finds a chat with that id exactly when one exists |
| ChatRoutes.PairChat | server/routes/chat.js:65-70 | `findOne({doctor, patient})` finds a chat for the pair exactly when one exists |
| ChatRoutes.Upsert | server/routes/chat.js:161 | the collection write of `chat.save()` (also at lines 77 and 118): when a chat has the document's id, the collection keeps its length and exactly the positions holding that id now hold the document, every other chat is unchanged; when none has it, the document is appended; either way ids stay unique |
| ChatRoutes.SamePairIsFree | server/models/Chat.js:45 | re-saving a stored chat under its own id and (patient, doctor) pair never trips the unique pair index |
| ChatRoutes.PostedDocument | server/routes/chat.js:152-161 | after a message push and the handler's own `lastMessage` write, the `pre('save')` hook overwrites `lastMessage` with the pushed message's timestamp and changes nothing else |
| ChatRoutes.OpenTwice | server/routes/chat.js:65-83 | a second find-or-create for the same pair returns the same chat and adds nothing, whatever the clock reads the second time |
| ChatRoutes.ChatStore.Valid | server/models/Chat.js:45-54 | the chat collection's invariant: distinct ids below the id counter, unique (patient, doctor) pairs, and every chat schema-valid and in step with its hook |
| ChatRoutes.ChatStore.Save | server/models/Chat.js:45-54 | a save succeeds iff every message passes the schema and no other chat holds the pair; on success it stores the document after the `pre('save')` hook, otherwise nothing changes; the store invariant is kept |
| ChatRoutes.ChatStore.FindOrCreate | server/routes/chat.js:65-83 | the existing chat is returned and nothing changes; or one new empty chat with a fresh id is added and returned |
| ChatRoutes.ChatStore.WithPatient | server/routes/chat.js:50-90 | non-doctor: Forbidden; unknown patient id: NotFound, before any chat is read; neither changes anything; otherwise find-or-create for (caller, patient) whatever the patient's role |
| ChatRoutes.ChatStore.WithDoctor | server/routes/chat.js:93-131 | non-patient: Forbidden; no doctor: NotFound; neither changes anything; otherwise find-or-create pairing the caller with the first doctor |
| ChatRoutes.ChatStore.SendMessage | server/routes/chat.js:134-174 | unknown chat: NotFound; non-participant: Forbidden; missing or blank content: 500; none of these changes anything. Success appends exactly one message (sender = caller, trimmed content, time `t1`) and sets `lastMessage` = `t1`; the chat's other fields and all other chats are unchanged |
| ChatRoutes.ChatStore.ListChats | server/routes/chat.js:26-47 | the caller's chats (as doctor for doctors, as patient for anyone else), each once per stored copy, most recent `lastMessage` first |
| ChatRoutes.ChatStore.GetMessages | server/routes/chat.js:177-202 | NotFound iff no chat has the id; a success returns exactly the messages of the chat with that id, to one of its participants, in stored order; it succeeds iff the doctor reference resolves and the caller is the doctor, or the patient reference also resolves and the caller is the patient (the patient is never read for the doctor); Forbidden for others; 500 exactly when a reference it reads dangles |
| FlatMessages.MarkRead | server/routes/messages.js:51-58 | `updateMany` sets `read` on exactly the messages from the sender to the receiver and changes no other field |
| FlatMessages.MarkReadClearsPair | server/routes/messages.js:52-57 | afterwards, no unread message from the sender to the receiver remains |
| FlatMessages.MarkReadOnlyTouchesPair | server/routes/messages.js:52-57 | a message changes iff it is an unread message from the sender to the receiver |
| FlatMessages.MarkReadIdempotent | server/routes/messages.js:51-58 | marking twice equals marking once |
| FlatMessages.MessageStore.Valid | server/routes/messages.js:30-36 | the flat store's invariant covers only the id generator: every message's id is below the counter and no two messages share an id; content is stored as given, since the direct-message schema (server/models/Message.js) is not part of this model |
| FlatMessages.MessageStore.Conversation | server/routes/messages.js:7-22 | exactly the messages caller→user and user→caller, each as often as stored, in non-decreasing `createdAt` order |
| FlatMessages.MessageStore.Send | server/routes/messages.js:26-45 | exactly one message is appended (sender = caller, receiver as given, given content, unread, `createdAt` = now); the receiver is not checked; earlier messages are unchanged |
| FlatMessages.MessageStore.MarkAsRead | server/routes/messages.js:49-64 | the collection becomes `MarkRead(old, userId, caller)` and the fixed acknowledgement is returned |
| UserModel.ValidUser | backend/models/user.model.js:5-55 | a user record passes the schema: email, name and password are non-empty, the password has at least 6 UTF-16 units, every gender is one of the enum values, every address has a city and a state, and every medical-history entry has its three required fields |
| UserModel.UniqueEmails | backend/models/user.model.js:8 | the unique index on `email`: no two user records share an email |
| UserModel.NewUser | backend/models/user.model.js:5-69 | a new user takes the given fields plus defaults (null numbers, empty arrays) and is valid iff email and name are non-empty and the password has at least 6 UTF-16 units |
| UserModel.CastAppointment | backend/models/user.model.js:56-65 | an appointment's `date` defaults to null and its `reason` to "" |
| DoctorModel.ValidDoctor | backend/models/doctor.model.js:5-18 | a doctor record passes the schema: email, name and password are non-empty and the password has at least 6 UTF-16 units |
| DoctorModel.UniqueEmails | backend/models/doctor.model.js:8 | the unique index on `email`: no two doctor records share an email |
| DoctorModel.NewDoctor | backend/models/doctor.model.js:5-26 | a new doctor takes the given fields, a null phone number and `profilePic` = ""; it is valid iff email and name are non-empty and the password has at least 6 UTF-16 units |
| AuthController.CheckInput | backend/controllers/auth.controller.js:11-17 | "All fields are required" iff a field is missing or empty; otherwise "Password must be at least 6 characters" iff the password is shorter than 6; otherwise no objection |
| AuthController.ViewOfDoctor | backend/controllers/auth.controller.js:41-46 | the doctor response carries id, name and email, no password, and `profilePic` null iff it is empty |
| AuthController.ViewOfUser | backend/controllers/auth.controller.js:88-92 | the user response carries id, name and email and no password |
| AuthController.FreshDoctorViewHasNoPicture | backend/models/doctor.model.js:23-26 | because of the "" default, a freshly created doctor's response has `profilePic: null` |
| AuthController.AccountStore.Valid | backend/models/user.model.js:5-55 | the account store's invariant, kept by both signups: every doctor passes the doctor schema (backend/models/doctor.model.js:5-18) and every user the user schema, emails are unique within each collection (the `unique` index at line 8 of each model), ids are distinct within each collection and between doctors and users, and every id is below the shared id counter |
| AuthController.AccountStore.DoctorSignup | backend/controllers/auth.controller.js:7-51 | input guard failure: that BadRequest; email already among doctors: "Email already exists"; neither changes anything; otherwise exactly one doctor is added with the given name and email and password `hash(password, salt)`, or, when the hash is under 6 UTF-16 units, a 500 with nothing stored; on both of those paths the id counter advances by exactly one; the users are never touched |
| AuthController.AccountStore.UserSignup | backend/controllers/auth.controller.js:54-97 | the same chain against users only; on success exactly one user record with the hashed password is added, a hash under 6 UTF-16 units gives a 500 with nothing stored, and on both paths the id counter advances by exactly one; the doctors are never touched |
| AuthController.AccountStore.Login | backend/controllers/auth.controller.js:100-102 | replies with the fixed text and has no frame to change any account |
| AuthController.AccountStore.Logout | backend/controllers/auth.controller.js:105-107 | replies with the fixed text and has no frame to change any account |

## Left out

- The socket.io relay (`join` and `sendMessage` in `server/index.js`): it is a room broadcast inside a networking library, with concurrency and no state of the core.
- The JWT cookie that `generateToken` sets on signup: it is a foreign call with no effect on the stores.
- `.populate(...)` joins: the model returns ids, not the expanded user objects. The one behaviour a join causes, the null dereference in `GET /:chatId/messages`, is modelled.
- Concurrency: the model is sequential. The check-then-create race between the find-or-create handlers and the unique index, and parallel saves, are not represented.
- Storage failures other than validation and the unique indexes (a lost connection, a malformed ObjectId string that the cast rejects) are not represented. Ids are already-parsed values.
- The chat's `timestamps: true` fields (`createdAt`, `updatedAt`) and the `_id` of each embedded message: no route reads them.
- The non-unique `{lastMessage: -1}` index: it affects performance only.
- The flat Message schema and the server's User schema are not part of this model. For flat messages, `read` = false and `createdAt` = the insert time are assumptions, and content and receiver are stored as given. A user's `role`, `name` and `username` are plain fields.
- Request bodies whose fields are not strings (numbers, objects): fields are modelled as absent or as strings.
- `server/routes/users.js`, `server/scripts/createDoctor.js` and `backend/routes/auth.route.js`: they are query wrappers, a seeding script and a routing table, with no logic of their own.
- The length of a real bcrypt hash: bcrypt output is always 60 characters. Because `hash` is arbitrary here, both signup methods keep the 500 branch that the schema's minimum length on the stored password would take; with real bcrypt that branch is unreachable.
