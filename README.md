# Contacts API core: users, tokens and per-owner contacts

This project models the logic of a small contacts REST API (Express on
Node.js) and proves properties of it in Dafny 4.11. The model covers:

- the **user service**: the in-memory `usuarios` array and its seed user,
  registration with a presence check and a duplicate check on login *or*
  email, the bcrypt hash of each password, the credential check, and the
  password-free listing;
- the **contact service**: the in-memory `contatos` array, where every
  contact is tagged with its owner's `usuarioId`, and create, list, update
  and delete scoped to the caller;
- the **controllers**: the `autenticar` middleware (Authorization header,
  the `Bearer <token>` split, `jwt.verify`, setting `req.usuarioId`), and
  how each route turns a service result into a status and a JSON body;
  login issues a token for the authenticated user's id.

Modules follow the source: `UserModel` (models/userModel.js),
`UserService` and `ContactService` (the two services; each store is a
class with a `seq` field that its methods reassign, the way the source
`push`es, assigns fields and `splice`s), `UserController` and
`ContactController` (the two routers), plus `Bcrypt` and `Jwt` for the two
libraries, `Text` for `String.prototype.split` and the token's text, and
`Base` for Option, the `{ erro }`-or-value result, JavaScript truthiness
of a request field and `Array.prototype.findIndex`. `Scenarios` replays
the two REST tests and a full session.

The main proved properties:

- Logins and emails stay unique across the user store (`UserStore.Valid`,
  kept by `Register`). Given that, logging in succeeds exactly when some
  stored user has that login and the password matches its hash.
- Contact operations are isolated by owner. Create, update and delete run
  as user `u` leave every other user's listing exactly as it was. Update
  touches only the first contact matching both id and owner, and only its
  three fields. Delete removes exactly that contact and keeps the order of
  the rest.
- Every contact route runs `autenticar` first. A request it rejects gets
  401 and leaves the store untouched.
- A token issued at login, sent as `<any word> <token>`, opens the
  contact routes as that user for one hour, and is rejected afterwards.

Things the model takes as parameters: the clock (whole seconds, as
`jsonwebtoken` reads it), the ids `Date.now().toString()` produces, and
the salt `bcrypt.hashSync` draws. Nothing assumes ids are unique. The
contacts array comes from `models/contactModel.js`, which is not part of
this model, and is taken to start empty.

Behaviours of the code worth knowing:

- PUT /contatos/:id answers a missing or foreign contact with 400, while
  DELETE /contatos/:id answers 404. The update's "not found" check runs
  before validation, so a missing contact is reported as not found even
  when the body is incomplete.
- The user service's credential check returns the user, and the login
  handler signs the token with it.
- A returned user has `senha` set to `undefined` (`PublicUser` has no such
  field), so the field is absent from the JSON.

## Model

| member | source | states |
|---|---|---|
| `Base.FindIndex` | services/contactService.js:34 | `findIndex`/`find`: the index of the first element satisfying the predicate, and None only if no element does |
| `Text.Split` | controllers/contactController.js:11 | `split(' ')` yields at least one piece and no piece contains the separator |
| `Text.JoinSplit` | controllers/contactController.js:11 | joining the pieces of a split with the separator gives back the header |
| `Text.SplitJoin` | controllers/contactController.js:11 | splitting a join of separator-free pieces gives back exactly those pieces |
| `Bcrypt.HashSync` | services/userService.js:21 | a hash made from a password with 8 rounds matches that password under `compareSync` |
| `Bcrypt.CompareSync` | services/userService.js:30 | `compareSync` accepts a password exactly when the stored digest was made from that password, whatever its rounds and salt |
| `Jwt.Sign` | controllers/userController.js:23 | a signed token contains no space, so it survives the `Bearer <token>` split |
| `Jwt.VerifySign` | controllers/contactController.js:13-14 | a token signed for `id` verifies with the same secret to exactly `id` while the clock is before `iat + expiresIn`, and fails from then on |
| `Jwt.Verify` | controllers/contactController.js:13 | `jwt.verify` fails exactly when the token is not three dot-separated pieces, its tag was not made from this secret and its claims, its `id` or `exp` claim does not decode, or the clock has reached `exp`; otherwise it yields the decoded `id` |
| `UserModel.Seed` | models/userModel.js:3-12 | the initial store holds exactly one user: id "1", login "usuario1", email "usuario1@gmail.com", and a hash that matches "senha123" |
| `UserService.Blank` | services/userService.js:24 | the user handed out keeps id, nome, telefone, email and login, and has no password |
| `UserService.ValidateUser` | services/userService.js:4-9 | no error exactly when all five fields are present and non-empty; otherwise the "Todos os campos devem ser preenchidos." message |
| `UserService.Existing` | services/userService.js:11-13 | a stored user is found exactly when one has the same login or the same email (exact comparison), and the one found does |
| `UserService.AppendKeepsUnique` | services/userService.js:18-23 | appending a user whose login and email are both absent from the store keeps logins and emails unique |
| `UserService.Authenticate` | services/userService.js:27-34 | success exactly when the first user with that login has a hash matching the password; it returns that user; every failure has the same message |
| `UserService.AuthenticateUnique` | services/userService.js:27-33 | with unique logins, login succeeds exactly when some stored user has that login and a matching hash |
| `UserService.ListUsers` | services/userService.js:36-38 | the listing has one entry per stored user, in order, each with the same fields except the password |
| `UserService.NewUser` | services/userService.js:21-22 | the stored record has the body's fields, the fresh id and the hash of the password, which matches it |
| `UserService.UserStore.constructor` | models/userModel.js:3-14 | the store starts as the seed, which satisfies login and email uniqueness |
| `UserService.UserStore.Register` | services/userService.js:15-25 | an incomplete body or a duplicate login or email is an error and leaves the store unchanged; otherwise exactly one user is appended, uniqueness is kept, and the returned user matches it without the password |
| `ContactService.ValidateContact` | services/contactService.js:3-8 | no error exactly when nome, telefone and email are present and non-empty |
| `ContactService.NewContact` | services/contactService.js:13 | the new contact has the body's three fields, the fresh id and the caller as owner, whatever `id`/`usuarioId` the body sent |
| `ContactService.Overwritten` | services/contactService.js:27-29 | an update changes nome, telefone and email and keeps id and owner |
| `ContactService.Owned` | services/contactService.js:18-20 | the listing holds exactly the store's contacts owned by the caller |
| `ContactService.OwnedAppend` | services/contactService.js:19 | the listing keeps store order: it distributes over concatenation |
| `ContactService.OwnedAfterAppend` | services/contactService.js:14-19 | an appended contact joins its owner's listing at the end and no other listing |
| `ContactService.OwnedAfterRemove` | services/contactService.js:34-36 | removing a contact of another owner leaves a listing unchanged |
| `ContactService.OwnedAfterReplace` | services/contactService.js:23-29 | rewriting the fields of another owner's contact leaves a listing unchanged |
| `ContactService.ContactStore.constructor` | services/contactService.js:1 | the contacts store starts empty |
| `ContactService.ContactStore.Create` | services/contactService.js:10-16 | an incomplete body is an error and leaves the store unchanged; otherwise exactly one contact, owned by the caller, is appended; only the caller's listing changes |
| `ContactService.ContactStore.Update` | services/contactService.js:22-31 | no contact matching id and owner: "not found" before validation, store unchanged; incomplete body: error, store unchanged; otherwise only the three fields of the first match change; ids, owners and other owners' contacts never change |
| `ContactService.ContactStore.Delete` | services/contactService.js:33-38 | no match: "not found", store unchanged; otherwise exactly the first match is removed, the rest keep their order, and other owners' listings are unchanged |
| `ContactController.BearerToken` | controllers/contactController.js:11 | the token taken from the header never contains a space |
| `ContactController.BearerTokenAfterScheme` | controllers/contactController.js:11 | the token is the second space-separated word, whatever the first word is |
| `ContactController.BearerTokenWithoutSpace` | controllers/contactController.js:11 | a header without a space yields no token |
| `ContactController.Authenticate` | controllers/contactController.js:8-19 | a missing or empty header is answered 401 "Token não fornecido."; a header whose token does not verify is answered 401 "Token inválido."; otherwise the request goes on with `usuarioId` set to the token's id |
| `ContactController.AuthenticateIssued` | controllers/contactController.js:8-19 | a header `<scheme> <token>` with a token issued for `id` lets the request through as `id` for one hour, then is answered 401 "Token inválido." |
| `ContactController.CreateReply` | controllers/contactController.js:23-25 | a service error is a 400 with its message; success is a 201 with the created contact |
| `ContactController.UpdateReply` | controllers/contactController.js:36-38 | every service error, "not found" included, is a 400; success is a 200 with the updated contact |
| `ContactController.DeleteReply` | controllers/contactController.js:43-45 | the service error is a 404; success is a 200 with the service's message |
| `ContactController.Post` | controllers/contactController.js:22-26 | rejected by `autenticar`: its 401, store unchanged; incomplete body: 400, store unchanged; otherwise 201 with the contact appended for the token's user |
| `ContactController.Get` | controllers/contactController.js:29-32 | rejected: its 401; otherwise 200 with exactly the token user's contacts, in store order |
| `ContactController.Put` | controllers/contactController.js:35-39 | rejected: 401, store unchanged; no matching contact: 400 "Contato não encontrado.", store unchanged; incomplete body: 400; otherwise 200 with the contact after the overwrite |
| `ContactController.Delete` | controllers/contactController.js:42-46 | rejected: 401, store unchanged; no matching contact: 404, store unchanged; otherwise 200 and the first match removed |
| `UserController.RegisterReply` | controllers/userController.js:10-12 | a service error is a 400 with its message; success is a 201 with the user |
| `UserController.PostRegistro` | controllers/userController.js:9-13 | 201 exactly when the body is complete and neither login nor email is taken, with exactly that user appended; otherwise 400 with the reason and the store unchanged |
| `UserController.Login` | controllers/userController.js:16-25 | a missing login or senha is a 400 whatever the store holds; a failed check is a 401; a 200 carries a token signed for the authenticated user's id with a one-hour expiry |
| `UserController.LoginTokenSubject` | controllers/userController.js:23-24 | the login token verifies to the authenticated user's id for one hour and not after |
| `UserController.ListReply` | controllers/userController.js:28-31 | GET / is a 200 listing every user in order, fields kept, password removed |
| `Scenarios.SeedUserLogsIn` | test/rest/external/contato.test.js:7-17 | as long as the seed user is first in the store, "usuario1"/"senha123" logs in as user "1" |
| `Scenarios.LoginThenAuthorize` | controllers/userController.js:6-24 | both routers share the secret, so a login token sent as `<scheme> <token>` lets contact requests through as the logged-in user for one hour, and is rejected afterwards |
| `Scenarios.ContatoTest` | test/rest/external/contato.test.js:4-32 | logging in as the seed user gives 200, and creating a contact with `Bearer <token>` gives 201 "Contato criado com sucesso." |
| `Scenarios.LoginTest` | test/rest/external/login.test.js:4-20 | registering usuario2 next to the seed gives 201 "Usuário registrado com sucesso." |
| `Scenarios.Session` | controllers/contactController.js:21-46 | register, wrong password, right password, create, list, delete, list give 201, 401, 200, 201, 200, 200, 200; the first listing holds only the new contact and the second is empty |

## Left out

- `app.js`: Express and Swagger wiring and the catch-all 404 for unknown routes. Only the two routers' handlers are modelled.
- Test tooling: the k6 load scripts (`test/k6/performance.js` and its helpers), which need the network, time and randomness, and the report generator `test/k6/generateReport.js`, which does file I/O and floating-point statistics.
- Bcrypt.HashSync: the key derivation, salting and cost are not modelled; a digest keeps its password.
- Bcrypt.CompareSync: matching is exact equality of passwords. Real bcrypt ignores password bytes past the 72nd, so it also accepts a different password with the same first 72 bytes; its comparison is also constant-time. Neither is modelled.
- Jwt.Verify: the token format is a stand-in. It has the same dot-separated, space-free shape as a compact JWT, but carries hex text and a deterministic tag in place of base64url and HMAC-SHA256. So the model does not capture resistance to forgery, the JOSE header, or claims other than `id` and `exp`. The stand-in rejects a token under any secret other than the one it was signed with. HMAC pads short keys with zero bytes, so a key and the same key followed by NUL bytes accept each other's tokens; that is not modelled.
- JSON bodies are modelled as absent-or-string fields. Non-string values (numbers, booleans, `null`) and their truthiness are not modelled. Extra keys, which the object spread copies into stored users and contacts, are not modelled either.
- The contact an update returns is the stored object itself. The model returns a copy, so in-place aliasing is not modelled.
- Exceptions outside the modelled paths, such as `bcrypt.compareSync` given a non-string, become Express's default 500 and are not modelled.
- Concurrency: the source runs on one thread and has no locking, so interleaved requests are not considered.
