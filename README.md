# devconnectAPI: a verified model of the request handlers

devconnectAPI is an Express and MongoDB back end for a developer social network. It has three routers:

- **users:** register, log in, who am I.
- **posts:** create and delete posts, like and unlike, comment and delete comments.
- **profiles:** create or edit a profile, add and remove experience and education entries, read profiles, delete one's profile.

Every body-taking route except login first runs a Joi validator. Login reads `email` and `password` from the body unchecked. The validator answers 400 with a field-to-message map, or lets the request through.

This project models that core in Dafny and proves properties of the model.

## How the model is organised

- **One module per source file.**
  - `UsersRouter`, `PostsRouter` and `ProfilesRouter` are the routers.
  - `UserValidation`, `PostValidation`, `ExperienceValidation`, `EducationValidation`, `ProfileValidation` and `ObjectIdValidation` are the validators.
  - `UserModel`, `PostModel` and `ProfileModel` are the models.
  - Shared vocabulary lives in `Common`, `Json` and `Arrays`.
  - `Joi` models the part of the Joi library the validators use. `Strings` models `String.prototype.split`.
- **Stores.** Each collection is the field of a store class (`UserStore`, `PostStore`, `ProfileStore`). The field is a `seq` of documents in the collection's natural order.
  - Every route is a method of that class, with `modifies this`.
  - Each method is proved against a handler function `HandleX(old(collection), ...)`, which returns the answer and the new collection.
  - The mutating methods also keep the collection's invariant. For posts and profiles it is `Consistent`: unique ids, one like per user, one profile per user and per handle, and the fields Mongoose requires. For users it is `Valid`: unique ids and unique emails.
  - `findOne` is the first match in natural order (`Arrays.FindFirst`). The methods compute it with the scanning loop `Arrays.Find`.
- **Request bodies** are parsed JSON objects with their members in the order sent (`Json.Body`). Of duplicate members the last one counts, as `JSON.parse` keeps it.
- **Answers.** A handler answers `Ok(body)` or `Err(status, errors)`. It answers `Fault` when an exception escapes it. Examples are an ObjectId cast error in the driver, a dereference of a missing document, and `bcrypt.compare` on a missing password. The app mounts its own error middleware (startup/routes.js:16) and a start-up error handler (server.js:7); what they then answer is not part of this model.
- **Joi is a rule engine.**
  - A schema is a sequence of field rules.
  - `Joi.Details` lists every violation in Joi's `abortEarly: false` order: declared keys in order, nested keys inside `social`, then the undeclared members.
  - `Joi.CollectErrors` is the validators' `forEach` loop that folds the details into the error map. A later detail overwrites an earlier one.
  - Each validator is proved against a direct statement of its rules (`Acceptable`): the verdict passes exactly when those rules hold, and every failing field has an entry in the map.
- **Parameters.** The email, URI and date formats Joi checks are parameters (`Common.Formats`). So are bcrypt and the JWT signer (`UserModel.Crypto`), and the database-supplied ids, the salt and the clock.
- **Two-stage handlers.** POST /profile is validation followed by `SaveFields`, the `findOne`/handle-check/`$set`-or-`new` logic. POST /experience and /education are validation followed by `PushExperience`/`PushEducation` of the picked entry, whose `current` is Mongoose's Boolean cast of the sent value (`StoredCurrent`). Properties of the store are proved on the second stage and carried to the handler.

Three routes behave differently from what their code evidently intends (see "## Findings").

- **As-written members.** Each of these routes is modelled as written, by a member whose name ends in `AsWritten`.
- **Corrected members.** Each also has a corrected member, and the stores use the corrected one.
- **Linking lemmas.** For each pair:
  - one lemma shows the input on which the two differ;
  - another shows that they agree everywhere else.

## Model

| member | source | states |
|---|---|---|
| Arrays.IndexOf | routes/posts.js:99-102 | `indexOf` answers -1 exactly when the key is absent, and otherwise the first position holding it |
| Arrays.Splice | routes/posts.js:102 | `splice(start, 1)` removes the element at `start`; a negative start counts from the end; a start past the end removes nothing |
| Arrays.SpliceMinusOneDropsLast | routes/posts.js:176-180 | without the `index < 0` guard, `splice(-1, 1)` would drop the last element of a non-empty array |
| Arrays.SpliceAtIndexOf | routes/profiles.js:237-246 | splicing at the `indexOf` of a present key removes exactly the first entry with that key, keeps the others in order, and removes one element of the multiset |
| Arrays.FindFirst | routes/profiles.js:115 | `findOne` answers -1 exactly when no document matches, and otherwise the first match in natural order |
| Arrays.Find | routes/profiles.js:115 | the scanning loop `findOne` runs stops at exactly the position `FindFirst` names |
| Json.LookupFinds | routes/profiles.js:103 | `body[key]` is defined exactly when some member has that key, and it is then the value of the last such member |
| Json.LookupLast | startup/routes.js:11 | a member added at the end decides `body[key]` for its key and leaves the other keys as they were |
| Json.StrMember | routes/posts.js:48 | a member is read as a string exactly when it is present and is a JSON string |
| Strings.Split | routes/profiles.js:103-105 | `split(',')` gives at least one piece, no piece contains a comma, and the pieces joined with commas give back the string |
| Strings.SplitJoin | routes/profiles.js:103-105 | splitting the comma-join of comma-free pieces gives back exactly those pieces, which makes split and join inverse to each other |
| Strings.PieceSplit | routes/profiles.js:104 | a comma-free piece, a comma and a rest split into the piece followed by the rest's pieces |
| Strings.PieceAlone | routes/profiles.js:104 | a comma-free string splits into itself alone |
| Strings.Utf16Length | validations/user.js:6-8 | a JavaScript `length` lies between the number of characters and twice it |
| Strings.Utf16LengthOfBmp | validations/user.js:6-8 | without characters beyond U+FFFF the JavaScript length is the number of characters |
| Strings.TwoEmojiLength | validations/user.js:6 | two emoji have the JavaScript length 4 |
| Joi.RuleKeys | validations/profile.js:14-20 | the keys of a rule list are exactly the keys its rules declare |
| Joi.FieldKeys | validations/profile.js:4-21 | the keys of a schema are exactly the keys its fields declare |
| Joi.NatText | validations/user.js:6-8 | the text of a `min`/`max` limit in a message is the limit's decimal numeral: digits only, denoting the limit, with no leading zero |
| Joi.Tag | validations/profile.js:28 | every violation code of a key becomes one detail at that key's path, in order |
| Joi.Unknown | validations/profile.js:23 | undeclared members yield no detail exactly when every member is declared, and each detail they yield is `object.unknown` |
| Joi.RuleCodesEmpty | validations/experience.js:4-12 | the evaluator reports no violation for a key exactly when the key's declarative rule holds |
| Joi.RulesDetailsEmpty | validations/profile.js:14-20 | a nested object yields no detail exactly when each of its rules holds on the member it names |
| Joi.FieldDetailsEmpty | validations/profile.js:4-21 | one schema entry yields no detail exactly when what it demands of the body holds |
| Joi.SchemaDetailsEmpty | validations/profile.js:4-21 | the declared keys yield no detail exactly when every entry's demand holds |
| Joi.DetailsEmpty | validations/profile.js:23 | `validate` reports no error exactly when the body conforms: every rule holds and no member is undeclared |
| Joi.FieldDetailInDetails | validations/profile.js:23 | every violation of one schema entry appears in the whole body's details |
| Joi.SchemaDetailIn | validations/profile.js:23 | every violation of one schema entry appears among the declared keys' details |
| Joi.UnknownContains | validations/profile.js:23 | an undeclared member at any position yields an `object.unknown` detail under its key |
| Joi.DetailShape | validations/profile.js:28-35 | a nested path occurs only under a declared object sent as an object; a top-level path names a declared key or an undeclared member |
| Joi.SchemaDetailSource | validations/profile.js:23 | every detail of the declared keys comes from one particular schema entry |
| Joi.RulesDetailShape | validations/profile.js:14-20 | every detail of a nested object has that object as its head and a nested name |
| Joi.UnknownShape | validations/profile.js:23 | a top-level `object.unknown` detail names an undeclared member that the body sends |
| Joi.FieldDetailShape | validations/profile.js:28-35 | a detail of an entry is headed by that entry's key, and it is nested only when the entry is an object sent as an object |
| Joi.GroupNotObject | validations/profile.js:14-20 | a declared object sent as a non-object yields the single `object.base` detail and nothing nested |
| Joi.DetailOrigin | validations/profile.js:28-35 | every detail comes either from one schema entry under its key, or from an undeclared top-level member sent in the body |
| Joi.LeafReported | validations/user.js:11 | a failing top-level rule yields a detail under its key |
| Joi.UnknownReported | validations/user.js:11 | an undeclared member yields `object.unknown` under its own key |
| Joi.LeafDetails | validations/user.js:11 | a failing top-level rule yields at least one detail, all of them under its key and unnested |
| Joi.RequiredTextHolds | validations/post.js:6 | `string().required()` passes exactly when the member is a non-empty string |
| Joi.OptionalTextHolds | validations/profile.js:7 | an optional string passes exactly when it is absent or a string, and it may be empty only with `allow('')` |
| Joi.RequiredDateHolds | validations/experience.js:8 | `date().required()` passes exactly when the member is a timestamp within a JavaScript `Date`'s range (at most 8.64e15 ms from the epoch either way) or a date string |
| Joi.OptionalDateHolds | validations/experience.js:9 | `date()` passes exactly when the member is absent, a timestamp within a JavaScript `Date`'s range or a date string |
| Joi.OptionalFlagHolds | validations/experience.js:10 | `boolean().allow('')` passes exactly when the member is absent, a boolean or `''` |
| Joi.ErrorMapKeys | validations/post.js:14-17 | the error map has an entry for each detail's key and for nothing else |
| Joi.ErrorMapLastWins | validations/post.js:14-17 | the message kept for a key is that of the last detail with that key |
| Joi.ErrorMapSettles | validations/profile.js:28-36 | once all later details for a key carry one message, the map keeps that message whatever came before |
| Joi.UndeclaredKeySettles | validations/profile.js:23-36 | undeclared members are reported after the declared keys, so each one's `is not allowed` message is the one its key keeps |
| Joi.UnknownUndeclared | validations/profile.js:23 | every top-level `object.unknown` detail is about an undeclared key |
| Joi.SettlesInSuffix | validations/profile.js:28-36 | a message settled in the later part of the details is the one the whole map keeps |
| Joi.NotAllowedMessage | validations/profile.js:35 | the message of an undeclared member is `"<key>" is not allowed` |
| Joi.MessageStartsWithLabel | validations/profile.js:35 | every message filed in the map opens with the detail's quoted label, then a space |
| Joi.CollectErrors | validations/post.js:11-17 | the `forEach` loop builds exactly the last-wins map and gives every detail's key an entry |
| Joi.OutcomeReportsAll | validations/post.js:13-22 | the validator passes (returns 0) exactly when there is no detail, and otherwise answers 400 with every detail's key in the map |
| Joi.LeafKeyed | validations/user.js:11-21 | a failing top-level rule refuses the body, and its key has an entry in the map |
| Joi.UnknownKeyed | validations/user.js:11-21 | an undeclared member refuses the body, and its name has an entry in the map |
| Joi.Validate | validations/post.js:9-22 | running a schema and folding its details answers the verdict the details determine |
| UserValidation.SchemaKeys | validations/user.js:5-9 | the schema declares exactly `name`, `email` and `password` |
| UserValidation.FieldsMeanRules | validations/user.js:6-8 | the rules mean: a name of 3 to 30 characters, an e-mail address, and a password of 8 to 20 characters, all required, with lengths in UTF-16 code units as JavaScript counts them |
| UserValidation.Verdict | validations/user.js:4-25 | registration bodies pass exactly when they satisfy the rules, lengths counted in UTF-16 code units; otherwise the answer is 400 |
| UserValidation.TwoEmojiNameOk | validations/user.js:6 | a name of two emoji is long enough, being four code units long |
| UserValidation.AllViolationsReported | validations/user.js:11-21 | each failing field and each undeclared member has its own entry in the error map |
| UserValidation.Validate | validations/user.js:4-25 | the validator computes exactly that verdict |
| PostValidation.SchemaKeys | validations/post.js:4-7 | the schema declares exactly `name` and `text` |
| PostValidation.FieldsMeanRules | validations/post.js:5-6 | the rules mean: an optional non-empty `name` and a required non-empty `text` |
| PostValidation.Verdict | validations/post.js:3-23 | post and comment bodies pass exactly when they satisfy the rules; otherwise the answer is 400 |
| PostValidation.AllViolationsReported | validations/post.js:9-20 | a bad name, a missing or empty text, and each undeclared member get their own entries |
| PostValidation.DuplicateTextLastWins | validations/post.js:4-7 | a body sending an empty `text` and then a non-empty one passes, since the later member counts |
| PostValidation.PassGivesText | validations/post.js:6 | an accepted body carries a non-empty string `text` |
| PostValidation.Validate | validations/post.js:3-23 | the validator computes exactly that verdict |
| ExperienceValidation.FieldAt | validations/experience.js:4-12 | each schema position holds one of the seven declared keys |
| ExperienceValidation.SchemaKeys | validations/experience.js:4-12 | the schema declares exactly the seven experience keys |
| ExperienceValidation.FieldsMeanRules | validations/experience.js:5-11 | each rule in words: required title and company, optional location and description with `''` allowed, required `from` date (a timestamp within a `Date`'s range or a date string), optional `to` date, `current` a boolean or `''` |
| ExperienceValidation.FieldsHoldMeansRules | validations/experience.js:4-12 | all schema entries hold exactly when those seven conditions hold |
| ExperienceValidation.ConformsMeansAcceptable | validations/experience.js:4-14 | conforming to the schema is the same as satisfying the stated rules |
| ExperienceValidation.Verdict | validations/experience.js:3-28 | experience bodies pass exactly when acceptable; otherwise the answer is 400 |
| ExperienceValidation.AllViolationsReported | validations/experience.js:14-25 | each failing field (title, company, location, from, to, current, description) and each undeclared member has its own entry |
| ExperienceValidation.OutOfRangeFromRefused | validations/experience.js:8 | a numeric `from` of 10^16 ms, beyond a `Date`'s range, refuses the body with an entry for `from` |
| ExperienceValidation.Validate | validations/experience.js:3-28 | the validator computes exactly that verdict |
| EducationValidation.FieldAt | validations/education.js:4-12 | each schema position holds one of the seven declared keys |
| EducationValidation.SchemaKeys | validations/education.js:4-12 | the schema declares exactly the seven education keys |
| EducationValidation.FieldsMeanRules | validations/education.js:5-11 | each rule in words: required school, degree and field of study, required `from` date (a timestamp within a `Date`'s range or a date string), optional `to` date, `current` a boolean or `''`, optional description |
| EducationValidation.FieldsHoldMeansRules | validations/education.js:4-12 | all schema entries hold exactly when those seven conditions hold |
| EducationValidation.ConformsMeansAcceptable | validations/education.js:4-14 | conforming to the schema is the same as satisfying the stated rules |
| EducationValidation.Verdict | validations/education.js:3-27 | education bodies pass exactly when acceptable; otherwise the answer is 400 |
| EducationValidation.AllViolationsReported | validations/education.js:14-25 | each failing field (school, degree, fieldofstudy, from, to, current, description) and each undeclared member has its own entry |
| EducationValidation.Validate | validations/education.js:3-27 | the validator computes exactly that verdict |
| ProfileValidation.FieldAt | validations/profile.js:4-21 | each schema position holds a declared key; only position 9 (`social`) is an object; none is called `undefined` |
| ProfileValidation.SchemaKeys | validations/profile.js:4-21 | the schema declares exactly the ten profile keys |
| ProfileValidation.SocialKeysAre | validations/profile.js:14-20 | `social` declares exactly its five networks |
| ProfileValidation.SocialMeansRules | validations/profile.js:15-19 | the `social` members pass exactly when each network is absent or a string |
| ProfileValidation.SocialFieldMeansRule | validations/profile.js:14-20 | `social` passes exactly when it is absent, or an object with valid networks and nothing else |
| ProfileValidation.UserRuleMeans | validations/profile.js:5 | `user` passes exactly when it is absent or a 24-hex-digit string |
| ProfileValidation.WebsiteRuleMeans | validations/profile.js:8 | `website` passes exactly when it is absent, `''`, or a URI |
| ProfileValidation.FieldsMeanRules | validations/profile.js:5-13 | each top-level rule in words |
| ProfileValidation.FieldsHoldMeansRules | validations/profile.js:4-21 | all schema entries hold exactly when the ten stated conditions hold |
| ProfileValidation.ConformsMeansAcceptable | validations/profile.js:4-23 | conforming to the schema is the same as satisfying the stated rules |
| ProfileValidation.Verdict | validations/profile.js:3-42 | profile bodies pass exactly when acceptable; otherwise the answer is 400 (corrected error keys) |
| ProfileValidation.VerdictAsWritten | validations/profile.js:3-42 | the same pass/fail verdict under the as-written key choice |
| ProfileValidation.KeyAsWritten | validations/profile.js:30-34 | the as-written key differs from the corrected one exactly for a detail about `social` itself, which it files under "undefined" |
| ProfileValidation.Key | validations/profile.js:30-34 | corrected: a detail is filed under its top-level key, or under the network name when it lies inside `social` |
| ProfileValidation.AllViolationsReported | validations/profile.js:27-37 | a bad user, handle, website or status, and each undeclared member, get their own entries |
| ProfileValidation.SocialMemberKeyedByName | validations/profile.js:30-31 | a failing `social` network is filed under its own name, e.g. `twitter` |
| ProfileValidation.NestedDetailIn | validations/profile.js:14-20 | a network's violation appears among the `social` object's details |
| ProfileValidation.RulesDetailIn | validations/profile.js:14-20 | a violation of one of the rules nested under `social` appears among the details of `social` |
| ProfileValidation.UndeclaredMemberMessageWins | validations/profile.js:28-36 | an undeclared member keeps its `is not allowed` message, even when a network of the same name failed earlier |
| ProfileValidation.SocialNotObjectNoNested | validations/profile.js:14-20 | a non-object `social` yields no nested detail |
| ProfileValidation.SocialNotObjectOnly | validations/profile.js:14-20 | a non-object `social` yields only `object.base` about `social` |
| ProfileValidation.UndefinedFromBody | validations/profile.js:29-35 | a detail headed `undefined` can only come from a body member of that name |
| ProfileValidation.SocialNotObjectDetail | validations/profile.js:23 | a non-object `social` yields an `object.base` detail at some position |
| ProfileValidation.KeysWhenSocialNotObject | validations/profile.js:29-35 | with a non-object `social`, as written nothing is keyed `social` and only its detail is keyed `undefined`; the corrected key files exactly that detail under `social` |
| ProfileValidation.SocialNotObjectAsWritten | validations/profile.js:30-35 | as written, a non-object `social` is reported under "undefined" and not under `social` |
| ProfileValidation.SocialNotObjectReported | validations/profile.js:30-35 | with the corrected key, the same failure is reported under `social` with Joi's `object.base` message |
| ProfileValidation.SocialNotObjectKeyed | validations/profile.js:28-36 | the corrected map files the `object.base` message under `social` |
| ProfileValidation.Validate | validations/profile.js:3-42 | the validator computes exactly the corrected verdict |
| ObjectIdValidation.Check | validations/objectId.js:3-12 | an id passes exactly when it is absent or 24 hex digits; otherwise the answer is 400 with exactly `{objectId: 'Invalid objectId'}` |
| ObjectIdValidation.OnlyFormatMatters | validations/objectId.js:4 | the verdict depends on nothing but whether the id is well-formed |
| PostModel.LikeUsers | models/post.js:15-22 | `likes.map(like => like.user)` keeps one entry per like, in order |
| PostModel.CommentIds | models/post.js:23-41 | `comments.map(c => c._id)` keeps one entry per comment, in order |
| ProfileModel.CastBoolean | models/profile.js:38-41 | Mongoose's Boolean cast: absent gives the default false; a boolean is itself; 1, 'true', '1', 'yes' give true; 0, 'false', '0', 'no' give false; any other number or string, null and objects (`''` among them) fail |
| ProfileModel.StoredCurrent | models/profile.js:38-41 | the stored `current` is true exactly when the cast gives true, so a failed cast stores the default false; a stored true was sent truthy |
| ProfileModel.ExperienceIds | models/profile.js:17-44 | the experience ids in entry order |
| ProfileModel.EducationIds | models/profile.js:45-70 | the education ids in entry order |
| UsersRouter.HandleRegister | routes/users.js:25-42 | a refused body answers the validator's 400; an accepted body with a stored email answers 400 `email`; otherwise the new user is appended and its id, name and email are answered, and success holds exactly in that case |
| UsersRouter.HandleLogin | routes/users.js:47-62 | a token is only issued for a stored user with the given email, signing that user's id and name |
| UsersRouter.HandleCurrentUser | config/passport.js:12-21 | the current user is answered exactly when the token's id is stored, and then it is that stored user's id, name and email, without password and date; otherwise 401 (passport ends the response with the text `Unauthorized` before the handler runs; the model writes this as `Err(401, map[])`) |
| UsersRouter.RegisterValidatesFirst | routes/users.js:26-27 | a refused body gets the same answer whatever is stored, and nothing is stored |
| UsersRouter.RegisterKeepsValid | routes/users.js:29-40 | registration keeps ids and emails unique |
| UsersRouter.RegisterStoresHash | routes/users.js:35-41 | the stored password is the salted hash of the sent one, never the plain text (for a hiding hash), and the answer is the stored user's public part |
| UsersRouter.NewUser | routes/users.js:35-38 | the new user has the minted id, the sent name and email, and the salted hash of the sent password |
| UsersRouter.RegisterTwiceRefused | routes/users.js:29-33 | registering the same email again answers 400 `email` and stores nothing |
| UsersRouter.LoginOutcomes | routes/users.js:48-61 | the three answers of login: unknown email 404, wrong password 404, and otherwise a bearer token, each in exactly its case |
| UsersRouter.RegisterThenLogin | routes/users.js:25-62 | whoever registered can log in with the same email and password and receives their own token (for a sound bcrypt) |
| UsersRouter.UserStore.Register | routes/users.js:25-42 | the store changes exactly as HandleRegister says and keeps ids and emails unique |
| UsersRouter.UserStore.Login | routes/users.js:47-62 | answers HandleLogin on the stored users |
| UsersRouter.UserStore.CurrentUser | routes/users.js:14-20 | answers HandleCurrentUser on the stored users |
| PostsRouter.InsertByDate | routes/posts.js:15 | inserting a post keeps the same posts plus the new one |
| PostsRouter.InsertKeepsNewestFirst | routes/posts.js:15 | inserting into a newest-first list keeps it newest first |
| PostsRouter.InsertKeepsBound | routes/posts.js:15 | insertion keeps an upper bound on dates |
| PostsRouter.HandleGet | routes/posts.js:26-36 | a malformed id answers 400; otherwise the post with that id is answered exactly when one exists, and 404 otherwise |
| PostsRouter.HandleCreate | routes/posts.js:41-57 | a refused body answers the validator's 400 and stores nothing; an accepted one appends a post with the text, the requester's id and name, and no likes or comments |
| PostsRouter.NewPost | routes/posts.js:48-52 | the new post has the requester's id and name as author, whatever `name` the body sends, no likes or comments, and, for an accepted body, the sent non-empty text |
| PostsRouter.HandleDelete | routes/posts.js:62-80 | a malformed id answers 400, a missing post 404 `{post: ...}`; success removes exactly the requester's own post with that id; failures change nothing |
| PostsRouter.HandleToggleLike | routes/posts.js:85-120 | a malformed id answers 400; a well-formed one succeeds exactly when a post has it, and 404 otherwise; on success the post's likes are toggled in place and nothing else changes |
| PostsRouter.HandleAddCommentAsWritten | routes/posts.js:125-147 | as written: a failure changes nothing (the id check reads a parameter the route does not have) |
| PostsRouter.HandleAddComment | routes/posts.js:125-147 | corrected: a malformed id answers 400, a refused body the validator's 400, and nothing escapes; an accepted body succeeds exactly when a post has the id, and 404 otherwise; success puts the new comment first on that post and nothing else changes |
| PostsRouter.HandleDeleteComment | routes/posts.js:152-185 | malformed ids answer 400, a missing post 404; success requires the post's author and a comment with that id, and only that post changes |
| PostsRouter.LikedIffListed | routes/posts.js:95-99 | the `filter` test finds a like exactly when the user is among the likers |
| PostsRouter.CommentFoundIffListed | routes/posts.js:168-176 | the `filter` test finds a comment exactly when its id is listed |
| PostsRouter.ToggleRemovesOrAppends | routes/posts.js:95-112 | an existing liker's first like is removed and the others keep their order; otherwise a like is appended |
| PostsRouter.UnlikeRemoves | routes/posts.js:99-104 | the unlike removes one like of the user, at the first position holding one, and changes the multiset by exactly that like |
| PostsRouter.LikeAppends | routes/posts.js:107-110 | a first like is appended at the end |
| PostsRouter.RemovalKeepsUnique | routes/posts.js:102 | removing a like keeps likers unique and removes that liker |
| PostsRouter.AppendKeepsUnique | routes/posts.js:108 | appending a new liker's like keeps likers unique |
| PostsRouter.ToggleKeepsUniqueLikers | routes/posts.js:95-112 | toggling keeps at most one like per user |
| PostsRouter.ToggleFlipsLike | routes/posts.js:95-112 | toggling flips whether the user likes the post |
| PostsRouter.ToggleTwiceRestores | routes/posts.js:95-112 | liking and then unliking gives back the likes as they were |
| PostsRouter.CreateThenGet | routes/posts.js:26-57 | a post created under a fresh id is what fetching that id answers |
| PostsRouter.CreateThenDelete | routes/posts.js:41-80 | the author deleting a just-created post gives back the collection |
| PostsRouter.DeleteNeedsAuthor | routes/posts.js:72-73 | anyone but the author gets 401 and the post stays |
| PostsRouter.DeleteByAuthorSucceeds | routes/posts.js:69-78 | the author deleting their post gets `Deleted`, and exactly that post is removed, the others keeping their order |
| PostsRouter.ToggleLikeAt | routes/posts.js:92-118 | a like toggle on a stored post succeeds, answering and storing the post with its likes toggled |
| PostsRouter.AddCommentAt | routes/posts.js:132-145 | a valid comment on a stored post succeeds, answering and storing the post with the new comment first |
| PostsRouter.DeleteCommentOutcomes | routes/posts.js:162-183 | for a stored post: a non-author gets 401 and an absent comment 404, both writing nothing; otherwise the first comment with that id is removed and the post stored |
| PostsRouter.MalformedIdIgnoresStore | routes/posts.js:27-28 | a malformed id is answered the same whatever the collection holds |
| PostsRouter.ReplaceKeepsConsistent | routes/posts.js:113-114 | replacing a post by a valid one with the same id keeps the collection consistent |
| PostsRouter.CreateKeepsConsistent | routes/posts.js:52-54 | creating a post under a fresh id keeps the collection consistent |
| PostsRouter.AppendKeepsConsistent | routes/posts.js:52-54 | appending a valid post without likes under a fresh id keeps the collection consistent |
| PostsRouter.ToggleLikeKeepsConsistent | routes/posts.js:85-120 | a like toggle keeps the collection consistent |
| PostsRouter.AddCommentKeepsConsistent | routes/posts.js:125-147 | adding a comment keeps the collection consistent |
| PostsRouter.PrependKeepsSavable | routes/posts.js:142 | adding a comment with text keeps the post savable |
| PostsRouter.AddCommentPrepends | routes/posts.js:134-142 | the new comment is first and carries the requester's id and name, whatever `name` the body sends |
| PostsRouter.NewComment | routes/posts.js:138-140 | the new comment has the fresh id and the requester's id and name, whatever `name` the body sends, and, for an accepted body, the sent non-empty text |
| PostsRouter.DeleteCommentRemovesIt | routes/posts.js:168-180 | a successful deletion answers the author's post with exactly the first comment with that id removed, the rest of the post unchanged, and stores it in place |
| PostsRouter.AddThenDeleteComment | routes/posts.js:125-185 | the author deleting a just-added comment gives back the collection |
| PostsRouter.DeleteCommentAfterAdd | routes/posts.js:152-185 | deleting the front comment by its id leaves the rest |
| PostsRouter.DeleteKeepsConsistent | routes/posts.js:75-77 | deleting a post keeps the collection consistent |
| PostsRouter.RemoveCommentKeepsSavable | routes/posts.js:180 | removing a comment keeps the post savable |
| PostsRouter.DeleteCommentKeepsConsistent | routes/posts.js:152-185 | deleting a comment keeps the collection consistent |
| PostsRouter.UncastableCommentTarget | routes/posts.js:128-132 | with an accepted body and an uncastable id, the route as written lets the cast error escape, while the corrected route answers 400 |
| PostsRouter.UncastableCommentTargetExample | routes/posts.js:129 | concretely, `POST /comment/xyz` with `{text: "Nice post"}` |
| PostsRouter.CommentRoutesAgree | routes/posts.js:125-147 | on a well-formed id the two versions agree |
| PostsRouter.PostStore.List | routes/posts.js:14-21 | answers the same posts newest first, or 404 exactly when there are none |
| PostsRouter.PostStore.Get | routes/posts.js:26-36 | answers HandleGet |
| PostsRouter.PostStore.Create | routes/posts.js:41-57 | the store changes exactly as HandleCreate says and stays consistent |
| PostsRouter.PostStore.Delete | routes/posts.js:62-80 | the store changes exactly as HandleDelete says and stays consistent |
| PostsRouter.PostStore.ToggleLike | routes/posts.js:85-120 | the store changes exactly as HandleToggleLike says and stays consistent |
| PostsRouter.PostStore.AddComment | routes/posts.js:125-147 | the store changes exactly as the corrected HandleAddComment says and stays consistent |
| PostsRouter.PostStore.DeleteComment | routes/posts.js:152-185 | the store changes exactly as HandleDeleteComment says and stays consistent |
| ProfilesRouter.HandleGetOwn | routes/profiles.js:16-31 | the requester's profile is answered exactly when they have one, and otherwise 404 |
| ProfilesRouter.HandleAll | routes/profiles.js:36-43 | every profile, or 404 exactly when there are none |
| ProfilesRouter.HandleByHandle | routes/profiles.js:49-60 | a profile with that handle exactly when one exists, and otherwise 404 |
| ProfilesRouter.HandleByUser | routes/profiles.js:66-80 | a malformed id answers 400; otherwise the same answer as the user's own profile lookup |
| ProfilesRouter.SaveFields | routes/profiles.js:115-146 | a refusal is exactly 400 `handle` with nothing written; a success answers a profile of that user with that handle |
| ProfilesRouter.HandleUpsert | routes/profiles.js:85-148 | a refused body answers the validator's 400 with nothing written; an accepted one saves the picked fields for the requester |
| ProfilesRouter.PushExperience | routes/profiles.js:173-183 | answers null exactly when the requester has no profile, and then writes nothing; otherwise appends the entry to their profile only |
| ProfilesRouter.PushEducation | routes/profiles.js:209-219 | the same for education |
| ProfilesRouter.HandleAddExperience | routes/profiles.js:153-185 | a refused body answers the validator's 400 and writes nothing; otherwise the picked entry, with `current` as Mongoose stores it, is pushed, and nothing escapes |
| ProfilesRouter.HandleAddEducation | routes/profiles.js:190-221 | the same for education |
| ProfilesRouter.EmptyCurrentStoredFalse | routes/profiles.js:169-183 | an accepted `current: ''` is answered 200: the entry is pushed with `current` false and `to` as sent |
| ProfilesRouter.NewExperience | routes/profiles.js:160-171 | the entry has the fresh id and the stored `current`, the picked members as sent, and `to` null exactly when the sent `current` is truthy |
| ProfilesRouter.NewEducation | routes/profiles.js:197-208 | the same for education |
| ProfilesRouter.CurrentNeverNull | validations/experience.js:10 | `Joi.boolean().allow('')` refuses `null`, so no accepted experience or education body sends a null `current` |
| ProfilesRouter.HandleRemoveExperience | routes/profiles.js:226-251 | a malformed id answers 400, no profile 404; success removes an entry with that id from the requester's profile only; failures write nothing |
| ProfilesRouter.HandleRemoveEducationAsWritten | routes/profiles.js:256-279 | as written: a failure writes nothing |
| ProfilesRouter.HandleRemoveEducation | routes/profiles.js:256-279 | corrected: as for experience, with a 404 for a missing profile and nothing escaping |
| ProfilesRouter.HandleDelete | routes/profiles.js:284-292 | always answers `{deleted: true}`; removes the requester's profile when there is one, and otherwise writes nothing |
| ProfilesRouter.OwnerFound | routes/profiles.js:115 | in a consistent collection, the requester's profile is the one `findOne` picks |
| ProfilesRouter.HolderFound | routes/profiles.js:119-123 | the handle check finds a profile whenever some profile holds the handle |
| ProfilesRouter.SaveChangedHandleTaken | routes/profiles.js:117-125 | an existing profile asking for another profile's handle gets 400 and nothing is written |
| ProfilesRouter.SaveChangedHandleFree | routes/profiles.js:117-133 | an existing profile moving to a handle no profile holds is `$set` in place |
| ProfilesRouter.SaveSameHandleSets | routes/profiles.js:117-133 | an existing profile keeping its handle is `$set` in place, whatever other profiles hold |
| ProfilesRouter.SaveNewHandleTaken | routes/profiles.js:134-142 | a new profile asking for a held handle gets 400 and nothing is saved |
| ProfilesRouter.SaveCreates | routes/profiles.js:134-146 | a new profile with a free handle is appended and answered |
| ProfilesRouter.PickedFromBody | routes/profiles.js:92-101 | the picked fields of an accepted body carry the requester and the sent handle and status, both non-empty |
| ProfilesRouter.Picked | routes/profiles.js:92-101 | the requester is the owner, and each whitelisted string member is taken as sent; `skills` is picked exactly when sent |
| ProfilesRouter.PickedSkills | routes/profiles.js:103-105 | `skills` is split exactly when it is sent, into comma-free pieces that join back to it |
| ProfilesRouter.PickedSocial | routes/profiles.js:107-113 | `social` gives the five networks of a sent object and nothing from anything else |
| ProfilesRouter.PickedReadsOnlyThese | routes/profiles.js:92-113 | two bodies that agree on the picked members give the same fields, whatever else they carry |
| ProfilesRouter.SetFields | routes/profiles.js:127-131 | `$set` writes every sent field and keeps the id, the entries and every optional field not sent |
| ProfilesRouter.NewProfile | routes/profiles.js:135 | a new profile carries the fields under the minted id, with no entries, no skills unless sent, and no optional field that was not sent |
| ProfilesRouter.UpsertAnswer | routes/profiles.js:85-148 | a successful upsert came from an accepted body and is the save of its picked fields |
| ProfilesRouter.SaveCarries | routes/profiles.js:127-146 | a saved profile carries every required field and every optional field that was sent |
| ProfilesRouter.UpsertWritesPicked | routes/profiles.js:92-113 | an upsert writes the requester as `user`, the sent handle and status, the comma-split skills when sent, and the picked `social` as a whole |
| ProfilesRouter.UpsertWritesOptional | routes/profiles.js:92-100 | each optional whitelisted field that is sent is the one written |
| ProfilesRouter.SkillsRoundTrip | routes/profiles.js:103-105 | the stored skills are comma-free pieces that join back to the sent string |
| ProfilesRouter.ReplaceKeepsConsistent | routes/profiles.js:127-131 | replacing a profile for the same user, under its own handle or a free one, keeps the collection consistent |
| ProfilesRouter.AppendKeepsConsistent | routes/profiles.js:144 | appending a profile with a new user and a free handle keeps the collection consistent |
| ProfilesRouter.SaveKeepsConsistent | routes/profiles.js:115-146 | a save keeps one profile per user and per handle |
| ProfilesRouter.UpsertKeepsConsistent | routes/profiles.js:85-148 | an upsert keeps one profile per user and per handle |
| ProfilesRouter.SetFieldsTwice | routes/profiles.js:129 | `$set` with the same fields twice is the same as once |
| ProfilesRouter.SetFieldsOnNew | routes/profiles.js:129-135 | `$set` of the fields a profile was created from changes nothing |
| ProfilesRouter.SaveStoredAgain | routes/profiles.js:117-133 | saving to a profile that already carries the fields changes nothing |
| ProfilesRouter.SaveIdempotent | routes/profiles.js:115-146 | a second save of the same fields answers the same and writes nothing new |
| ProfilesRouter.UpsertIdempotent | routes/profiles.js:85-148 | sending the same profile twice: the second upsert answers the same and writes nothing new |
| ProfilesRouter.SaveThenGetOwn | routes/profiles.js:16-31 | after a successful save, the user's own profile is the one answered |
| ProfilesRouter.UpsertThenGetOwn | routes/profiles.js:16-148 | after a successful upsert, GET / answers the profile the upsert answered |
| ProfilesRouter.NewExperienceSavable | routes/profiles.js:160-171 | an entry picked from an accepted body can be saved |
| ProfilesRouter.NewEducationSavable | routes/profiles.js:197-208 | the same for education |
| ProfilesRouter.AddExperienceAppends | routes/profiles.js:160-183 | a success appends exactly one entry, with the fresh id, at the end of the requester's profile; a truthy `current` leaves `to` null; the entry is current exactly when the sent value casts to true, and then has no end |
| ProfilesRouter.PushExperienceKeepsConsistent | routes/profiles.js:173-181 | pushing a savable entry keeps the collection consistent |
| ProfilesRouter.AddExperienceKeepsConsistent | routes/profiles.js:153-185 | adding experience keeps the collection consistent |
| ProfilesRouter.AppendExperienceKeepsSavable | routes/profiles.js:176-178 | appending a savable entry keeps the profile savable |
| ProfilesRouter.PushEducationKeepsConsistent | routes/profiles.js:209-217 | pushing a savable entry keeps the collection consistent |
| ProfilesRouter.AddEducationKeepsConsistent | routes/profiles.js:190-221 | adding education keeps the collection consistent |
| ProfilesRouter.AppendEducationKeepsSavable | routes/profiles.js:212-214 | appending a savable entry keeps the profile savable |
| ProfilesRouter.RemoveExperienceMissing | routes/profiles.js:237-244 | an id on none of the requester's entries answers 404 and writes nothing |
| ProfilesRouter.RemoveEducationMissing | routes/profiles.js:265-272 | the same for education |
| ProfilesRouter.RemoveExperiencePresent | routes/profiles.js:235-249 | the requester's profile holding an entry with that id loses exactly the first such entry and is stored in place |
| ProfilesRouter.RemoveEducationPresent | routes/profiles.js:263-277 | the same for education |
| ProfilesRouter.RemoveExperienceRemovesIt | routes/profiles.js:237-249 | a successful removal answers the requester's profile with exactly the first entry with that id taken out, the others in order, and stores it in place |
| ProfilesRouter.RemoveEducationRemovesIt | routes/profiles.js:265-277 | the same for education |
| ProfilesRouter.ResetSameOwner | routes/profiles.js:248 | saving the requester's profile keeps it the one `findOne` picks |
| ProfilesRouter.RemoveExperienceAppended | routes/profiles.js:237-246 | the last-appended entry under a new id is what `indexOf` finds, and splicing it gives back the entries |
| ProfilesRouter.RemoveEducationAppended | routes/profiles.js:265-274 | the same for education |
| ProfilesRouter.RemoveExperienceAfterAdd | routes/profiles.js:226-251 | removing the entry just appended restores the profile's entries |
| ProfilesRouter.RemoveEducationAfterAdd | routes/profiles.js:256-279 | the same for education |
| ProfilesRouter.PushThenRemoveExperience | routes/profiles.js:173-249 | removing an entry just pushed under a fresh, well-formed id gives back the collection |
| ProfilesRouter.AddThenRemoveExperience | routes/profiles.js:153-251 | POST /experience followed by DELETE of the new entry gives back the collection |
| ProfilesRouter.PushThenRemoveEducation | routes/profiles.js:209-277 | the same for education |
| ProfilesRouter.AddThenRemoveEducation | routes/profiles.js:190-279 | the same for education |
| ProfilesRouter.DeleteRemovesOwn | routes/profiles.js:288-290 | deleting keeps the collection consistent, leaves the requester without a profile, and keeps everyone else's |
| ProfilesRouter.RemoveAtKeepsConsistent | routes/profiles.js:288 | removing one profile keeps the collection consistent, and no other profile has that user |
| ProfilesRouter.RemoveAtKeepsOthers | routes/profiles.js:288 | removing one profile keeps all the others |
| ProfilesRouter.RemoveEducationWithoutProfile | routes/profiles.js:263-265 | for a requester without a profile, the route as written dereferences the missing profile, while the corrected route answers 404 and writes nothing |
| ProfilesRouter.RemoveEducationWithoutProfileExample | routes/profiles.js:263-265 | concretely, an empty collection and the id `5f8d0d55b54764421b7156c9` |
| ProfilesRouter.EducationRoutesAgree | routes/profiles.js:256-279 | when the requester has a profile, the two versions agree |
| ProfilesRouter.RemoveExperienceKeepsSavable | routes/profiles.js:246 | removing an entry keeps the profile savable |
| ProfilesRouter.RemoveEducationKeepsSavable | routes/profiles.js:274 | removing an entry keeps the profile savable |
| ProfilesRouter.RemoveExperienceKeepsConsistent | routes/profiles.js:226-251 | removing experience keeps the collection consistent |
| ProfilesRouter.RemoveEducationKeepsConsistent | routes/profiles.js:256-279 | removing education keeps the collection consistent |
| ProfilesRouter.ProfileStore.GetOwn | routes/profiles.js:16-31 | answers HandleGetOwn |
| ProfilesRouter.ProfileStore.All | routes/profiles.js:36-43 | answers HandleAll |
| ProfilesRouter.ProfileStore.ByHandle | routes/profiles.js:49-60 | answers HandleByHandle |
| ProfilesRouter.ProfileStore.ByUser | routes/profiles.js:66-80 | answers HandleByUser |
| ProfilesRouter.ProfileStore.Upsert | routes/profiles.js:85-148 | the store changes exactly as HandleUpsert says and stays consistent |
| ProfilesRouter.ProfileStore.AddExperience | routes/profiles.js:153-185 | the store changes exactly as HandleAddExperience says and stays consistent |
| ProfilesRouter.ProfileStore.AddEducation | routes/profiles.js:190-221 | the store changes exactly as HandleAddEducation says and stays consistent |
| ProfilesRouter.ProfileStore.RemoveExperience | routes/profiles.js:226-251 | the store changes exactly as HandleRemoveExperience says and stays consistent |
| ProfilesRouter.ProfileStore.RemoveEducation | routes/profiles.js:256-279 | the store changes exactly as the corrected HandleRemoveEducation says and stays consistent |
| ProfilesRouter.ProfileStore.Delete | routes/profiles.js:284-292 | the store changes exactly as HandleDelete says and stays consistent |

## Left out

- Express routing, the `passport.authenticate` middleware and the lodash `_.pick` machinery are not modelled as code. A handler receives the authenticated user as a value, and the picks are written out field by field.
- `populate('user', ['name', ...])` in GET /profile, /profile/all, /handle and /user is left out. A profile's `user` stays an id in the answer, because joining with the users collection is the driver's work.
- MongoDB and Mongoose themselves are not modelled: queries, casting, `save`, `findOneAndUpdate` and `findOneAndRemove`.
  - Ordering: a collection is a sequence in natural order, and `findOne` picks its first match.
  - Date casting: `from` and `to` keep the JSON value as sent.
  - Id comparison: `indexOf` over stored ObjectIds (routes/posts.js:99-101, 176-178) is taken to compare each id with the request's string by value. In routes/profiles.js:237-239 and 265-267 the ids are the `id` string virtual, so there the comparison by value is the source's own.
  - Id case: ids are compared as exact strings. Mongoose casts a 24-digit hex id case-insensitively, so a request naming a stored id in upper case finds the document in the source but is answered 404 by the model.
- Query-operator objects sent where a string is expected are not modelled as operators. For example, `{"email": {"$ne": null}}` at login is treated as an email that matches no user.
- bcrypt and jsonwebtoken are parameters (`UserModel.Crypto`). The salt rounds, the secret key and the token format are left out.
- Joi's `email()`, `uri()` and `date()` formats are parameters (`Common.Formats`).
- CastBoolean: a `null` value gives None (a failed cast), while Mongoose's Boolean cast keeps `null` as `null`. No accepted body sends a null `current` (ProfilesRouter.CurrentNeverNull), so no route reaches the difference.
- Joi's case-insensitive boolean strings are left out. Joi's `convert` is on, and the model follows it where it matters: date strings for `date()`, 'true' and 'false' for `boolean()`. `string()` does not convert non-strings, so a number sent for a string field is refused.
- Joi.Unknown: an undeclared member sent twice yields one `is not allowed` detail per occurrence, where `JSON.parse` keeps a single member and Joi reports it once. Both details carry the same key and message, so the error map is the same.
- HandleAddExperience, HandleAddEducation: that a value the Boolean cast refuses is recorded on the new sub-document and never reported, so the push goes ahead with `current` false, is assumed from Mongoose's behaviour; Mongoose is not part of this model.
- Floating-point numbers are left out; JSON numbers are integers. So are JSON arrays in request bodies, which the schemas reject as non-strings anyway.
- `Date.now`, the database-supplied ids and the bcrypt salt are parameters of the handlers.
- Concurrency is left out. Two requests can interleave between the uniqueness checks (users.js:29, profiles.js:119 and 137) and the writes. The model runs each handler atomically.
- Database errors, the connection (startup/db.js) and server start-up (server.js, startup/routes.js) are left out.
- UsersRouter.HandleCurrentUser: the 401 that passport sends, with the text body `Unauthorized`, is written as `Err(401, map[])`; the text body is not modelled.
- UsersRouter.HandleLogin: the function's own contract states only the success case. The error answers are stated by `LoginOutcomes` for bodies whose email and password are strings. A non-string email is answered 404, and a missing password escapes from `bcrypt.compare`.
- `PostsRouter.PostStore.List` answers one newest-first order of the posts. Among posts with equal dates, the order MongoDB returns them in is not modelled.
- ProfilesRouter.HandleAll: the answer keeps the collection's natural order, as `find()` without `sort` does.
- ProfilesRouter.HandleRemoveEducationAsWritten and PostsRouter.HandleAddCommentAsWritten carry only the "a failure writes nothing" contract. Their behaviour is stated through the lemmas that compare them with the corrected versions.

## Findings

| source | as written | input that shows it | evidently intended | confidence | as-written member | corrected member |
|---|---|---|---|---|---|---|
| validations/profile.js:30-34 | a detail whose path starts with `social` is keyed by `path[1]`, which does not exist for the `object.base` detail about `social` itself, so the message is filed under the key "undefined" | body `{handle: "h", status: "s", social: "x"}` | the message filed under `social` | not executed | ProfileValidation.SocialNotObjectAsWritten | ProfileValidation.SocialNotObjectReported |
| routes/posts.js:129 | the comment route validates `req.params.user_id`, which this route does not have, so the check always passes and a malformed `:id` reaches `findById`, whose cast error escapes | `POST /comment/xyz` with body `{text: "Nice post"}` | 400 `{objectId: 'Invalid objectId'}`, as the other `:id` routes answer | not executed | PostsRouter.UncastableCommentTargetExample | PostsRouter.HandleAddComment |
| routes/profiles.js:263-265 | the education removal dereferences the profile `findOne` returns without checking it, so a requester without a profile makes the handler throw | `DELETE /education/5f8d0d55b54764421b7156c9` by a user with no profile | 404 `{error: 'Profile not found'}`, as the experience route answers | not executed | ProfilesRouter.RemoveEducationWithoutProfileExample | ProfilesRouter.HandleRemoveEducation |
