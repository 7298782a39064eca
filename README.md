# JoyList businesses: input schema and router, in Dafny

JoyList lets signed-in users publish a list of favourite businesses. This
project models the two places where that application has rules of its own:

- **The business input schema** (`src/utils/businessValidator.ts`), in module
  `BusinessValidator` (`business_validator.dfy`). A record has a `name` of 2 to
  280 UTF-16 code units, a `url` that zod's URL check accepts, and a `phone`
  matched by the anchored pattern `^\(?(\d{3})\)?[- ]?(\d{3})[- ]?(\d{4})$`.
  All three fields are required. The pattern is modelled twice. `ParsePhone`
  is a left-to-right recogniser. `InPhoneLanguage` is the declarative language:
  every text spelled out by a well-formed choice of optional characters and
  digit groups. The two are proved equal. The properties of accepted phones
  are proved on top of that: ten digits grouped 3-3-4, only `0-9 ( ) -` and
  space, a length of 10 to 14, and at most one separator between groups.
- **The businesses router** (`src/server/api/routers/businesses.ts`), in module
  `BusinessesRouter` (`businesses_router.dfy`).
  - `AddUserData` is the pure join that pairs each business with its owner.
  - `BusinessRouter` is a class whose field `table` is the Business table,
    keyed by id.
  - Its methods are the procedures `getAll`, `getBusinessById`,
    `getBusinessesByUserId`, `create`, `update` and `delete`.
- `common.dfy` holds `Option`, `Result` and the digit predicate.

Collaborators the model does not look inside are inputs:
- The identity provider's `getUserList` answer is a `seq<User>`.
- The rate limiter's verdict for the caller is `allowed: bool`.
- The database's id generator supplies `newId`.
- The authentication middleware's result is `caller: Option<string>`.
- zod's `.url()` check is the function `isUrl`, fixed when the router is built.

What the code does, as modelled:
- **Order of stages in `create` and `update`.** The caller must be signed in
  (UNAUTHORIZED). Then the input must parse (BAD_REQUEST, with every field's
  issue). Then the rate limiter's verdict decides (TOO_MANY_REQUESTS). Only
  then is the table written. Every failing stage leaves the table unchanged.
  `delete` never consults the rate limiter.
- **No ownership check.** No write path checks who owns the row. `update`
  sets `userId` to the caller, and `delete` removes any row by id.
- **The business type is never written.** The schema has no `type` key, and the
  object parser strips keys outside the schema. So the `type` the resolvers
  read is always `undefined`, and the database treats an `undefined` field as
  "do not set". `create` stores no type, and `update` keeps the stored one.
- **Missing rows.** The database raises an error when `update` or `delete`
  targets a missing id. tRPC reports that error as INTERNAL_SERVER_ERROR.
  `getBusinessById` also throws INTERNAL_SERVER_ERROR for a missing id.
- **Enrichment.** The join fails with NOT_FOUND when no user has the
  business's `userId`. It fails with INTERNAL_SERVER_ERROR when the first
  matching user's username is missing or empty. The first failing business, in
  query order, decides the error. On success, every entry carries the owner's
  own non-empty username, so the `'(username not found)'` fallback is never
  used.

The entry form (`src/components/entryForm.tsx`) offers two fields on terms
the schema does not grant:
- It labels the phone "(Optional)" (`entryForm.tsx:83-85`). The schema's
  `phone` is a plain string that must match the pattern
  (`businessValidator.ts:8`), so a missing phone and the empty text are both
  rejected with BAD_REQUEST.
- It has a Business Type input (`entryForm.tsx:58-67`). The schema has no
  `type` key (`businessValidator.ts:5-9`), so the value is stripped before it
  reaches the router and is never stored, as described above.

Name length is JavaScript's `String.prototype.length` (UTF-16 code units),
written out as `Utf16Length`. The phone pattern is matched character by
character. Without the `u` flag JavaScript matches UTF-16 code units, but
every atom of the pattern is ASCII, and a character outside the Basic
Multilingual Plane becomes two surrogates that no atom matches. So both
readings accept the same texts.

## Model

| member | source | states |
|---|---|---|
| `BusinessValidator.ParsePhone` | src/utils/businessValidator.ts:3 | whatever the recogniser returns is a well-formed split of the pattern that spells out exactly the input |
| `BusinessValidator.ParseAfterArea` | src/utils/businessValidator.ts:3 | after `\(?(\d{3})`, what it returns keeps the pieces already read, takes only `)` and separators as optional characters, has 3 and 4 digit groups, and spells out exactly the rest of the input |
| `BusinessValidator.ParseLine` | src/utils/businessValidator.ts:3 | after the exchange group, what it returns keeps the pieces already read, has a 4-digit line group after at most one separator, and spells out exactly the rest of the input up to its end |
| `BusinessValidator.ParsePhoneComplete` | src/utils/businessValidator.ts:3 | every well-formed split is found again from its text, so each accepted text has exactly one split |
| `BusinessValidator.PhoneMatches` | src/utils/businessValidator.ts:3 | `phoneRegex.test` holds for a text if and only if the text is in the pattern's language |
| `BusinessValidator.AcceptedPhoneHasTenDigits` | src/utils/businessValidator.ts:3 | an accepted phone holds exactly 10 digits, and they are the 3-3-4 capture groups in order |
| `BusinessValidator.WrongDigitCountRejected` | src/utils/businessValidator.ts:3 | a text whose digit count is not 10 is rejected |
| `BusinessValidator.AcceptedPhoneShape` | src/utils/businessValidator.ts:3 | an accepted phone uses only digits, `(`, `)`, `-` and space, and is 10 to 14 characters long |
| `BusinessValidator.AcceptedPhoneSingleSeparators` | src/utils/businessValidator.ts:3 | in an accepted phone every `-` or space is directly followed by a digit |
| `BusinessValidator.DoubledSeparatorRejected` | src/utils/businessValidator.ts:3 | a text with two separators in a row is rejected, wherever they stand |
| `BusinessValidator.TenDigitsAccepted` | src/utils/businessValidator.ts:3 | any text of exactly ten digits is accepted |
| `BusinessValidator.PhoneExampleParenthesised` | src/utils/businessValidator.ts:3 | `(555) 555-1234` is accepted |
| `BusinessValidator.PhoneExampleOpenOnly` | src/utils/businessValidator.ts:3 | `(555 555-1234` is accepted: an opening parenthesis needs no closing one |
| `BusinessValidator.PhoneExampleCloseOnly` | src/utils/businessValidator.ts:3 | `555) 555 1234` is accepted: a closing parenthesis needs no opening one |
| `BusinessValidator.PhoneExamplesRejected` | src/utils/businessValidator.ts:3-8 | `555-1234`, the empty text and `555--555-1234` are rejected |
| `BusinessValidator.Utf16Length` | src/utils/businessValidator.ts:6 | the length zod measures lies between the character count and twice the character count |
| `BusinessValidator.Utf16LengthOfBmp` | src/utils/businessValidator.ts:6 | for text inside the Basic Multilingual Plane that length is the character count |
| `BusinessValidator.NameIssues` | src/utils/businessValidator.ts:6 | the name has no issue exactly when it is present with length 2 to 280; otherwise it has one issue, about the name |
| `BusinessValidator.NameBounds` | src/utils/businessValidator.ts:6 | a name inside the Basic Multilingual Plane is accepted exactly when it has 2 to 280 characters |
| `BusinessValidator.UrlIssues` | src/utils/businessValidator.ts:7 | the url has no issue exactly when it is present and the URL check accepts it; otherwise it has one issue, about the url |
| `BusinessValidator.PhoneIssues` | src/utils/businessValidator.ts:8 | the phone has no issue exactly when it is present and matched by the pattern; otherwise it has one issue, about the phone |
| `BusinessValidator.PhoneIsRequired` | src/utils/businessValidator.ts:8 | a missing phone and an empty phone are both rejected |
| `BusinessValidator.Validate` | src/utils/businessValidator.ts:5-9 | a record passes exactly when name, url and phone all pass, and then yields exactly those three texts; a failing record reports an issue for each failing field and for no other |
| `BusinessValidator.ValidateIgnoresType` | src/utils/businessValidator.ts:5-9 | the submitted business type has no influence on the parse result |
| `BusinessesRouter.FindIndex` | src/server/api/routers/businesses.ts:23 | `find` stops at the first user with the business's `userId`, or runs off the end when there is none |
| `BusinessesRouter.FindUser` | src/server/api/routers/businesses.ts:23 | `find` yields nothing exactly when no user has the id, and otherwise the first user in the list with that id |
| `BusinessesRouter.Truthy` | src/server/api/routers/businesses.ts:31 | an optional username is falsy exactly when it is missing or the empty text |
| `BusinessesRouter.Coalesce` | src/server/api/routers/businesses.ts:42 | `??` keeps a present username, even the empty one, and gives the fallback for a missing one; the fallback text comes out only for a missing value or a username equal to it |
| `BusinessesRouter.AttachUser` | src/server/api/routers/businesses.ts:22-45 | NOT_FOUND exactly when no user has the owner's id; INTERNAL_SERVER_ERROR exactly when the first matching user's username is missing or empty; success exactly when it is present and non-empty, and then the business unchanged with that user's fields and username |
| `BusinessesRouter.AddUserData` | src/server/api/routers/businesses.ts:15-46 | success exactly when every business resolves, with one entry per business in input order; otherwise the error of the first business that fails |
| `BusinessesRouter.AddUserDataKeepsBusinesses` | src/server/api/routers/businesses.ts:22-45 | a successful join returns the input businesses unchanged and in order, and each entry's user id is its business's `userId` |
| `BusinessesRouter.UsernameFallbackUnreachable` | src/server/api/routers/businesses.ts:31-42 | on every successful path the username is present and non-empty, so `??` yields it and never the fallback |
| `BusinessesRouter.FirstMatchingUserWins` | src/server/api/routers/businesses.ts:23 | users after the first one with the owner's id do not change the result |
| `BusinessesRouter.SortByName` | src/server/api/routers/businesses.ts:84-88 | the result is a rearrangement of the input sorted by name ascending |
| `BusinessesRouter.SortedByNameUnique` | src/server/api/routers/businesses.ts:84-88 | when no two different businesses share a name, there is only one name-sorted arrangement of them |
| `BusinessesRouter.SortByNameOrderIndependent` | src/server/api/routers/businesses.ts:82-88 | when no two different businesses share a name, the sorted answer is the same whatever order the query returns the rows in |
| `BusinessesRouter.SortByNameListsExactly` | src/server/api/routers/businesses.ts:82-89 | sorting a query's rows keeps exactly the same rows, each once |
| `BusinessesRouter.ValidateUpdate` | src/server/api/routers/businesses.ts:118 | the update input passes exactly when the base schema passes and an id is given; its issues are the base issues followed by the id's |
| `BusinessesRouter.BusinessRouter.FindMany` | src/server/api/routers/businesses.ts:57-83 | both queries, `getAll`'s unfiltered `findMany()` (line 57) and `getBusinessesByUserId`'s `where: { userId }` (lines 82-83): every stored row the filter selects, each exactly once |
| `BusinessesRouter.BusinessRouter.GetAll` | src/server/api/routers/businesses.ts:56-60 | the join of all rows in some order: on success every row exactly once; success exactly when every row's owner resolves |
| `BusinessesRouter.BusinessRouter.GetBusinessById` | src/server/api/routers/businesses.ts:62-77 | the row stored under the id, or INTERNAL_SERVER_ERROR exactly when there is none |
| `BusinessesRouter.BusinessRouter.GetBusinessesByUserId` | src/server/api/routers/businesses.ts:79-92 | the join of exactly the owner's rows sorted by name; success exactly when each of them resolves |
| `BusinessesRouter.BusinessRouter.Create` | src/server/api/routers/businesses.ts:94-115 | UNAUTHORIZED, then BAD_REQUEST, then TOO_MANY_REQUESTS, each leaving the table unchanged; otherwise adds one row owned by the caller with the submitted name, url and phone and no type, which `GetBusinessById` then returns |
| `BusinessesRouter.BusinessRouter.Update` | src/server/api/routers/businesses.ts:117-141 | the same three rejections, then INTERNAL_SERVER_ERROR for a missing row; otherwise overwrites owner, name, url and phone of that row only, whoever owned it, and keeps its type |
| `BusinessesRouter.BusinessRouter.Delete` | src/server/api/routers/businesses.ts:143-151 | any signed-in caller removes the row with the id and gets it back, with no rate-limit check; a missing row gives INTERNAL_SERVER_ERROR and no change; afterwards `GetBusinessById` fails |

## Left out

- The rate limiter's policy (three requests per one-minute sliding window in a Redis store, `businesses.ts:49-53`) is a foreign library over the network. Only its verdict for the caller is modelled, as `allowed`.
- The identity provider's `getUserList` and `filterUserForClient` are external. The users they return are a parameter, and a `User` keeps only id, username, first and last name and image URL.
- The authentication middleware `privateProcedure` lives in `src/server/api/trpc.ts`, which is not part of this model. Its outcome is the parameter `caller`: absent means UNAUTHORIZED before anything else runs.
- zod's URL parser is not visible. It is the uninterpreted function `isUrl`.
- The database is a map from id to row. Left out: async calls, transactions, concurrent last-write-wins, and every database error other than a missing row in `update` or `delete`.
- BusinessesRouter.BusinessRouter.Create: requires `newId` to be absent from the table, because the database's id generator is trusted to produce fresh ids.
- `findMany` without `orderBy` returns rows in an order the database chooses. `FindMany` picks an arbitrary order, and `GetAll` promises only "some order".
- `orderBy: name asc` is modelled as code-point lexicographic order. The database's collation (case folding, accents) is left out, and so is the order of different businesses with equal names, the one case where the sorted answer may depend on the order the rows arrive in.
- The id-only inputs (`businessId`, `userId`, `id` of `delete`) are taken as texts. Their BAD_REQUEST for a missing or non-string value is not modelled.
- Issue messages are not modelled, only which field failed and why.
- Names and phones are modelled as well-formed Unicode text, a sequence of characters. A JavaScript string may also hold a lone surrogate (`"\ud800\ud800"` has length 2 and passes the name rule); such strings are outside the model.
- The UI components, the profile router, the profile redirect page and the router wiring in `root.ts` are not part of this model.
