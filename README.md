# Library backend: client and book services, modelled in Dafny

This project models the business rules of a library-management REST backend
(clients, books, rentals) that stores its records through an ORM. It covers:

- the **client service**: lookup by CPF, listing, creation with validation and
  a duplicate check, partial editing with a first-match collision check, and
  deletion refused while rentals exist;
- the **book service**: id parsing, lookup, listing, creation with an ISBN
  check, deletion and editing;
- the two **client validation schemas**. Each is a fixed table of five
  field rules, evaluated collect-all into a list of messages. The second
  schema first strips non-digits from the CPF.

The ORM tables become sequences of rows in storage order, so "the first
row a query matches" is well defined. A client table is a class
(`ClientService.ClientService`) with its rows, the number of rentals per
client and the next identifier. The book table is the same
(`BookService.BookService`), with the copies of each book. Operations that
insert, overwrite or remove rows are methods. Their `ensures` give the
whole new table in terms of the old one, and every error path leaves the
table unchanged. Lookups and listings are functions that read the object.

The validators the code imports are kept uninterpreted: `validateCPF`
(whose source is not part of this model) and the schema library's e-mail
syntax test. Both are function values in `ClientSchema.Validators`, and
every property holds for any choice of them.

Files: `envelope.dfy` (the `{ type, message, data, errors }` response),
`store.dfy` (first-match lookup and row removal), `digits.dfy`,
`client_schema.dfy`, `normalized_client_schema.dfy`, `client_service.dfy`,
`book_service.dfy`.

Schema semantics modelled (the schema library's own rules):

- An undefined field fails only its `required` rule, and its other tests
  do not run.
- A defined string runs every test of its field: `required` rejects `""`,
  and the e-mail format test lets `""` through.
- `abortEarly: false` collects the failures of all fields, in field
  declaration order, and within a field in test declaration order.

Behaviour of the code worth noting:

- `createClient` persists `data.cpf` as sent: it ignores the value the
  schema returns and copies the request's fields
  (src/service/ClientService.js:118-126).
- `editClient` checks only the first row matching the new e-mail or CPF,
  not every other client.
- No operation has an error for an absent CPF argument.
- Store faults are logged and rethrown; they are not returned as responses.

## Model

| member | source | states |
|---|---|---|
| `Store.FirstIndex` | src/service/ClientService.js:105-109 | `findFirst`/`findUnique` on the table: None exactly when no row matches; otherwise the position of the first matching row |
| `Store.RemoveAt` | src/service/ClientService.js:242-244 | `delete` removes exactly one row: one row fewer, the rows before keep their positions, the rows after move up by one, and the multiset loses exactly that row |
| `ClientSchema.Failures` | src/shared/cliente.schema.js:4-30 | every test that fails is listed, and only those, whatever the other fields hold; tests are listed in rule-table order, none twice |
| `ClientSchema.Validate` | src/shared/cliente.schema.js:4-30 | the error list is empty iff name, email, cpf, telephone and address are all present and non-empty, the e-mail passes the syntax check and the CPF passes `validateCPF`; each message is present iff its own test fails; no message repeats |
| `ClientSchema.ValidateMessages` | src/shared/cliente.schema.js:5-29 | missing name, e-mail, CPF, telephone or address gives its "… é obrigatório" message; "Email inválido" iff the e-mail is present but malformed; "CPF inválido" iff a defined CPF fails `validateCPF` |
| `ClientSchema.EveryFieldReported` | src/service/ClientService.js:86-94 | collect-all: a request whose name and telephone are `""`, whose address is undefined or `""`, and whose e-mail and CPF are non-empty but fail their checks gets one message per field, in field order |
| `NormalizedClientSchema.StripNonDigits` | src/shared/schemas/clienteSchema.js:16 | the transform's output contains only digits and is no longer than its input |
| `NormalizedClientSchema.StripConcat` | src/shared/schemas/clienteSchema.js:16 | stripping distributes over concatenation, so the digits keep their original order |
| `NormalizedClientSchema.StripKeepsDigits` | src/shared/schemas/clienteSchema.js:16 | each digit occurs in the output as often as in the input; no other character occurs |
| `NormalizedClientSchema.StripFixesExactlyDigitStrings` | src/shared/schemas/clienteSchema.js:16 | the transform leaves a string unchanged iff the string is all digits |
| `NormalizedClientSchema.StripIdempotent` | src/shared/schemas/clienteSchema.js:16 | the transform is idempotent |
| `NormalizedClientSchema.ValidateNormalized` | src/shared/schemas/clienteSchema.js:4-31 | empty iff every field is filled, the e-mail passes, and the stripped CPF is non-empty and passes `validateCPF` |
| `NormalizedClientSchema.NoDigitsMeansMissing` | src/shared/schemas/clienteSchema.js:16-17 | a CPF with no digit becomes empty and yields "CPF é obrigatório" |
| `NormalizedClientSchema.VerdictDependsOnDigitsOnly` | src/shared/schemas/clienteSchema.js:16-21 | two requests that differ only in CPFs carrying the same digits get the same error list |
| `NormalizedClientSchema.StripFormattedCpf` | src/shared/schemas/clienteSchema.js:16 | "111.444.777-35" strips to "11144477735" |
| `NormalizedClientSchema.FormattedCpfSameVerdict` | src/shared/schemas/clienteSchema.js:16-21 | "111.444.777-35" and "11144477735" get the same verdict |
| `NormalizedClientSchema.SameRulesAsRawSchema` | src/shared/schemas/clienteSchema.js:5-30 | the name, e-mail, telephone and address messages are reported by this schema iff the other schema reports them; the CPF messages depend on the stripped value |
| `ClientService.IndexOfCpf` | src/service/ClientService.js:15-17 | `findUnique({ where: { cpf } })`: None iff no row holds exactly that CPF; otherwise a row holding it, with none before it |
| `ClientService.FindDuplicate` | src/service/ClientService.js:105-109 | the create path's OR query finds a row iff some row has the same e-mail or the same CPF |
| `ClientService.InsertKeepsUnique` | src/service/ClientService.js:118-126 | inserting a row whose e-mail and CPF are both unused keeps e-mails and CPFs pairwise distinct |
| `ClientService.RemoveKeepsUnique` | src/service/ClientService.js:242-244 | removing a row keeps e-mails and CPFs pairwise distinct |
| `ClientService.RemovedCpfIsGone` | src/service/ClientService.js:223-244 | after a removal from a table of distinct CPFs, no row holds the removed CPF, so a later lookup or a second delete finds nothing |
| `ClientService.Entries` | src/service/ClientService.js:63-71 | one list entry per row, in storage order, each that row without its id |
| `ClientService.EditCollision` | src/service/ClientService.js:174-190 | the check runs only when `data.email` or `data.cpf` is truthy, and errors iff the first row matching either truthy value has a CPF different from the edited one |
| `ClientService.Patch` | src/service/ClientService.js:193-196 | `update({ where: { cpf }, data })` on one row: each field present in `data` is overwritten, even by `""`; each absent field keeps its value; `updatedAt` becomes the call's time; `id` and `createdAt` are kept; an empty update changes only `updatedAt` |
| `ClientService.PatchIdempotent` | src/service/ClientService.js:193-196 | applying the same partial update twice equals applying it once |
| `ClientService.PatchAddressOnly` | src/service/ClientService.js:193-196 | an update carrying only an address changes the address and sets `updatedAt` to the call's time; name, e-mail, CPF, telephone, id and `createdAt` are kept |
| `ClientService.FirstMatchOnlyAdmitsDuplicateCpf` | src/service/ClientService.js:174-196 | for two clients with different e-mails and different CPFs, where the first one's e-mail and the second one's CPF are non-empty: editing the first with its own e-mail and the second one's CPF passes the first-match check, and patching that row leaves two rows with the same CPF. `EditClient` performs that edit when `validateCPF` accepts the second one's CPF. |
| `ClientService.ClientService.GetClientByCpf` | src/service/ClientService.js:15-39 | an error without data iff no row holds exactly that CPF; otherwise success with a stored row holding that CPF (id, fields, timestamps) |
| `ClientService.ClientService.GetFindsEveryClient` | src/service/ClientService.js:15-39 | with distinct CPFs, looking up a stored client's CPF returns exactly that row |
| `ClientService.ClientService.GetAllClients` | src/service/ClientService.js:51-71 | an error, not an empty list, iff the table is empty; otherwise one id-free entry per row, in storage order |
| `ClientService.ClientService.ListAgreesWithLookup` | src/service/ClientService.js:26-71 | when no two clients share a CPF, each list entry equals the single lookup of that client's CPF minus its id |
| `ClientService.ClientService.CreateCpfRecheckUnreachable` | src/service/ClientService.js:96-102 | once the schema passes, the CPF is present and passes `validateCPF`, so the "CPF inválido." branch is unreachable |
| `ClientService.ClientService.CreateClient` | src/service/ClientService.js:86-140 | schema errors are returned in full, with the table unchanged. An existing e-mail or CPF gives an error, with the table unchanged. Otherwise exactly one row is appended, holding the input's fields and a fresh id, which has no rentals. Distinct e-mails and CPFs stay distinct. |
| `ClientService.ClientService.EditClient` | src/service/ClientService.js:154-196 | Errors, with the table unchanged: the CPF matches no row; a truthy `data.cpf` fails `validateCPF`; the first-match collision. Otherwise only that row changes: present fields are overwritten, absent ones are kept. |
| `ClientService.ClientService.DeleteClient` | src/service/ClientService.js:223-249 | Errors, with the table unchanged: no row holds the CPF; the client has one or more rentals. Otherwise exactly that row is removed and the others keep their order. When CPFs were distinct, a lookup of the deleted CPF then finds nothing. |
| `BookService.ParseId` | src/service/BookService.js:16-19 | an id is accepted iff it is a non-empty string of decimal digits |
| `BookService.ParseShowNat` | src/service/BookService.js:16-19 | every identifier, written in decimal, parses back to itself |
| `BookService.IndexOfId` | src/service/BookService.js:21-26 | None iff no book has that id; otherwise a book with it |
| `BookService.IndexOfIsbn` | src/service/BookService.js:85-87 | None iff no book has that ISBN; otherwise a book with it |
| `BookService.InsertKeepsIsbnsDistinct` | src/service/BookService.js:96-104 | adding a book with an unused ISBN keeps ISBNs distinct |
| `BookService.RemoveKeepsIsbnsDistinct` | src/service/BookService.js:139-141 | removing a book keeps ISBNs distinct |
| `BookService.PatchBook` | src/service/BookService.js:178-186 | the `editBook` update on one book: each present field among isbn, title, publication year and publisher is overwritten; each absent one is kept; the id is kept; an empty update changes nothing |
| `BookService.RemovedIdIsGone` | src/service/BookService.js:139-141 | after a removal from a table of distinct ids, no book has the removed id |
| `BookService.EditAdmitsDuplicateIsbn` | src/service/BookService.js:178-186 | the edit has no ISBN check: giving one book another's ISBN leaves two books with it |
| `BookService.BookService.WithCopies` | src/service/BookService.js:52-56 | each book with its copies, one entry per book, in table order |
| `BookService.BookService.ListBook` | src/service/BookService.js:16-38 | "ID inválido." for a non-numeric id, whatever the table holds. An error iff no book has the id. Otherwise success with that book and its copies. |
| `BookService.BookService.ListAllBooks` | src/service/BookService.js:52-68 | an error iff the table is empty; otherwise every book with its copies, in table order |
| `BookService.BookService.CreateBook` | src/service/BookService.js:85-109 | An existing ISBN gives an error, with the table unchanged. Otherwise exactly one book is appended, with a fresh id and the given isbn, title, publication year and publisher. The new book has no copies, and ISBNs stay distinct. |
| `BookService.BookService.DeleteBook` | src/service/BookService.js:123-145 | "ID inválido." for a non-numeric id, and an error when no book has it, with the table unchanged in both cases. Otherwise exactly that book is removed, and a lookup of the id then finds nothing. Copies are not consulted. |
| `BookService.BookService.EditBook` | src/service/BookService.js:162-191 | "ID inválido." for a non-numeric id, and an error when no book has it, with the table unchanged in both cases. Otherwise title, isbn, year and publisher are overwritten where present, on that book only. No ISBN check is made. |

## Left out

- Routers, the Express app, Swagger/OpenAPI text, CORS and the HTTP controller (status-code mapping) are not part of this model: they hold no business rules.
- Async/await, the try/catch that logs and rethrows storage faults, `console.error`, and check-then-act races between concurrent requests are not modelled. Every store call succeeds in the model.
- The model table enforces no unique index, and `findUnique` is read as "first matching row". `findUnique` on `cpf` and `isbn` implies that the database has unique indexes on them. For such a database, the duplicates that `FirstMatchOnlyAdmitsDuplicateCpf` and `EditAdmitsDuplicateIsbn` exhibit would be store faults, not stored rows.
- Foreign-key behaviour of `deleteBook` on a book that still has copies depends on the database schema, which is not part of this model; the model removes the book and leaves its copies recorded.
- `validateCPF` and the e-mail regular expression are uninterpreted function values; their algorithms are not modelled.
- `BookService.ParseId`: models `Number(id)` plus `isNaN` only on decimal-digit strings. JavaScript also accepts `""` (as 0), signed numbers such as `"-1"`, surrounding blanks, hexadecimal, exponents, fractions and `Infinity`. The model rejects them all as "ID inválido.", where the source goes on to the lookup. Digit strings above 2^53 are parsed exactly, where `Number` rounds them.
- Store-assigned values: the client and book ids come from a counter (`nextId`), which stands for the database's auto-increment. `createdAt`/`updatedAt` are the `now` argument of each call.
- Request bodies are modelled as the five client fields, or the four book fields, each a string (or an integer year) or undefined. Not modelled: `null` values, non-string values the schema library would cast, and extra keys that `editClient` would forward to the update.
- `BookService.BookService.CreateBook`: every field is taken as present. A missing `isbn` or required column makes the ORM throw, which is not modelled.
- `ClientService.ClientService.CreateClient`: the second CPF check (src/service/ClientService.js:96-102) is not a branch of the method. `CreateCpfRecheckUnreachable` proves it can never fail.
- Schema version: the schema library's 1.x semantics are modelled. Under 0.x, an undefined CPF would also get "CPF inválido" besides "CPF é obrigatório".
- The digit-stripping schema (src/shared/schemas/clienteSchema.js) is modelled on its own. The service imports the other schema.
- The `rentals` relation appears only as a count per client id, and the copies only as a list per book id. Both refer only to identifiers already handed out, which stands for the foreign keys. The classes' invariants also keep row identifiers distinct, which stands for the primary keys. The model has no operation that creates rentals.
