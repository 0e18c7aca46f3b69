# A verified model of the agenda-go clinic manager core

agenda-go is a small clinic-management web application: an Express server
keeps users, clients, services and appointments in memory and exposes them
through REST handlers, and a React client lists, searches and edits them.
This Dafny project models the parts of it that make decisions:

- **the in-memory store** (`server/storage.ts`). Each `Map` from id to
  record becomes a sequence of records in insertion order. Its operations
  are pure functions from a store to a result and a new store. The services
  and appointments the handlers use are modelled the same way. The store
  code for them is not part of this model, so they keep only the fields the
  handlers read;
- **the request handlers** (`server/routes.ts`) for login, clients and
  appointments. Each one maps a store and a request to an `Outcome` and the
  store afterwards. The outcome fixes the HTTP status and the error message;
- **the validators** of `shared/schema.ts`: `insertClientSchema`, its
  `.partial()` form, and `loginSchema`;
- **the page helpers** of the client:
  - the phone formatter of the registration page;
  - the duration formatter and submit choice of the services page;
  - the stock classifier, low-stock alert and product search of the products page;
  - the client search;
  - the status colour and appointment filter of the appointments page.

Modules:
- `Wrappers`: `Option` and `Result`.
- `Seqs`: filtering, finding, subsequences.
- `Text`: ASCII lower-casing, `includes`, digit strings and integer rendering.
- `Schema`, `Storage`, `Routes`, `RouteProperties`.
- `PhoneFormat`, `Servicos`, `Produtos`, `Clientes`, `Agendamentos`.

Modelling choices:
- `randomUUID` is a fresh-id parameter. The operations that use it require
  the id to be unused in its collection.
- zod's email-format check is a function parameter `isEmail`.
- Numbers the pages read with `Number()` or `parseInt` arrive already
  parsed: quantities as `real`, minutes as `int`.
- A JavaScript truthiness test on a string is a test for the empty string.
- Unlike creation (server/routes.ts:264-283), the appointment update
  handler (server/routes.ts:326-365) does not check that the client or the
  service exists. The model follows the code.

## Model

| member | source | states |
|---|---|---|
| Seqs.Filter | client/src/pages/clientes.tsx:40-44 | `Array.prototype.filter`: the result keeps only passing elements, is no longer than the input and is an order-preserving subsequence of it |
| Seqs.FilterMembers | client/src/pages/produtos.tsx:251-253 | an element is in a filtered list exactly when it is in the input and passes the predicate |
| Seqs.FilterCounts | client/src/pages/produtos.tsx:251-253 | filtering keeps every passing element as many times as the input holds it and drops every failing one |
| Seqs.FilterKeepsAll | client/src/pages/clientes.tsx:40-44 | when every element passes, the filtered list is the input itself |
| Seqs.FindIndex | server/storage.ts:38-42 | `Array.prototype.find`'s position: the first index whose element passes, or none exactly when no element passes |
| Seqs.Find | server/routes.ts:287-289 | `Array.prototype.find`: none exactly when no element passes; otherwise an element of the input that passes, with no passing element before it |
| Seqs.Take | client/src/pages/produtos.tsx:583 | `slice(0, n)`: a prefix of the input, of length n or the whole input when it is shorter |
| Text.Lower | client/src/pages/clientes.tsx:41-42 | `toLowerCase`: same length, each character lower-cased on its own, ASCII capitals to small letters and everything else unchanged |
| Text.Includes | client/src/pages/clientes.tsx:41-43 | `String.prototype.includes`: the empty term is in every string, a found term is no longer than the string, and at equal lengths only the string itself is found |
| Text.Digits | client/src/pages/client-registration.tsx:59 | `replace(/\D/g, "")`: the result holds only digits and is an order-preserving subsequence of the input |
| Text.DigitsCounts | client/src/pages/client-registration.tsx:59 | the digit string keeps every digit of the input as often as the input holds it, and no other character |
| Text.IntToString | client/src/pages/servicos.tsx:184-186 | decimal rendering of a number in a template literal: non-empty, digits and '-' only, and all digits exactly when the number is not negative |
| Text.IncludesIffOccurs | client/src/pages/clientes.tsx:41-43 | `String.prototype.includes` holds exactly when the term occurs at some position of the string |
| Text.IntRoundTrip | client/src/pages/servicos.tsx:184-186 | rendering an integer in plain decimal and reading it back gives the integer |
| Schema.ParseClient | shared/schema.ts:25-34 | a client body is accepted exactly when name and phone are non-empty strings, the email passes the format check and observations is missing, null or a string; otherwise the error names exactly the failing fields |
| Schema.ParseClientPatch | shared/schema.ts:25-34 | the partial form accepts a body exactly when every supplied field meets its rule; a supplied field reaches the patch with the body's value, observations as given or null, and an unsupplied field stays unsupplied |
| Schema.ParseLogin | shared/schema.ts:36-39 | a login body is accepted exactly when username and password are both non-empty strings; otherwise the error names each one that is not |
| Schema.EmptyNameRejected | shared/schema.ts:33 | a body with an empty name is rejected by both forms, with the name among the errors |
| Schema.EmptyPhoneRejected | shared/schema.ts:31 | a body with an empty phone is rejected by both forms, with the phone among the errors |
| Schema.MalformedEmailRejected | shared/schema.ts:32 | a body whose email fails the format check is rejected by both forms, with the email among the errors |
| Schema.ObservationsOptional | shared/schema.ts:17 | a body that is otherwise valid is accepted with observations missing or null, and the parsed value says which |
| Storage.Init | server/storage.ts:21-32 | a fresh store holds one user, "admin" with password "admin123", and no clients, services or appointments |
| Storage.GetUser | server/storage.ts:34-36 | the user stored under the id, and none exactly when no user has it |
| Storage.GetUserByUsername | server/storage.ts:38-42 | the first user in insertion order whose username equals the argument exactly, and none exactly when there is no such user |
| Storage.CreateUser | server/storage.ts:44-49 | the new user is appended under the fresh id, can be read back by it, and ids stay unique |
| Storage.GetAllClients | server/storage.ts:61-63 | lists every stored client: an id is listed exactly when `getClient` finds it, and each listed client is what `getClient` returns for its id |
| Storage.GetClient | server/storage.ts:51-53 | the client stored under the id, and none exactly when no client has it |
| Storage.GetClientByEmail | server/storage.ts:55-59 | the first client in insertion order whose email equals the argument exactly, and none exactly when there is no such client |
| Storage.ClientListOrder | server/storage.ts:61-63 | the client list keeps insertion order: a created client is appended at the end, and an update changes only the updated client and moves nothing |
| Storage.StoredObservations | server/storage.ts:70 | observations are stored as null exactly when they are missing, null or the empty string, and unchanged otherwise |
| Storage.CreateClient | server/storage.ts:65-74 | the new client carries the fresh id and the supplied name, phone and email; it is appended and can be read back; ids stay unique |
| Storage.MergeClient | server/storage.ts:82 | the shallow merge takes every supplied field from the patch and every other field, the id included, from the stored client |
| Storage.UpdateClient | server/storage.ts:76-85 | an absent id gives no client and no change; otherwise the merged client replaces the stored one at the same position, all others unchanged, and reads back |
| Storage.DeleteClient | server/storage.ts:87-89 | the result is true exactly when the id was present; only that entry is removed; afterwards the id is absent |
| Storage.GetService | server/routes.ts:273-278 | the service stored under the id, and none exactly when no service has it |
| Storage.GetAppointment | server/routes.ts:314-324 | the appointment stored under the id, and none exactly when no appointment has it |
| Storage.AppointmentsByDate | server/routes.ts:242-249 | the appointments on the date, in insertion order: exactly those stored with that date |
| Storage.AppointmentsByDateCounts | server/routes.ts:242-249 | each stored appointment on the date is listed as often as the store holds it, and no other |
| Storage.AppointmentsByClient | server/routes.ts:251-258 | the appointments of the client, in insertion order: exactly those stored for that client |
| Storage.AppointmentsByClientCounts | server/routes.ts:251-258 | each stored appointment of the client is listed as often as the store holds it, and no other |
| Storage.CreateAppointment | server/routes.ts:297 | the new appointment carries the fresh id and the supplied fields, is appended and reads back; ids stay unique |
| Storage.MergeAppointment | server/routes.ts:346 | the shallow merge takes every supplied field from the patch and every other field, the id included, from the stored appointment |
| Storage.UpdateAppointment | server/routes.ts:346-349 | an absent id gives no appointment and no change; otherwise the merged appointment replaces the stored one at the same position |
| Storage.DeleteAppointment | server/routes.ts:367-372 | the result is true exactly when the id was present; only that entry is removed |
| Routes.Status | server/routes.ts:15-31 | each outcome's HTTP status: 200 for success, 201 for creation, 401 for bad credentials, 404 for a missing record, 400 for every rejected body |
| Routes.ErrorMessage | server/routes.ts:16-293 | every outcome except 200 and 201 carries a message; both 404 messages end in "encontrado"; bad credentials, a taken email, an inactive service and a taken slot carry the handlers' exact texts |
| Routes.BadRequestMessagesDistinct | server/routes.ts:29-293 | the six 400 refusals (invalid body, taken email, unknown client, unknown service, inactive service, taken slot) carry pairwise different messages, so a caller can tell them apart |
| Routes.Login | server/routes.ts:9-35 | a malformed body gives 400; otherwise success exactly when the first user with that username has that password, and the user returned holds both |
| Routes.LoginSucceedsIffCredentialsMatch | server/routes.ts:13-18 | with unique usernames, a well-formed login succeeds exactly when some user has that username and that password, and every failure is the same 401 |
| Routes.GetClientRoute | server/routes.ts:76-86 | the stored client with 200, or 404 exactly when the id is absent |
| Routes.CreateClientRoute | server/routes.ts:47-74 | 400 for an invalid body; else 400 exactly when some client has the email; else the client is appended and 201; a refusal leaves the store unchanged |
| Routes.UpdateClientRoute | server/routes.ts:88-121 | 400 for an invalid body; else 400 when a different client first holds a supplied non-empty email; else 404 exactly when the id is absent; else the merge at the same position |
| Routes.DeleteClientRoute | server/routes.ts:123-137 | 200 exactly when the id was present, removing only that client; 404 leaves the store unchanged |
| Routes.FindConflict | server/routes.ts:286-289 | the conflict scan finds an appointment exactly when one other than the excluded id holds the date and time and is not cancelled |
| Routes.CreateAppointmentRoute | server/routes.ts:260-312 | checks in order that the client exists, that the service exists, that it is active and that no live appointment holds the slot; the first failure gives its 400 and writes nothing; else the appointment is appended with 201 |
| Routes.CreateAppointmentKeepsNoDoubleBooking | server/routes.ts:286-302 | an accepted creation never puts two live appointments on the same date and time |
| Routes.UpdateAppointmentRoute | server/routes.ts:326-365 | as written: 400 for a conflict only when date and time are both supplied and non-empty, excluding the appointment itself; this runs before the 404 for an absent id; else the merge in place |
| Routes.UpdateAppointmentChecked | server/routes.ts:326-365 | the corrected update: the handler's 400 for a supplied date and time that another live appointment holds comes first, as written; then 404 for an absent id; then 400 when the merged appointment is live and another appointment holds its slot; else the merge in place |
| Routes.DeleteAppointmentRoute | server/routes.ts:367-381 | 200 exactly when the id was present, removing only that appointment; 404 leaves the store unchanged |
| RouteProperties.UpdateEmailRefusedIffHeldByOther | server/routes.ts:93-100 | with unique emails, an update is refused for its email exactly when a client with a different id holds it |
| RouteProperties.UpdateWithOwnEmailAccepted | server/routes.ts:93-105 | re-submitting a client's own email with an otherwise valid body is accepted |
| RouteProperties.CreateClientKeepsEmailsUnique | server/routes.ts:52-59 | creation keeps client emails unique |
| RouteProperties.UpdateClientKeepsEmailsUnique | server/routes.ts:93-102 | an update keeps client emails unique when the format check rejects the empty string |
| RouteProperties.DeleteClientKeepsEmailsUnique | server/routes.ts:123-128 | deletion keeps client emails unique |
| RouteProperties.SecondClientWithSameEmailRefused | server/routes.ts:52-57 | registering a second client with an email just registered gives 400 and changes nothing |
| RouteProperties.DeleteClientTwice | server/storage.ts:87-89 | deleting a client succeeds once; deleting it again gives 404 and changes nothing |
| RouteProperties.DeleteAppointmentTwice | server/routes.ts:367-372 | deleting an appointment succeeds once; deleting it again gives 404 and changes nothing |
| RouteProperties.CancelledNeverBlocks | server/routes.ts:286-295 | when every appointment at the slot is cancelled, a creation that passes the reference checks is accepted |
| RouteProperties.PartialRescheduleSkipsConflictCheck | server/routes.ts:331 | an update lacking a date or a time is never refused for a conflict, and succeeds for a stored id |
| RouteProperties.RescheduleExcludesItself | server/routes.ts:333-337 | re-submitting a live appointment's own date and time is accepted, because the scan leaves the appointment itself out |
| RouteProperties.CheckedOnlyAddsRefusals | server/routes.ts:326-365 | with unique ids, the corrected update gives the same reply as the handler wherever the handler refuses, and wherever the corrected update accepts the handler accepts with the same store |
| RouteProperties.DeleteAppointmentKeepsNoDoubleBooking | server/routes.ts:367-372 | deleting an appointment never creates a double booking |
| RouteProperties.UnscannedUpdateAccepted | server/routes.ts:331-349 | as written, an update that does not supply both a non-empty date and a non-empty time is accepted for a stored appointment and replaces it in place by the merge, with no conflict scan |
| RouteProperties.CheckedRefusesClash | server/routes.ts:286-295 | the corrected update refuses with the slot message any merge that is live and lands on the date and time of another live appointment |
| RouteProperties.CheckedUpdateKeepsNoDoubleBooking | server/routes.ts:331-349 | the corrected update never puts two live appointments on the same date and time |
| RouteProperties.TimeOnlyUpdateCanDoubleBook | server/routes.ts:331-349 | as written, in a store without double bookings, an update supplying only a time that another live appointment on the same date holds succeeds and leaves a double booking; the corrected update refuses it |
| RouteProperties.RevivalCanDoubleBook | server/routes.ts:331-349 | as written, in a store without double bookings, an update that only changes the status of a cancelled appointment away from "cancelado" is accepted even when another live appointment holds its slot, leaving a double booking; the corrected update refuses it |
| RouteProperties.TimeOnlyUpdateDoubleBooks | server/routes.ts:331-349 | the concrete store of the finding: moving the 10:00 appointment to 09:00 by time alone is accepted and double-books 09:00 |
| PhoneFormat.FormatPhoneNumber | client/src/pages/client-registration.tsx:58-68 | the output holds only digits and "(", ")", space and "-"; its digits are exactly the input's digits, in order; its length is fixed by the digit count |
| PhoneFormat.FewDigitsBare | client/src/pages/client-registration.tsx:67 | fewer than three digits come back bare |
| PhoneFormat.AreaCodeOnly | client/src/pages/client-registration.tsx:64-65 | three to six digits give "(DD) " and the rest |
| PhoneFormat.LandlineMask | client/src/pages/client-registration.tsx:62-63 | seven to ten digits give "(DD) DDDD-" and the rest |
| PhoneFormat.MobileMask | client/src/pages/client-registration.tsx:60-61 | eleven or more digits give "(DD) DDDDD-DDDD" followed by any further digits unchanged |
| PhoneFormat.FormatIdempotent | client/src/pages/client-registration.tsx:58-68 | formatting a formatted number changes nothing |
| Servicos.FormatDuration | client/src/pages/servicos.tsx:179-187 | every rendered duration reads back as the minutes it came from, so no two durations render alike |
| Servicos.MinutesReadBack | client/src/pages/servicos.tsx:186 | "{m}min" reads back as m minutes |
| Servicos.HoursReadBack | client/src/pages/servicos.tsx:184 | "{h}h" reads back as h hours |
| Servicos.HoursAndMinutesReadBack | client/src/pages/servicos.tsx:184 | "{h}h {r}min" reads back as h hours and r minutes |
| Servicos.UnderAnHour | client/src/pages/servicos.tsx:186 | below 60, negative values included, the result is "{mins}min" |
| Servicos.WholeHours | client/src/pages/servicos.tsx:181-184 | a positive multiple of 60 gives "{mins/60}h" |
| Servicos.HoursAndMinutes | client/src/pages/servicos.tsx:181-184 | any other value from 60 up gives "{h}h {r}min" with 1 <= r <= 59 and h * 60 + r equal to the input |
| Servicos.HandleSubmit | client/src/pages/servicos.tsx:139-145 | submitting sends an update of the edited record's id when one is being edited, and a creation otherwise, with the form data unchanged |
| Produtos.GetStockStatus | client/src/pages/produtos.tsx:190-201 | quantity 0 is "Sem estoque" whatever the minimum; otherwise "Estoque baixo" exactly when the quantity is at most the minimum, and "Em estoque" exactly when it is above |
| Produtos.StockBadgesDistinct | client/src/pages/produtos.tsx:194-199 | the three stock statuses carry three different labels and three different colours |
| Produtos.GetCategoryColor | client/src/pages/produtos.tsx:177-188 | a category gets a non-grey colour exactly when it is "consumo", "venda" or "uso" |
| Produtos.CategoryColorsDistinct | client/src/pages/produtos.tsx:179-184 | the three known categories get three different colours |
| Produtos.LowStockProducts | client/src/pages/produtos.tsx:251-253 | the low-stock list is exactly the products whose quantity is at most their minimum, each as often as in the input, in the input's order |
| Produtos.LowStockIffNotInStock | client/src/pages/produtos.tsx:190-201 | when minimums are non-negative, a product is in the low-stock list exactly when its status is not "Em estoque" |
| Produtos.StockAlertOf | client/src/pages/produtos.tsx:570-591 | no alert exactly when no product is low; otherwise the count of low products, min(5, n) badges taken from the front of the list, and "e mais" exactly when n > 5 with the rest counted |
| Produtos.FilteredProducts | client/src/pages/produtos.tsx:166-175 | a product is kept exactly when it matches the search and the category, as often as the input holds it, in input order; nothing is lost when all match |
| Produtos.CategoryFilter | client/src/pages/produtos.tsx:173 | "todas" keeps every product the search keeps; any other value keeps only products of exactly that category |
| Produtos.EmptySearchShowsAll | client/src/pages/produtos.tsx:166-175 | an empty search with "todas" lists every product |
| Produtos.TextFieldsIgnoreCase | client/src/pages/produtos.tsx:168-170 | name, description and supplier match a term and its lower-cased form alike |
| Produtos.AbsentFieldsNeverMatch | client/src/pages/produtos.tsx:169-171 | with description, supplier and barcode absent, only the name can match |
| Produtos.BarcodeMatchedAsTyped | client/src/pages/produtos.tsx:168-171 | when name, description and supplier do not match, a product matches exactly when it has a barcode containing the term as typed, with no case folding |
| Produtos.BarcodeIsCaseSensitive | client/src/pages/produtos.tsx:171 | an instance: the barcode "AB12" is not found by "ab12", though a case-folded field would be |
| Clientes.FilteredClients | client/src/pages/clientes.tsx:40-44 | a client is kept exactly when its name, email or phone contains the term, as often as the input holds it, in input order; nothing is lost when all match |
| Clientes.EmptySearchShowsAll | client/src/pages/clientes.tsx:40-44 | an empty search keeps every client |
| Clientes.FoundByNamePiece | client/src/pages/clientes.tsx:41 | any piece of a client's name finds that client |
| Clientes.NameAndEmailIgnoreCase | client/src/pages/clientes.tsx:41-42 | name and email match a term and its lower-cased form alike |
| Clientes.PhoneMatchedAsTyped | client/src/pages/clientes.tsx:43 | the phone field matches a term exactly when the phone contains the term as typed, with no case folding |
| Agendamentos.GetStatusColor | client/src/pages/agendamentos.tsx:46-57 | a status gets a non-grey colour exactly when it is "confirmado", "pendente" or "cancelado"; every other status, "concluido" included, is grey |
| Agendamentos.StatusColorsDistinct | client/src/pages/agendamentos.tsx:48-53 | the three known statuses get three different colours |
| Agendamentos.FilteredAppointments | client/src/pages/agendamentos.tsx:59-64 | a row is kept exactly when its client or service contains the term, case-insensitively, and its status passes the filter, as often as the input holds it, in input order |
| Agendamentos.StatusFilter | client/src/pages/agendamentos.tsx:62 | "todos" keeps every row the search keeps; any other value keeps only rows with exactly that status |
| Agendamentos.EmptySearchShowsAll | client/src/pages/agendamentos.tsx:59-64 | an empty search with "todos" lists every row |
| Agendamentos.SearchIgnoresOtherFields | client/src/pages/agendamentos.tsx:60-61 | the phone, date, time and notes never affect the search |

## Left out

- Express, the HTTP server, the JSON response bodies other than the error message, and the 500 "internal error" paths: only the outcome and the store change are modelled.
- Promises and `async`: each handler runs to completion on its own, so the model is sequential.
- `randomUUID`: a fresh-id parameter, required to be unused in its collection.
- zod's email regular expression: the parameter `isEmail`. The zod error list becomes the set of failing fields, without its order or its messages.
- The appointment body schema is not part of this model. A body that fails it is `None`, and a valid body is taken with the fields the handlers read.
- The service handlers (server/routes.ts:140-230), with their 404 for an unknown id and 400 for an invalid body, and `GET /api/appointments`: the service store methods and the service body schema are not part of this model.
- `GET /api/clients` (server/routes.ts:38-45) returns `Storage.GetAllClients` as it is.
- Other fields of services, appointments, products and accounts, and `created_at`-style columns: no handler reads them.
- Product and financial server logic: it is not part of this model.
- `Number()` and `parseInt` on strings, NaN included: numbers arrive already parsed.
- Text.IntRoundTrip: `IntToString` prints any unbounded integer in plain decimal. JavaScript numbers print in exponent notation from 1e21 and lose integer precision past 2^53; durations that large are not modelled.
- `toLowerCase` is modelled on ASCII letters only. Other characters are left unchanged.
- String lengths count characters, not UTF-16 code units.
- `formatPrice` (client/src/pages/servicos.tsx:175-177) and financeiro.tsx: floating-point currency formatting.
- The React rendering, hooks, dialogs, toasts, routing and the layout components.
- The hard-coded appointments list of the appointments page. The filter is modelled over any list of rows.
- There is no appointment status state machine: the handlers accept any status string.
- Produtos.GetStockStatus: the icon of each status is left out.
- RouteProperties.UpdateClientKeepsEmailsUnique: assumes the email format check rejects the empty string, as zod's does. The handler skips its uniqueness check for an empty email.

## Findings

| source | as written | input that shows it | evidently intended | confidence | as-written member | corrected member |
|---|---|---|---|---|---|---|
| server/routes.ts:331-344 | the update checks for a slot conflict only when the body supplies both `date` and `time` | two live appointments on 2024-01-15, at 09:00 and 10:00; a PUT of `{ "time": "09:00" }` to the second is accepted and leaves both at 09:00. A status change that revives a cancelled appointment on a taken slot passes the same way | the scan of a supplied date and time stays, and the conflict rule also applies to the appointment as it will be stored: when the merged appointment is not cancelled, no other live appointment may hold its date and time | high; not executed | Routes.UpdateAppointmentRoute, RouteProperties.TimeOnlyUpdateCanDoubleBook, RouteProperties.TimeOnlyUpdateDoubleBooks, RouteProperties.RevivalCanDoubleBook | Routes.UpdateAppointmentChecked, RouteProperties.CheckedUpdateKeepsNoDoubleBooking, RouteProperties.CheckedOnlyAddsRefusals |
