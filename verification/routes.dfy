/** The decision logic of the request handlers in server/routes.ts. Each
    handler is a function from the store and the request to an `Outcome`
    (which fixes the HTTP status) and the store afterwards. Express, the
    JSON response bodies and the 500 "internal error" paths are not part of
    this model. */
module Routes {
  import opened Wrappers
  import opened Seqs
  import opened Schema
  import opened Storage

  /** What a handler decided; `Status` gives the HTTP status code it sends. */
  datatype Outcome =
    | Success              // 200
    | Created              // 201
    | InvalidData          // 400: the body failed its zod schema
    | EmailInUse           // 400: another client holds the email
    | UnknownClient        // 400: an appointment names a client that does not exist
    | UnknownService       // 400: an appointment names a service that does not exist
    | InactiveService      // 400: an appointment names a service whose `active` is not "true"
    | SlotTaken            // 400: a non-cancelled appointment holds the date and time
    | BadCredentials       // 401
    | ClientNotFound       // 404
    | AppointmentNotFound  // 404

  function Status(o: Outcome): (code: int)
    ensures o == Success <==> code == 200
    ensures o == Created <==> code == 201
    ensures o == BadCredentials <==> code == 401
    ensures o in {ClientNotFound, AppointmentNotFound} <==> code == 404
    ensures code == 400 <==> o in {InvalidData, EmailInUse, UnknownClient, UnknownService, InactiveService, SlotTaken}
  {
    match o
    case Success => 200
    case Created => 201
    case BadCredentials => 401
    case ClientNotFound => 404
    case AppointmentNotFound => 404
    case _ => 400
  }

  /** The `message` of an error response. */
  function ErrorMessage(o: Outcome): (m: Option<string>)
    ensures m.None? <==> Status(o) in {200, 201}
    ensures Status(o) == 404 ==> m.Some? && |m.value| > 20 && m.value[|m.value| - 10..] == "encontrado"
    ensures o == BadCredentials ==> m == Some("Usuário ou senha inválidos")
    ensures o == EmailInUse ==> m == Some("E-mail já cadastrado no sistema")
    ensures o == InactiveService ==> m == Some("Serviço não está ativo")
    ensures o == SlotTaken ==> m == Some("Já existe um agendamento neste horário")
  {
    match o
    case InvalidData => Some("Dados inválidos")
    case EmailInUse => Some("E-mail já cadastrado no sistema")
    case UnknownClient => Some("Cliente não encontrado")
    case UnknownService => Some("Serviço não encontrado")
    case InactiveService => Some("Serviço não está ativo")
    case SlotTaken => Some("Já existe um agendamento neste horário")
    case BadCredentials => Some("Usuário ou senha inválidos")
    case ClientNotFound => Some("Cliente não encontrado")
    case AppointmentNotFound => Some("Agendamento não encontrado")
    case _ => None
  }

  /** The six 400 refusals carry six different messages, so a caller can
      tell them apart by the message alone. */
  lemma BadRequestMessagesDistinct(a: Outcome, b: Outcome)
    requires Status(a) == 400 && Status(b) == 400 && a != b
    ensures ErrorMessage(a) != ErrorMessage(b)
  {
    var m1, m2 := ErrorMessage(a).value, ErrorMessage(b).value;
    if m1[0] == m2[0] {
      assert {a, b} == {UnknownService, InactiveService};
      assert m1[13] != m2[13];
    }
  }

  datatype Reply = Reply(outcome: Outcome, store: Store)

  /** The login reply carries the authenticated user instead of a new store. */
  datatype LoginReply = LoginReply(outcome: Outcome, user: Option<User>)

  const Cancelled: string := "cancelado"

  /** No two users share a username (the `unique()` constraint of the `users` table). */
  predicate UniqueUsernames(st: Store) {
    forall i, j :: 0 <= i < j < |st.users| ==> st.users[i].username != st.users[j].username
  }

  /** No two clients share an email. */
  predicate UniqueEmails(st: Store) {
    forall i, j :: 0 <= i < j < |st.clients| ==> st.clients[i].email != st.clients[j].email
  }

  // ---------------------------------------------------------------- login

  /** POST /api/auth/login. */
  function Login(st: Store, body: LoginBody): (r: LoginReply)
    ensures r.outcome in {Success, BadCredentials, InvalidData}
    ensures r.outcome == InvalidData <==> !(NonEmptyString(body.username) && NonEmptyString(body.password))
    ensures r.outcome == Success <==>
              && NonEmptyString(body.username) && NonEmptyString(body.password)
              && GetUserByUsername(st, body.username.s).Some?
              && GetUserByUsername(st, body.username.s).value.password == body.password.s
    ensures r.user.Some? <==> r.outcome == Success
    ensures r.user.Some? ==> r.user.value in st.users && r.user.value.username == body.username.s
                             && r.user.value.password == body.password.s
  {
    match ParseLogin(body)
    case Err(_) => LoginReply(InvalidData, None)
    case Ok(d) =>
      match GetUserByUsername(st, d.username)
      case None => LoginReply(BadCredentials, None)
      case Some(u) =>
        if u.password != d.password then LoginReply(BadCredentials, None)
        else
          assert u in st.users;
          LoginReply(Success, Some(u))
  }

  /** With unique usernames, a well-formed login succeeds exactly when some
      user has both that username and that password, and otherwise fails
      with the same 401 whichever of the two was wrong. */
  lemma LoginSucceedsIffCredentialsMatch(st: Store, body: LoginBody)
    requires UniqueUsernames(st)
    requires NonEmptyString(body.username) && NonEmptyString(body.password)
    ensures Login(st, body).outcome == Success <==>
              exists i :: 0 <= i < |st.users| && st.users[i].username == body.username.s
                                             && st.users[i].password == body.password.s
    ensures Login(st, body).outcome != Success ==> Login(st, body).outcome == BadCredentials
  {
    var found := GetUserByUsername(st, body.username.s);
    if exists i :: 0 <= i < |st.users| && st.users[i].username == body.username.s
                                       && st.users[i].password == body.password.s {
      var i :| 0 <= i < |st.users| && st.users[i].username == body.username.s
                                   && st.users[i].password == body.password.s;
      var k :| 0 <= k < |st.users| && st.users[k] == found.value && found.value.username == body.username.s
               && forall j :: 0 <= j < k ==> st.users[j].username != body.username.s;
      assert k == i;
    }
  }

  // ---------------------------------------------------------------- clients

  /** GET /api/clients/:id. */
  function GetClientRoute(st: Store, id: Id): (r: (Outcome, Option<Client>))
    ensures r.0 == Success <==> HasId(st.clients, ClientKey, id)
    ensures r.0 != Success ==> r.0 == ClientNotFound && r.1 == None
    ensures r.0 == Success ==> r.1.Some? && r.1.value in st.clients && r.1.value.id == id
  {
    match GetClient(st, id)
    case None => (ClientNotFound, None)
    case Some(c) => (Success, Some(c))
  }

  /** The client that would be created from a valid body. */
  function NewClient(id: Id, body: ClientBody, isEmail: string -> bool): Client
    requires ClientBodyValid(body, isEmail)
  {
    Client(id, body.name.s, body.phone.s, body.email.s, StoredObservations(ToNullable(body.observations)))
  }

  /** POST /api/clients: validate, refuse an email already registered, then store. */
  function CreateClientRoute(st: Store, body: ClientBody, isEmail: string -> bool, freshId: Id): (r: Reply)
    requires !HasId(st.clients, ClientKey, freshId)
    ensures r.outcome in {Created, InvalidData, EmailInUse}
    ensures r.outcome != Created ==> r.store == st
    ensures r.outcome == InvalidData <==> !ClientBodyValid(body, isEmail)
    ensures r.outcome == EmailInUse <==>
              ClientBodyValid(body, isEmail) && exists i :: 0 <= i < |st.clients| && st.clients[i].email == body.email.s
    ensures r.outcome == Created ==>
              && r.store == st.(clients := st.clients + [NewClient(freshId, body, isEmail)])
              && GetClient(r.store, freshId) == Some(NewClient(freshId, body, isEmail))
    ensures Valid(st) ==> Valid(r.store)
  {
    match ParseClient(body, isEmail)
    case Err(_) => Reply(InvalidData, st)
    case Ok(input) =>
      if GetClientByEmail(st, input.email).Some? then Reply(EmailInUse, st)
      else Reply(Created, CreateClient(st, freshId, input).1)
  }

  /** The update's email check: a non-empty email is refused when the first
      client holding it is a different client. */
  predicate EmailTakenByOther(st: Store, id: Id, email: Option<string>) {
    && email.Some? && email.value != ""
    && GetClientByEmail(st, email.value).Some?
    && GetClientByEmail(st, email.value).value.id != id
  }

  /** PUT /api/clients/:id: validate, refuse an email another client holds,
      then merge. The email check runs before the existence check. */
  function UpdateClientRoute(st: Store, id: Id, body: ClientBody, isEmail: string -> bool): (r: Reply)
    ensures r.outcome in {Success, InvalidData, EmailInUse, ClientNotFound}
    ensures r.outcome != Success ==> r.store == st
    ensures r.outcome == InvalidData <==> !PatchBodyValid(body, isEmail)
    ensures r.outcome == EmailInUse <==>
              PatchBodyValid(body, isEmail) && EmailTakenByOther(st, id, OptionalString(body.email))
    ensures r.outcome == ClientNotFound <==>
              && PatchBodyValid(body, isEmail) && !EmailTakenByOther(st, id, OptionalString(body.email))
              && !HasId(st.clients, ClientKey, id)
    ensures r.outcome == Success ==>
              exists i :: 0 <= i < |st.clients| && st.clients[i].id == id
                          && r.store == st.(clients := st.clients[i := MergeClient(st.clients[i],
                                                                      ParseClientPatch(body, isEmail).value)])
    ensures Valid(st) ==> Valid(r.store)
  {
    match ParseClientPatch(body, isEmail)
    case Err(_) => Reply(InvalidData, st)
    case Ok(patch) =>
      if EmailTakenByOther(st, id, patch.email) then Reply(EmailInUse, st)
      else
        match UpdateClient(st, id, patch)
        case (None, _) => Reply(ClientNotFound, st)
        case (Some(_), st') => Reply(Success, st')
  }

  /** DELETE /api/clients/:id. */
  function DeleteClientRoute(st: Store, id: Id): (r: Reply)
    ensures r.outcome in {Success, ClientNotFound}
    ensures r.outcome == Success <==> HasId(st.clients, ClientKey, id)
    ensures r.outcome == ClientNotFound ==> r.store == st
    ensures r.outcome == Success ==>
              exists i :: 0 <= i < |st.clients| && st.clients[i].id == id
                          && r.store == st.(clients := st.clients[..i] + st.clients[i + 1..])
    ensures Valid(st) ==> Valid(r.store) && !HasId(r.store.clients, ClientKey, id)
  {
    var (found, st') := DeleteClient(st, id);
    if found then Reply(Success, st') else Reply(ClientNotFound, st)
  }

  // ---------------------------------------------------------------- appointments

  /** Appointment `a` holds the slot `date`/`time`: it is there and not cancelled. */
  predicate Occupies(a: Appointment, date: string, time: string) {
    a.date == date && a.time == time && a.status != Cancelled
  }

  /** Some appointment other than `except` holds the slot. */
  predicate SlotHeld(st: Store, date: string, time: string, except: Option<Id>) {
    exists i :: 0 <= i < |st.appointments| && Occupies(st.appointments[i], date, time)
                && (except.Some? ==> st.appointments[i].id != except.value)
  }

  /** The conflict scan: `getAppointmentsByDate(date).find(...)` with the
      handlers' predicate; `except` is the appointment being updated. */
  function FindConflict(st: Store, date: string, time: string, except: Option<Id>): (r: Option<Appointment>)
    ensures r.Some? <==> SlotHeld(st, date, time, except)
    ensures r.Some? ==> r.value in st.appointments && Occupies(r.value, date, time)
  {
    var sameDay := AppointmentsByDate(st, date);
    var clash := (a: Appointment) => a.time == time && a.status != Cancelled
                                     && (except.Some? ==> a.id != except.value);
    var r := Find(sameDay, clash);
    assert r.Some? ==> SlotHeld(st, date, time, except) by {
      if r.Some? {
        assert r.value in sameDay;
        var i :| 0 <= i < |st.appointments| && st.appointments[i] == r.value;
      }
    }
    assert SlotHeld(st, date, time, except) ==> r.Some? by {
      if SlotHeld(st, date, time, except) {
        var i :| 0 <= i < |st.appointments| && Occupies(st.appointments[i], date, time)
                 && (except.Some? ==> st.appointments[i].id != except.value);
        var a := st.appointments[i];
        assert a in sameDay;
        var k :| 0 <= k < |sameDay| && sameDay[k] == a;
        assert clash(sameDay[k]);
      }
    }
    r
  }

  /** No two non-cancelled appointments share a date and a time. */
  predicate NoDoubleBooking(st: Store) {
    forall i, j :: 0 <= i < j < |st.appointments| && st.appointments[i].status != Cancelled ==>
      !Occupies(st.appointments[j], st.appointments[i].date, st.appointments[i].time)
  }

  /** POST /api/appointments: the client must exist, the service must exist
      and be active, and the slot must be free, checked in that order. */
  function CreateAppointmentRoute(st: Store, body: Option<NewAppointment>, freshId: Id): (r: Reply)
    requires !HasId(st.appointments, AppointmentKey, freshId)
    ensures r.outcome in {Created, InvalidData, UnknownClient, UnknownService, InactiveService, SlotTaken}
    ensures r.outcome != Created ==> r.store == st
    ensures r.outcome == InvalidData <==> body.None?
    ensures r.outcome == UnknownClient <==> body.Some? && !HasId(st.clients, ClientKey, body.value.clientId)
    ensures r.outcome == UnknownService <==>
              && body.Some? && HasId(st.clients, ClientKey, body.value.clientId)
              && !HasId(st.services, ServiceKey, body.value.serviceId)
    ensures r.outcome == InactiveService <==>
              && body.Some? && HasId(st.clients, ClientKey, body.value.clientId)
              && GetService(st, body.value.serviceId).Some?
              && GetService(st, body.value.serviceId).value.active != "true"
    ensures r.outcome == SlotTaken <==>
              && body.Some? && HasId(st.clients, ClientKey, body.value.clientId)
              && GetService(st, body.value.serviceId).Some?
              && GetService(st, body.value.serviceId).value.active == "true"
              && SlotHeld(st, body.value.date, body.value.time, None)
    ensures r.outcome == Created ==>
              r.store == st.(appointments := st.appointments + [Appointment(freshId, body.value.clientId,
                              body.value.serviceId, body.value.date, body.value.time, body.value.status)])
    ensures Valid(st) ==> Valid(r.store)
  {
    match body
    case None => Reply(InvalidData, st)
    case Some(n) =>
      if GetClient(st, n.clientId).None? then Reply(UnknownClient, st)
      else
        match GetService(st, n.serviceId)
        case None => Reply(UnknownService, st)
        case Some(service) =>
          if service.active != "true" then Reply(InactiveService, st)
          else if FindConflict(st, n.date, n.time, None).Some? then Reply(SlotTaken, st)
          else Reply(Created, CreateAppointment(st, freshId, n).1)
  }

  /** Every accepted creation keeps the store free of double bookings. */
  lemma CreateAppointmentKeepsNoDoubleBooking(st: Store, body: Option<NewAppointment>, freshId: Id)
    requires !HasId(st.appointments, AppointmentKey, freshId)
    requires NoDoubleBooking(st)
    ensures NoDoubleBooking(CreateAppointmentRoute(st, body, freshId).store)
  {
    var r := CreateAppointmentRoute(st, body, freshId);
    if r.outcome == Created {
      var n := body.value;
      var apps := r.store.appointments;
      var last := |apps| - 1;
      assert !SlotHeld(st, n.date, n.time, None);
      forall i, j | 0 <= i < j < |apps| && apps[i].status != Cancelled
        ensures !Occupies(apps[j], apps[i].date, apps[i].time)
      {
        if j == last {
          assert apps[i] == st.appointments[i];
          assert !Occupies(st.appointments[i], n.date, n.time);
        } else {
          assert apps[i] == st.appointments[i] && apps[j] == st.appointments[j];
        }
      }
    }
  }

  /** The update handler runs the conflict scan only when the body supplies
      both a date and a time, each a non-empty string (`date && time`). */
  predicate Reschedules(p: AppointmentPatch) {
    p.date.Some? && p.date.value != "" && p.time.Some? && p.time.value != ""
  }

  /** PUT /api/appointments/:id: when both date and time are supplied, refuse
      a slot held by another appointment; then merge. The conflict check runs
      before the existence check. */
  function UpdateAppointmentRoute(st: Store, id: Id, body: Option<AppointmentPatch>): (r: Reply)
    ensures r.outcome in {Success, InvalidData, SlotTaken, AppointmentNotFound}
    ensures r.outcome != Success ==> r.store == st
    ensures r.outcome == InvalidData <==> body.None?
    ensures r.outcome == SlotTaken <==>
              body.Some? && Reschedules(body.value) && SlotHeld(st, body.value.date.value, body.value.time.value, Some(id))
    ensures r.outcome == AppointmentNotFound <==>
              && body.Some? && !HasId(st.appointments, AppointmentKey, id)
              && !(Reschedules(body.value) && SlotHeld(st, body.value.date.value, body.value.time.value, Some(id)))
    ensures r.outcome == Success ==>
              exists i :: 0 <= i < |st.appointments| && st.appointments[i].id == id
                          && r.store == st.(appointments := st.appointments[i := MergeAppointment(st.appointments[i], body.value)])
    ensures Valid(st) ==> Valid(r.store)
  {
    match body
    case None => Reply(InvalidData, st)
    case Some(p) =>
      if Reschedules(p) && FindConflict(st, p.date.value, p.time.value, Some(id)).Some? then Reply(SlotTaken, st)
      else
        match UpdateAppointment(st, id, p)
        case (None, _) => Reply(AppointmentNotFound, st)
        case (Some(_), st') => Reply(Success, st')
  }

  /** The merged record at the first position holding `id` would be live on
      a slot that another appointment holds. */
  predicate MergeClashes(st: Store, id: Id, p: AppointmentPatch) {
    exists i :: 0 <= i < |st.appointments| && st.appointments[i].id == id
                && var m := MergeAppointment(st.appointments[i], p);
                   m.status != Cancelled && SlotHeld(st, m.date, m.time, Some(id))
  }

  /** The appointment update as written, plus the conflict rule applied to
      the record as it would be stored. It keeps the handler's scan of a
      supplied date and time, and its place before the existence check;
      then, for a stored id, it refuses the merge when the merged appointment
      is not cancelled and another appointment holds its date and time. So it
      also catches updates that supply only a time, only a date, or a status
      that revives a cancelled appointment. */
  function UpdateAppointmentChecked(st: Store, id: Id, body: Option<AppointmentPatch>): (r: Reply)
    ensures r.outcome in {Success, InvalidData, SlotTaken, AppointmentNotFound}
    ensures r.outcome != Success ==> r.store == st
    ensures r.outcome == InvalidData <==> body.None?
    ensures (body.Some? && Reschedules(body.value) && SlotHeld(st, body.value.date.value, body.value.time.value, Some(id))) ==>
              r.outcome == SlotTaken
    ensures r.outcome == AppointmentNotFound <==>
              && body.Some? && !HasId(st.appointments, AppointmentKey, id)
              && !(Reschedules(body.value) && SlotHeld(st, body.value.date.value, body.value.time.value, Some(id)))
    ensures r.outcome == SlotTaken ==>
              || (Reschedules(body.value) && SlotHeld(st, body.value.date.value, body.value.time.value, Some(id)))
              || MergeClashes(st, id, body.value)
    ensures r.outcome == Success ==>
              exists i :: 0 <= i < |st.appointments| && st.appointments[i].id == id
                          && var m := MergeAppointment(st.appointments[i], body.value);
                             && !(m.status != Cancelled && SlotHeld(st, m.date, m.time, Some(id)))
                             && r.store == st.(appointments := st.appointments[i := m])
    ensures Valid(st) ==> Valid(r.store)
  {
    match body
    case None => Reply(InvalidData, st)
    case Some(p) =>
      if Reschedules(p) && FindConflict(st, p.date.value, p.time.value, Some(id)).Some? then Reply(SlotTaken, st)
      else
        match FindIndex(st.appointments, (a: Appointment) => a.id == id)
        case None => Reply(AppointmentNotFound, st)
        case Some(i) =>
          var m := MergeAppointment(st.appointments[i], p);
          if m.status != Cancelled && FindConflict(st, m.date, m.time, Some(id)).Some? then Reply(SlotTaken, st)
          else
            var st' := st.(appointments := st.appointments[i := m]);
            assert forall j :: 0 <= j < |st.appointments| ==> st'.appointments[j].id == st.appointments[j].id;
            Reply(Success, st')
  }

  /** DELETE /api/appointments/:id. */
  function DeleteAppointmentRoute(st: Store, id: Id): (r: Reply)
    ensures r.outcome in {Success, AppointmentNotFound}
    ensures r.outcome == Success <==> HasId(st.appointments, AppointmentKey, id)
    ensures r.outcome == AppointmentNotFound ==> r.store == st
    ensures r.outcome == Success ==>
              exists i :: 0 <= i < |st.appointments| && st.appointments[i].id == id
                          && r.store == st.(appointments := st.appointments[..i] + st.appointments[i + 1..])
    ensures Valid(st) ==> Valid(r.store) && !HasId(r.store.appointments, AppointmentKey, id)
  {
    var (found, st') := DeleteAppointment(st, id);
    if found then Reply(Success, st') else Reply(AppointmentNotFound, st)
  }
}
