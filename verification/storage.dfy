/** The in-memory record store (`MemStorage` in server/storage.ts).

    Each collection is a JavaScript `Map` from id to record; a `Map` keeps
    its keys in insertion order, overwriting a key keeps its position, and
    deleting a key removes it. Here each collection is a sequence of records
    in that order, and `Valid` states that no id occurs twice in it.

    server/storage.ts defines users and clients only. The handlers also call
    service and appointment methods it does not define; those collections
    are modelled abstractly with the same Map semantics and only the fields
    the handlers read. */
module Storage {
  import opened Wrappers
  import opened Seqs
  import opened Schema

  /** A service, reduced to the fields the handlers read; `active` is the
      string "true" or "false" in the source. */
  datatype Service = Service(id: Id, active: string)

  /** An appointment, reduced to the fields the handlers read. */
  datatype Appointment = Appointment(id: Id, clientId: Id, serviceId: Id, date: string, time: string, status: string)

  /** The fields of an appointment as a creation request supplies them. */
  datatype NewAppointment = NewAppointment(clientId: Id, serviceId: Id, date: string, time: string, status: string)

  /** An appointment update; `None` marks a field the request did not supply. */
  datatype AppointmentPatch = AppointmentPatch(clientId: Option<Id>, serviceId: Option<Id>, date: Option<string>,
                                               time: Option<string>, status: Option<string>)

  datatype Store = Store(users: seq<User>, clients: seq<Client>, services: seq<Service>, appointments: seq<Appointment>)

  const AdminUsername: string := "admin"
  const AdminPassword: string := "admin123"

  function UserKey(u: User): Id { u.id }
  function ClientKey(c: Client): Id { c.id }
  function ServiceKey(s: Service): Id { s.id }
  function AppointmentKey(a: Appointment): Id { a.id }

  /** Some record of `s` has identifier `id`. */
  predicate HasId<T>(s: seq<T>, key: T -> Id, id: Id) {
    exists i :: 0 <= i < |s| && key(s[i]) == id
  }

  /** No identifier occurs twice in `s`: the keys of a `Map`. */
  predicate UniqueIds<T>(s: seq<T>, key: T -> Id) {
    forall i, j :: 0 <= i < j < |s| ==> key(s[i]) != key(s[j])
  }

  /** Every collection of the store is a proper map from id to record. */
  predicate Valid(st: Store) {
    && UniqueIds(st.users, UserKey)
    && UniqueIds(st.clients, ClientKey)
    && UniqueIds(st.services, ServiceKey)
    && UniqueIds(st.appointments, AppointmentKey)
  }

  /** `Map.prototype.get`: the record stored under `id`. */
  function Lookup<T>(s: seq<T>, key: T -> Id, id: Id): (r: Option<T>)
    ensures r.None? <==> !HasId(s, key, id)
    ensures r.Some? ==> r.value in s && key(r.value) == id
    ensures UniqueIds(s, key) ==> forall i :: 0 <= i < |s| && key(s[i]) == id ==> r == Some(s[i])
  {
    Find(s, (x: T) => key(x) == id)
  }

  /** `Map.prototype.delete`: whether `id` was present, and the collection without it. */
  function Remove<T>(s: seq<T>, key: T -> Id, id: Id): (r: (bool, seq<T>))
    ensures r.0 <==> HasId(s, key, id)
    ensures !r.0 ==> r.1 == s
    ensures r.0 ==> exists i :: 0 <= i < |s| && key(s[i]) == id && r.1 == s[..i] + s[i + 1..]
    ensures UniqueIds(s, key) ==> UniqueIds(r.1, key) && !HasId(r.1, key, id)
  {
    match FindIndex(s, (x: T) => key(x) == id)
    case None => (false, s)
    case Some(i) =>
      var rest := RemoveAt(s, i);
      assert rest == s[..i] + s[i + 1..];
      (true, rest)
  }

  /** A fresh store: the seeded administrator and nothing else. */
  function Init(adminId: Id): (st: Store)
    ensures Valid(st)
    ensures |st.users| == 1 && st.users[0].username == AdminUsername && st.users[0].password == AdminPassword
    ensures st.clients == [] && st.services == [] && st.appointments == []
  {
    Store([User(adminId, AdminUsername, AdminPassword)], [], [], [])
  }

  function GetUser(st: Store, id: Id): (r: Option<User>)
    ensures r.None? <==> !HasId(st.users, UserKey, id)
    ensures r.Some? ==> r.value in st.users && r.value.id == id
  {
    Lookup(st.users, UserKey, id)
  }

  /** The first user, in insertion order, whose username is exactly `username`. */
  function GetUserByUsername(st: Store, username: string): (r: Option<User>)
    ensures r.None? <==> forall i :: 0 <= i < |st.users| ==> st.users[i].username != username
    ensures r.Some? ==> exists i :: 0 <= i < |st.users| && st.users[i] == r.value && r.value.username == username
                                  && forall j :: 0 <= j < i ==> st.users[j].username != username
  {
    Find(st.users, (u: User) => u.username == username)
  }

  /** Stores a user under the fresh identifier `id`. */
  function CreateUser(st: Store, id: Id, username: string, password: string): (r: (User, Store))
    requires !HasId(st.users, UserKey, id)
    ensures r.0 == User(id, username, password)
    ensures r.1 == st.(users := st.users + [r.0])
    ensures GetUser(r.1, id) == Some(r.0)
    ensures Valid(st) ==> Valid(r.1)
  {
    var u := User(id, username, password);
    var st' := st.(users := st.users + [u]);
    assert st'.users[|st.users|] == u;
    (u, st')
  }

  function GetClient(st: Store, id: Id): (r: Option<Client>)
    ensures r.None? <==> !HasId(st.clients, ClientKey, id)
    ensures r.Some? ==> r.value in st.clients && r.value.id == id
  {
    Lookup(st.clients, ClientKey, id)
  }

  /** The first client, in insertion order, whose email is exactly `email`. */
  function GetClientByEmail(st: Store, email: string): (r: Option<Client>)
    ensures r.None? <==> forall i :: 0 <= i < |st.clients| ==> st.clients[i].email != email
    ensures r.Some? ==> exists i :: 0 <= i < |st.clients| && st.clients[i] == r.value && r.value.email == email
                                  && forall j :: 0 <= j < i ==> st.clients[j].email != email
  {
    Find(st.clients, (c: Client) => c.email == email)
  }

  /** Every client, in insertion order. */
  function GetAllClients(st: Store): (r: seq<Client>)
    ensures |r| == |st.clients|
    ensures forall id :: HasId(r, ClientKey, id) <==> GetClient(st, id).Some?
    ensures Valid(st) ==> forall i :: 0 <= i < |r| ==> GetClient(st, r[i].id) == Some(r[i])
  {
    st.clients
  }

  /** `getAllClients` lists clients in insertion order: a created client is
      appended at the end, and an update leaves every client where it was. */
  lemma {:induction false} ClientListOrder(st: Store, freshId: Id, input: InsertClient, id: Id, patch: ClientPatch)
    requires !HasId(st.clients, ClientKey, freshId)
    ensures GetAllClients(CreateClient(st, freshId, input).1) == GetAllClients(st) + [CreateClient(st, freshId, input).0]
    ensures var after := GetAllClients(UpdateClient(st, id, patch).1);
            && |after| == |GetAllClients(st)|
            && forall i :: 0 <= i < |after| ==> after[i].id == GetAllClients(st)[i].id
                                                && (after[i] != GetAllClients(st)[i] ==> after[i].id == id)
  {
    var created := CreateClient(st, freshId, input);
    assert created.1.clients == st.clients + [created.0];
    var r := UpdateClient(st, id, patch);
    if r.0.Some? {
      var i :| 0 <= i < |st.clients| && st.clients[i].id == id
               && r.0.value == MergeClient(st.clients[i], patch)
               && r.1 == st.(clients := st.clients[i := r.0.value]);
      var after := r.1.clients;
      assert after == st.clients[i := r.0.value];
      forall j | 0 <= j < |after| ensures after[j].id == st.clients[j].id && (after[j] != st.clients[j] ==> after[j].id == id) {
        if j != i {
          assert after[j] == st.clients[j];
        }
      }
    } else {
      assert r.1.clients == st.clients;
    }
  }

  /** The observations a new client is stored with: `observations || null`. */
  function StoredObservations(o: NullableText): (r: Option<string>)
    ensures r.None? <==> o == Undefined || o == Null || o == Text("")
    ensures r.Some? ==> o == Text(r.value) && r.value != ""
  {
    match o
    case Text(s) => if s == "" then None else Some(s)
    case _ => None
  }

  /** Stores a new client under the fresh identifier `id`. */
  function CreateClient(st: Store, id: Id, input: InsertClient): (r: (Client, Store))
    requires !HasId(st.clients, ClientKey, id)
    ensures r.0.id == id && r.0.name == input.name && r.0.phone == input.phone && r.0.email == input.email
    ensures r.0.observations == StoredObservations(input.observations)
    ensures r.1 == st.(clients := st.clients + [r.0])
    ensures GetClient(r.1, id) == Some(r.0)
    ensures Valid(st) ==> Valid(r.1)
  {
    var c := Client(id, input.name, input.phone, input.email, StoredObservations(input.observations));
    var st' := st.(clients := st.clients + [c]);
    assert st'.clients[|st.clients|] == c;
    (c, st')
  }

  /** `{ ...existing, ...patch }`: the supplied fields replace the stored ones. */
  function MergeClient(c: Client, p: ClientPatch): (r: Client)
    ensures r.id == c.id
    ensures r.name == p.name.GetOr(c.name) && r.phone == p.phone.GetOr(c.phone) && r.email == p.email.GetOr(c.email)
    ensures p.observations.Undefined? ==> r.observations == c.observations
    ensures p.observations.Null? ==> r.observations == None
    ensures p.observations.Text? ==> r.observations == Some(p.observations.s)
  {
    Client(c.id, p.name.GetOr(c.name), p.phone.GetOr(c.phone), p.email.GetOr(c.email),
           match p.observations
           case Undefined => c.observations
           case Null => None
           case Text(s) => Some(s))
  }

  /** Merges `patch` into the client stored under `id`, keeping its position. */
  function UpdateClient(st: Store, id: Id, patch: ClientPatch): (r: (Option<Client>, Store))
    ensures r.0.None? <==> !HasId(st.clients, ClientKey, id)
    ensures r.0.None? ==> r.1 == st
    ensures r.0.Some? ==> exists i :: 0 <= i < |st.clients| && st.clients[i].id == id
                                   && r.0.value == MergeClient(st.clients[i], patch)
                                   && r.1 == st.(clients := st.clients[i := r.0.value])
    ensures r.0.Some? ==> r.0.value.id == id
    ensures Valid(st) ==> Valid(r.1) && GetClient(r.1, id) == r.0
  {
    match FindIndex(st.clients, (c: Client) => c.id == id)
    case None => (None, st)
    case Some(i) =>
      var c := MergeClient(st.clients[i], patch);
      var st' := st.(clients := st.clients[i := c]);
      assert forall j :: 0 <= j < |st.clients| ==> st'.clients[j].id == st.clients[j].id;
      (Some(c), st')
  }

  /** Removes the client stored under `id`; true when there was one. */
  function DeleteClient(st: Store, id: Id): (r: (bool, Store))
    ensures r.0 <==> HasId(st.clients, ClientKey, id)
    ensures !r.0 ==> r.1 == st
    ensures r.1.users == st.users && r.1.services == st.services && r.1.appointments == st.appointments
    ensures r.0 ==> exists i :: 0 <= i < |st.clients| && st.clients[i].id == id
                               && r.1.clients == st.clients[..i] + st.clients[i + 1..]
    ensures Valid(st) ==> Valid(r.1) && GetClient(r.1, id).None?
  {
    var (found, rest) := Remove(st.clients, ClientKey, id);
    (found, st.(clients := rest))
  }

  function GetService(st: Store, id: Id): (r: Option<Service>)
    ensures r.None? <==> !HasId(st.services, ServiceKey, id)
    ensures r.Some? ==> r.value in st.services && r.value.id == id
  {
    Lookup(st.services, ServiceKey, id)
  }

  function GetAppointment(st: Store, id: Id): (r: Option<Appointment>)
    ensures r.None? <==> !HasId(st.appointments, AppointmentKey, id)
    ensures r.Some? ==> r.value in st.appointments && r.value.id == id
  {
    Lookup(st.appointments, AppointmentKey, id)
  }

  /** The appointments on `date`, in insertion order. */
  function AppointmentsByDate(st: Store, date: string): (r: seq<Appointment>)
    ensures forall a :: a in r <==> a in st.appointments && a.date == date
    ensures IsSubsequence(r, st.appointments)
  {
    var onDate := (a: Appointment) => a.date == date;
    FilterMembers(st.appointments, onDate);
    Filter(st.appointments, onDate)
  }

  /** The appointments of client `clientId`, in insertion order. */
  function AppointmentsByClient(st: Store, clientId: Id): (r: seq<Appointment>)
    ensures forall a :: a in r <==> a in st.appointments && a.clientId == clientId
    ensures IsSubsequence(r, st.appointments)
  {
    var ofClient := (a: Appointment) => a.clientId == clientId;
    FilterMembers(st.appointments, ofClient);
    Filter(st.appointments, ofClient)
  }

  /** The appointments on `date` keep each stored appointment on that date
      as often as the store holds it, and no other. */
  lemma AppointmentsByDateCounts(st: Store, date: string)
    ensures forall a :: multiset(AppointmentsByDate(st, date))[a] ==
              if a.date == date then multiset(st.appointments)[a] else 0
  {
    FilterCounts(st.appointments, (a: Appointment) => a.date == date);
  }

  /** The appointments of `clientId` keep each stored appointment of that
      client as often as the store holds it, and no other. */
  lemma AppointmentsByClientCounts(st: Store, clientId: Id)
    ensures forall a :: multiset(AppointmentsByClient(st, clientId))[a] ==
              if a.clientId == clientId then multiset(st.appointments)[a] else 0
  {
    FilterCounts(st.appointments, (a: Appointment) => a.clientId == clientId);
  }

  /** Stores a new appointment under the fresh identifier `id`. */
  function CreateAppointment(st: Store, id: Id, n: NewAppointment): (r: (Appointment, Store))
    requires !HasId(st.appointments, AppointmentKey, id)
    ensures r.0 == Appointment(id, n.clientId, n.serviceId, n.date, n.time, n.status)
    ensures r.1 == st.(appointments := st.appointments + [r.0])
    ensures GetAppointment(r.1, id) == Some(r.0)
    ensures Valid(st) ==> Valid(r.1)
  {
    var a := Appointment(id, n.clientId, n.serviceId, n.date, n.time, n.status);
    var st' := st.(appointments := st.appointments + [a]);
    assert st'.appointments[|st.appointments|] == a;
    (a, st')
  }

  /** `{ ...existing, ...patch }` for appointments. */
  function MergeAppointment(a: Appointment, p: AppointmentPatch): (r: Appointment)
    ensures r.id == a.id
    ensures r.clientId == p.clientId.GetOr(a.clientId) && r.serviceId == p.serviceId.GetOr(a.serviceId)
    ensures r.date == p.date.GetOr(a.date) && r.time == p.time.GetOr(a.time) && r.status == p.status.GetOr(a.status)
  {
    Appointment(a.id, p.clientId.GetOr(a.clientId), p.serviceId.GetOr(a.serviceId), p.date.GetOr(a.date),
                p.time.GetOr(a.time), p.status.GetOr(a.status))
  }

  /** Merges `patch` into the appointment stored under `id`, keeping its position. */
  function UpdateAppointment(st: Store, id: Id, patch: AppointmentPatch): (r: (Option<Appointment>, Store))
    ensures r.0.None? <==> !HasId(st.appointments, AppointmentKey, id)
    ensures r.0.None? ==> r.1 == st
    ensures r.0.Some? ==> exists i :: 0 <= i < |st.appointments| && st.appointments[i].id == id
                                   && r.0.value == MergeAppointment(st.appointments[i], patch)
                                   && r.1 == st.(appointments := st.appointments[i := r.0.value])
    ensures Valid(st) ==> Valid(r.1) && GetAppointment(r.1, id) == r.0
  {
    match FindIndex(st.appointments, (a: Appointment) => a.id == id)
    case None => (None, st)
    case Some(i) =>
      var a := MergeAppointment(st.appointments[i], patch);
      var st' := st.(appointments := st.appointments[i := a]);
      assert forall j :: 0 <= j < |st.appointments| ==> st'.appointments[j].id == st.appointments[j].id;
      (Some(a), st')
  }

  /** Removes the appointment stored under `id`; true when there was one. */
  function DeleteAppointment(st: Store, id: Id): (r: (bool, Store))
    ensures r.0 <==> HasId(st.appointments, AppointmentKey, id)
    ensures !r.0 ==> r.1 == st
    ensures r.1.users == st.users && r.1.clients == st.clients && r.1.services == st.services
    ensures r.0 ==> exists i :: 0 <= i < |st.appointments| && st.appointments[i].id == id
                               && r.1.appointments == st.appointments[..i] + st.appointments[i + 1..]
    ensures Valid(st) ==> Valid(r.1) && GetAppointment(r.1, id).None?
  {
    var (found, rest) := Remove(st.appointments, AppointmentKey, id);
    (found, st.(appointments := rest))
  }
}
