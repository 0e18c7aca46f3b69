/** The shared record shapes of shared/schema.ts and its two zod validators,
    `insertClientSchema` (with its `.partial()` form used on update) and
    `loginSchema`. */
module Schema {
  import opened Wrappers

  /** Identifiers are opaque strings (UUIDs in the source). */
  type Id = string

  /** A row of the `users` table. */
  datatype User = User(id: Id, username: string, password: string)

  /** A row of the `clients` table; `observations` is the only nullable column. */
  datatype Client = Client(id: Id, name: string, phone: string, email: string, observations: Option<string>)

  /** One member of a JSON request body, as zod sees it: missing, `null`,
      a string, or any other JSON value (number, boolean, array, object). */
  datatype Json = Missing | JsonNull | JsonString(s: string) | JsonOther

  /** A parsed optional, nullable text field: left out, `null`, or a string. */
  datatype NullableText = Undefined | Null | Text(s: string)

  /** The client fields a request body may carry. */
  datatype ClientBody = ClientBody(name: Json, phone: Json, email: Json, observations: Json)

  /** A client as `insertClientSchema` accepts it. */
  datatype InsertClient = InsertClient(name: string, phone: string, email: string, observations: NullableText)

  /** A client update as `insertClientSchema.partial()` accepts it; `None`
      (and `Undefined`) marks a field the request did not supply. */
  datatype ClientPatch = ClientPatch(name: Option<string>, phone: Option<string>, email: Option<string>,
                                     observations: NullableText)

  datatype ClientField = NameField | PhoneField | EmailField | ObservationsField

  /** The credentials a login request carries. */
  datatype LoginBody = LoginBody(username: Json, password: Json)
  datatype LoginData = LoginData(username: string, password: string)
  datatype LoginField = UsernameField | PasswordField

  /** `z.string().min(1)`: a string with at least one character. */
  predicate NonEmptyString(v: Json) {
    v.JsonString? && |v.s| >= 1
  }

  /** `z.string().email()`; the format check itself is the parameter `isEmail`. */
  predicate EmailString(v: Json, isEmail: string -> bool) {
    v.JsonString? && isEmail(v.s)
  }

  /** A nullable text column as drizzle-zod exposes it: optional, `null` or a string. */
  predicate NullableString(v: Json) {
    !v.JsonOther?
  }

  /** Each field's rule in `insertClientSchema`. */
  predicate ClientFieldValid(b: ClientBody, f: ClientField, isEmail: string -> bool) {
    match f
    case NameField => NonEmptyString(b.name)
    case PhoneField => NonEmptyString(b.phone)
    case EmailField => EmailString(b.email, isEmail)
    case ObservationsField => NullableString(b.observations)
  }

  /** Each field's rule in `insertClientSchema.partial()`: a field may be
      left out; a field that is present obeys the full schema's rule. */
  predicate PatchFieldValid(b: ClientBody, f: ClientField, isEmail: string -> bool) {
    match f
    case NameField => b.name.Missing? || NonEmptyString(b.name)
    case PhoneField => b.phone.Missing? || NonEmptyString(b.phone)
    case EmailField => b.email.Missing? || EmailString(b.email, isEmail)
    case ObservationsField => NullableString(b.observations)
  }

  function ToNullable(v: Json): NullableText
    requires NullableString(v)
  {
    match v
    case Missing => Undefined
    case JsonNull => Null
    case JsonString(s) => Text(s)
  }

  /** The fields whose rule `valid` rejects. */
  function FailingFields(valid: ClientField -> bool): (r: set<ClientField>)
    ensures NameField in r <==> !valid(NameField)
    ensures PhoneField in r <==> !valid(PhoneField)
    ensures EmailField in r <==> !valid(EmailField)
    ensures ObservationsField in r <==> !valid(ObservationsField)
    ensures forall f :: f in r ==> !valid(f)
  {
    var r := (if valid(NameField) then {} else {NameField})
    + (if valid(PhoneField) then {} else {PhoneField})
    + (if valid(EmailField) then {} else {EmailField})
    + (if valid(ObservationsField) then {} else {ObservationsField});
    r
  }

  /** Every field of a client body is valid. */
  predicate ClientBodyValid(b: ClientBody, isEmail: string -> bool) {
    NonEmptyString(b.name) && NonEmptyString(b.phone) && EmailString(b.email, isEmail)
    && NullableString(b.observations)
  }

  /** Every field a partial client body supplies is valid. */
  predicate PatchBodyValid(b: ClientBody, isEmail: string -> bool) {
    (b.name.Missing? || NonEmptyString(b.name)) && (b.phone.Missing? || NonEmptyString(b.phone))
    && (b.email.Missing? || EmailString(b.email, isEmail)) && NullableString(b.observations)
  }

  /** `insertClientSchema.parse`: the parsed client, or every field in error. */
  function ParseClient(b: ClientBody, isEmail: string -> bool): (r: Result<InsertClient, set<ClientField>>)
    ensures r.Ok? <==> ClientBodyValid(b, isEmail)
    ensures r.Err? ==> forall f :: f in r.error <==> !ClientFieldValid(b, f, isEmail)
    ensures r.Ok? ==> r.value.name == b.name.s && r.value.phone == b.phone.s && r.value.email == b.email.s
    ensures r.Ok? ==> |r.value.name| >= 1 && |r.value.phone| >= 1 && isEmail(r.value.email)
    ensures r.Ok? ==> r.value.observations == ToNullable(b.observations)
  {
    var errors := FailingFields(f => ClientFieldValid(b, f, isEmail));
    assert ClientBodyValid(b, isEmail) <==> errors == {} by {
      assert NameField in errors <==> !NonEmptyString(b.name);
      assert PhoneField in errors <==> !NonEmptyString(b.phone);
      assert EmailField in errors <==> !EmailString(b.email, isEmail);
      assert ObservationsField in errors <==> !NullableString(b.observations);
    }
    if errors == {} then
      Ok(InsertClient(b.name.s, b.phone.s, b.email.s, ToNullable(b.observations)))
    else
      Err(errors)
  }

  function OptionalString(v: Json): Option<string> {
    if v.JsonString? then Some(v.s) else None
  }

  /** `insertClientSchema.partial().parse`: the supplied fields, or every field in error. */
  function ParseClientPatch(b: ClientBody, isEmail: string -> bool): (r: Result<ClientPatch, set<ClientField>>)
    ensures r.Ok? <==> PatchBodyValid(b, isEmail)
    ensures r.Err? ==> forall f :: f in r.error <==> !PatchFieldValid(b, f, isEmail)
    ensures r.Ok? ==>
              && (r.value.name.None? <==> b.name.Missing?)
              && (r.value.phone.None? <==> b.phone.Missing?)
              && (r.value.email.None? <==> b.email.Missing?)
              && (r.value.observations.Undefined? <==> b.observations.Missing?)
    ensures r.Ok? && r.value.email.Some? ==> isEmail(r.value.email.value)
    ensures r.Ok? && r.value.name.Some? ==> |r.value.name.value| >= 1
    ensures r.Ok? && r.value.phone.Some? ==> |r.value.phone.value| >= 1
    ensures r.Ok? && b.name.JsonString? ==> r.value.name == Some(b.name.s)
    ensures r.Ok? && b.phone.JsonString? ==> r.value.phone == Some(b.phone.s)
    ensures r.Ok? && b.email.JsonString? ==> r.value.email == Some(b.email.s)
    ensures r.Ok? ==> r.value.observations == ToNullable(b.observations)
  {
    var errors := FailingFields(f => PatchFieldValid(b, f, isEmail));
    assert PatchBodyValid(b, isEmail) <==> errors == {} by {
      assert NameField in errors <==> !PatchFieldValid(b, NameField, isEmail);
      assert PhoneField in errors <==> !PatchFieldValid(b, PhoneField, isEmail);
      assert EmailField in errors <==> !PatchFieldValid(b, EmailField, isEmail);
      assert ObservationsField in errors <==> !PatchFieldValid(b, ObservationsField, isEmail);
    }
    if errors == {} then
      Ok(ClientPatch(OptionalString(b.name), OptionalString(b.phone), OptionalString(b.email),
                     ToNullable(b.observations)))
    else
      Err(errors)
  }

  /** `loginSchema.parse`: both credentials must be non-empty strings. */
  function ParseLogin(b: LoginBody): (r: Result<LoginData, set<LoginField>>)
    ensures r.Ok? <==> NonEmptyString(b.username) && NonEmptyString(b.password)
    ensures r.Ok? ==> r.value == LoginData(b.username.s, b.password.s)
    ensures r.Err? ==>
              && (UsernameField in r.error <==> !NonEmptyString(b.username))
              && (PasswordField in r.error <==> !NonEmptyString(b.password))
  {
    var errors := (if NonEmptyString(b.username) then {} else {UsernameField})
                + (if NonEmptyString(b.password) then {} else {PasswordField});
    if errors == {} then Ok(LoginData(b.username.s, b.password.s)) else Err(errors)
  }

  /** A client body with an empty name is rejected, whatever the other fields hold. */
  lemma EmptyNameRejected(b: ClientBody, isEmail: string -> bool)
    requires b.name == JsonString("")
    ensures ParseClient(b, isEmail).Err? && NameField in ParseClient(b, isEmail).error
    ensures ParseClientPatch(b, isEmail).Err? && NameField in ParseClientPatch(b, isEmail).error
  {
    assert !ClientFieldValid(b, NameField, isEmail);
    assert !PatchFieldValid(b, NameField, isEmail);
  }

  /** A client body with an empty phone is rejected. */
  lemma EmptyPhoneRejected(b: ClientBody, isEmail: string -> bool)
    requires b.phone == JsonString("")
    ensures ParseClient(b, isEmail).Err? && PhoneField in ParseClient(b, isEmail).error
    ensures ParseClientPatch(b, isEmail).Err? && PhoneField in ParseClientPatch(b, isEmail).error
  {
    assert !ClientFieldValid(b, PhoneField, isEmail);
    assert !PatchFieldValid(b, PhoneField, isEmail);
  }

  /** A client body whose email fails the format check is rejected. */
  lemma MalformedEmailRejected(b: ClientBody, isEmail: string -> bool)
    requires b.email.JsonString? && !isEmail(b.email.s)
    ensures ParseClient(b, isEmail).Err? && EmailField in ParseClient(b, isEmail).error
    ensures ParseClientPatch(b, isEmail).Err? && EmailField in ParseClientPatch(b, isEmail).error
  {
    assert !ClientFieldValid(b, EmailField, isEmail);
    assert !PatchFieldValid(b, EmailField, isEmail);
  }

  /** Observations may be left out or `null`: a body that is otherwise valid is accepted. */
  lemma ObservationsOptional(b: ClientBody, isEmail: string -> bool)
    requires b.observations == Missing || b.observations == JsonNull
    requires NonEmptyString(b.name) && NonEmptyString(b.phone) && EmailString(b.email, isEmail)
    ensures ParseClient(b, isEmail).Ok?
    ensures ParseClient(b, isEmail).value.observations == (if b.observations == Missing then Undefined else Null)
  {
  }
}
