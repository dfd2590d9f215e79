/** `AgentForm.clean`: trims the agent fields, reports the first missing one
    in a fixed order, and rejects a username, employee id or email already
    used by another agent. The stored agents are a list; the agent being
    edited, named by `user_id`, is not "another agent". */
module AgentForm {
  import opened Wrappers
  import opened PyText

  /** The columns of a stored agent the uniqueness checks read. */
  datatype Agent = Agent(id: int, email: string, employeeId: Option<string>, username: string)

  /** The seven fields the form trims. */
  datatype FieldName = FirstName | LastName | Username | Email | EmployeeId | Status | Country

  function Key(f: FieldName): string {
    match f
    case FirstName => "first_name"
    case LastName => "last_name"
    case Username => "username"
    case Email => "email"
    case EmployeeId => "employee_id"
    case Status => "status"
    case Country => "country"
  }

  predicate IsKey(key: string) {
    exists f :: Key(f) == key
  }

  /** The field stored under `key`, if any. */
  function FieldOf(key: string): (f: Option<FieldName>)
    ensures f.Some? ==> Key(f.value) == key
    ensures f.None? ==> !IsKey(key)
  {
    if key == "first_name" then Some(FirstName)
    else if key == "last_name" then Some(LastName)
    else if key == "username" then Some(Username)
    else if key == "email" then Some(Email)
    else if key == "employee_id" then Some(EmployeeId)
    else if key == "status" then Some(Status)
    else if key == "country" then Some(Country)
    else None
  }

  datatype FormError =
    | Missing(field: FieldName)
    | UsernameTaken | EmployeeIdTaken | EmailRegistered

  function Message(e: FormError): string {
    match e
    case Missing(FirstName) => "First Name missing"
    case Missing(LastName) => "Last Name missing"
    case Missing(Username) => "Username missing"
    case Missing(Email) => "Email missing"
    case Missing(EmployeeId) => "Employee ID missing"
    case Missing(Status) => "Status missing"
    case Missing(Country) => "Country missing"
    case UsernameTaken => "Username is already taken."
    case EmployeeIdTaken => "Employee ID is already taken."
    case EmailRegistered => "Email address is registered with us."
  }

  /** The cleaned form data: absent keys and `None` values both read as
      missing. */
  type FormData = map<string, Option<string>>

  const DefaultStatus: string := "ACTIVE"

  function Lookup(data: FormData, key: string): Option<string> {
    if key in data then data[key] else None
  }

  /** `(cleaned.get(key) or default).strip()`, with `"ACTIVE"` as the
      default for `status` and `""` for every other field. */
  function Field(data: FormData, f: FieldName): string {
    Strip(OrElse(Lookup(data, Key(f)), if f == Status then DefaultStatus else ""))
  }

  predicate Present(data: FormData, f: FieldName) {
    Field(data, f) != ""
  }

  /** All seven fields are present. */
  predicate AllPresent(data: FormData) {
    && Present(data, FirstName) && Present(data, LastName) && Present(data, Username)
    && Present(data, Email) && Present(data, EmployeeId) && Present(data, Status)
    && Present(data, Country)
  }

  /** A stored agent the uniqueness checks look at: all of them, except the
      one being edited. */
  predicate Other(a: Agent, userId: Option<int>) {
    userId.None? || a.id != userId.value
  }

  predicate UsernameClash(agents: seq<Agent>, userId: Option<int>, username: string) {
    exists i :: 0 <= i < |agents| && Other(agents[i], userId) && agents[i].username == username
  }

  predicate EmployeeIdClash(agents: seq<Agent>, userId: Option<int>, employeeId: string) {
    exists i :: 0 <= i < |agents| && Other(agents[i], userId) && agents[i].employeeId == Some(employeeId)
  }

  predicate EmailClash(agents: seq<Agent>, userId: Option<int>, email: string) {
    exists i :: 0 <= i < |agents| && Other(agents[i], userId) && agents[i].email == email
  }

  /** The seven trimmed values, one per field. */
  datatype AgentFields = AgentFields(
    firstName: string, lastName: string, username: string, email: string,
    employeeId: string, status: string, country: string)

  function Get(t: AgentFields, f: FieldName): string {
    match f
    case FirstName => t.firstName
    case LastName => t.lastName
    case Username => t.username
    case Email => t.email
    case EmployeeId => t.employeeId
    case Status => t.status
    case Country => t.country
  }

  /** The seven fields of the form, trimmed. */
  function Fields(data: FormData): (t: AgentFields)
    ensures forall f :: Get(t, f) == Field(data, f)
  {
    AgentFields(
      Field(data, FirstName), Field(data, LastName), Field(data, Username), Field(data, Email),
      Field(data, EmployeeId), Field(data, Status), Field(data, Country))
  }

  /** The cleaned data with the seven values `t` written back under their
      keys; every other key passes through. */
  function WriteBack(data: FormData, t: AgentFields): (out: FormData)
    ensures forall key :: key in out <==> key in data || IsKey(key)
    ensures forall f :: Key(f) in out && out[Key(f)] == Some(Get(t, f))
    ensures forall key :: key in data && !IsKey(key) ==> out[key] == data[key]
  {
    data + map[
      Key(FirstName) := Some(t.firstName), Key(LastName) := Some(t.lastName),
      Key(Username) := Some(t.username), Key(Email) := Some(t.email),
      Key(EmployeeId) := Some(t.employeeId), Key(Status) := Some(t.status),
      Key(Country) := Some(t.country)]
  }

  /** `AgentForm.clean`. `userId` is the edited agent's id when the request
      carries a non-empty `user_id`. */
  function Clean(data: FormData, userId: Option<int>, agents: seq<Agent>): (r: Result<FormData, FormError>)
    // required fields: the first missing one in the check order is reported
    ensures r == Failure(Missing(FirstName)) <==> !Present(data, FirstName)
    ensures r == Failure(Missing(LastName)) <==> Present(data, FirstName) && !Present(data, LastName)
    ensures r == Failure(Missing(Username)) <==>
      Present(data, FirstName) && Present(data, LastName) && !Present(data, Username)
    ensures r == Failure(Missing(Email)) <==>
      Present(data, FirstName) && Present(data, LastName) && Present(data, Username)
      && !Present(data, Email)
    ensures r == Failure(Missing(EmployeeId)) <==>
      Present(data, FirstName) && Present(data, LastName) && Present(data, Username)
      && Present(data, Email) && !Present(data, EmployeeId)
    ensures r == Failure(Missing(Status)) <==>
      Present(data, FirstName) && Present(data, LastName) && Present(data, Username)
      && Present(data, Email) && Present(data, EmployeeId) && !Present(data, Status)
    ensures r == Failure(Missing(Country)) <==>
      Present(data, FirstName) && Present(data, LastName) && Present(data, Username)
      && Present(data, Email) && Present(data, EmployeeId) && Present(data, Status)
      && !Present(data, Country)
    // uniqueness, checked on the trimmed values: username, employee id, email
    ensures AllPresent(data) ==>
      (r == Failure(UsernameTaken) <==> UsernameClash(agents, userId, Field(data, Username)))
    ensures AllPresent(data) ==>
      (r == Failure(EmployeeIdTaken) <==>
        !UsernameClash(agents, userId, Field(data, Username))
        && EmployeeIdClash(agents, userId, Field(data, EmployeeId)))
    ensures r.Success? <==>
      && AllPresent(data)
      && !UsernameClash(agents, userId, Field(data, Username))
      && !EmployeeIdClash(agents, userId, Field(data, EmployeeId))
      && !EmailClash(agents, userId, Field(data, Email))
    // on success the trimmed fields are written back
    ensures r.Success? ==> r.value == WriteBack(data, Fields(data))
  {
    if !Present(data, FirstName) then Failure(Missing(FirstName))
    else if !Present(data, LastName) then Failure(Missing(LastName))
    else if !Present(data, Username) then Failure(Missing(Username))
    else if !Present(data, Email) then Failure(Missing(Email))
    else if !Present(data, EmployeeId) then Failure(Missing(EmployeeId))
    else if !Present(data, Status) then Failure(Missing(Status))
    else if !Present(data, Country) then Failure(Missing(Country))
    else if UsernameClash(agents, userId, Field(data, Username)) then Failure(UsernameTaken)
    else if EmployeeIdClash(agents, userId, Field(data, EmployeeId)) then Failure(EmployeeIdTaken)
    else if EmailClash(agents, userId, Field(data, Email)) then Failure(EmailRegistered)
    else Success(WriteBack(data, Fields(data)))
  }
}
