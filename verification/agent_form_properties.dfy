/** Properties of the agent form that relate several cleanings or pin down
    how a single field is read. */
module AgentFormProperties {
  import opened Wrappers
  import opened PyText
  import opened AgentForm

  /** A form without a status is given `"ACTIVE"`. */
  lemma StatusDefaultsToActive(data: FormData)
    requires "status" !in data || data["status"] == None || data["status"] == Some("")
    ensures Field(data, Status) == DefaultStatus
  {
    StripTrimmed(DefaultStatus);
  }

  /** A first name made only of whitespace is reported as missing before
      anything else is looked at. */
  lemma BlankFirstNameIsMissing(data: FormData, userId: Option<int>, agents: seq<Agent>, s: string)
    requires "first_name" in data && data["first_name"] == Some(s)
    requires forall i :: 0 <= i < |s| ==> IsSpace(s[i])
    ensures Clean(data, userId, agents) == Failure(Missing(FirstName))
    ensures Message(Clean(data, userId, agents).error) == "First Name missing"
  {
    StripBlank(s);
  }

  /** Every trimmed value has no whitespace at either end. */
  lemma FieldsAreTrimmed(data: FormData, f: FieldName)
    ensures Trimmed(Field(data, f))
  {
    StripIsTrimmed(OrElse(Lookup(data, Key(f)), if f == Status then DefaultStatus else ""));
  }

  /** Writing the same values back twice is writing them once. */
  lemma WriteBackTwice(data: FormData, t: AgentFields)
    ensures WriteBack(WriteBack(data, t), t) == WriteBack(data, t)
  {
    var out := WriteBack(data, t);
    var twice := WriteBack(out, t);
    forall key | key in twice
      ensures key in out && twice[key] == out[key]
    {
      match FieldOf(key)
      case Some(f) =>
      case None =>
    }
  }

  /** A present field, trimmed and written back, is read back as it was:
      reading it back strips it a second time, which changes nothing. */
  lemma FieldRoundTrip(data: FormData, f: FieldName)
    requires Present(data, f)
    ensures Field(WriteBack(data, Fields(data)), f) == Field(data, f)
  {
    assert Lookup(WriteBack(data, Fields(data)), Key(f)) == Some(Field(data, f));
    StripIdempotent(OrElse(Lookup(data, Key(f)), if f == Status then DefaultStatus else ""));
  }

  /** The written-back values of a successful cleaning are read back as
      they are. */
  lemma FieldsOfCleaned(data: FormData)
    requires AllPresent(data)
    ensures Fields(WriteBack(data, Fields(data))) == Fields(data)
  {
    FieldRoundTrip(data, FirstName);
    FieldRoundTrip(data, LastName);
    FieldRoundTrip(data, Username);
    FieldRoundTrip(data, Email);
    FieldRoundTrip(data, EmployeeId);
    FieldRoundTrip(data, Status);
    FieldRoundTrip(data, Country);
  }

  /** Cleaning what a successful cleaning returned gives it back unchanged:
      the written-back values are already trimmed, so they are read back
      as they are and meet the same uniqueness checks. */
  lemma CleanIdempotent(data: FormData, userId: Option<int>, agents: seq<Agent>)
    requires Clean(data, userId, agents).Success?
    ensures var out := Clean(data, userId, agents).value;
            Clean(out, userId, agents) == Success(out)
  {
    FieldsOfCleaned(data);
    WriteBackTwice(data, Fields(data));
  }

  /** The edited agent never clashes with itself. */
  lemma EditedAgentIsNotOther(a: Agent, value: string)
    ensures !UsernameClash([a], Some(a.id), value)
    ensures !EmployeeIdClash([a], Some(a.id), value)
    ensures !EmailClash([a], Some(a.id), value)
  {
    assert [a][0] == a;
  }

  /** An agent re-submitting its own details passes the uniqueness checks
      when the form names it as the agent being edited. */
  lemma OwnRecordAccepted(data: FormData, a: Agent)
    requires AllPresent(data)
    ensures Clean(data, Some(a.id), [a]).Success?
  {
    EditedAgentIsNotOther(a, Field(data, Username));
    EditedAgentIsNotOther(a, Field(data, EmployeeId));
    EditedAgentIsNotOther(a, Field(data, Email));
  }

  /** Without `user_id`, the same agent's stored username blocks the form. */
  lemma OwnRecordBlocksNewAgent(data: FormData, a: Agent)
    requires AllPresent(data)
    requires a.username == Field(data, Username)
    ensures Clean(data, None, [a]) == Failure(UsernameTaken)
    ensures Message(Clean(data, None, [a]).error) == "Username is already taken."
  {
    assert Other([a][0], None);
  }
}
