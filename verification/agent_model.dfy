/** The display name of a Zendesk agent. */
module AgentModel {
  import opened PyText

  /** `ZendeskAgent.names`: first and last name joined by one space, with
      surrounding whitespace removed. */
  function Names(firstName: string, lastName: string): (r: string)
    ensures Trimmed(r)
    ensures exists k :: StripsTo(firstName + " " + lastName, k, r)
  {
    StripSlice(firstName + " " + lastName);
    StripIsTrimmed(firstName + " " + lastName);
    Strip(firstName + " " + lastName)
  }

  /** An empty last name gives the stripped first name: the joining space
      is stripped with the rest of the trailing whitespace. */
  lemma NamesWithoutLastName(firstName: string)
    ensures Names(firstName, "") == Strip(firstName)
  {
    assert firstName + " " + "" == firstName + " ";
    StripTrailingSpace(firstName);
  }

  /** Names that are already trimmed and non-empty are joined verbatim. */
  lemma NamesOfTrimmed(firstName: string, lastName: string)
    requires firstName != "" && lastName != ""
    requires Trimmed(firstName) && Trimmed(lastName)
    ensures Names(firstName, lastName) == firstName + " " + lastName
  {
    var joined := firstName + " " + lastName;
    assert joined[0] == firstName[0] && joined[|joined| - 1] == lastName[|lastName| - 1];
  }
}
