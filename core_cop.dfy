/** The `core` cop: how a `config_rec` name registered by the core module maps
    back to the keyword written in the configuration file. */
module CoreCop {
  import opened Wrappers
  import opened Host

  /** The four record names the core module stores under identifiers that
      differ from, or never were, a configuration keyword. */
  const InternalNames: set<string> := {"GroupID", "GroupName", "UserID", "UserName"}

  /** `get_directive` of the core cop, on the record's name: the keyword a
      core record name was written as. `GroupID` and `UserID` are side
      effects of the `Group` and `User` directives and have no keyword of
      their own (ENOENT); `GroupName` and `UserName` are written `Group` and
      `User`; every other name is its own keyword. */
  function DirectiveFor(name: string): (r: Result<string, Errno>)
    ensures r.Failure? <==> name == "GroupID" || name == "UserID"
    ensures r.Failure? ==> r.error == ENOENT
    ensures name !in InternalNames ==> r == Success(name)
    ensures r.Success? && r.value != name ==>
      (name == "GroupName" && r.value == "Group") || (name == "UserName" && r.value == "User")
    ensures r.Success? ==> r.value !in InternalNames
  {
    if name == "GroupID" || name == "UserID" then Failure(ENOENT)
    else if name == "GroupName" then Success("Group")
    else if name == "UserName" then Success("User")
    else Success(name)
  }

  /** Resolving is idempotent: the keyword a name resolves to resolves to
      itself. */
  lemma DirectiveIdempotent(name: string)
    requires DirectiveFor(name).Success?
    ensures DirectiveFor(DirectiveFor(name).value) == DirectiveFor(name)
  {
  }
}
