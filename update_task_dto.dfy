/** The validation attached to the body of `PATCH /tasks/:id`: the status
    must be non-empty and one of the three server statuses. */
module UpdateTaskDto {

  /** The decorators on `UpdateTaskDto.status`. */
  datatype Constraint = IsNotEmpty | IsIn

  /** The list given to `IsIn`. */
  const AllowedStatuses: seq<string> := ["open", "in_progress", "done"]

  /** Every constraint the status breaks; class-validator checks all
      decorators and reports each failure. */
  function Violations(status: string): (v: set<Constraint>)
    ensures v == {} <==> status == "open" || status == "in_progress" || status == "done"
    ensures IsNotEmpty in v <==> status == ""
    ensures v <= {IsNotEmpty, IsIn}
  {
    (if status == "" then {IsNotEmpty} else {}) +
    (if status !in AllowedStatuses then {IsIn} else {})
  }

  /** The status passes validation, so the update reaches the service. */
  predicate Accepts(status: string)
  {
    Violations(status) == {}
  }

  /** `IsIn` alone already rejects the empty string: every allowed status
      is non-empty, so `IsNotEmpty` never decides the outcome. */
  lemma IsInSubsumesIsNotEmpty(status: string)
    ensures IsNotEmpty in Violations(status) ==> IsIn in Violations(status)
    ensures Accepts(status) <==> IsIn !in Violations(status)
  {
  }

  /** The empty status breaks both constraints. */
  lemma EmptyStatusRejected()
    ensures Violations("") == {IsNotEmpty, IsIn}
  {
  }

  /** The two statuses the browser client sends are not accepted. */
  lemma ClientStatusesRejected()
    ensures Violations("pending") == {IsIn}
    ensures Violations("completed") == {IsIn}
  {
  }
}
