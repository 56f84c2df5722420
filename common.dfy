/** Shared vocabulary of the model: identifiers, the abstract clock and the optional value. */
module Common {

  /** A GUID. Only equality and freshness matter, so a natural number stands for it. */
  type Guid = nat

  /** A reading of the abstract clock (DateTime.UtcNow), in seconds. */
  type Time = nat

  /** C#'s nullable reference / nullable value. */
  datatype Option<+T> = None | Some(value: T)

  /** The empty GUID (Guid.Empty), the Id of an entity that the store has not yet created. */
  const EmptyGuid: Guid := 0
}
