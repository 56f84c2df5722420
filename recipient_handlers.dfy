/**
 * The recipient command handlers: create (the address must be new), update
 * (the recipient must exist and the address must not be another
 * recipient's), delete (false when there is nothing to delete). An exception
 * thrown to the caller is a `Failure`, and a handler that throws has changed
 * nothing.
 */
module RecipientCommands {
  import opened Common
  import opened Text
  import opened RecipientEntity
  import opened Messages
  import opened RecipientStore

  function EmailTakenMessage(email: string): string
  {
    "Destinatário com e-mail '" + email + "' já existe."
  }

  function RecipientNotFoundMessage(id: Guid): string
  {
    "Destinatário com ID '" + GuidText(id) + "' não encontrado."
  }

  function EmailUsedByOtherMessage(email: string): string
  {
    "E-mail '" + email + "' já está sendo usado por outro destinatário."
  }

  /** Some stored recipient has this address. */
  ghost predicate EmailInUse(rows: RecipientTable, email: string)
  {
    exists k :: k in rows && rows[k].email == email
  }

  /** A stored recipient other than `id` has this address. */
  ghost predicate EmailHeldByOther(rows: RecipientTable, email: string, id: Guid)
  {
    exists k :: k in rows && k != id && rows[k].email == email
  }

  /** The update's check as written: the first recipient found with the address is not the one updated. */
  predicate EmailBlocked(rows: RecipientTable, email: string, id: Guid)
  {
    var same := GetByEmail(rows, email);
    same.Some? && same.value.id != id
  }

  /** The mapped entity of a create request, with empty id, stamped now. */
  function NewRecipient(dto: CreateRecipientDto, now: Time): Recipient
  {
    Recipient(EmptyGuid, dto.name, dto.email, dto.cdc, dto.isActive, now, now)
  }

  /** The stored recipient with an update request copied onto it: the timestamps are kept. */
  function EditedRecipient(r: Recipient, dto: UpdateRecipientDto): Recipient
  {
    r.(id := dto.id, name := dto.name, email := dto.email, cdc := dto.cdc, isActive := dto.isActive)
  }

  /**
   * Over a table whose rows sit under their own ids and whose addresses are
   * unique, the update's check refuses an address exactly when another
   * recipient holds it; keeping one's own address is allowed.
   */
  lemma EmailBlockedMeans(rows: RecipientTable, email: string, id: Guid)
    requires KeysMatch(rows) && UniqueEmails(rows)
    ensures EmailBlocked(rows, email, id) <==> EmailHeldByOther(rows, email, id)
  {
    GetByEmailFinds(rows, email);
    if EmailHeldByOther(rows, email, id) {
      var k :| k in rows && k != id && rows[k].email == email;
      var found := GetByEmail(rows, email).value;
      var j :| j in rows && rows[j] == found;
      assert j == k;
    }
  }

  /** Adding a recipient under a new key with an address nobody holds keeps the addresses unique. */
  lemma AddKeepsUnique(rows: RecipientTable, k: Guid, r: Recipient)
    requires UniqueEmails(rows) && k !in rows && !EmailInUse(rows, r.email)
    ensures UniqueEmails(rows[k := r])
  {
  }

  /** Replacing a recipient by one whose address no other recipient holds keeps the addresses unique. */
  lemma ReplaceKeepsUnique(rows: RecipientTable, k: Guid, r: Recipient)
    requires UniqueEmails(rows) && k in rows && !EmailHeldByOther(rows, r.email, k)
    ensures UniqueEmails(rows[k := r])
  {
  }

  /** `CreateRecipientHandler.Handle`. */
  method CreateRecipient(repo: RecipientRepository, dto: CreateRecipientDto, now: Time)
    returns (result: Result<Recipient>)
    requires repo.Valid()
    modifies repo
    ensures repo.Valid()
    ensures EmailInUse(old(repo.rows), dto.email) ==>
      result == Failure(InvalidOperation(EmailTakenMessage(dto.email))) && repo.rows == old(repo.rows)
    ensures !EmailInUse(old(repo.rows), dto.email) ==>
      result == Success(NewRecipient(dto, now).(id := old(repo.nextId))) && old(repo.nextId) !in old(repo.rows) &&
      repo.rows == old(repo.rows)[old(repo.nextId) := result.value] && |repo.rows| == |old(repo.rows)| + 1
    ensures UniqueEmails(old(repo.rows)) ==> UniqueEmails(repo.rows)
  {
    GetByEmailFinds(repo.rows, dto.email);
    var existing := GetByEmail(repo.rows, dto.email);
    if existing.Some? {
      return Failure(InvalidOperation(EmailTakenMessage(dto.email)));
    }
    var created := repo.Create(NewRecipient(dto, now), now);
    result := Success(created);
    if UniqueEmails(old(repo.rows)) {
      AddKeepsUnique(old(repo.rows), created.id, created);
    }
  }

  /** `UpdateRecipientHandler.Handle`. */
  method UpdateRecipient(repo: RecipientRepository, dto: UpdateRecipientDto, now: Time)
    returns (result: Result<Recipient>)
    requires repo.Valid()
    modifies repo
    ensures repo.Valid()
    ensures dto.id !in old(repo.rows) ==>
      result == Failure(NotFoundArgument(RecipientNotFoundMessage(dto.id))) && repo.rows == old(repo.rows)
    ensures dto.id in old(repo.rows) && EmailBlocked(old(repo.rows), dto.email, dto.id) ==>
      result == Failure(InvalidOperation(EmailUsedByOtherMessage(dto.email))) && repo.rows == old(repo.rows)
    ensures dto.id in old(repo.rows) && !EmailBlocked(old(repo.rows), dto.email, dto.id) ==>
      result == Success(EditedRecipient(old(repo.rows)[dto.id], dto).(updatedAt := now)) &&
      repo.rows == old(repo.rows)[dto.id := result.value]
    ensures UniqueEmails(old(repo.rows)) ==> UniqueEmails(repo.rows)
  {
    var existing := repo.Find(dto.id);
    if existing.None? {
      return Failure(NotFoundArgument(RecipientNotFoundMessage(dto.id)));
    }
    var sameEmail := GetByEmail(repo.rows, dto.email);
    if sameEmail.Some? && sameEmail.value.id != dto.id {
      return Failure(InvalidOperation(EmailUsedByOtherMessage(dto.email)));
    }
    var updated, ok := repo.Update(EditedRecipient(existing.value, dto), now);
    result := Success(updated);
    if UniqueEmails(old(repo.rows)) {
      EmailBlockedMeans(old(repo.rows), dto.email, dto.id);
      ReplaceKeepsUnique(old(repo.rows), dto.id, updated);
    }
  }

  /** `DeleteRecipientHandler.Handle`: true and the recipient removed, or false and nothing changed. */
  method DeleteRecipient(repo: RecipientRepository, id: Guid) returns (deleted: bool)
    requires repo.Valid()
    modifies repo
    ensures repo.Valid()
    ensures deleted == (id in old(repo.rows))
    ensures repo.rows == old(repo.rows) - {id}
    ensures !deleted ==> repo.rows == old(repo.rows)
  {
    var existing := repo.Find(id);
    if existing.None? {
      return false;
    }
    repo.Delete(id);
    deleted := true;
  }
}
