/**
 * The template command handlers: create (the name must be new), update (the
 * template must exist and a changed name must be free), delete (false when
 * there is nothing to delete). An exception thrown to the caller is a
 * `Failure`, and a handler that throws has changed nothing.
 */
module TemplateCommands {
  import opened Common
  import opened Text
  import opened EmailTemplateEntity
  import opened Messages
  import opened TemplateStore

  function NameTakenMessage(name: string): string
  {
    "Template com nome '" + name + "' já existe."
  }

  function TemplateNotFoundMessage(id: Guid): string
  {
    "Template com ID '" + GuidText(id) + "' não encontrado."
  }

  /** Some stored template has this name. */
  ghost predicate NameInUse(rows: TemplateTable, name: string)
  {
    exists k :: k in rows && rows[k].name == name
  }

  /** The mapped entity of a create request: active, with empty id, stamped now. */
  function NewTemplate(dto: CreateEmailTemplateDto, now: Time): EmailTemplate
  {
    EmailTemplate(EmptyGuid, dto.name, dto.subject, dto.body, true, now, now)
  }

  /** The stored template with an update request mapped onto it: the creation time is kept. */
  function EditedTemplate(t: EmailTemplate, dto: UpdateEmailTemplateDto, now: Time): EmailTemplate
  {
    t.(id := dto.id, name := dto.name, subject := dto.subject, body := dto.body, isActive := dto.isActive, updatedAt := now)
  }

  /** Adding a template under a new key with a name nobody holds keeps the names unique. */
  lemma AddKeepsUnique(rows: TemplateTable, k: Guid, t: EmailTemplate)
    requires UniqueNames(rows) && k !in rows && !NameInUse(rows, t.name)
    ensures UniqueNames(rows[k := t])
  {
  }

  /** Replacing a template by one whose name is its own or held by nobody else keeps the names unique. */
  lemma ReplaceKeepsUnique(rows: TemplateTable, k: Guid, t: EmailTemplate)
    requires UniqueNames(rows) && k in rows
    requires t.name == rows[k].name || forall j :: j in rows && j != k ==> rows[j].name != t.name
    ensures UniqueNames(rows[k := t])
  {
  }

  /** `CreateEmailTemplateHandler.Handle`. */
  method CreateEmailTemplate(repo: EmailTemplateRepository, dto: CreateEmailTemplateDto, now: Time)
    returns (result: Result<EmailTemplate>)
    requires repo.Valid()
    modifies repo
    ensures repo.Valid()
    ensures NameInUse(old(repo.rows), dto.name) ==>
      result == Failure(InvalidOperation(NameTakenMessage(dto.name))) && repo.rows == old(repo.rows)
    ensures !NameInUse(old(repo.rows), dto.name) ==>
      result == Success(NewTemplate(dto, now).(id := old(repo.nextId))) && old(repo.nextId) !in old(repo.rows) &&
      repo.rows == old(repo.rows)[old(repo.nextId) := result.value] && |repo.rows| == |old(repo.rows)| + 1
    ensures UniqueNames(old(repo.rows)) ==> UniqueNames(repo.rows)
  {
    GetByNameFinds(repo.rows, dto.name);
    var existing := GetByName(repo.rows, dto.name);
    if existing.Some? {
      return Failure(InvalidOperation(NameTakenMessage(dto.name)));
    }
    var created := repo.Create(NewTemplate(dto, now), now);
    result := Success(created);
    if UniqueNames(old(repo.rows)) {
      AddKeepsUnique(old(repo.rows), created.id, created);
    }
  }

  /** `UpdateEmailTemplateHandler.Handle`. */
  method UpdateEmailTemplate(repo: EmailTemplateRepository, dto: UpdateEmailTemplateDto, now: Time)
    returns (result: Result<EmailTemplate>)
    requires repo.Valid()
    modifies repo
    ensures repo.Valid()
    ensures dto.id !in old(repo.rows) ==>
      result == Failure(NotFoundArgument(TemplateNotFoundMessage(dto.id))) && repo.rows == old(repo.rows)
    ensures dto.id in old(repo.rows) && old(repo.rows)[dto.id].name != dto.name && NameInUse(old(repo.rows), dto.name) ==>
      result == Failure(InvalidOperation(NameTakenMessage(dto.name))) && repo.rows == old(repo.rows)
    ensures dto.id in old(repo.rows) && (old(repo.rows)[dto.id].name == dto.name || !NameInUse(old(repo.rows), dto.name)) ==>
      result == Success(EditedTemplate(old(repo.rows)[dto.id], dto, now)) &&
      repo.rows == old(repo.rows)[dto.id := result.value]
    ensures UniqueNames(old(repo.rows)) ==> UniqueNames(repo.rows)
  {
    var existing := repo.Find(dto.id);
    if existing.None? {
      return Failure(NotFoundArgument(TemplateNotFoundMessage(dto.id)));
    }
    if existing.value.name != dto.name {
      GetByNameFinds(repo.rows, dto.name);
      var sameName := GetByName(repo.rows, dto.name);
      if sameName.Some? && sameName.value.id != dto.id {
        return Failure(InvalidOperation(NameTakenMessage(dto.name)));
      }
    }
    var updated, ok := repo.Update(EditedTemplate(existing.value, dto, now), now);
    result := Success(updated);
    if UniqueNames(old(repo.rows)) {
      ReplaceKeepsUnique(old(repo.rows), dto.id, updated);
    }
  }

  /** `DeleteEmailTemplateHandler.Handle`: true and the template removed, or false and nothing changed. */
  method DeleteEmailTemplate(repo: EmailTemplateRepository, id: Guid) returns (deleted: bool)
    requires repo.Valid()
    modifies repo
    ensures repo.Valid()
    ensures deleted == (id in old(repo.rows))
    ensures repo.rows == old(repo.rows) - {id}
    ensures !deleted ==> repo.rows == old(repo.rows)
  {
    var existing := repo.Find(id);
    if existing.None? {
      return false;
    }
    repo.Delete(id);
    deleted := true;
  }
}
