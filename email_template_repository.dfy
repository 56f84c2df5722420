/** The `EmailTemplates` table and `EmailTemplateRepository`. */
module TemplateStore {
  import opened Common
  import opened Text
  import opened Tables
  import opened EmailTemplateEntity

  type TemplateTable = map<Guid, EmailTemplate>

  ghost predicate KeysMatch(rows: TemplateTable)
  {
    forall k :: k in rows ==> rows[k].id == k
  }

  ghost predicate Stored(rows: TemplateTable, x: EmailTemplate)
  {
    exists k :: k in rows && rows[k] == x
  }

  /** Template names are unique (the unique index on `Name`). */
  ghost predicate UniqueNames(rows: TemplateTable)
  {
    forall a, b :: a in rows && b in rows && rows[a].name == rows[b].name ==> a == b
  }

  /** `OrderBy(x => x.Name)`, with the ordinal string order standing for the collation. */
  predicate NameNoLater(a: EmailTemplate, b: EmailTemplate) { LexLeq(a.name, b.name) }

  lemma NameOrderTotal()
    ensures TotalPreorder(NameNoLater)
  {
    forall a: EmailTemplate, b: EmailTemplate ensures NameNoLater(a, b) || NameNoLater(b, a) {
      LexLeqTotal(a.name, b.name);
    }
    forall a: EmailTemplate, b: EmailTemplate, c: EmailTemplate | NameNoLater(a, b) && NameNoLater(b, c)
      ensures NameNoLater(a, c)
    {
      LexLeqTransitive(a.name, b.name, c.name);
    }
  }

  /** `GetByIdAsync(id)`. */
  function GetById(rows: TemplateTable, id: Guid): Option<EmailTemplate>
  {
    FirstWhere(TableOrder(rows), (x: EmailTemplate) => x.id == id)
  }

  /** `GetByNameAsync(name)`: the first template with exactly that name, or none. */
  function GetByName(rows: TemplateTable, name: string): Option<EmailTemplate>
  {
    FirstWhere(TableOrder(rows), (x: EmailTemplate) => x.name == name)
  }

  /** `GetAllActiveAsync()`: the active templates in name order. */
  function GetAllActive(rows: TemplateTable): (r: seq<EmailTemplate>)
    ensures SortedBy(r, NameNoLater)
    ensures multiset(r) == multiset(Filter(TableOrder(rows), (x: EmailTemplate) => x.isActive))
  {
    NameOrderTotal();
    SortBy(Filter(TableOrder(rows), (x: EmailTemplate) => x.isActive), NameNoLater)
  }

  /** `GetAllAsync()`: every template in name order. */
  function GetAll(rows: TemplateTable): (r: seq<EmailTemplate>)
    ensures SortedBy(r, NameNoLater)
    ensures multiset(r) == multiset(TableOrder(rows))
    ensures |r| == |rows|
  {
    NameOrderTotal();
    SortBy(TableOrder(rows), NameNoLater)
  }

  lemma GetByIdFinds(rows: TemplateTable, id: Guid)
    requires KeysMatch(rows)
    ensures GetById(rows, id) == if id in rows then Some(rows[id]) else None
  {
    var p := (x: EmailTemplate) => x.id == id;
    if id in rows {
      TableOrderMembers(rows, rows[id]);
      forall y | y in TableOrder(rows) && p(y) ensures y == rows[id] {
        TableOrderMembers(rows, y);
      }
      FirstWhereUnique(TableOrder(rows), p, rows[id]);
    } else {
      forall y | y in TableOrder(rows) ensures !p(y) {
        TableOrderMembers(rows, y);
      }
    }
  }

  /** Lookup by name finds a stored template with that name, and finds none exactly when no template has it. */
  lemma GetByNameFinds(rows: TemplateTable, name: string)
    ensures GetByName(rows, name).Some? ==>
      Stored(rows, GetByName(rows, name).value) && GetByName(rows, name).value.name == name
    ensures GetByName(rows, name).None? <==> forall k :: k in rows ==> rows[k].name != name
  {
    var r := GetByName(rows, name);
    if r.Some? {
      TableOrderMembers(rows, r.value);
    }
    if exists k :: k in rows && rows[k].name == name {
      var k :| k in rows && rows[k].name == name;
      TableOrderMembers(rows, rows[k]);
    }
  }

  lemma FilterTableMembers(rows: TemplateTable, p: EmailTemplate -> bool, x: EmailTemplate)
    ensures x in Filter(TableOrder(rows), p) <==> Stored(rows, x) && p(x)
  {
    TableOrderMembers(rows, x);
  }

  /** The active query returns exactly the stored templates that are active. */
  lemma GetAllActiveMembers(rows: TemplateTable, x: EmailTemplate)
    ensures x in GetAllActive(rows) <==> Stored(rows, x) && x.isActive
  {
    var p := (y: EmailTemplate) => y.isActive;
    FilterTableMembers(rows, p, x);
    assert x in GetAllActive(rows) <==> x in multiset(Filter(TableOrder(rows), p));
  }

  /** The full listing holds every stored template. */
  lemma GetAllMembers(rows: TemplateTable, x: EmailTemplate)
    ensures x in GetAll(rows) <==> Stored(rows, x)
  {
    TableOrderMembers(rows, x);
    assert x in GetAll(rows) <==> x in multiset(TableOrder(rows));
  }

  /** `EmailTemplateRepository` over its table. */
  class EmailTemplateRepository {
    var rows: TemplateTable
    var nextId: Guid

    ghost predicate Valid()
      reads this
    {
      KeysMatch(rows) && EmptyGuid < nextId && forall k :: k in rows ==> EmptyGuid < k < nextId
    }

    constructor ()
      ensures rows == map[] && Valid()
    {
      rows := map[];
      nextId := 1;
    }

    /** `GetByIdAsync(id)`: the template stored under that id, if any. */
    method Find(id: Guid) returns (found: Option<EmailTemplate>)
      requires Valid()
      ensures found == if id in rows then Some(rows[id]) else None
    {
      GetByIdFinds(rows, id);
      found := GetById(rows, id);
    }

    /** `CreateAsync`: the template gets a fresh id and both timestamps and is added as one new row. */
    method Create(template: EmailTemplate, now: Time) returns (created: EmailTemplate)
      requires Valid()
      modifies this
      ensures Valid()
      ensures created == template.(id := old(nextId), createdAt := now, updatedAt := now)
      ensures old(nextId) !in old(rows)
      ensures rows == old(rows)[created.id := created]
    {
      created := template.(id := nextId, createdAt := now, updatedAt := now);
      rows := rows[nextId := created];
      nextId := nextId + 1;
    }

    /** `UpdateAsync`: stamps the template and overwrites its row; a template that is not stored is refused. */
    method Update(template: EmailTemplate, now: Time) returns (updated: EmailTemplate, ok: bool)
      requires Valid()
      modifies this
      ensures Valid()
      ensures updated == template.(updatedAt := now)
      ensures ok == (template.id in old(rows))
      ensures rows == if ok then old(rows)[template.id := updated] else old(rows)
    {
      updated := template.(updatedAt := now);
      ok := template.id in rows;
      if ok {
        rows := rows[template.id := updated];
      }
    }

    /** `DeleteAsync`: removes the row if there is one. */
    method Delete(id: Guid)
      requires Valid()
      modifies this
      ensures Valid()
      ensures rows == old(rows) - {id}
    {
      rows := rows - {id};
    }
  }
}
