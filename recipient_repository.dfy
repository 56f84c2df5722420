/** The `Recipients` table and `RecipientRepository`. */
module RecipientStore {
  import opened Common
  import opened Text
  import opened Tables
  import opened RecipientEntity

  type RecipientTable = map<Guid, Recipient>

  ghost predicate KeysMatch(rows: RecipientTable)
  {
    forall k :: k in rows ==> rows[k].id == k
  }

  ghost predicate Stored(rows: RecipientTable, x: Recipient)
  {
    exists k :: k in rows && rows[k] == x
  }

  /** Recipient e-mail addresses are unique (the unique index on `Email`). */
  ghost predicate UniqueEmails(rows: RecipientTable)
  {
    forall a, b :: a in rows && b in rows && rows[a].email == rows[b].email ==> a == b
  }

  /** `OrderBy(x => x.Name)`, with the ordinal string order standing for the collation. */
  predicate NameNoLater(a: Recipient, b: Recipient) { LexLeq(a.name, b.name) }

  lemma NameOrderTotal()
    ensures TotalPreorder(NameNoLater)
  {
    forall a: Recipient, b: Recipient ensures NameNoLater(a, b) || NameNoLater(b, a) {
      LexLeqTotal(a.name, b.name);
    }
    forall a: Recipient, b: Recipient, c: Recipient | NameNoLater(a, b) && NameNoLater(b, c)
      ensures NameNoLater(a, c)
    {
      LexLeqTransitive(a.name, b.name, c.name);
    }
  }

  /** `GetByIdAsync(id)`. */
  function GetById(rows: RecipientTable, id: Guid): Option<Recipient>
  {
    FirstWhere(TableOrder(rows), (x: Recipient) => x.id == id)
  }

  /** `GetByEmailAsync(email)`: the first recipient with exactly that address, or none. */
  function GetByEmail(rows: RecipientTable, email: string): Option<Recipient>
  {
    FirstWhere(TableOrder(rows), (x: Recipient) => x.email == email)
  }

  /** `GetActiveRecipientsAsync()`: the active recipients in name order. */
  function GetActiveRecipients(rows: RecipientTable): (r: seq<Recipient>)
    ensures SortedBy(r, NameNoLater)
    ensures multiset(r) == multiset(Filter(TableOrder(rows), (x: Recipient) => x.isActive))
  {
    NameOrderTotal();
    SortBy(Filter(TableOrder(rows), (x: Recipient) => x.isActive), NameNoLater)
  }

  /**
   * `GetAllAsync()`: every recipient in name order. The two repositories share
   * this query's shape, as their sources do.
   */
  function GetAll(rows: RecipientTable): (r: seq<Recipient>)
    ensures SortedBy(r, NameNoLater)
    ensures multiset(r) == multiset(TableOrder(rows))
    ensures |r| == |rows|
  {
    NameOrderTotal();
    SortBy(TableOrder(rows), NameNoLater)
  }

  lemma GetByIdFinds(rows: RecipientTable, id: Guid)
    requires KeysMatch(rows)
    ensures GetById(rows, id) == if id in rows then Some(rows[id]) else None
  {
    var p := (x: Recipient) => x.id == id;
    if id in rows {
      TableOrderMembers(rows, rows[id]);
      forall y | y in TableOrder(rows) && p(y) ensures y == rows[id] {
        TableOrderMembers(rows, y);
      }
      FirstWhereUnique(TableOrder(rows), p, rows[id]);
    } else {
      forall y | y in TableOrder(rows) ensures !p(y) {
        TableOrderMembers(rows, y);
      }
    }
  }

  /** Lookup by address finds a stored recipient with that address, and finds none exactly when no recipient has it. */
  lemma GetByEmailFinds(rows: RecipientTable, email: string)
    ensures GetByEmail(rows, email).Some? ==>
      Stored(rows, GetByEmail(rows, email).value) && GetByEmail(rows, email).value.email == email
    ensures GetByEmail(rows, email).None? <==> forall k :: k in rows ==> rows[k].email != email
  {
    var r := GetByEmail(rows, email);
    if r.Some? {
      TableOrderMembers(rows, r.value);
    }
    if exists k :: k in rows && rows[k].email == email {
      var k :| k in rows && rows[k].email == email;
      TableOrderMembers(rows, rows[k]);
    }
  }

  lemma FilterTableMembers(rows: RecipientTable, p: Recipient -> bool, x: Recipient)
    ensures x in Filter(TableOrder(rows), p) <==> Stored(rows, x) && p(x)
  {
    TableOrderMembers(rows, x);
  }

  /** The active query returns exactly the stored recipients that are active. */
  lemma GetActiveRecipientsMembers(rows: RecipientTable, x: Recipient)
    ensures x in GetActiveRecipients(rows) <==> Stored(rows, x) && x.isActive
  {
    var p := (y: Recipient) => y.isActive;
    FilterTableMembers(rows, p, x);
    assert x in GetActiveRecipients(rows) <==> x in multiset(Filter(TableOrder(rows), p));
  }

  /** The full listing holds every stored recipient. */
  lemma GetAllMembers(rows: RecipientTable, x: Recipient)
    ensures x in GetAll(rows) <==> Stored(rows, x)
  {
    TableOrderMembers(rows, x);
    assert x in GetAll(rows) <==> x in multiset(TableOrder(rows));
  }

  /** `GetByIdAsync(id)` on a table: the recipient stored under that id, if any. */
  method FindIn(rows: RecipientTable, id: Guid) returns (found: Option<Recipient>)
    requires KeysMatch(rows)
    ensures found == if id in rows then Some(rows[id]) else None
  {
    GetByIdFinds(rows, id);
    found := GetById(rows, id);
  }

  /** `RecipientRepository` over its table. */
  class RecipientRepository {
    var rows: RecipientTable
    var nextId: Guid

    ghost predicate Valid()
      reads this
    {
      KeysMatch(rows) && EmptyGuid < nextId && forall k :: k in rows ==> EmptyGuid < k < nextId
    }

    constructor ()
      ensures rows == map[] && Valid()
    {
      rows := map[];
      nextId := 1;
    }

    /** `GetByIdAsync(id)`: the recipient stored under that id, if any. */
    method Find(id: Guid) returns (found: Option<Recipient>)
      requires Valid()
      ensures found == if id in rows then Some(rows[id]) else None
    {
      found := FindIn(rows, id);
    }

    /** `CreateAsync`: the recipient gets a fresh id and both timestamps and is added as one new row. */
    method Create(recipient: Recipient, now: Time) returns (created: Recipient)
      requires Valid()
      modifies this
      ensures Valid()
      ensures created == recipient.(id := old(nextId), createdAt := now, updatedAt := now)
      ensures old(nextId) !in old(rows)
      ensures rows == old(rows)[created.id := created]
    {
      created := recipient.(id := nextId, createdAt := now, updatedAt := now);
      rows := rows[nextId := created];
      nextId := nextId + 1;
    }

    /** `UpdateAsync`: stamps the recipient and overwrites its row; a recipient that is not stored is refused. */
    method Update(recipient: Recipient, now: Time) returns (updated: Recipient, ok: bool)
      requires Valid()
      modifies this
      ensures Valid()
      ensures updated == recipient.(updatedAt := now)
      ensures ok == (recipient.id in old(rows))
      ensures rows == if ok then old(rows)[recipient.id := updated] else old(rows)
    {
      updated := recipient.(updatedAt := now);
      ok := recipient.id in rows;
      if ok {
        rows := rows[recipient.id := updated];
      }
    }

    /** `DeleteAsync`: removes the row if there is one. */
    method Delete(id: Guid)
      requires Valid()
      modifies this
      ensures Valid()
      ensures rows == old(rows) - {id}
    {
      rows := rows - {id};
    }
  }
}
