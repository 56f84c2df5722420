/**
 * The `EmailLogs` table and `EmailLogRepository`: the queries are functions of
 * the table, the commands are methods of the repository object that change it.
 */
module EmailLogStore {
  import opened Common
  import opened Tables
  import opened EmailLogEntity

  type LogTable = map<Guid, EmailLogRow>

  /** Every row is stored under its own id. */
  ghost predicate KeysMatch(rows: LogTable)
  {
    forall k :: k in rows ==> rows[k].id == k
  }

  /** The row is one of the table's rows. */
  ghost predicate Stored(rows: LogTable, x: EmailLogRow)
  {
    exists k :: k in rows && rows[k] == x
  }

  predicate CreatedNoLater(a: EmailLogRow, b: EmailLogRow) { a.createdAt <= b.createdAt }

  predicate CreatedNoEarlier(a: EmailLogRow, b: EmailLogRow) { a.createdAt >= b.createdAt }

  predicate UpdatedNoLater(a: EmailLogRow, b: EmailLogRow) { a.updatedAt <= b.updatedAt }

  lemma TimeOrdersTotal()
    ensures TotalPreorder(CreatedNoLater)
    ensures TotalPreorder(CreatedNoEarlier)
    ensures TotalPreorder(UpdatedNoLater)
  {
  }

  /** `GetByIdAsync(id)`: the first row with that id, or none. */
  function GetById(rows: LogTable, id: Guid): Option<EmailLogRow>
  {
    FirstWhere(TableOrder(rows), (x: EmailLogRow) => x.id == id)
  }

  /** `GetByStatusAsync(status)`: the rows with that status, oldest first. */
  function GetByStatus(rows: LogTable, status: EmailStatus): (r: seq<EmailLogRow>)
    ensures SortedBy(r, CreatedNoLater)
    ensures multiset(r) == multiset(Filter(TableOrder(rows), (x: EmailLogRow) => x.status == status))
  {
    TimeOrdersTotal();
    SortBy(Filter(TableOrder(rows), (x: EmailLogRow) => x.status == status), CreatedNoLater)
  }

  /** `GetPendingEmailsAsync()`, written out on its own in the repository. */
  function GetPendingEmails(rows: LogTable): (r: seq<EmailLogRow>)
    ensures r == GetByStatus(rows, Pending)
  {
    TimeOrdersTotal();
    var pending := Filter(TableOrder(rows), (x: EmailLogRow) => x.status == Pending);
    assert pending == Filter(TableOrder(rows), (x: EmailLogRow) => x.status == Pending);
    SortBy(pending, CreatedNoLater)
  }

  /** `GetFailedEmailsForRetryAsync()`: failed rows with attempts left, least recently updated first. */
  function GetFailedEmailsForRetry(rows: LogTable): (r: seq<EmailLogRow>)
    ensures SortedBy(r, UpdatedNoLater)
    ensures multiset(r) == multiset(Filter(TableOrder(rows), (x: EmailLogRow) => x.status == Failed && x.attemptCount < x.maxAttempts))
  {
    TimeOrdersTotal();
    SortBy(Filter(TableOrder(rows), (x: EmailLogRow) => x.status == Failed && x.attemptCount < x.maxAttempts), UpdatedNoLater)
  }

  /** `GetByRecipientIdAsync(recipientId)`: that recipient's rows, newest first. */
  function GetByRecipientId(rows: LogTable, recipientId: Guid): (r: seq<EmailLogRow>)
    ensures SortedBy(r, CreatedNoEarlier)
    ensures multiset(r) == multiset(Filter(TableOrder(rows), (x: EmailLogRow) => x.recipientId == recipientId))
  {
    TimeOrdersTotal();
    SortBy(Filter(TableOrder(rows), (x: EmailLogRow) => x.recipientId == recipientId), CreatedNoEarlier)
  }

  /** In a table whose rows sit under their own ids, lookup by id finds exactly the row stored under it. */
  lemma GetByIdFinds(rows: LogTable, id: Guid)
    requires KeysMatch(rows)
    ensures GetById(rows, id) == if id in rows then Some(rows[id]) else None
  {
    var p := (x: EmailLogRow) => x.id == id;
    if id in rows {
      TableOrderMembers(rows, rows[id]);
      forall y | y in TableOrder(rows) && p(y) ensures y == rows[id] {
        TableOrderMembers(rows, y);
      }
      FirstWhereUnique(TableOrder(rows), p, rows[id]);
    } else {
      forall y | y in TableOrder(rows) ensures !p(y) {
        TableOrderMembers(rows, y);
      }
    }
  }

  /** Membership in a filtered enumeration of the table. */
  lemma FilterTableMembers(rows: LogTable, p: EmailLogRow -> bool, x: EmailLogRow)
    ensures x in Filter(TableOrder(rows), p) <==> Stored(rows, x) && p(x)
  {
    TableOrderMembers(rows, x);
  }

  /** The status query returns exactly the stored rows with that status. */
  lemma GetByStatusMembers(rows: LogTable, status: EmailStatus, x: EmailLogRow)
    ensures x in GetByStatus(rows, status) <==> Stored(rows, x) && x.status == status
  {
    var f := Filter(TableOrder(rows), (y: EmailLogRow) => y.status == status);
    FilterTableMembers(rows, (y: EmailLogRow) => y.status == status, x);
    assert x in GetByStatus(rows, status) <==> x in multiset(f);
  }

  /** The retry query returns exactly the stored rows for which `ShouldRetry` holds. */
  lemma GetFailedEmailsForRetryMembers(rows: LogTable, x: EmailLogRow)
    ensures x in GetFailedEmailsForRetry(rows) <==> Stored(rows, x) && ShouldRetry(x)
  {
    var p := (y: EmailLogRow) => y.status == Failed && y.attemptCount < y.maxAttempts;
    FilterTableMembers(rows, p, x);
    assert x in GetFailedEmailsForRetry(rows) <==> x in multiset(Filter(TableOrder(rows), p));
  }

  /** The recipient query returns exactly the stored rows of that recipient. */
  lemma GetByRecipientIdMembers(rows: LogTable, recipientId: Guid, x: EmailLogRow)
    ensures x in GetByRecipientId(rows, recipientId) <==> Stored(rows, x) && x.recipientId == recipientId
  {
    var p := (y: EmailLogRow) => y.recipientId == recipientId;
    FilterTableMembers(rows, p, x);
    assert x in GetByRecipientId(rows, recipientId) <==> x in multiset(Filter(TableOrder(rows), p));
  }

  /** `EmailLogRepository` over its table; `nextId` stands for the supply of fresh GUIDs. */
  class EmailLogRepository {
    var rows: LogTable
    var nextId: Guid

    ghost predicate Valid()
      reads this
    {
      KeysMatch(rows) && EmptyGuid < nextId && forall k :: k in rows ==> EmptyGuid < k < nextId
    }

    constructor ()
      ensures rows == map[] && Valid()
    {
      rows := map[];
      nextId := 1;
    }

    /** `GetByIdAsync`: a fresh entity object for the row found, or null. */
    method Find(id: Guid) returns (log: EmailLog?)
      requires Valid()
      ensures log == null <==> id !in rows
      ensures log != null ==> fresh(log) && log.Row() == rows[id]
    {
      GetByIdFinds(rows, id);
      var found := GetById(rows, id);
      if found.Some? {
        log := new EmailLog.FromRow(found.value);
      } else {
        log := null;
      }
    }

    /** `CreateAsync`: a fresh id and both timestamps on the object, and one new row. */
    method Create(log: EmailLog, now: Time)
      requires Valid()
      modifies this, log
      ensures Valid()
      ensures log.Row() == old(log.Row()).(id := old(nextId), createdAt := now, updatedAt := now)
      ensures old(nextId) !in old(rows)
      ensures rows == old(rows)[old(nextId) := log.Row()]
      ensures nextId == old(nextId) + 1
    {
      log.id := nextId;
      log.createdAt := now;
      log.updatedAt := now;
      rows := rows[nextId := log.Row()];
      nextId := nextId + 1;
    }

    /**
     * `UpdateAsync`: stamps the object and overwrites its row with all of the
     * object's values. `fails` says that saving throws (the store is left as
     * it was); saving a row that is not there throws as well.
     */
    method Update(log: EmailLog, now: Time, fails: bool) returns (ok: bool)
      requires Valid()
      modifies this, log
      ensures Valid()
      ensures log.Row() == old(log.Row()).(updatedAt := now)
      ensures ok == (!fails && log.id in old(rows))
      ensures rows == if ok then old(rows)[log.id := log.Row()] else old(rows)
      ensures nextId == old(nextId)
    {
      log.updatedAt := now;
      ok := !fails && log.id in rows;
      if ok {
        rows := rows[log.id := log.Row()];
      }
    }

    /** `DeleteAsync`: removes the row if there is one. */
    method Delete(id: Guid)
      requires Valid()
      modifies this
      ensures Valid()
      ensures rows == old(rows) - {id}
      ensures nextId == old(nextId)
    {
      rows := rows - {id};
    }
  }
}
