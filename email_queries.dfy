/**
 * The e-mail query handlers: logs by status, a log by id, logs by recipient,
 * and the statistics, which count the logs of each status. They only read
 * the table, so they are functions of it.
 */
module EmailQueries {
  import opened Common
  import opened Tables
  import opened EmailLogEntity
  import opened EmailLogStore

  /** `EmailStatisticsDto`. */
  datatype EmailStatisticsDto = EmailStatisticsDto(
    totalEmails: int,
    pendingEmails: int,
    processingEmails: int,
    sentEmails: int,
    failedEmails: int,
    retryingEmails: int)

  /** The ids of the stored logs that have the status `s`. */
  ghost function WithStatus(rows: LogTable, s: EmailStatus): set<Guid>
  {
    set k | k in rows && rows[k].status == s
  }

  /** `GetEmailLogsByStatusHandler`: the repository's status query. */
  function GetEmailLogsByStatus(rows: LogTable, status: EmailStatus): seq<EmailLogRow>
  {
    GetByStatus(rows, status)
  }

  /** `GetEmailLogByIdHandler`: the log, or null when the repository finds none. */
  function GetEmailLogById(rows: LogTable, id: Guid): Option<EmailLogRow>
  {
    GetById(rows, id)
  }

  /** `GetEmailLogsByRecipientHandler`: the repository's recipient query. */
  function GetEmailLogsByRecipient(rows: LogTable, recipientId: Guid): seq<EmailLogRow>
  {
    GetByRecipientId(rows, recipientId)
  }

  /** `GetEmailStatisticsHandler`: five status queries, their counts, and their sum. */
  function GetEmailStatistics(rows: LogTable): EmailStatisticsDto
  {
    var pendingCount := |GetByStatus(rows, Pending)|;
    var processingCount := |GetByStatus(rows, Processing)|;
    var sentCount := |GetByStatus(rows, Sent)|;
    var failedCount := |GetByStatus(rows, Failed)|;
    var retryingCount := |GetByStatus(rows, Retrying)|;
    EmailStatisticsDto(pendingCount + processingCount + sentCount + failedCount + retryingCount,
                       pendingCount, processingCount, sentCount, failedCount, retryingCount)
  }

  /** The number of rows with status `s` in an enumeration. */
  function CountStatus(xs: seq<EmailLogRow>, s: EmailStatus): nat
  {
    if xs == [] then 0 else (if xs[0].status == s then 1 else 0) + CountStatus(xs[1..], s)
  }

  /** The ids among `ks` whose rows have status `s`. */
  ghost function KeysWithStatus(m: LogTable, ks: seq<Guid>, s: EmailStatus): set<Guid>
  {
    set k | k in ks && k in m && m[k].status == s
  }

  /** `Where(status == s)` keeps exactly the rows counted. */
  lemma {:induction false} FilterStatusCount(xs: seq<EmailLogRow>, s: EmailStatus)
    ensures |Filter(xs, (x: EmailLogRow) => x.status == s)| == CountStatus(xs, s)
  {
    if xs != [] {
      FilterStatusCount(xs[1..], s);
    }
  }

  /** The ids with the status among `k0` followed by `rest`: `k0` if its row has it, and those among `rest`. */
  lemma KeysWithStatusCons(m: LogTable, k0: Guid, rest: seq<Guid>, s: EmailStatus)
    requires k0 in m
    ensures KeysWithStatus(m, [k0] + rest, s) == (if m[k0].status == s then {k0} else {}) + KeysWithStatus(m, rest, s)
  {
    forall k ensures k in KeysWithStatus(m, [k0] + rest, s) <==> (k == k0 && m[k0].status == s) || k in KeysWithStatus(m, rest, s) {
      assert k in [k0] + rest <==> k == k0 || k in rest;
    }
  }

  /** The first of several distinct keys is not among the others. */
  lemma HeadNotInTail(ks: seq<Guid>)
    requires |ks| > 0
    requires forall i, j :: 0 <= i < j < |ks| ==> ks[i] != ks[j]
    ensures ks[0] !in ks[1..]
  {
    forall i | 0 <= i < |ks| - 1 ensures ks[1..][i] != ks[0] {
      assert ks[1..][i] == ks[i + 1];
    }
  }

  /** Enumerating the rows under distinct keys counts one row per key whose row has the status. */
  lemma {:induction false} KeysStatusCount(m: LogTable, ks: seq<Guid>, s: EmailStatus)
    requires forall k :: k in ks ==> k in m
    requires forall i, j :: 0 <= i < j < |ks| ==> ks[i] != ks[j]
    ensures CountStatus(ValuesAt(m, ks), s) == |KeysWithStatus(m, ks, s)|
    decreases |ks|
  {
    if ks == [] {
      assert KeysWithStatus(m, ks, s) == {};
    } else {
      var k0, rest := ks[0], ks[1..];
      assert ks == [k0] + rest;
      KeysStatusCount(m, rest, s);
      assert ValuesAt(m, ks)[1..] == ValuesAt(m, rest);
      HeadNotInTail(ks);
      KeysWithStatusCons(m, k0, rest, s);
    }
  }

  /** Every row has exactly one of the five statuses. */
  lemma {:induction false} StatusesPartition(xs: seq<EmailLogRow>)
    ensures CountStatus(xs, Pending) + CountStatus(xs, Processing) + CountStatus(xs, Sent) +
            CountStatus(xs, Failed) + CountStatus(xs, Retrying) == |xs|
  {
    if xs != [] {
      StatusesPartition(xs[1..]);
    }
  }

  /** The status query returns as many logs as the enumeration has rows with that status. */
  lemma StatusQueryCount(rows: LogTable, s: EmailStatus)
    ensures |GetByStatus(rows, s)| == CountStatus(TableOrder(rows), s)
  {
    var r := GetByStatus(rows, s);
    var f := Filter(TableOrder(rows), (x: EmailLogRow) => x.status == s);
    assert |r| == |f| by {
      assert multiset(r) == multiset(f);
      assert |r| == |multiset(r)| && |f| == |multiset(f)|;
    }
    FilterStatusCount(TableOrder(rows), s);
  }

  /** Over keys that are exactly the table's, the ids with the status are all the stored ones with it. */
  lemma AllKeysWithStatus(rows: LogTable, ks: seq<Guid>, s: EmailStatus)
    requires forall k :: k in ks <==> k in rows
    ensures KeysWithStatus(rows, ks, s) == WithStatus(rows, s)
  {
  }

  /** The enumeration has one row with the status per stored log with the status. */
  lemma EnumerationStatusCount(rows: LogTable, s: EmailStatus)
    ensures CountStatus(TableOrder(rows), s) == |WithStatus(rows, s)|
  {
    var ks := SortedKeys(rows.Keys);
    assert TableOrder(rows) == ValuesAt(rows, ks);
    KeysStatusCount(rows, ks, s);
    AllKeysWithStatus(rows, ks, s);
  }

  /** The status query returns one log per stored log with that status. */
  lemma StatusCount(rows: LogTable, s: EmailStatus)
    ensures |GetByStatus(rows, s)| == CountStatus(TableOrder(rows), s) == |WithStatus(rows, s)|
  {
    StatusQueryCount(rows, s);
    EnumerationStatusCount(rows, s);
  }

  /**
   * Each count is the number of stored logs with that status, and since every
   * log has one of the five statuses the total is the number of stored logs.
   */
  lemma StatisticsCounts(rows: LogTable)
    ensures var r := GetEmailStatistics(rows);
      r.pendingEmails == |WithStatus(rows, Pending)| && r.processingEmails == |WithStatus(rows, Processing)| &&
      r.sentEmails == |WithStatus(rows, Sent)| && r.failedEmails == |WithStatus(rows, Failed)| &&
      r.retryingEmails == |WithStatus(rows, Retrying)| &&
      r.totalEmails == r.pendingEmails + r.processingEmails + r.sentEmails + r.failedEmails + r.retryingEmails &&
      r.totalEmails == |rows|
  {
    StatusCount(rows, Pending);
    StatusCount(rows, Processing);
    StatusCount(rows, Sent);
    StatusCount(rows, Failed);
    StatusCount(rows, Retrying);
    StatusesPartition(TableOrder(rows));
  }

  /** The logs by status are exactly the stored logs with that status, one per log, oldest first. */
  lemma LogsByStatusExact(rows: LogTable, status: EmailStatus)
    ensures SortedBy(GetEmailLogsByStatus(rows, status), CreatedNoLater)
    ensures forall x :: x in GetEmailLogsByStatus(rows, status) <==> Stored(rows, x) && x.status == status
    ensures |GetEmailLogsByStatus(rows, status)| == |WithStatus(rows, status)|
  {
    forall x ensures x in GetEmailLogsByStatus(rows, status) <==> Stored(rows, x) && x.status == status {
      GetByStatusMembers(rows, status, x);
    }
    StatusCount(rows, status);
  }

  /** In a table whose rows sit under their own ids, the log by id is null exactly when the id is not stored. */
  lemma LogByIdFinds(rows: LogTable, id: Guid)
    requires KeysMatch(rows)
    ensures GetEmailLogById(rows, id).None? <==> id !in rows
    ensures id in rows ==> GetEmailLogById(rows, id) == Some(rows[id])
  {
    GetByIdFinds(rows, id);
  }

  /** The logs by recipient are exactly that recipient's stored logs, newest first. */
  lemma LogsByRecipientExact(rows: LogTable, recipientId: Guid)
    ensures SortedBy(GetEmailLogsByRecipient(rows, recipientId), CreatedNoEarlier)
    ensures forall x :: x in GetEmailLogsByRecipient(rows, recipientId) <==> Stored(rows, x) && x.recipientId == recipientId
  {
    forall x ensures x in GetEmailLogsByRecipient(rows, recipientId) <==> Stored(rows, x) && x.recipientId == recipientId {
      GetByRecipientIdMembers(rows, recipientId, x);
    }
  }
}
