/**
 * The log-type mapping of `DbHelper` in Utilities/DbHelper.cs
 * (`GetTableName`, `GetIdColumn`) and the guard of `DeleteLogById` and
 * `DeleteAllLogs`, which return without deleting when the mapping gives an
 * empty name.
 */
module LogTables {
  import opened Wrappers
  import opened Text

  /** The log types the admin pages name. */
  const LogTypes: seq<string> := ["ErrorLog", "LoginAudit", "ProductLog", "UserLog"]

  /** `GetTableName`: the table a log type lives in, "" for an unknown type. */
  function GetTableName(logType: string): string {
    if logType == "ErrorLog" then "ErrorLog"
    else if logType == "LoginAudit" then "tblLoginAudit"
    else if logType == "ProductLog" then "tblProducts_Log"
    else if logType == "UserLog" then "tblUserMaster_Log"
    else ""
  }

  /** `GetIdColumn`: "ErrorId" for the error log, "LogId" for anything else. */
  function GetIdColumn(logType: string): string {
    if logType == "ErrorLog" then "ErrorId" else "LogId"
  }

  /** The table and key column `DeleteLogById` deletes from, or `None` when it returns early. */
  function DeleteByIdTarget(logType: string): Option<(string, string)> {
    var table := GetTableName(logType);
    var idColumn := GetIdColumn(logType);
    if IsNullOrEmpty(Some(table)) || IsNullOrEmpty(Some(idColumn)) then None else Some((table, idColumn))
  }

  /** The table `DeleteAllLogs` empties, or `None` when it returns early. */
  function DeleteAllTarget(logType: string): Option<string> {
    var table := GetTableName(logType);
    if IsNullOrEmpty(Some(table)) then None else Some(table)
  }

  /** Both deletes touch a table exactly for the four known log types; for any other type they delete nothing. */
  lemma DeletesOnlyKnownTypes(logType: string)
    ensures DeleteByIdTarget(logType).Some? <==> logType in LogTypes
    ensures DeleteAllTarget(logType).Some? <==> logType in LogTypes
    ensures DeleteByIdTarget(logType).Some? ==> DeleteAllTarget(logType) == Some(DeleteByIdTarget(logType).value.0)
  {
  }

  /** Distinct log types never share a table, so a delete for one type cannot reach another type's log. */
  lemma TablesDistinct(a: string, b: string)
    requires a in LogTypes && b in LogTypes && a != b
    ensures GetTableName(a) != GetTableName(b)
  {
  }

  /** The key column follows the table: "ErrorId" for `ErrorLog`, "LogId" for the three audit tables. */
  lemma IdColumnFollowsTable(logType: string)
    requires logType in LogTypes
    ensures GetIdColumn(logType) == if GetTableName(logType) == "ErrorLog" then "ErrorId" else "LogId"
  {
  }
}
