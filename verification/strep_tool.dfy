/** The strep tool page (src/pages/StrepTool.jsx): the symptom log listing and
    the export that writes every log to a JSON download and then clears the
    `symptomLogs` table. */
module StrepTool {
  import opened Wrappers
  import opened Text
  import opened Ordering
  import opened Records

  /** A stored symptom log; only its `date` index matters to this page. */
  datatype SymptomLog = SymptomLog(date: string, details: string)

  const JsonSuffix := ".json"
  const ExportPrefix := "EasyGP-export-"

  /** `fileName.endsWith(".json") ? fileName : fileName + ".json"`. */
  function DownloadName(name: string): (r: string)
    ensures EndsWith(r, JsonSuffix)
    ensures |name| <= |r| && r[..|name|] == name
    ensures EndsWith(name, JsonSuffix) <==> r == name
    ensures !EndsWith(name, JsonSuffix) ==> |r| == |name| + |JsonSuffix|
  {
    var r := if EndsWith(name, JsonSuffix) then name else name + JsonSuffix;
    assert r[|r| - |JsonSuffix|..] == JsonSuffix;
    r
  }

  /** Applying the suffix rule twice names the file as applying it once. */
  lemma DownloadNameIdempotent(name: string)
    ensures DownloadName(DownloadName(name)) == DownloadName(name)
  {
  }

  /** The name offered in the prompt: the prefix, the date part of the ISO time stamp
      (its first ten characters) and the suffix. */
  function DefaultFileName(iso: string): (r: string)
    ensures |r| == |ExportPrefix| + |Take(iso, 10)| + |JsonSuffix|
    ensures r[..|ExportPrefix|] == ExportPrefix
    ensures r[|ExportPrefix|..|r| - |JsonSuffix|] == Take(iso, 10)
    ensures DownloadName(r) == r
  {
    var r := ExportPrefix + Take(iso, 10) + JsonSuffix;
    assert r[|r| - |JsonSuffix|..] == JsonSuffix;
    r
  }

  /** What one export click ends in. */
  datatype Export = NoData | Cancelled | Exported(fileName: string, data: seq<Row<SymptomLog>>)

  /** The outcome for the stored `rows` and the prompt's answer (`None` for Cancel). */
  function ExportOutcome(rows: seq<Row<SymptomLog>>, answer: Option<string>): (r: Export)
    ensures r == NoData <==> rows == []
    ensures r == Cancelled <==> rows != [] && (answer == None || answer == Some(""))
    ensures r.Exported? ==>
      && rows != [] && answer.Some? && answer.value != ""
      && r.data == rows
      && r.fileName == DownloadName(answer.value)
      && EndsWith(r.fileName, JsonSuffix)
  {
    if rows == [] then NoData
    else if answer == None || answer == Some("") then Cancelled
    else Exported(DownloadName(answer.value), rows)
  }

  function LogDate(log: Row<SymptomLog>): string {
    log.data.date
  }

  /** The page: the listed logs and the `symptomLogs` table. */
  class StrepToolPage {
    var logs: seq<Row<SymptomLog>>
    const table: Table<SymptomLog>

    ghost predicate Valid()
      reads this, table
    {
      table.Valid()
    }

    constructor (table: Table<SymptomLog>)
      requires table.Valid()
      ensures Valid() && this.table == table && logs == []
    {
      this.table := table;
      logs := [];
    }

    /** `fetchLogs`: every stored log, newest first. */
    method FetchLogs()
      requires Valid()
      modifies this`logs
      ensures Valid()
      ensures logs == NewestFirst(table.rows, LogDate)
    {
      var all := table.ToArray();
      logs := NewestFirst(all, LogDate);
    }

    /** `handleExportClick`: with no data, or when the prompt (offered the default name)
        is cancelled or emptied, nothing changes; otherwise every log is handed to the
        download under its `.json` name, the table is cleared and the list re-read. */
    method HandleExportClick(prompt: string -> Option<string>, nowIso: string) returns (outcome: Export)
      requires Valid()
      modifies this`logs, table`rows
      ensures Valid()
      ensures outcome == ExportOutcome(old(table.rows), prompt(DefaultFileName(nowIso)))
      ensures outcome.Exported? ==> table.rows == [] && logs == []
      ensures !outcome.Exported? ==> table.rows == old(table.rows) && logs == old(logs)
    {
      var allData := table.ToArray();
      if |allData| == 0 {
        return NoData;
      }
      var fileName := prompt(DefaultFileName(nowIso));
      if fileName == None || fileName == Some("") {
        return Cancelled;
      }
      outcome := Exported(DownloadName(fileName.value), allData);
      table.Clear();
      FetchLogs();
    }
  }
}
