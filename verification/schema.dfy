/** The versioned schema of the app's one embedded database (src/db.js):
    version 1 declares `logs`; at start-up `ensureTablesExist` opens the
    database and, for each of `profile`, `bpLogs` and `cognitiveEntries` that
    is missing, raises the version by one and declares that table at the new
    version, then reopens if anything was declared. A failure whose name is
    `VersionError` deletes the database and reloads the page; any other
    failure is logged and swallowed.

    The store library is abstracted: which call into it fails (an awaited
    `open`/`delete`, or a `version(...)` declaration, which the library may
    refuse while the database is open), and with which error name, is a
    parameter (`Faults`); the page reload is a terminal outcome. */
module Schema {

  /** A table as declared with `db.version(version).stores({ name: indexes })`. */
  datatype TableDecl = TableDecl(version: nat, indexes: string)

  type Declarations = map<string, TableDecl>

  const LogsIndexes := "++id, startDate, observationDate, outcome"
  const ProfileIndexes := "++id"
  const BPLogsIndexes := "++id, date, systolic, diastolic, pulse, mood, notes, medications, dateTime, timestamp"
  const CognitiveEntriesIndexes :=
    "++id, timestamp, emotion, intensity, thoughtPattern, processingStage, situation, automaticThoughts, evidence, alternativeThoughts, actionPlan"

  /** The index lists the BP and journal pages use when they declare their table themselves. */
  const BPLogsPageIndexes := "++id, date, systolic, diastolic, pulse, notes, medications, dateTime, timestamp"
  const CognitiveEntriesPageIndexes := "++id, timestamp, content, tags, symptoms, intensity, bodyParts, structuredData"

  /** The schema every fresh page load starts from: `logs` at version 1. */
  const Initial: Declarations := map["logs" := TableDecl(1, LogsIndexes)]

  /** The tables `ensureTablesExist` checks for, in the order it checks them. */
  const Checked: seq<string> := ["profile", "bpLogs", "cognitiveEntries"]

  function CheckedIndexes(name: string): string {
    if name == "profile" then ProfileIndexes
    else if name == "bpLogs" then BPLogsIndexes
    else CognitiveEntriesIndexes
  }

  /** The outcome of one awaited call into the store library: success, or an error with its `name`. */
  datatype Fault = NoFault | Raised(name: string)

  /** What the first `open`, a `version(...)` declaration, the reopen after an update,
      and `Dexie.delete` do. */
  datatype Faults = Faults(open: Fault, declare: Fault, reopen: Fault, delete: Fault)

  datatype Outcome =
    | Ready(version: nat, reopened: bool)         // "Database ready with version"
    | Swallowed(error: string)                    // logged, nothing else happens
    | Reloading                                   // database deleted, page reloading
    | RecoveryFailed(error: string, deleteError: string)

  /** The tables among `Checked` that `decls` lacks, in checking order. */
  function Missing(decls: Declarations): (m: seq<string>)
    ensures |m| <= 3
    ensures forall n :: n in m <==> n in Checked && n !in decls
  {
    (if "profile" in decls then [] else ["profile"])
    + (if "bpLogs" in decls then [] else ["bpLogs"])
    + (if "cognitiveEntries" in decls then [] else ["cognitiveEntries"])
  }

  /** One check of `ensureTablesExist`: a missing table is declared at the next version. */
  function CheckTable(decls: Declarations, version: nat, name: string): (Declarations, nat)
  {
    if name in decls then (decls, version)
    else (decls[name := TableDecl(version + 1, CheckedIndexes(name))], version + 1)
  }

  /** The declarations and version after the three checks, starting from `version`. */
  function Migrate(decls: Declarations, version: nat): (Declarations, nat)
  {
    var (d1, v1) := CheckTable(decls, version, "profile");
    var (d2, v2) := CheckTable(d1, v1, "bpLogs");
    CheckTable(d2, v2, "cognitiveEntries")
  }

  /** The final version is the opened version plus one per missing table. */
  lemma MigrateVersion(decls: Declarations, version: nat)
    ensures Migrate(decls, version).1 == version + |Missing(decls)|
  {
  }

  /** The k-th missing table, in the order profile, bpLogs, cognitiveEntries, is declared
      at `version + k + 1` with its own index list. */
  lemma MigrateDeclaresInOrder(decls: Declarations, version: nat)
    ensures forall k :: 0 <= k < |Missing(decls)| ==>
      var name := Missing(decls)[k];
      name in Migrate(decls, version).0 &&
      Migrate(decls, version).0[name] == TableDecl(version + k + 1, CheckedIndexes(name))
  {
  }

  /** With all three missing at version v they get versions v+1, v+2, v+3. */
  lemma MigrateAllMissing(decls: Declarations, version: nat)
    requires "profile" !in decls && "bpLogs" !in decls && "cognitiveEntries" !in decls
    ensures var (d, v) := Migrate(decls, version);
      && d["profile"].version == version + 1
      && d["bpLogs"].version == version + 2
      && d["cognitiveEntries"].version == version + 3
      && v == version + 3
  {
    MigrateDeclaresInOrder(decls, version);
    assert Missing(decls) == ["profile", "bpLogs", "cognitiveEntries"];
  }

  /** Declarations only grow: existing tables keep their declaration (so `logs` survives),
      and the only tables added are the checked ones. */
  lemma MigrateOnlyAdds(decls: Declarations, version: nat)
    ensures forall n :: n in decls ==> n in Migrate(decls, version).0 && Migrate(decls, version).0[n] == decls[n]
    ensures Migrate(decls, version).0.Keys == decls.Keys + {"profile", "bpLogs", "cognitiveEntries"}
  {
  }

  /** Running the check again after it completed declares nothing and keeps the version. */
  lemma MigrateIdempotent(decls: Declarations, version: nat)
    ensures var (d, v) := Migrate(decls, version);
      Missing(d) == [] && Migrate(d, v) == (d, v)
  {
    MigrateOnlyAdds(decls, version);
  }

  /** No code path declares `symptomLogs` or `cognitiveLogs`, the tables that
      src/pages/StrepTool.jsx and src/components/CognitiveTimelineGraph.jsx read. */
  lemma ReadTablesNeverDeclared(version: nat)
    ensures "symptomLogs" !in Migrate(Initial, version).0
    ensures "cognitiveLogs" !in Migrate(Initial, version).0
  {
    MigrateOnlyAdds(Initial, version);
  }

  /** The error that ends the `try` block, if any: the first open, the first
      declaration (attempted only when a table is missing), or the reopen (which
      only runs when the tables were declared). */
  function RaisedError(faults: Faults, needsUpdate: bool): Fault {
    if faults.open.Raised? then faults.open
    else if needsUpdate && faults.declare.Raised? then faults.declare
    else if needsUpdate && faults.reopen.Raised? then faults.reopen
    else NoFault
  }

  /** The shared `db` object: its schema declarations, its version and whether it is open. */
  class Database {
    var verno: nat
    var tables: Declarations
    var isOpen: bool

    ghost predicate Valid()
      reads this
    {
      && "logs" in tables
      && 1 <= verno
      && forall n :: n in tables ==> 1 <= tables[n].version <= verno
    }

    /** `new Dexie("StrepDatabase")` followed by the version-1 declaration of `logs`. */
    constructor ()
      ensures Valid() && verno == 1 && tables == Initial && !isOpen
    {
      verno := 1;
      tables := Initial;
      isOpen := false;
    }

    /** `db.version(version).stores({ name: indexes })`: registers the table and raises
        `verno`, unless the library throws `fault`, in which case nothing is registered. */
    method DeclareTable(version: nat, name: string, indexes: string, fault: Fault) returns (error: Fault)
      requires Valid() && verno < version
      modifies this`tables, this`verno
      ensures Valid() && error == fault
      ensures fault == NoFault ==> tables == old(tables)[name := TableDecl(version, indexes)] && verno == version
      ensures fault.Raised? ==> tables == old(tables) && verno == old(verno)
    {
      error := fault;
      if fault == NoFault {
        tables := tables[name := TableDecl(version, indexes)];
        verno := version;
      }
    }

    /** One `if (!db.tables.some((t) => t.name === name))` block of `ensureTablesExist`:
        returns the new `currentVersion`, whether the table was declared, and the error
        the declaration threw (`fault`, raised only when a declaration is attempted). */
    method CheckAndDeclare(currentVersion: nat, name: string, fault: Fault)
      returns (next: nat, declared: bool, error: Fault)
      requires Valid() && currentVersion == verno
      modifies this`tables, this`verno
      ensures Valid()
      ensures error == (if name in old(tables) then NoFault else fault)
      ensures error == NoFault ==> (tables, next) == CheckTable(old(tables), currentVersion, name) && next == verno
      ensures error.Raised? ==> tables == old(tables) && verno == old(verno)
      ensures declared == (name !in old(tables) && fault == NoFault)
    {
      next, declared, error := currentVersion, false, NoFault;
      if name !in tables {
        next := next + 1;
        error := DeclareTable(next, name, CheckedIndexes(name), fault);
        declared := error == NoFault;
      }
    }

    /** The three checks of `ensureTablesExist`, stopping at the first declaration
        that throws; returns `needsUpdate` and that error. */
    method DeclareMissing(fault: Fault) returns (needsUpdate: bool, error: Fault)
      requires Valid()
      modifies this`tables, this`verno
      ensures Valid()
      ensures error == (if |Missing(old(tables))| > 0 then fault else NoFault)
      ensures error == NoFault ==>
        (tables, verno) == Migrate(old(tables), old(verno)) && needsUpdate == (|Missing(old(tables))| > 0)
      ensures error.Raised? ==> tables == old(tables) && verno == old(verno) && !needsUpdate
    {
      var currentVersion := verno;
      var declared1, declared2, declared3 := false, false, false;
      currentVersion, declared1, error := CheckAndDeclare(currentVersion, "profile", fault);
      if error == NoFault {
        currentVersion, declared2, error := CheckAndDeclare(currentVersion, "bpLogs", fault);
      }
      if error == NoFault {
        currentVersion, declared3, error := CheckAndDeclare(currentVersion, "cognitiveEntries", fault);
      }
      needsUpdate := declared1 || declared2 || declared3;
    }

    /** `ensureTablesExist()`. */
    method EnsureTablesExist(faults: Faults) returns (outcome: Outcome)
      requires Valid()
      modifies this
      ensures Valid()
      ensures var needsUpdate := |Missing(old(tables))| > 0;
        var err := RaisedError(faults, needsUpdate);
        && (err == NoFault ==>
              && (tables, verno) == Migrate(old(tables), old(verno))
              && isOpen
              && outcome == Ready(verno, needsUpdate))
        && (faults.open.Raised? ==> tables == old(tables) && verno == old(verno))
        && (faults.open == NoFault && needsUpdate && faults.declare.Raised? ==>
              tables == old(tables) && verno == old(verno) && (outcome != Reloading ==> isOpen))
        && (err.Raised? && err.name != "VersionError" ==> outcome == Swallowed(err.name))
        && (err.Raised? && err.name == "VersionError" ==>
              outcome == if faults.delete == NoFault then Reloading
                         else RecoveryFailed(err.name, faults.delete.name))
        && (outcome == Reloading ==> !isOpen)
    {
      var error: Fault := NoFault;
      // try {
      if faults.open.Raised? {
        error := faults.open;
      } else {
        isOpen := true;
        var needsUpdate;
        needsUpdate, error := DeclareMissing(faults.declare);
        if needsUpdate {
          isOpen := false;
          if faults.reopen.Raised? {
            error := faults.reopen;
          } else {
            isOpen := true;
          }
        }
        if error == NoFault {
          outcome := Ready(verno, needsUpdate);
          return;
        }
        assert RaisedError(faults, |Missing(old(tables))| > 0) == error;
      }
      // } catch (error) {
      if error.name == "VersionError" {
        if faults.delete == NoFault {
          isOpen := false;
          outcome := Reloading;
        } else {
          outcome := RecoveryFailed(error.name, faults.delete.name);
        }
      } else {
        outcome := Swallowed(error.name);
      }
    }

    /** The pages' own check (BP tracker and journal): a missing table is declared at
        `verno + 1` and the database opened; when the declaration or the open throws,
        the page stops loading. Returns whether the page goes on to load its data. */
    method EnsurePageTable(name: string, indexes: string, declareFault: Fault, openFault: Fault)
      returns (loads: bool)
      requires Valid()
      modifies this
      ensures Valid()
      ensures name in old(tables) ==> tables == old(tables) && verno == old(verno) && loads
      ensures name !in old(tables) && declareFault.Raised? ==>
        tables == old(tables) && verno == old(verno) && !loads && isOpen == old(isOpen)
      ensures name !in old(tables) && declareFault == NoFault ==>
        && tables == old(tables)[name := TableDecl(old(verno) + 1, indexes)]
        && verno == old(verno) + 1
        && loads == (openFault == NoFault)
        && isOpen == loads
    {
      if name !in tables {
        var error := DeclareTable(verno + 1, name, indexes, declareFault);
        if error.Raised? {
          return false;
        }
        if openFault.Raised? {
          isOpen := false;
          return false;
        }
        isOpen := true;
      }
      loads := true;
    }
  }
}
