/** The tables of the store, and the statements the workers and the API run on them. */
module Storage {
  import opened Common
  import opened Rules
  import opened Pipeline
  import opened Completion

  /** What becomes of a write: done, not done, or done with the answer lost. The last two are errors. */
  datatype Write = Done | NotDone | Unheard

  datatype Marking = RowMarked | RowNotFound | WriteFailed

  /** The tables user_rules, email_messages (keyed by user and Gmail id) and scan_runs. */
  class Store {
    var rules: seq<UserRule>
    var rows: map<Key, Row>
    var runs: map<RunId, Run>
    var nextRun: RunId

    /** INSERT, or UPDATE of every column when the key is there: what was applied before is forgotten. */
    method UpsertEmailMessage(k: Key, row: Row, outcome: Write) returns (ok: bool)
      modifies this`rows
      ensures ok == (outcome == Done)
      ensures rows == if outcome == NotDone then old(rows) else old(rows)[k := row]
    {
      if outcome != NotDone {
        if k in rows {
          rows := rows[k := rows[k].(run := row.run, predicted := row.predicted, applied := row.applied,
                                     confidence := row.confidence, reason := row.reason, status := row.status)];
        } else {
          rows := rows[k := row];
        }
      }
      ok := outcome == Done;
    }

    /** UPDATE of the row of a key; without such a row nothing changes and the caller is told. */
    method MarkEmailLabelApplied(k: Key, name: string, outcome: Write) returns (r: Marking)
      modifies this`rows
      ensures rows == if outcome == NotDone || k !in old(rows) then old(rows)
        else old(rows)[k := MarkRow(old(rows)[k], name)]
      ensures r == if outcome != Done then WriteFailed else if k in old(rows) then RowMarked else RowNotFound
    {
      var affected := 0;
      if outcome != NotDone && k in rows {
        rows := rows[k := rows[k].(applied := Some(name), status := Applied)];
        affected := 1;
      }
      if outcome != Done { return WriteFailed; }
      r := if affected == 0 then RowNotFound else RowMarked;
    }

    /** SELECT status, COUNT(*) ... GROUP BY status: one group for each status that occurs, in any order. */
    method CountEmailMessagesByScanRun(r: RunId) returns (counts: map<RowStatus, nat>)
      ensures counts == StatusCounts(rows, r)
      ensures forall x :: CountOf(counts, x) == |set k | k in rows && rows[k].run == r && rows[k].status == x|
    {
      counts := map[];
      var left := {DryRunDone, Classified, Applied};
      while left != {}
        invariant left <= {DryRunDone, Classified, Applied}
        invariant forall x :: x in counts <==> x !in left && RowsWith(rows, r, x) != {}
        invariant forall x :: x in counts ==> counts[x] == |RowsWith(rows, r, x)|
        decreases |left|
      {
        var status :| status in left;
        var group := RowsWith(rows, r, status);
        if group != {} { counts := counts[status := |group|]; }
        left := left - {status};
      }
    }

    /** INSERT ... RETURNING id: ids are not used again. The caller learns the id of a run that was inserted only
        when the answer arrives. */
    method CreateScanRun(user: string, mode: Mode, outcome: Write) returns (id: Option<RunId>)
      modifies this`runs, this`nextRun
      ensures id == if outcome == Done then Some(old(nextRun)) else None
      ensures if outcome == NotDone then runs == old(runs) && nextRun == old(nextRun)
        else runs == old(runs)[old(nextRun) := Run(user, mode, Enqueuing, 0, 0, 0)] && nextRun == old(nextRun) + 1
    {
      id := None;
      if outcome != NotDone {
        runs := runs[nextRun := Run(user, mode, Enqueuing, 0, 0, 0)];
        if outcome == Done { id := Some(nextRun); }
        nextRun := nextRun + 1;
      }
    }

    method UpdateScanRunProgress(id: RunId, found: nat, processed: nat, failed: nat, outcome: Write) returns (ok: bool)
      modifies this`runs
      ensures ok == (outcome == Done)
      ensures runs == if outcome == NotDone || id !in old(runs) then old(runs)
        else old(runs)[id := old(runs)[id].(found := found, processed := processed, failed := failed)]
    {
      if outcome != NotDone && id in runs {
        runs := runs[id := runs[id].(found := found, processed := processed, failed := failed)];
      }
      ok := outcome == Done;
    }

    method CompleteScanRun(id: RunId, status: RunStatus, found: nat, processed: nat, failed: nat, outcome: Write)
      returns (ok: bool)
      modifies this`runs
      ensures ok == (outcome == Done)
      ensures runs == if outcome == NotDone || id !in old(runs) then old(runs)
        else old(runs)[id := old(runs)[id].(status := status, found := found, processed := processed, failed := failed)]
    {
      if outcome != NotDone && id in runs {
        runs := runs[id := runs[id].(status := status, found := found, processed := processed, failed := failed)];
      }
      ok := outcome == Done;
    }
  }
}
