/** What one pass over a dump file does to a repository, line by line in
    file order: each line is saved, skipped, or ends the whole pass. */
module Ingestion {
  import opened Wrappers

  /** The outcome of one line: save an entity under its id, skip the line
      (a caught JSONException), or abort (an exception nobody catches). */
  datatype Step<T> = Save(id: string, entity: T) | Skip | Abort(cause: Exception)

  /** How a pass ended: every line processed, or stopped by the exception
      raised on line `line`. */
  datatype PassEnd = Completed | Aborted(line: nat, cause: Exception)

  datatype Run<T> = Run(rows: map<string, T>, end: PassEnd)

  predicate SavesId<T>(s: Step<T>, id: string) {
    s.Save? && s.id == id
  }

  /** The table `rows` after processing `lines[i..]` with `step`. */
  function Replay<T>(rows: map<string, T>, lines: seq<string>, step: string -> Step<T>, i: nat): Run<T>
    requires i <= |lines|
    decreases |lines| - i
  {
    if i == |lines| then Run(rows, Completed)
    else match step(lines[i])
      case Save(id, e) => Replay(rows[id := e], lines, step, i + 1)
      case Skip => Replay(rows, lines, step, i + 1)
      case Abort(cause) => Run(rows, Aborted(i, cause))
  }

  /** The number of lines whose outcome reached the table. */
  function Reached<T>(run: Run<T>, lines: seq<string>): nat {
    match run.end
    case Completed => |lines|
    case Aborted(k, _) => k
  }

  /** A pass completes exactly when no line aborts; otherwise it stops at the
      first line that aborts, with that line's exception. */
  lemma {:induction false} ReplayEnds<T>(rows: map<string, T>, lines: seq<string>, step: string -> Step<T>, i: nat)
    requires i <= |lines|
    ensures var run := Replay(rows, lines, step, i);
      (run.end == Completed <==> forall j :: i <= j < |lines| ==> !step(lines[j]).Abort?)
      && (run.end.Aborted? ==>
            i <= run.end.line < |lines|
            && step(lines[run.end.line]) == Abort(run.end.cause)
            && forall j :: i <= j < run.end.line ==> !step(lines[j]).Abort?)
    decreases |lines| - i
  {
    if i < |lines| && !step(lines[i]).Abort? {
      var rows' := match step(lines[i]) case Save(id, e) => rows[id := e] case _ => rows;
      ReplayEnds(rows', lines, step, i + 1);
    }
  }

  /** The entity saved by the last line in `lines[i..n]` that saves `id`. */
  function LastSave<T>(lines: seq<string>, step: string -> Step<T>, i: nat, n: nat, id: string): Option<T>
    requires i <= n <= |lines|
    decreases n - i
  {
    if n == i then None
    else match step(lines[n - 1])
      case Save(k, e) => if k == id then Some(e) else LastSave(lines, step, i, n - 1, id)
      case _ => LastSave(lines, step, i, n - 1, id)
  }

  /** `LastSave` finds nothing exactly when no line in range saves `id`;
      otherwise it finds the entity of a line that saves `id` with no later
      line in range saving it. */
  lemma {:induction false} LastSaveIsLast<T>(lines: seq<string>, step: string -> Step<T>, i: nat, n: nat, id: string)
    requires i <= n <= |lines|
    ensures var r := LastSave(lines, step, i, n, id);
      (r.None? <==> forall j :: i <= j < n ==> !SavesId(step(lines[j]), id))
      && (r.Some? ==>
            exists j :: i <= j < n && step(lines[j]) == Save(id, r.value)
                        && forall k :: j < k < n ==> !SavesId(step(lines[k]), id))
    decreases n - i
  {
    if n > i && !SavesId(step(lines[n - 1]), id) {
      LastSaveIsLast(lines, step, i, n - 1, id);
      var r := LastSave(lines, step, i, n, id);
      if r.Some? {
        var j :| i <= j < n - 1 && step(lines[j]) == Save(id, r.value)
                 && forall k :: j < k < n - 1 ==> !SavesId(step(lines[k]), id);
        assert forall k :: j < k < n ==> !SavesId(step(lines[k]), id);
      }
    }
  }

  /** Looking from the front: the last save of `id` in `lines[i..n]` is the
      last one in `lines[i + 1..n]`, or else line `i`'s own save. */
  lemma {:induction false} LastSaveFront<T>(lines: seq<string>, step: string -> Step<T>, i: nat, n: nat, id: string)
    requires i < n <= |lines|
    ensures LastSave(lines, step, i, n, id) ==
      if LastSave(lines, step, i + 1, n, id).Some? then LastSave(lines, step, i + 1, n, id)
      else if SavesId(step(lines[i]), id) then Some(step(lines[i]).entity)
      else None
    decreases n - i
  {
    if n > i + 1 {
      LastSaveFront(lines, step, i, n - 1, id);
      if SavesId(step(lines[n - 1]), id) {
        assert LastSave(lines, step, i + 1, n, id) == Some(step(lines[n - 1]).entity);
      } else {
        assert LastSave(lines, step, i, n, id) == LastSave(lines, step, i, n - 1, id);
        assert LastSave(lines, step, i + 1, n, id) == LastSave(lines, step, i + 1, n - 1, id);
      }
    }
  }

  /** The last save of `id` is the one on line `j` when no later line saves it. */
  lemma {:induction false} LastSaveAt<T>(lines: seq<string>, step: string -> Step<T>, i: nat, n: nat, j: nat, id: string)
    requires i <= j < n <= |lines|
    requires SavesId(step(lines[j]), id)
    requires forall k :: j < k < n ==> !SavesId(step(lines[k]), id)
    ensures LastSave(lines, step, i, n, id) == Some(step(lines[j]).entity)
    decreases n
  {
    if n - 1 > j {
      LastSaveAt(lines, step, i, n - 1, j, id);
    }
  }

  /** Last write wins: after a pass, each id holds the entity of the last
      processed line that saved it; an id no processed line saved keeps what
      the table held before. */
  lemma {:induction false} ReplayLastWriteWins<T>(rows: map<string, T>, lines: seq<string>, step: string -> Step<T>, i: nat, id: string)
    requires i <= |lines|
    ensures var run := Replay(rows, lines, step, i);
      var n := Reached(run, lines);
      i <= n <= |lines|
      && (LastSave(lines, step, i, n, id).Some? ==>
            id in run.rows && run.rows[id] == LastSave(lines, step, i, n, id).value)
      && (LastSave(lines, step, i, n, id).None? ==>
            (id in run.rows <==> id in rows) && (id in rows ==> run.rows[id] == rows[id]))
    decreases |lines| - i
  {
    if i < |lines| && !step(lines[i]).Abort? {
      var rows' := match step(lines[i]) case Save(k, e) => rows[k := e] case _ => rows;
      assert Replay(rows, lines, step, i) == Replay(rows', lines, step, i + 1);
      ReplayLastWriteWins(rows', lines, step, i + 1, id);
      var n := Reached(Replay(rows, lines, step, i), lines);
      LastSaveFront(lines, step, i, n, id);
    }
  }
}
