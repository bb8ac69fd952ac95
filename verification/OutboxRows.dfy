/**
  The interleaved system writes rows as the worker does: whatever runs beside it,
  an attempt that ends moves its own row as its encounter says.
 */
module OutboxRows {
  import opened Common
  import opened Outbox
  import Worker
  import opened OutboxSystem

  /** The encounter an attempt's last step stands for; the page of one that
      marks without distilling had too few user turns. */
  function EncounterOf(step: Step): Worker.Encounter
    requires step.Mark? || step.Skip? || step.Fail? || step.Crash?
  {
    match step
    case Mark(_) => Worker.Page(2, Worker.Wrote)
    case Skip(_) => Worker.Page(1, Worker.Wrote)
    case Fail(_, error, _) => Worker.Page(2, Worker.Erred(error))
    case Crash(_) => Worker.Page(2, Worker.Escapes)
  }

  /** Of all steps only a touch and the end of an attempt write rows: a touch
      re-arms its own, the end of an attempt moves the one it claimed. */
  lemma StepsMoveRows(k: Config, s: Sys, step: Step, attempts: nat, maxAttempts: nat)
    requires Enabled(k, s, step) && (step.Fail? ==> step.maxAttempts == maxAttempts)
    ensures var after := Next(k, s, step).rows;
            if step.Touch? then
              after == s.rows[step.c := Row(Pending, s.stamps[(step.c, step.turn)], 0, None)]
            else if step.Mark? || step.Skip? || step.Fail? || step.Crash? then
              var work := s.works[step.w];
              Worker.RowsMove(s.rows, after, Worker.Claim(work.c, work.lastTurnAt, attempts), EncounterOf(step),
                              maxAttempts)
            else
              after == s.rows
  {
    match step {
      case Mark(w) =>
        var work := s.works[w];
        Worker.ProcessedMoves(s.rows, Worker.Claim(work.c, work.lastTurnAt, attempts), EncounterOf(step), maxAttempts);
      case Skip(w) =>
        var work := s.works[w];
        Worker.ProcessedMoves(s.rows, Worker.Claim(work.c, work.lastTurnAt, attempts), EncounterOf(step), maxAttempts);
      case Fail(w, error, _) =>
        var work := s.works[w];
        Worker.ProcessedMoves(s.rows, Worker.Claim(work.c, work.lastTurnAt, attempts), EncounterOf(step), maxAttempts);
      case _ =>
    }
  }
}
