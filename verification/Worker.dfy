/**
  One cycle of the memory worker over the outbox, and the draining of the queue
  over many cycles.
 */
module Worker {
  import opened Common
  import opened Outbox

  const MIN_USER_TURNS := 2

  datatype Claim = Claim(c: ConversationId, lastTurnAt: real, attempts: nat)

  /** What one claimed conversation meets: the page read, and the distillation if it comes to that. */
  datatype Encounter =
    | NoPage
    | Page(userTurns: nat, distilled: Distillation)

  /** `Escapes`: an exception outside the guarded region. */
  datatype Distillation = Wrote | Erred(error: string) | Escapes

  datatype Outcome = Finished | Skipped | Recorded | WasRearmed | Vanished | Escaped

  // ---------------------------------------------------------------------
  // The claim query
  // ---------------------------------------------------------------------

  predicate IdlePending(rows: Rows, c: ConversationId, now: real, idle: real) {
    c in rows && rows[c].status == Pending && rows[c].lastTurnAt < now - idle
  }

  ghost predicate InBatch(batch: seq<Claim>, c: ConversationId) {
    exists i :: 0 <= i < |batch| && batch[i].c == c
  }

  /** The rows the claim query may return: idle pending ones, each once, oldest
      first, as many as there are up to `limit`. */
  ghost predicate IsClaim(rows: Rows, now: real, idle: real, limit: nat, batch: seq<Claim>) {
    && |batch| <= limit
    && (forall i :: 0 <= i < |batch| ==>
          IdlePending(rows, batch[i].c, now, idle)
          && batch[i] == Claim(batch[i].c, rows[batch[i].c].lastTurnAt, rows[batch[i].c].attempts))
    && (forall i, j :: 0 <= i < j < |batch| ==>
          batch[i].c != batch[j].c && batch[i].lastTurnAt <= batch[j].lastTurnAt)
    && (forall c :: IdlePending(rows, c, now, idle) && !InBatch(batch, c) ==>
          |batch| == limit && forall i :: 0 <= i < |batch| ==> batch[i].lastTurnAt <= rows[c].lastTurnAt)
  }

  // ---------------------------------------------------------------------
  // One row, and one cycle
  // ---------------------------------------------------------------------

  /** Whether the worker gets as far as writing the row's status. */
  predicate Carried(e: Encounter) {
    e.Page? && (e.userTurns < MIN_USER_TURNS || !e.distilled.Escapes?)
  }

  function Processed(rows: Rows, claim: Claim, e: Encounter, maxAttempts: nat): Rows {
    if !Carried(e) then rows
    else if e.userTurns >= MIN_USER_TURNS && e.distilled.Erred? then
      FailureRecorded(rows, claim.c, claim.lastTurnAt, e.distilled.error, maxAttempts)
    else MarkedDone(rows, claim.c, claim.lastTurnAt)
  }

  function ProcessedAll(rows: Rows, batch: seq<Claim>, es: seq<Encounter>, maxAttempts: nat): Rows
    requires |batch| == |es|
  {
    if batch == [] then rows
    else
      var n := |batch| - 1;
      Processed(ProcessedAll(rows, batch[..n], es[..n], maxAttempts), batch[n], es[n], maxAttempts)
  }

  /** What an attempt that claimed a row with this stamp makes of it. A row
      re-armed since is left alone, and so is one whose page is missing or whose
      attempt escapes. One with too few user turns, or distilled, is done, its
      attempts kept. A failure is one attempt more, and keeps the row pending
      until the attempts are used up. */
  ghost predicate RowMoves(was: Row, after: Row, claimed: real, e: Encounter, maxAttempts: nat) {
    if was.lastTurnAt != claimed then after == was
    else match e
      case NoPage => after == was
      case Page(n, distilled) =>
        if n < 2 then after == Row(Done, was.lastTurnAt, was.attempts, None)
        else match distilled
          case Wrote => after == Row(Done, was.lastTurnAt, was.attempts, None)
          case Escapes => after == was
          case Erred(x) =>
            && after.attempts == was.attempts + 1 && after.lastTurnAt == was.lastTurnAt && after.lastError == Some(x)
            && after.status == if was.attempts + 1 < maxAttempts then Pending else Failed
  }

  /** The rows an attempt leaves: its own moved as above, every other as it was. */
  ghost predicate RowsMove(rows: Rows, after: Rows, claim: Claim, e: Encounter, maxAttempts: nat) {
    && after.Keys == rows.Keys
    && (forall c :: c in rows && c != claim.c ==> after[c] == rows[c])
    && (claim.c in rows ==> RowMoves(rows[claim.c], after[claim.c], claim.lastTurnAt, e, maxAttempts))
  }

  lemma ProcessedMoves(rows: Rows, claim: Claim, e: Encounter, maxAttempts: nat)
    ensures RowsMove(rows, Processed(rows, claim, e, maxAttempts), claim, e, maxAttempts)
  {
  }

  method ProcessOne(outbox: ConversationOutbox, claim: Claim, e: Encounter, maxAttempts: nat)
    returns (outcome: Outcome)
    modifies outbox
    ensures outbox.rows == Processed(old(outbox.rows), claim, e, maxAttempts)
    ensures RowsMove(old(outbox.rows), outbox.rows, claim, e, maxAttempts)
    ensures var standing := claim.c in old(outbox.rows) && old(outbox.rows)[claim.c].lastTurnAt == claim.lastTurnAt;
            outcome == match e
              case NoPage => Vanished
              case Page(n, distilled) =>
                if n >= 2 && distilled == Escapes then Escaped
                else if !standing then WasRearmed
                else if n < 2 then Skipped
                else if distilled == Wrote then Finished
                else Recorded
  {
    ProcessedMoves(outbox.rows, claim, e, maxAttempts);
    if e.NoPage? {
      return Vanished;
    }
    if e.userTurns < MIN_USER_TURNS {
      var marked := outbox.MarkDone(claim.c, claim.lastTurnAt);
      return if marked then Skipped else WasRearmed;
    }
    match e.distilled {
      case Escapes => return Escaped;
      case Erred(error) =>
        var row := outbox.RecordFailure(claim.c, claim.lastTurnAt, error, maxAttempts);
        return if row == None then WasRearmed else Recorded;
      case Wrote =>
        var marked := outbox.MarkDone(claim.c, claim.lastTurnAt);
        return if marked then Finished else WasRearmed;
    }
  }

  /** One cycle: every claimed row in turn, an escaping one costing nothing but itself. */
  method RunOnce(outbox: ConversationOutbox, batch: seq<Claim>, es: seq<Encounter>, maxAttempts: nat)
    returns (handled: nat)
    requires |batch| == |es|
    modifies outbox
    ensures handled == |batch|
    ensures outbox.rows == ProcessedAll(old(outbox.rows), batch, es, maxAttempts)
  {
    handled := 0;
    for i := 0 to |batch|
      invariant handled == i
      invariant outbox.rows == ProcessedAll(old(outbox.rows), batch[..i], es[..i], maxAttempts)
    {
      assert batch[..i + 1][..i] == batch[..i] && es[..i + 1][..i] == es[..i];
      var _ := ProcessOne(outbox, batch[i], es[i], maxAttempts);
      handled := handled + 1;
    }
    assert batch[..|batch|] == batch && es[..|es|] == es;
  }

  // ---------------------------------------------------------------------
  // Draining: the attempts the pending rows still have between them
  // ---------------------------------------------------------------------

  function Left(row: Row, maxAttempts: nat): int {
    if row.status == Pending then maxAttempts - row.attempts else 0
  }

  ghost function LeftOver(rows: Rows, cs: set<ConversationId>, maxAttempts: nat): int
    requires cs <= rows.Keys
  {
    if cs == {} then 0
    else
      var c :| c in cs;
      Left(rows[c], maxAttempts) + LeftOver(rows, cs - {c}, maxAttempts)
  }

  ghost function Backlog(rows: Rows, maxAttempts: nat): int {
    LeftOver(rows, rows.Keys, maxAttempts)
  }

  /** A pending row always has an attempt left. */
  ghost predicate PendingBelow(rows: Rows, maxAttempts: nat) {
    forall c :: c in rows && rows[c].status == Pending ==> rows[c].attempts < maxAttempts
  }

  lemma {:induction false} LeftOverWithout(rows: Rows, cs: set<ConversationId>, c: ConversationId, maxAttempts: nat)
    requires cs <= rows.Keys && c in cs
    ensures LeftOver(rows, cs, maxAttempts) == Left(rows[c], maxAttempts) + LeftOver(rows, cs - {c}, maxAttempts)
  {
    var d :| d in cs && LeftOver(rows, cs, maxAttempts)
                        == Left(rows[d], maxAttempts) + LeftOver(rows, cs - {d}, maxAttempts);
    if d != c {
      LeftOverWithout(rows, cs - {d}, c, maxAttempts);
      LeftOverWithout(rows, cs - {c}, d, maxAttempts);
      assert cs - {d} - {c} == cs - {c} - {d};
    }
  }

  lemma {:induction false} LeftOverSame(rows: Rows, rows': Rows, cs: set<ConversationId>, maxAttempts: nat)
    requires cs <= rows.Keys && cs <= rows'.Keys
    requires forall c :: c in cs ==> rows[c] == rows'[c]
    ensures LeftOver(rows, cs, maxAttempts) == LeftOver(rows', cs, maxAttempts)
  {
    if cs != {} {
      var c :| c in cs;
      LeftOverSame(rows, rows', cs - {c}, maxAttempts);
      LeftOverWithout(rows, cs, c, maxAttempts);
      LeftOverWithout(rows', cs, c, maxAttempts);
    }
  }

  lemma BacklogUpdate(rows: Rows, c: ConversationId, row: Row, maxAttempts: nat)
    requires c in rows
    ensures Backlog(rows[c := row], maxAttempts)
            == Backlog(rows, maxAttempts) - Left(rows[c], maxAttempts) + Left(row, maxAttempts)
  {
    var rows' := rows[c := row];
    assert rows'.Keys == rows.Keys;
    LeftOverWithout(rows, rows.Keys, c, maxAttempts);
    LeftOverWithout(rows', rows.Keys, c, maxAttempts);
    LeftOverSame(rows, rows', rows.Keys - {c}, maxAttempts);
  }

  lemma {:induction false} BacklogNonNegative(rows: Rows, cs: set<ConversationId>, maxAttempts: nat)
    requires cs <= rows.Keys && PendingBelow(rows, maxAttempts)
    ensures LeftOver(rows, cs, maxAttempts) >= 0
  {
    if cs != {} {
      var c :| c in cs;
      BacklogNonNegative(rows, cs - {c}, maxAttempts);
      LeftOverWithout(rows, cs, c, maxAttempts);
    }
  }

  /** Every write of the worker, and every touch, keeps pending rows below the ceiling. */
  lemma PendingStaysBelow(rows: Rows, claim: Claim, e: Encounter, now: real, maxAttempts: nat)
    requires maxAttempts > 0 && PendingBelow(rows, maxAttempts)
    ensures PendingBelow(Processed(rows, claim, e, maxAttempts), maxAttempts)
    ensures PendingBelow(rows[claim.c := Rearmed(now)], maxAttempts)
  {
  }

  /** Distinct pending rows, each still carrying the claimed `last_turn_at`. */
  ghost predicate Stands(rows: Rows, batch: seq<Claim>) {
    && (forall i :: 0 <= i < |batch| ==>
          batch[i].c in rows && rows[batch[i].c].status == Pending && rows[batch[i].c].lastTurnAt == batch[i].lastTurnAt)
    && (forall i, j :: 0 <= i < j < |batch| ==> batch[i].c != batch[j].c)
  }

  lemma ProcessedStep(rows: Rows, claim: Claim, e: Encounter, maxAttempts: nat)
    requires maxAttempts > 0 && PendingBelow(rows, maxAttempts) && Stands(rows, [claim])
    ensures var after := Processed(rows, claim, e, maxAttempts);
            && after.Keys == rows.Keys && PendingBelow(after, maxAttempts)
            && (forall c :: c in rows && c != claim.c ==> after[c] == rows[c])
            && claim.c in after && after[claim.c].lastTurnAt == claim.lastTurnAt
            && (if Carried(e) then Backlog(after, maxAttempts) < Backlog(rows, maxAttempts) else after == rows)
  {
    assert [claim][0] == claim;
    PendingStaysBelow(rows, claim, e, 0.0, maxAttempts);
    if Carried(e) {
      var after := Processed(rows, claim, e, maxAttempts);
      BacklogUpdate(rows, claim.c, after[claim.c], maxAttempts);
      assert after == rows[claim.c := after[claim.c]];
    }
  }

  ghost predicate SomeCarried(es: seq<Encounter>, k: nat)
    requires k <= |es|
  {
    exists i :: 0 <= i < k && Carried(es[i])
  }

  /** Nothing but a batch's own conversations is written, and each still stands
      as claimed when its turn comes. */
  lemma {:induction false} BatchProcessed(rows: Rows, batch: seq<Claim>, es: seq<Encounter>, k: nat, maxAttempts: nat)
    requires Stands(rows, batch) && |batch| == |es| && k <= |batch|
    requires maxAttempts > 0 && PendingBelow(rows, maxAttempts)
    ensures var after := ProcessedAll(rows, batch[..k], es[..k], maxAttempts);
            && after.Keys == rows.Keys && PendingBelow(after, maxAttempts)
            && (forall c :: c in rows && (forall i :: 0 <= i < k ==> batch[i].c != c) ==> after[c] == rows[c])
            && (forall c :: c in rows && rows[c].status != Pending ==> after[c] == rows[c])
            && (forall c :: c in rows ==> after[c].lastTurnAt == rows[c].lastTurnAt)
            && Backlog(after, maxAttempts) <= Backlog(rows, maxAttempts)
            && (Backlog(after, maxAttempts) < Backlog(rows, maxAttempts) <==> SomeCarried(es, k))
  {
    if k > 0 {
      BatchProcessed(rows, batch, es, k - 1, maxAttempts);
      assert batch[..k][..k - 1] == batch[..k - 1] && es[..k][..k - 1] == es[..k - 1];
      var before := ProcessedAll(rows, batch[..k - 1], es[..k - 1], maxAttempts);
      assert before[batch[k - 1].c] == rows[batch[k - 1].c];
      ProcessedStep(before, batch[k - 1], es[k - 1], maxAttempts);
      assert SomeCarried(es, k) <==> SomeCarried(es, k - 1) || Carried(es[k - 1]);
    }
  }

  /** With no touches in between, a cycle never adds to the backlog, and it
      shrinks it if and only if some claimed row is carried to a status write. */
  lemma CycleDrainsIff(rows: Rows, now: real, idle: real, limit: nat, batch: seq<Claim>, es: seq<Encounter>,
                       maxAttempts: nat)
    requires IsClaim(rows, now, idle, limit, batch) && |batch| == |es|
    requires maxAttempts > 0 && PendingBelow(rows, maxAttempts)
    ensures var after := ProcessedAll(rows, batch, es, maxAttempts);
            && Backlog(after, maxAttempts) <= Backlog(rows, maxAttempts)
            && (Backlog(after, maxAttempts) < Backlog(rows, maxAttempts) <==> SomeCarried(es, |es|))
  {
    BatchProcessed(rows, batch, es, |batch|, maxAttempts);
    assert batch[..|batch|] == batch && es[..|es|] == es;
  }

  /** A trivial conversation leaves the queue the first time it is claimed, with
      its attempts untouched, so it cannot hold the head of the line. */
  lemma TrivialLeavesTheQueue(rows: Rows, now: real, idle: real, limit: nat, batch: seq<Claim>, es: seq<Encounter>,
                              i: nat, maxAttempts: nat)
    requires IsClaim(rows, now, idle, limit, batch) && |batch| == |es| && i < |batch|
    requires maxAttempts > 0 && PendingBelow(rows, maxAttempts)
    requires es[i].Page? && es[i].userTurns < MIN_USER_TURNS
    ensures var c := batch[i].c;
            var after := ProcessedAll(rows, batch, es, maxAttempts);
            c in after && after[c] == rows[c].(status := Done, lastError := None)
  {
    RowSettles(rows, batch, es, i, |batch|, maxAttempts);
    assert batch[..|batch|] == batch && es[..|es|] == es;
  }

  /** What a cycle writes to a claimed row is what its own encounter says. */
  lemma {:induction false} RowSettles(rows: Rows, batch: seq<Claim>, es: seq<Encounter>, i: nat, k: nat,
                                      maxAttempts: nat)
    requires Stands(rows, batch) && |batch| == |es| && i < k <= |batch|
    requires maxAttempts > 0 && PendingBelow(rows, maxAttempts)
    ensures var c := batch[i].c;
            var after := ProcessedAll(rows, batch[..k], es[..k], maxAttempts);
            c in after && after[c] == Processed(rows, batch[i], es[i], maxAttempts)[c]
  {
    assert batch[..k][..k - 1] == batch[..k - 1] && es[..k][..k - 1] == es[..k - 1];
    BatchProcessed(rows, batch, es, k - 1, maxAttempts);
    if i < k - 1 {
      RowSettles(rows, batch, es, i, k - 1, maxAttempts);
    }
  }

  /** A whole cycle, row by row: each claimed row moves as its own encounter
      says, whatever the others met, and no other row changes. */
  lemma CycleMoves(rows: Rows, now: real, idle: real, limit: nat, batch: seq<Claim>, es: seq<Encounter>,
                   maxAttempts: nat)
    requires IsClaim(rows, now, idle, limit, batch) && |batch| == |es|
    requires maxAttempts > 0 && PendingBelow(rows, maxAttempts)
    ensures var after := ProcessedAll(rows, batch, es, maxAttempts);
            && after.Keys == rows.Keys
            && (forall i :: 0 <= i < |batch| ==>
                  RowMoves(rows[batch[i].c], after[batch[i].c], rows[batch[i].c].lastTurnAt, es[i], maxAttempts))
            && (forall c :: c in rows && !InBatch(batch, c) ==> after[c] == rows[c])
  {
    var after := ProcessedAll(rows, batch, es, maxAttempts);
    BatchProcessed(rows, batch, es, |batch|, maxAttempts);
    assert batch[..|batch|] == batch && es[..|es|] == es;
    forall i | 0 <= i < |batch|
      ensures RowMoves(rows[batch[i].c], after[batch[i].c], rows[batch[i].c].lastTurnAt, es[i], maxAttempts)
    {
      RowSettles(rows, batch, es, i, |batch|, maxAttempts);
      ProcessedMoves(rows, batch[i], es[i], maxAttempts);
    }
  }

  // ---------------------------------------------------------------------
  // Many cycles
  // ---------------------------------------------------------------------

  datatype Cycle = Cycle(now: real, batch: seq<Claim>, es: seq<Encounter>)

  /** Cycles at non-decreasing times, each claiming what the query may claim; any
      of the claimed rows may escape or turn out to have vanished. */
  ghost predicate Cycles(rows: Rows, cycles: seq<Cycle>, idle: real, limit: nat, maxAttempts: nat)
    decreases |cycles|
  {
    cycles == [] ||
    (var first := cycles[0];
     && IsClaim(rows, first.now, idle, limit, first.batch)
     && |first.batch| == |first.es|
     && (forall i :: 0 <= i < |cycles| ==> first.now <= cycles[i].now)
     && Cycles(ProcessedAll(rows, first.batch, first.es, maxAttempts), cycles[1..], idle, limit, maxAttempts))
  }

  ghost function AfterCycles(rows: Rows, cycles: seq<Cycle>, idle: real, limit: nat, maxAttempts: nat): Rows
    requires Cycles(rows, cycles, idle, limit, maxAttempts)
    decreases |cycles|
  {
    if cycles == [] then rows
    else AfterCycles(ProcessedAll(rows, cycles[0].batch, cycles[0].es, maxAttempts), cycles[1..], idle, limit, maxAttempts)
  }

  /** How many of the cycles found nothing to claim, or carried at least one
      claimed row to its status write. */
  ghost function Fruitful(cycles: seq<Cycle>): nat {
    if cycles == [] then 0
    else
      (if cycles[0].batch == [] || SomeCarried(cycles[0].es, |cycles[0].es|) then 1 else 0) + Fruitful(cycles[1..])
  }

  /** No conversation waits forever: with no new touches, a row idle at the first
      cycle is done or failed once as many cycles have been fruitful as the queue
      has attempts left between its pending rows, whatever is queued before it
      and whichever rows keep escaping meanwhile. */
  lemma {:induction false} EveryIdleRowSettles(rows: Rows, cycles: seq<Cycle>, c: ConversationId, idle: real,
                                               limit: nat, maxAttempts: nat)
    requires Cycles(rows, cycles, idle, limit, maxAttempts) && limit > 0
    requires maxAttempts > 0 && PendingBelow(rows, maxAttempts)
    requires c in rows && Fruitful(cycles) >= Backlog(rows, maxAttempts)
    requires cycles != [] ==> rows[c].lastTurnAt < cycles[0].now - idle
    ensures c in AfterCycles(rows, cycles, idle, limit, maxAttempts)
    ensures AfterCycles(rows, cycles, idle, limit, maxAttempts)[c].status != Pending
    decreases |cycles|
  {
    if cycles == [] {
      BacklogNonNegative(rows, rows.Keys - {c}, maxAttempts);
      LeftOverWithout(rows, rows.Keys, c, maxAttempts);
    } else {
      var first := cycles[0];
      var after := ProcessedAll(rows, first.batch, first.es, maxAttempts);
      BatchProcessed(rows, first.batch, first.es, |first.batch|, maxAttempts);
      assert first.batch[..|first.batch|] == first.batch && first.es[..|first.es|] == first.es;
      if rows[c].status == Pending {
        assert first.batch != [] by {
          assert IdlePending(rows, c, first.now, idle);
        }
        EveryIdleRowSettles(after, cycles[1..], c, idle, limit, maxAttempts);
      } else {
        SettledStays(after, cycles[1..], c, idle, limit, maxAttempts);
      }
    }
  }

  lemma {:induction false} SettledStays(rows: Rows, cycles: seq<Cycle>, c: ConversationId, idle: real,
                                        limit: nat, maxAttempts: nat)
    requires Cycles(rows, cycles, idle, limit, maxAttempts)
    requires maxAttempts > 0 && PendingBelow(rows, maxAttempts)
    requires c in rows && rows[c].status != Pending
    ensures var after := AfterCycles(rows, cycles, idle, limit, maxAttempts);
            c in after && after[c] == rows[c]
    decreases |cycles|
  {
    if cycles != [] {
      var first := cycles[0];
      BatchProcessed(rows, first.batch, first.es, |first.batch|, maxAttempts);
      assert first.batch[..|first.batch|] == first.batch && first.es[..|first.es|] == first.es;
      SettledStays(ProcessedAll(rows, first.batch, first.es, maxAttempts), cycles[1..], c, idle, limit, maxAttempts);
    }
  }

  // ---------------------------------------------------------------------
  // A conversation that fails every time
  // ---------------------------------------------------------------------

  /** What a cycle's claim of this conversation met, if it was claimed. */
  function Met(batch: seq<Claim>, es: seq<Encounter>, c: ConversationId): (e: Option<Encounter>)
    requires |batch| == |es|
    ensures e.Some? <==> InBatch(batch, c)
    ensures e.Some? ==> exists i :: 0 <= i < |batch| && batch[i].c == c && es[i] == e.value
  {
    if batch == [] then None
    else
      var n := |batch| - 1;
      var front := Met(batch[..n], es[..n], c);
      assert forall i :: 0 <= i < n ==> batch[..n][i] == batch[i] && es[..n][i] == es[i];
      if batch[n].c == c then Some(es[n]) else front
  }

  ghost predicate Fails(e: Encounter) {
    e.Page? && e.userTurns >= MIN_USER_TURNS && e.distilled.Erred?
  }

  ghost predicate AlwaysFails(cycles: seq<Cycle>, c: ConversationId) {
    forall k, i :: 0 <= k < |cycles| && 0 <= i < |cycles[k].batch| == |cycles[k].es| && cycles[k].batch[i].c == c ==>
      Fails(cycles[k].es[i])
  }

  /** The errors a conversation's claims met, in order. */
  function Errors(cycles: seq<Cycle>, c: ConversationId): seq<string> {
    if cycles == [] then []
    else
      var first := cycles[0];
      var e := if |first.batch| == |first.es| then Met(first.batch, first.es, c) else None;
      (if e.Some? && e.value.Page? && e.value.distilled.Erred? then [e.value.distilled.error] else [])
      + Errors(cycles[1..], c)
  }

  /** A settled row is claimed no more. */
  lemma {:induction false} SettledMeetsNothing(rows: Rows, cycles: seq<Cycle>, c: ConversationId, idle: real,
                                               limit: nat, maxAttempts: nat)
    requires Cycles(rows, cycles, idle, limit, maxAttempts)
    requires maxAttempts > 0 && PendingBelow(rows, maxAttempts)
    requires c in rows && rows[c].status != Pending
    ensures Errors(cycles, c) == []
    decreases |cycles|
  {
    if cycles != [] {
      var first := cycles[0];
      BatchProcessed(rows, first.batch, first.es, |first.batch|, maxAttempts);
      assert first.batch[..|first.batch|] == first.batch && first.es[..|first.es|] == first.es;
      assert !InBatch(first.batch, c);
      SettledMeetsNothing(ProcessedAll(rows, first.batch, first.es, maxAttempts), cycles[1..], c, idle, limit, maxAttempts);
    }
  }

  lemma FailingMove(was: Row, after: Row, claimed: real, e: Encounter, maxAttempts: nat)
    requires Fails(e) && was.lastTurnAt == claimed && RowMoves(was, after, claimed, e, maxAttempts)
    ensures after == Row(if was.attempts + 1 < maxAttempts then Pending else Failed, claimed, was.attempts + 1,
                         Some(e.distilled.error))
  {
  }

  /** One cycle of a conversation whose distillation fails. */
  lemma FailingCycle(rows: Rows, first: Cycle, c: ConversationId, idle: real, limit: nat, maxAttempts: nat)
    requires IsClaim(rows, first.now, idle, limit, first.batch) && |first.batch| == |first.es|
    requires maxAttempts > 0 && PendingBelow(rows, maxAttempts) && c in rows && rows[c].status == Pending
    requires AlwaysFails([first], c)
    ensures var after := ProcessedAll(rows, first.batch, first.es, maxAttempts);
            var e := Met(first.batch, first.es, c);
            && PendingBelow(after, maxAttempts) && c in after
            && (e == None ==> after[c] == rows[c])
            && (e.Some? ==>
                  Fails(e.value)
                  && after[c] == Row(if rows[c].attempts + 1 < maxAttempts then Pending else Failed,
                                     rows[c].lastTurnAt, rows[c].attempts + 1, Some(e.value.distilled.error)))
  {
    BatchProcessed(rows, first.batch, first.es, |first.batch|, maxAttempts);
    assert first.batch[..|first.batch|] == first.batch && first.es[..|first.es|] == first.es;
    CycleMoves(rows, first.now, idle, limit, first.batch, first.es, maxAttempts);
    var after := ProcessedAll(rows, first.batch, first.es, maxAttempts);
    var e := Met(first.batch, first.es, c);
    if e.Some? {
      var i :| 0 <= i < |first.batch| && first.batch[i].c == c && first.es[i] == e.value;
      assert [first][0].batch[i].c == c;
      FailingMove(rows[c], after[c], rows[c].lastTurnAt, first.es[i], maxAttempts);
    }
  }

  /** A conversation whose every distillation fails stays pending, one attempt
      more each time it is claimed, until its attempts are used up, and is then
      failed for good: it costs no distillation past the ceiling. The row keeps
      the last error. */
  lemma {:induction false} FailuresAreCounted(rows: Rows, cycles: seq<Cycle>, c: ConversationId, idle: real,
                                              limit: nat, maxAttempts: nat)
    requires Cycles(rows, cycles, idle, limit, maxAttempts)
    requires maxAttempts > 0 && PendingBelow(rows, maxAttempts)
    requires c in rows && rows[c].status == Pending && AlwaysFails(cycles, c)
    ensures var after, errors := AfterCycles(rows, cycles, idle, limit, maxAttempts), Errors(cycles, c);
            && c in after && after[c].lastTurnAt == rows[c].lastTurnAt
            && after[c].attempts == rows[c].attempts + |errors| <= maxAttempts
            && after[c].status == (if after[c].attempts < maxAttempts then Pending else Failed)
            && after[c].lastError == if errors == [] then rows[c].lastError else Some(errors[|errors| - 1])
    decreases |cycles|
  {
    if cycles != [] {
      var first := cycles[0];
      var after := ProcessedAll(rows, first.batch, first.es, maxAttempts);
      assert AlwaysFails([first], c) && AlwaysFails(cycles[1..], c);
      FailingCycle(rows, first, c, idle, limit, maxAttempts);
      if after[c].status == Pending {
        FailuresAreCounted(after, cycles[1..], c, idle, limit, maxAttempts);
      } else {
        SettledStays(after, cycles[1..], c, idle, limit, maxAttempts);
        SettledMeetsNothing(after, cycles[1..], c, idle, limit, maxAttempts);
      }
    }
  }
}
