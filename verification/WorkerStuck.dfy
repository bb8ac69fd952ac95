/**
  How many conversations that keep escaping the worker its queue can bear before
  others starve behind them.
 */
module WorkerStuck {
  import opened Common
  import opened Outbox
  import opened Worker

  /** Every claimed conversation but the stuck ones is carried to its status write. */
  ghost predicate OnlyStuck(cycles: seq<Cycle>, stuck: set<ConversationId>) {
    forall i, j :: 0 <= i < |cycles| && 0 <= j < |cycles[i].batch| && j < |cycles[i].es| && cycles[i].batch[j].c !in stuck
      ==> Carried(cycles[i].es[j])
  }

  /** Conversation `c`, not itself stuck, idle from the first of as many cycles as
      the queue has attempts left, in which none but the stuck ones escape. */
  ghost predicate DueToSettle(rows: Rows, cycles: seq<Cycle>, c: ConversationId, stuck: set<ConversationId>,
                              idle: real, limit: nat, maxAttempts: nat)
  {
    && Cycles(rows, cycles, idle, limit, maxAttempts) && PendingBelow(rows, maxAttempts)
    && OnlyStuck(cycles, stuck) && c in rows && c !in stuck
    && |cycles| >= Backlog(rows, maxAttempts)
    && (cycles != [] ==> rows[c].lastTurnAt < cycles[0].now - idle)
  }

  ghost predicate Settles(rows: Rows, cycles: seq<Cycle>, c: ConversationId, idle: real, limit: nat, maxAttempts: nat)
    requires Cycles(rows, cycles, idle, limit, maxAttempts)
  {
    var after := AfterCycles(rows, cycles, idle, limit, maxAttempts);
    c in after && after[c].status != Pending
  }

  /** Distinct claims of stuck conversations alone are no more than there are. */
  lemma {:induction false} Pigeonhole(batch: seq<Claim>, stuck: set<ConversationId>)
    requires forall i, j :: 0 <= i < j < |batch| ==> batch[i].c != batch[j].c
    requires forall i :: 0 <= i < |batch| ==> batch[i].c in stuck
    ensures |batch| <= |stuck|
  {
    if batch != [] {
      var k := |batch| - 1;
      Pigeonhole(batch[..k], stuck - {batch[k].c});
    }
  }

  /** A cycle that finds an idle row that is not stuck carries some row. */
  lemma FewStuckCarry(rows: Rows, cycle: Cycle, c: ConversationId, stuck: set<ConversationId>, idle: real, limit: nat)
    requires IsClaim(rows, cycle.now, idle, limit, cycle.batch) && |cycle.batch| == |cycle.es|
    requires OnlyStuck([cycle], stuck) && |stuck| < limit
    requires IdlePending(rows, c, cycle.now, idle) && c !in stuck
    ensures SomeCarried(cycle.es, |cycle.es|)
  {
    assert [cycle][0] == cycle;
    if InBatch(cycle.batch, c) {
      var i :| 0 <= i < |cycle.batch| && cycle.batch[i].c == c;
      assert Carried(cycle.es[i]);
    } else if forall i :: 0 <= i < |cycle.batch| ==> cycle.batch[i].c in stuck {
      Pigeonhole(cycle.batch, stuck);
    } else {
      var i :| 0 <= i < |cycle.batch| && cycle.batch[i].c !in stuck;
      assert Carried(cycle.es[i]);
    }
  }

  lemma {:induction false} FewStuckSettle(rows: Rows, cycles: seq<Cycle>, c: ConversationId, stuck: set<ConversationId>,
                                          idle: real, limit: nat, maxAttempts: nat)
    requires maxAttempts > 0 && |stuck| < limit
    requires DueToSettle(rows, cycles, c, stuck, idle, limit, maxAttempts)
    ensures Settles(rows, cycles, c, idle, limit, maxAttempts)
    decreases |cycles|
  {
    if cycles == [] {
      BacklogNonNegative(rows, rows.Keys - {c}, maxAttempts);
      LeftOverWithout(rows, rows.Keys, c, maxAttempts);
    } else {
      var first := cycles[0];
      var after := ProcessedAll(rows, first.batch, first.es, maxAttempts);
      BatchProcessed(rows, first.batch, first.es, |first.batch|, maxAttempts);
      assert first.batch[..|first.batch|] == first.batch && first.es[..|first.es|] == first.es;
      if rows[c].status == Pending {
        assert OnlyStuck([first], stuck) && OnlyStuck(cycles[1..], stuck) by { StuckFirst(cycles, stuck); }
        FewStuckCarry(rows, first, c, stuck, idle, limit);
        FewStuckSettle(after, cycles[1..], c, stuck, idle, limit, maxAttempts);
      } else {
        SettledStays(after, cycles[1..], c, idle, limit, maxAttempts);
      }
    }
  }

  lemma StuckFirst(cycles: seq<Cycle>, stuck: set<ConversationId>)
    requires cycles != [] && OnlyStuck(cycles, stuck)
    ensures OnlyStuck([cycles[0]], stuck) && OnlyStuck(cycles[1..], stuck)
  {
    assert forall i :: 0 <= i < |cycles| - 1 ==> cycles[1..][i] == cycles[i + 1];
  }

  // ---------------------------------------------------------------------
  // A full batch of stuck conversations at the head of the queue
  // ---------------------------------------------------------------------

  lemma {:induction false} Several(stuck: set<ConversationId>, n: nat) returns (cs: seq<ConversationId>)
    requires n <= |stuck|
    ensures |cs| == n && (forall i :: 0 <= i < n ==> cs[i] in stuck)
    ensures forall i, j :: 0 <= i < j < n ==> cs[i] != cs[j]
  {
    if n == 0 {
      cs := [];
    } else {
      var c :| c in stuck;
      var rest := Several(stuck - {c}, n - 1);
      cs := rest + [c];
    }
  }

  lemma {:induction false} Outside(stuck: set<ConversationId>) returns (c: ConversationId)
    ensures c !in stuck
    ensures forall d :: d in stuck ==> d < c
  {
    if stuck == {} {
      c := 0;
    } else {
      var d :| d in stuck;
      var rest := Outside(stuck - {d});
      c := if d < rest then rest else d + 1;
      assert forall e :: e in stuck ==> e == d || e in stuck - {d};
    }
  }

  function Idler(at: real): Row {
    Row(Pending, at, 0, None)
  }

  /** The stuck conversations idle since 0, one other since 1. */
  function Clogged(cs: seq<ConversationId>, c: ConversationId): Rows {
    (map d | d in cs :: Idler(0.0))[c := Idler(1.0)]
  }

  function ClaimsOf(cs: seq<ConversationId>): seq<Claim> {
    seq(|cs|, i requires 0 <= i < |cs| => Claim(cs[i], 0.0, 0))
  }

  function Escaping(cs: seq<ConversationId>): seq<Encounter> {
    seq(|cs|, i requires 0 <= i < |cs| => Page(MIN_USER_TURNS, Escapes))
  }

  function CloggedCycles(cs: seq<ConversationId>, idle: real, n: nat): (cycles: seq<Cycle>)
    ensures |cycles| == n
    ensures forall i :: 0 <= i < n ==> cycles[i] == Cycle(idle + 2.0, ClaimsOf(cs), Escaping(cs))
  {
    if n == 0 then [] else [Cycle(idle + 2.0, ClaimsOf(cs), Escaping(cs))] + CloggedCycles(cs, idle, n - 1)
  }

  lemma {:induction false} EscapingChangesNothing(rows: Rows, cs: seq<ConversationId>, k: nat, maxAttempts: nat)
    requires k <= |cs|
    ensures ProcessedAll(rows, ClaimsOf(cs)[..k], Escaping(cs)[..k], maxAttempts) == rows
  {
    if k > 0 {
      EscapingChangesNothing(rows, cs, k - 1, maxAttempts);
      assert ClaimsOf(cs)[..k][..k - 1] == ClaimsOf(cs)[..k - 1] && Escaping(cs)[..k][..k - 1] == Escaping(cs)[..k - 1];
    }
  }

  lemma CloggedClaim(cs: seq<ConversationId>, c: ConversationId, idle: real)
    requires c !in cs && forall i, j :: 0 <= i < j < |cs| ==> cs[i] != cs[j]
    ensures IsClaim(Clogged(cs, c), idle + 2.0, idle, |cs|, ClaimsOf(cs))
  {
    var rows, batch := Clogged(cs, c), ClaimsOf(cs);
    forall d | d in cs ensures InBatch(batch, d) {
      var i :| 0 <= i < |cs| && cs[i] == d;
      assert batch[i].c == d;
    }
  }

  lemma {:induction false} CloggedForever(cs: seq<ConversationId>, c: ConversationId, idle: real, n: nat, maxAttempts: nat)
    requires c !in cs && forall i, j :: 0 <= i < j < |cs| ==> cs[i] != cs[j]
    ensures Cycles(Clogged(cs, c), CloggedCycles(cs, idle, n), idle, |cs|, maxAttempts)
    ensures AfterCycles(Clogged(cs, c), CloggedCycles(cs, idle, n), idle, |cs|, maxAttempts) == Clogged(cs, c)
  {
    if n > 0 {
      var batch, es := ClaimsOf(cs), Escaping(cs);
      CloggedClaim(cs, c, idle);
      EscapingChangesNothing(Clogged(cs, c), cs, |cs|, maxAttempts);
      assert batch[..|cs|] == batch && es[..|cs|] == es;
      CloggedForever(cs, c, idle, n - 1, maxAttempts);
      assert CloggedCycles(cs, idle, n)[1..] == CloggedCycles(cs, idle, n - 1);
    }
  }

  /** With a batch of stuck conversations ahead of it, an idle row is never claimed. */
  lemma ManyStuckClog(stuck: set<ConversationId>, idle: real, limit: nat, maxAttempts: nat)
    returns (rows: Rows, cycles: seq<Cycle>, c: ConversationId)
    requires maxAttempts > 0 && |stuck| >= limit
    ensures DueToSettle(rows, cycles, c, stuck, idle, limit, maxAttempts)
    ensures !Settles(rows, cycles, c, idle, limit, maxAttempts)
  {
    var cs := Several(stuck, limit);
    c := Outside(stuck);
    rows := Clogged(cs, c);
    BacklogNonNegative(rows, rows.Keys, maxAttempts);
    cycles := CloggedCycles(cs, idle, Backlog(rows, maxAttempts));
    CloggedForever(cs, c, idle, |cycles|, maxAttempts);
  }

  /** Every idle row settles, in every queue and every run of cycles in which none
      but the stuck conversations escape or have vanished, if and only if these
      are fewer than one cycle claims. */
  lemma QueueBearsStuckIff(stuck: set<ConversationId>, idle: real, limit: nat, maxAttempts: nat)
    requires maxAttempts > 0
    ensures (forall rows, cycles, c | DueToSettle(rows, cycles, c, stuck, idle, limit, maxAttempts) ::
               Settles(rows, cycles, c, idle, limit, maxAttempts))
            <==> |stuck| < limit
  {
    if |stuck| < limit {
      forall rows, cycles, c | DueToSettle(rows, cycles, c, stuck, idle, limit, maxAttempts)
        ensures Settles(rows, cycles, c, idle, limit, maxAttempts)
      {
        FewStuckSettle(rows, cycles, c, stuck, idle, limit, maxAttempts);
      }
    } else {
      var rows, cycles, c := ManyStuckClog(stuck, idle, limit, maxAttempts);
      assert DueToSettle(rows, cycles, c, stuck, idle, limit, maxAttempts);
    }
  }
}
