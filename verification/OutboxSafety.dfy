/**
  Which runs of the outbox lose a turn: the two ways it can happen, and the exact
  conditions under which neither can.
 */
module OutboxSafety {
  import opened Common
  import opened Outbox
  import opened OutboxSystem

  lemma {:induction false} AfterTwo(k: Config, steps: seq<Step>, a: Step, b: Step)
    requires After(k, steps).Some? && Enabled(k, After(k, steps).value, a)
    requires Enabled(k, Next(k, After(k, steps).value, a), b)
    ensures After(k, steps + [a, b]) == Some(Next(k, Next(k, After(k, steps).value, a), b))
  {
    var more := steps + [a];
    AfterOne(k, steps, a);
    AfterOne(k, more, b);
    assert more + [b] == steps + [a, b];
  }

  // ---------------------------------------------------------------------
  // A conversation longer than the window
  // ---------------------------------------------------------------------

  function Count(n: nat): (talk: seq<Turn>)
    ensures |talk| == n && forall i :: 0 <= i < n ==> talk[i] == i
  {
    if n == 0 then [] else Count(n - 1) + [n - 1]
  }

  /** `n` messages said in conversation 0 at time 0, and nothing else. */
  ghost predicate Talking(s: Sys, n: nat) {
    && s.clock == 0.0 && s.history.Keys <= {0} && Talk(s, 0) == Count(n) && UpTo(s, 0) == 0 && s.longest == n
    && s.stamps == map[] && 0 !in s.rows && s.works == map[] && In(s.touched, 0) == {} && In(s.distilled, 0) == {}
  }

  lemma {:induction false} TalkOn(k: Config, n: nat) returns (steps: seq<Step>)
    ensures After(k, steps).Some? && Talking(After(k, steps).value, n)
  {
    if n == 0 {
      steps := [];
    } else {
      var front := TalkOn(k, n - 1);
      steps := front + [Say(0, n - 1)];
      AfterOne(k, front, Say(0, n - 1));
    }
  }

  /** The first of `n` messages touched at time 0, its row claimed once idle, and read. */
  ghost predicate FirstRead(k: Config, s: Sys, n: nat) {
    && s.history.Keys <= {0} && s.longest == n && In(s.distilled, 0) == {} && In(s.touched, 0) == {0}
    && Talk(s, 0) == Count(n) && 0 in s.rows && s.rows[0] == Rearmed(0.0)
    && 0 in s.works && s.works[0].HasRead? && s.works[0].c == 0 && s.works[0].lastTurnAt == 0.0
    && s.works[0].seen == Messages(Page(Count(n), k.window))
  }

  lemma TouchFirst(k: Config, s: Sys, n: nat)
    requires k.lag >= 0.0 && n > 0 && Talking(s, n)
    ensures Enabled(k, s, Begin(0, 0)) && Enabled(k, Next(k, s, Begin(0, 0)), Touch(0, 0))
    ensures var s' := Next(k, Next(k, s, Begin(0, 0)), Touch(0, 0));
            && s'.clock == 0.0 && s'.history == s.history && s'.longest == n && In(s'.distilled, 0) == {}
            && In(s'.touched, 0) == {0} && 0 in s'.rows && s'.rows[0] == Rearmed(0.0) && s'.works == map[]
  {
    assert Count(n)[0] == 0;
  }

  lemma ReadFirst(k: Config, n: nat) returns (steps: seq<Step>)
    requires k.idle >= 0.0 && k.lag >= 0.0 && n > 0
    ensures After(k, steps).Some? && FirstRead(k, After(k, steps).value, n)
  {
    var said := TalkOn(k, n);
    TouchFirst(k, After(k, said).value, n);
    AfterTwo(k, said, Begin(0, 0), Touch(0, 0));
    var touched := said + [Begin(0, 0), Touch(0, 0)];
    AfterTwo(k, touched, Tick(k.idle + 1.0), Claim(0, 0));
    var claimed := touched + [Tick(k.idle + 1.0), Claim(0, 0)];
    steps := claimed + [Read(0)];
    AfterOne(k, claimed, Read(0));
  }

  lemma FirstNotSeen(k: Config, n: nat)
    requires n > k.window
    ensures 0 !in Messages(Page(Count(n), k.window))
  {
    var page := Page(Count(n), k.window);
    assert forall i :: 0 <= i < |page| ==> page[i] == Count(n)[n - k.window + i];
  }

  lemma MarkFirst(k: Config, s: Sys, n: nat)
    requires n > k.window && FirstRead(k, s, n)
    ensures Enabled(k, Next(k, s, Distil(0)), Mark(0))
    ensures var s' := Next(k, Next(k, s, Distil(0)), Mark(0));
            !Safe(s') && !SafeAlone(s') && s'.longest == n && Short(s', n)
  {
    FirstNotSeen(k, n);
    var s' := Next(k, Next(k, s, Distil(0)), Mark(0));
    assert 0 in s'.rows && s'.rows[0].status == Done && 0 in In(s'.touched, 0);
    assert 0 !in In(s'.distilled, 0) && 0 !in In(s'.marked, 0);
    assert forall c :: c != 0 ==> Talk(s', c) == [];
  }

  /** One sitting of one message more than an attempt reads: its first turn is
      marked done, and no attempt was ever shown it. */
  lemma LongSittingLosesATurn(k: Config) returns (steps: seq<Step>)
    requires k.idle >= 0.0 && k.lag >= 0.0
    ensures After(k, steps).Some? && !Safe(After(k, steps).value) && !SafeAlone(After(k, steps).value)
    ensures After(k, steps).value.longest == k.window + 1 && Short(After(k, steps).value, k.window + 1)
  {
    var read := ReadFirst(k, k.window + 1);
    steps := read + [Distil(0), Mark(0)];
    MarkFirst(k, After(k, read).value, k.window + 1);
    AfterTwo(k, read, Distil(0), Mark(0));
  }

  // ---------------------------------------------------------------------
  // A touch that commits after the idle threshold
  // ---------------------------------------------------------------------

  /** Conversation 0 at `clock`, with the row's stamp; turn 3 yet to come. */
  ghost predicate Before3(s: Sys, clock: real, talk: seq<Turn>, upTo: nat, stamp: real) {
    && s.clock == clock && s.history.Keys <= {0} && Talk(s, 0) == talk && UpTo(s, 0) == upTo <= |talk| && s.longest == 1
    && 0 in s.rows && s.rows[0] == Rearmed(stamp)
    && 3 !in In(s.touched, 0) && 3 !in In(s.distilled, 0) && 3 !in talk && (0, 3) !in s.stamps
  }

  ghost predicate Stamped(s: Sys, turn: Turn, at: real) {
    (0, turn) in s.stamps && s.stamps[(0, turn)] == at && turn !in In(s.touched, 0)
  }

  ghost predicate Unstamped(s: Sys, turn: Turn) {
    (0, turn) !in s.stamps && turn !in In(s.touched, 0)
  }

  ghost predicate Holds(s: Sys, w: WorkerId, stamp: real) {
    w in s.works && s.works[w].Claimed? && s.works[w].c == 0 && s.works[w].lastTurnAt == stamp
  }

  /** An attempt reads and distils: everything said so far is behind it. */
  lemma ReadAndDistil(k: Config, s: Sys, w: WorkerId, clock: real, talk: seq<Turn>, upTo: nat, stamp: real, at: real)
    requires Before3(s, clock, talk, upTo, stamp) && Holds(s, w, at)
    ensures Enabled(k, s, Read(w)) && Enabled(k, Next(k, s, Read(w)), Distil(w))
    ensures var s' := Next(k, Next(k, s, Read(w)), Distil(w));
            && Before3(s', clock, talk, |talk|, stamp)
            && s'.stamps == s.stamps && s'.touched == s.touched
            && w in s'.works && s'.works[w].HasDistilled? && s'.works[w].c == 0 && s'.works[w].lastTurnAt == at
            && 3 !in s'.works[w].seen
            && (forall u :: u != w ==> (u in s'.works <==> u in s.works))
            && (forall u :: u != w && u in s.works ==> s'.works[u] == s.works[u])
  {
    var s1 := Next(k, s, Read(w));
    assert s1.works[w].seen == Messages(Page(talk, k.window));
  }

  /** A user's message, and its touch begun, where nothing waits to be read. */
  lemma SayAndBegin(k: Config, s: Sys, turn: Turn, clock: real, talk: seq<Turn>, stamp: real)
    requires Before3(s, clock, talk, |talk|, stamp) && !k.distinct && turn < 3 && turn !in talk && Unstamped(s, turn)
    ensures Enabled(k, s, Say(0, turn)) && Enabled(k, Next(k, s, Say(0, turn)), Begin(0, turn))
    ensures var s' := Next(k, Next(k, s, Say(0, turn)), Begin(0, turn));
            && Before3(s', clock, talk + [turn], |talk|, stamp) && Stamped(s', turn, clock)
            && s'.works == s.works && s'.touched == s.touched && s'.stamps == s.stamps[(0, turn) := clock]
  {
  }

  /** Turn 0 touched at time 0 and idle by `t`; nobody is at work. */
  ghost predicate Waiting(s: Sys) {
    && s.clock == 0.0 && s.history.Keys <= {0} && Talk(s, 0) == [0] && UpTo(s, 0) == 0 && s.longest == 1
    && s.stamps == map[(0, 0) := 0.0] && In(s.touched, 0) == {0} && In(s.distilled, 0) == {}
    && 0 in s.rows && s.rows[0] == Rearmed(0.0) && s.works == map[]
  }

  lemma WaitForOne(k: Config) returns (steps: seq<Step>)
    requires k.lag >= 0.0
    ensures After(k, steps).Some? && Waiting(After(k, steps).value)
  {
    var said := TalkOn(k, 1);
    assert Count(0) == [] && Count(1) == [0];
    TouchFirst(k, After(k, said).value, 1);
    AfterTwo(k, said, Begin(0, 0), Touch(0, 0));
    steps := said + [Begin(0, 0), Touch(0, 0)];
  }

  lemma ClaimTwice(k: Config, s: Sys)
    requires k.idle >= 0.0 && Waiting(s)
    ensures Enabled(k, s, Tick(k.idle + 1.0)) && Enabled(k, Next(k, s, Tick(k.idle + 1.0)), Claim(0, 0))
    ensures var s1 := Next(k, Next(k, s, Tick(k.idle + 1.0)), Claim(0, 0));
            && Enabled(k, s1, Claim(1, 0))
            && var s2 := Next(k, s1, Claim(1, 0));
               && Before3(s2, k.idle + 1.0, [0], 0, 0.0) && Unstamped(s2, 1) && Unstamped(s2, 2)
               && Holds(s2, 0, 0.0) && Holds(s2, 1, 0.0) && 2 !in s2.works
  {
  }

  /** Two workers have claimed the row of turn 0 once idle. */
  lemma TwoClaims(k: Config) returns (steps: seq<Step>)
    requires 0.0 <= k.idle < k.lag && !k.distinct
    ensures After(k, steps).Some?
    ensures var s := After(k, steps).value;
            && Before3(s, k.idle + 1.0, [0], 0, 0.0) && Unstamped(s, 1) && Unstamped(s, 2)
            && Holds(s, 0, 0.0) && Holds(s, 1, 0.0) && 2 !in s.works
  {
    var waiting := WaitForOne(k);
    ClaimTwice(k, After(k, waiting).value);
    AfterTwo(k, waiting, Tick(k.idle + 1.0), Claim(0, 0));
    var claimed := waiting + [Tick(k.idle + 1.0), Claim(0, 0)];
    steps := claimed + [Claim(1, 0)];
    AfterOne(k, claimed, Claim(1, 0));
  }

  /** An attempt distils, and after it one more message is said, its touch begun. */
  lemma DistilThenSay(k: Config, steps: seq<Step>, w: WorkerId, turn: Turn, t: real, talk: seq<Turn>, upTo: nat)
    returns (more: seq<Step>)
    requires !k.distinct && turn < 3 && turn !in talk && After(k, steps).Some?
    requires var s := After(k, steps).value;
             Before3(s, t, talk, upTo, 0.0) && Holds(s, w, 0.0) && Unstamped(s, turn)
    ensures After(k, more).Some?
    ensures var s, s' := After(k, steps).value, After(k, more).value;
            && Before3(s', t, talk + [turn], |talk|, 0.0) && Stamped(s', turn, t)
            && s'.touched == s.touched && s'.stamps == s.stamps[(0, turn) := t]
            && (forall u :: u != w ==> (u in s'.works <==> u in s.works))
            && (forall u :: u != w && u in s.works ==> s'.works[u] == s.works[u])
  {
    ReadAndDistil(k, After(k, steps).value, w, t, talk, upTo, 0.0, 0.0);
    AfterTwo(k, steps, Read(w), Distil(w));
    var read := steps + [Read(w), Distil(w)];
    SayAndBegin(k, After(k, read).value, turn, t, talk, 0.0);
    AfterTwo(k, read, Say(0, turn), Begin(0, turn));
    more := read + [Say(0, turn), Begin(0, turn)];
  }

  /** Both workers distil at `t`, a message after each; the touches of these
      messages have begun at the same `t`. */
  lemma TwoAtOnce(k: Config) returns (steps: seq<Step>)
    requires 0.0 <= k.idle < k.lag && !k.distinct
    ensures After(k, steps).Some?
    ensures var s, t := After(k, steps).value, k.idle + 1.0;
            && Before3(s, t, [0, 1, 2], 2, 0.0) && Stamped(s, 1, t) && Stamped(s, 2, t) && 2 !in s.works
  {
    var t := k.idle + 1.0;
    var claimed := TwoClaims(k);
    var once := DistilThenSay(k, claimed, 0, 1, t, [0], 0);
    assert [0] + [1] == [0, 1];
    steps := DistilThenSay(k, once, 1, 2, t, [0, 1], 1);
    assert [0, 1] + [2] == [0, 1, 2];
  }

  lemma TouchAndTick(k: Config, s: Sys, t: real)
    requires 0.0 <= k.idle < k.lag && Before3(s, t, [0, 1, 2], 2, 0.0) && Stamped(s, 1, t) && Stamped(s, 2, t)
    requires 2 !in s.works
    ensures Enabled(k, s, Touch(0, 1)) && Enabled(k, Next(k, s, Touch(0, 1)), Tick(t + k.lag))
    ensures var s' := Next(k, Next(k, s, Touch(0, 1)), Tick(t + k.lag));
            && Before3(s', t + k.lag, [0, 1, 2], 2, t) && Stamped(s', 2, t) && Enabled(k, s', Claim(2, 0))
            && Before3(Next(k, s', Claim(2, 0)), t + k.lag, [0, 1, 2], 2, t)
            && Stamped(Next(k, s', Claim(2, 0)), 2, t) && Holds(Next(k, s', Claim(2, 0)), 2, t)
  {
  }

  /** One of the two commits; once idle again, its row is claimed, read and distilled. */
  lemma StaleTouchSetup(k: Config) returns (steps: seq<Step>)
    requires 0.0 <= k.idle < k.lag && !k.distinct
    ensures After(k, steps).Some?
    ensures var s, t := After(k, steps).value, k.idle + 1.0;
            && Before3(s, t + k.lag, [0, 1, 2], 3, t) && Stamped(s, 2, t)
            && 2 in s.works && s.works[2].HasDistilled? && s.works[2].c == 0 && s.works[2].lastTurnAt == t
            && 3 !in s.works[2].seen
  {
    var t := k.idle + 1.0;
    var s0 := TwoAtOnce(k);
    TouchAndTick(k, After(k, s0).value, t);
    AfterTwo(k, s0, Touch(0, 1), Tick(t + k.lag));
    var s1 := s0 + [Touch(0, 1), Tick(t + k.lag)];
    AfterOne(k, s1, Claim(2, 0));
    var s2 := s1 + [Claim(2, 0)];
    ReadAndDistil(k, After(k, s2).value, 2, t + k.lag, [0, 1, 2], 2, t, t);
    steps := s2 + [Read(2), Distil(2)];
    AfterTwo(k, s2, Read(2), Distil(2));
  }

  /** A new turn is said and touched, and after it the other touch of `t` commits. */
  ghost predicate Restored(s: Sys, t: real) {
    && 0 in s.rows && s.rows[0] == Rearmed(t) && 3 in In(s.touched, 0) && 3 !in In(s.distilled, 0)
    && s.longest == 1 && Short(s, 4)
    && 2 in s.works && s.works[2].HasDistilled? && s.works[2].c == 0 && s.works[2].lastTurnAt == t
    && 3 !in s.works[2].seen
  }

  lemma SayThree(k: Config, s: Sys, t: real)
    requires k.lag >= 0.0 && !k.distinct && Before3(s, t + k.lag, [0, 1, 2], 3, t) && Stamped(s, 2, t)
    ensures Enabled(k, s, Say(0, 3)) && Enabled(k, Next(k, s, Say(0, 3)), Begin(0, 3))
    ensures var s' := Next(k, Next(k, s, Say(0, 3)), Begin(0, 3));
            && s'.clock == t + k.lag && Stamped(s', 3, t + k.lag) && Stamped(s', 2, t) && s'.works == s.works
            && s'.distilled == s.distilled && s'.longest == 1 && s'.history.Keys <= {0} && |Talk(s', 0)| == 4
  {
  }

  lemma StaleTouchRestores(k: Config) returns (steps: seq<Step>)
    requires 0.0 <= k.idle < k.lag && !k.distinct
    ensures After(k, steps).Some? && Restored(After(k, steps).value, k.idle + 1.0)
  {
    var t := k.idle + 1.0;
    var s0 := StaleTouchSetup(k);
    SayThree(k, After(k, s0).value, t);
    AfterTwo(k, s0, Say(0, 3), Begin(0, 3));
    var s1 := s0 + [Say(0, 3), Begin(0, 3)];
    steps := s1 + [Touch(0, 3), Touch(0, 2)];
    AfterTwo(k, s1, Touch(0, 3), Touch(0, 2));
    var s := After(k, steps).value;
    assert forall c :: c != 0 ==> Talk(s, c) == [];
  }

  /** Where a touch may commit later than the idle threshold after it began, and
      two may carry the same stamp, a stale touch can restore the very
      `last_turn_at` an attempt claimed, and the attempt marks done a conversation
      with a turn nobody read, however short its sittings. */
  lemma StaleTouchLosesATurn(k: Config) returns (steps: seq<Step>)
    requires 0.0 <= k.idle < k.lag && !k.distinct
    ensures After(k, steps).Some? && !Safe(After(k, steps).value) && !SafeAlone(After(k, steps).value)
    ensures After(k, steps).value.longest == 1 && Short(After(k, steps).value, 4)
  {
    var restored := StaleTouchRestores(k);
    steps := restored + [Mark(2)];
    AfterOne(k, restored, Mark(2));
    var s := After(k, steps).value;
    assert s.rows[0].status == Done && 3 in In(s.touched, 0) && 3 !in In(s.marked, 0) && 3 !in In(s.distilled, 0);
    assert forall c :: Talk(s, c) == Talk(After(k, restored).value, c);
  }

  // ---------------------------------------------------------------------
  // Exactly these two ways
  // ---------------------------------------------------------------------

  /** While nothing has been said, nothing has happened. */
  ghost predicate Silent(s: Sys) {
    s.longest == 0 ==> s.history == map[] && s.stamps == map[] && s.rows == map[] && s.works == map[] && s.upTo == map[]
  }

  lemma SilentStep(k: Config, s: Sys, step: Step)
    requires Silent(s) && Enabled(k, s, step)
    ensures Silent(Next(k, s, step))
  {
  }

  lemma {:induction false} SilentAlways(k: Config, steps: seq<Step>)
    requires After(k, steps).Some?
    ensures Silent(After(k, steps).value)
  {
    if steps != [] {
      SilentAlways(k, steps[..|steps| - 1]);
      SilentStep(k, After(k, steps[..|steps| - 1]).value, steps[|steps| - 1]);
    }
  }

  lemma SafeIfTimely(k: Config, steps: seq<Step>, n: nat)
    requires After(k, steps).Some? && After(k, steps).value.longest <= n
    requires n == 0 || ((k.lag <= k.idle || k.distinct) && n <= k.window)
    ensures Safe(After(k, steps).value)
  {
    if n == 0 {
      SilentAlways(k, steps);
    } else {
      Always(k, steps);
    }
  }

  /** Where no conversation ever has more than `n` messages since it was last
      distilled, no completed turn is lost, in any interleaving of messages,
      touches, workers and crashes, if and only if an attempt reads at least `n`
      messages, and no touch commits later than the idle threshold after its
      transaction began or no two of a conversation share a stamp. */
  lemma NoTurnIsLostIff(k: Config, n: nat)
    requires k.idle >= 0.0 && k.lag >= 0.0
    ensures (forall steps | After(k, steps).Some? && After(k, steps).value.longest <= n :: Safe(After(k, steps).value))
            <==> n == 0 || ((k.lag <= k.idle || k.distinct) && n <= k.window)
  {
    if n == 0 || ((k.lag <= k.idle || k.distinct) && n <= k.window) {
      forall steps | After(k, steps).Some? && After(k, steps).value.longest <= n ensures Safe(After(k, steps).value) {
        SafeIfTimely(k, steps, n);
      }
    } else if n > k.window {
      var steps := LongSittingLosesATurn(k);
      assert After(k, steps).value.longest <= n && !Safe(After(k, steps).value);
    } else {
      var steps := StaleTouchLosesATurn(k);
      assert After(k, steps).value.longest <= n && !Safe(After(k, steps).value);
    }
  }

  /** The attempt that marks a conversation done was itself shown every turn of
      it, in every run of conversations of at most `n` messages, if and only if it
      reads at least `n`, under the same condition on touches. */
  lemma ShownAloneIff(k: Config, n: nat)
    requires k.idle >= 0.0 && k.lag >= 0.0
    requires n >= 4 || k.lag <= k.idle || k.distinct
    ensures (forall steps | After(k, steps).Some? && Short(After(k, steps).value, n) :: SafeAlone(After(k, steps).value))
            <==> (k.lag <= k.idle || k.distinct) && n <= k.window
  {
    if (k.lag <= k.idle || k.distinct) && n <= k.window {
      forall steps | After(k, steps).Some? && Short(After(k, steps).value, n) ensures SafeAlone(After(k, steps).value) {
        Always(k, steps);
        assert Short(After(k, steps).value, k.window);
      }
    } else if n > k.window {
      var steps := LongSittingLosesATurn(k);
      assert Short(After(k, steps).value, n) && !SafeAlone(After(k, steps).value);
    } else {
      var steps := StaleTouchLosesATurn(k);
      assert Short(After(k, steps).value, n) && !SafeAlone(After(k, steps).value);
    }
  }
}
