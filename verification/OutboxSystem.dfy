/**
  The outbox under concurrency: users' messages, the touches of their turns, any
  number of worker attempts and crashes at any point, interleaved. A touch
  carries the time its transaction started and may commit up to `lag` later; the
  claim query takes rows idle for more than `idle`; an attempt reads the latest
  `window` messages of its conversation. A turn stands for the user's message,
  which is committed before the turn's touch begins; the assistant's messages are
  messages no touch is for.
 */
module OutboxSystem {
  import opened Common
  import opened Outbox

  type Turn = nat
  type WorkerId = nat

  /** One attempt at one claimed conversation. `before` are the turns touched
      when it was claimed; `seen` the messages its page held when it was read, and
      `upTo` how many the conversation had by then. */
  datatype Work =
    | Claimed(c: ConversationId, lastTurnAt: real, before: set<Turn>)
    | HasRead(c: ConversationId, lastTurnAt: real, before: set<Turn>, seen: set<Turn>, upTo: nat)
    | HasDistilled(c: ConversationId, lastTurnAt: real, before: set<Turn>, seen: set<Turn>, upTo: nat)

  /** `distilled` are the messages shown to an attempt that distilled, `upTo` how
      far into a conversation the furthest of these attempts had read, `marked`
      what the attempt that last marked it done had seen, and `longest` the most
      messages any conversation ever had past its `upTo`. */
  datatype Sys = Sys(
    clock: real,
    history: map<ConversationId, seq<Turn>>,
    stamps: map<(ConversationId, Turn), real>,
    rows: Rows,
    touched: map<ConversationId, set<Turn>>,
    works: map<WorkerId, Work>,
    distilled: map<ConversationId, set<Turn>>,
    upTo: map<ConversationId, nat>,
    marked: map<ConversationId, set<Turn>>,
    longest: nat)

  const INITIAL := Sys(0.0, map[], map[], map[], map[], map[], map[], map[], map[], 0)

  function In(m: map<ConversationId, set<Turn>>, c: ConversationId): set<Turn> {
    if c in m then m[c] else {}
  }

  function Talk(s: Sys, c: ConversationId): seq<Turn> {
    if c in s.history then s.history[c] else []
  }

  function UpTo(s: Sys, c: ConversationId): nat {
    if c in s.upTo then s.upTo[c] else 0
  }

  function Messages(talk: seq<Turn>): set<Turn> {
    set m | m in talk
  }

  /** The latest `n` messages. */
  function Page(talk: seq<Turn>, n: nat): seq<Turn> {
    if |talk| <= n then talk else talk[|talk| - n..]
  }

  function Max(x: int, y: int): int {
    if x < y then y else x
  }

  datatype Step =
    | Tick(to: real)
    | Say(c: ConversationId, turn: Turn)
    | Begin(c: ConversationId, turn: Turn)
    | Touch(c: ConversationId, turn: Turn)
    | Claim(w: WorkerId, c: ConversationId)
    | Read(w: WorkerId)
    | Distil(w: WorkerId)
    | Mark(w: WorkerId)
    | Skip(w: WorkerId)
    | Fail(w: WorkerId, error: string, maxAttempts: nat)
    | Crash(w: WorkerId)

  /** The idle threshold; how long after it began a touch may still commit;
      whether the clock never gives one conversation the same stamp twice; and how
      many messages an attempt reads. */
  datatype Config = Config(idle: real, lag: real, distinct: bool, window: nat)

  predicate Enabled(k: Config, s: Sys, step: Step) {
    match step
    case Tick(to) => s.clock <= to
    case Say(c, turn) => turn !in Talk(s, c)
    case Begin(c, turn) =>
      turn in Talk(s, c) && (c, turn) !in s.stamps
      && (k.distinct ==> forall p :: p in s.stamps && p.0 == c ==> s.stamps[p] != s.clock)
    case Touch(c, turn) => (c, turn) in s.stamps && turn !in In(s.touched, c) && s.clock - s.stamps[(c, turn)] <= k.lag
    case Claim(w, c) =>
      w !in s.works && c in s.rows && s.rows[c].status == Pending && s.rows[c].lastTurnAt < s.clock - k.idle
    case Read(w) => w in s.works && s.works[w].Claimed?
    case Distil(w) => w in s.works && s.works[w].HasRead?
    case Mark(w) => w in s.works && s.works[w].HasDistilled?
    case Skip(w) => w in s.works && s.works[w].HasRead?
    case Fail(w, _, _) => w in s.works && s.works[w].HasRead?
    case Crash(w) => w in s.works
  }

  /** The guarded write of `done`, by an attempt that distilled or found the page trivial. */
  function Marked(s: Sys, w: WorkerId): Sys
    requires w in s.works && !s.works[w].Claimed?
  {
    var work := s.works[w];
    var applied := work.c in s.rows && s.rows[work.c].lastTurnAt == work.lastTurnAt;
    s.(rows := MarkedDone(s.rows, work.c, work.lastTurnAt),
       marked := if applied then s.marked[work.c := work.seen] else s.marked,
       works := s.works - {w})
  }

  function Next(k: Config, s: Sys, step: Step): Sys
    requires Enabled(k, s, step)
  {
    match step
    case Tick(to) => s.(clock := to)
    case Say(c, turn) =>
      s.(history := s.history[c := Talk(s, c) + [turn]],
         longest := Max(s.longest, |Talk(s, c)| + 1 - UpTo(s, c)))
    case Begin(c, turn) => s.(stamps := s.stamps[(c, turn) := s.clock])
    case Touch(c, turn) =>
      s.(rows := s.rows[c := Rearmed(s.stamps[(c, turn)])], touched := s.touched[c := In(s.touched, c) + {turn}])
    case Claim(w, c) => s.(works := s.works[w := Claimed(c, s.rows[c].lastTurnAt, In(s.touched, c))])
    case Read(w) =>
      var work := s.works[w];
      var talk := Talk(s, work.c);
      s.(works := s.works[w := HasRead(work.c, work.lastTurnAt, work.before,
                                       Messages(Page(talk, k.window)), |talk|)])
    case Distil(w) =>
      var work := s.works[w];
      s.(distilled := s.distilled[work.c := In(s.distilled, work.c) + work.seen],
         upTo := s.upTo[work.c := Max(UpTo(s, work.c), work.upTo)],
         works := s.works[w := HasDistilled(work.c, work.lastTurnAt, work.before, work.seen, work.upTo)])
    case Mark(w) => Marked(s, w)
    case Skip(w) => Marked(s, w)
    case Fail(w, error, maxAttempts) =>
      var work := s.works[w];
      s.(rows := FailureRecorded(s.rows, work.c, work.lastTurnAt, error, maxAttempts), works := s.works - {w})
    case Crash(w) => s.(works := s.works - {w})
  }

  function After(k: Config, steps: seq<Step>): Option<Sys> {
    if steps == [] then Some(INITIAL)
    else
      var s := After(k, steps[..|steps| - 1]);
      var step := steps[|steps| - 1];
      if s.Some? && Enabled(k, s.value, step) then Some(Next(k, s.value, step)) else None
  }

  lemma AfterOne(k: Config, steps: seq<Step>, step: Step)
    ensures After(k, steps).Some? && Enabled(k, After(k, steps).value, step) ==>
              After(k, steps + [step]) == Some(Next(k, After(k, steps).value, step))
  {
    assert (steps + [step])[..|steps|] == steps;
  }

  /** A conversation is done only if every turn that touched it was shown to an
      attempt that distilled, or to the one that marked it. */
  ghost predicate Safe(s: Sys) {
    forall c :: c in s.rows && s.rows[c].status == Done ==> In(s.touched, c) <= In(s.distilled, c) + In(s.marked, c)
  }

  /** A conversation is done only if the attempt that marked it was itself shown
      every turn that touched it. */
  ghost predicate SafeAlone(s: Sys) {
    forall c :: c in s.rows && s.rows[c].status == Done ==> In(s.touched, c) <= In(s.marked, c)
  }

  /** No conversation is longer than `n` messages. */
  ghost predicate Short(s: Sys, n: nat) {
    forall c :: |Talk(s, c)| <= n
  }

  // ---------------------------------------------------------------------
  // What every step keeps
  // ---------------------------------------------------------------------

  /** One of these turns' touches carried this stamp. */
  ghost predicate StampedBy(s: Sys, c: ConversationId, turns: set<Turn>, at: real) {
    exists t :: t in turns && (c, t) in s.stamps && s.stamps[(c, t)] == at
  }

  /** Since an attempt's claim either nothing was touched, or the row carries
      another stamp than the claimed one, which a turn touched by then had set. */
  ghost predicate ClaimInv(k: Config, s: Sys, work: Work) {
    && work.c in s.rows
    && work.lastTurnAt < s.clock - k.idle
    && (In(s.touched, work.c) == work.before || s.rows[work.c].lastTurnAt != work.lastTurnAt)
    && work.before <= In(s.touched, work.c)
    && StampedBy(s, work.c, work.before, work.lastTurnAt)
  }

  /** What an attempt saw is the page of the conversation as it then was. */
  ghost predicate PageInv(k: Config, s: Sys, work: Work) {
    var talk := Talk(s, work.c);
    if work.Claimed? then work.before <= Messages(talk)
    else
      && work.upTo <= |talk|
      && work.before <= Messages(talk[..work.upTo])
      && work.seen == Messages(Page(talk[..work.upTo], k.window))
  }

  ghost predicate WorkInv(k: Config, s: Sys, work: Work) {
    ClaimInv(k, s, work) && PageInv(k, s, work)
  }

  ghost predicate DistinctStamps(s: Sys) {
    forall p, q :: p in s.stamps && q in s.stamps && p.0 == q.0 && s.stamps[p] == s.stamps[q] ==> p == q
  }

  ghost predicate RowsStamped(s: Sys) {
    forall c :: c in s.rows ==> StampedBy(s, c, In(s.touched, c), s.rows[c].lastTurnAt)
  }

  /** Where no sitting outgrew the window, everything before `upTo` was distilled. */
  ghost predicate TalkInv(k: Config, s: Sys, c: ConversationId) {
    && UpTo(s, c) <= |Talk(s, c)| <= UpTo(s, c) + s.longest
    && (s.longest <= k.window ==> Messages(Talk(s, c)[..UpTo(s, c)]) <= In(s.distilled, c))
  }

  ghost predicate Inv(k: Config, s: Sys) {
    && (s.longest <= k.window ==> Safe(s))
    && (Short(s, k.window) ==> SafeAlone(s))
    && (forall w :: w in s.works ==> WorkInv(k, s, s.works[w]))
    && (forall c :: TalkInv(k, s, c))
    && (forall c :: In(s.touched, c) <= Messages(Talk(s, c)))
    && (forall p :: p in s.stamps ==> p.1 in Talk(s, p.0))
    && RowsStamped(s)
    && (k.distinct ==> DistinctStamps(s))
  }

  /** A touch never restores a claimed stamp: either it is too young, or no two
      touches of a conversation carry the same one. */
  lemma TouchIsNew(k: Config, s: Sys, c: ConversationId, turn: Turn, work: Work)
    requires (k.lag <= k.idle || k.distinct) && Inv(k, s) && Enabled(k, s, Touch(c, turn))
    requires ClaimInv(k, s, work) && work.c == c
    ensures s.stamps[(c, turn)] != work.lastTurnAt
  {
    if k.distinct {
      var t :| t in work.before && (c, t) in s.stamps && s.stamps[(c, t)] == work.lastTurnAt;
      assert t != turn;
    }
  }

  lemma StampsStay(s: Sys, s': Sys, c: ConversationId, turns: set<Turn>, turns': set<Turn>, at: real)
    requires StampedBy(s, c, turns, at) && turns <= turns'
    requires forall p :: p in s.stamps ==> p in s'.stamps && s'.stamps[p] == s.stamps[p]
    ensures StampedBy(s', c, turns', at)
  {
    var t :| t in turns && (c, t) in s.stamps && s.stamps[(c, t)] == at;
    assert t in turns' && (c, t) in s'.stamps && s'.stamps[(c, t)] == at;
  }

  lemma TouchKeepsWork(k: Config, s: Sys, c: ConversationId, turn: Turn, work: Work)
    requires (k.lag <= k.idle || k.distinct) && Inv(k, s) && Enabled(k, s, Touch(c, turn)) && WorkInv(k, s, work)
    ensures WorkInv(k, Next(k, s, Touch(c, turn)), work)
  {
    var s' := Next(k, s, Touch(c, turn));
    StampsStay(s, s', work.c, work.before, work.before, work.lastTurnAt);
    assert Talk(s', work.c) == Talk(s, work.c);
    if work.c == c {
      TouchIsNew(k, s, c, turn, work);
    }
  }

  lemma TouchKeeps(k: Config, s: Sys, c: ConversationId, turn: Turn)
    requires (k.lag <= k.idle || k.distinct) && Inv(k, s) && Enabled(k, s, Touch(c, turn))
    ensures Inv(k, Next(k, s, Touch(c, turn)))
  {
    var s' := Next(k, s, Touch(c, turn));
    assert (c, turn).1 in Talk(s, (c, turn).0);
    TouchKeepsTalk(k, s, c, turn);
    TouchStampsRow(k, s, c, turn);
    forall w | w in s'.works ensures WorkInv(k, s', s'.works[w]) {
      TouchKeepsWork(k, s, c, turn, s.works[w]);
    }
  }

  lemma TouchKeepsTalk(k: Config, s: Sys, c: ConversationId, turn: Turn)
    requires Inv(k, s) && Enabled(k, s, Touch(c, turn))
    ensures var s' := Next(k, s, Touch(c, turn));
            && (forall d :: TalkInv(k, s', d)) && (forall d :: In(s'.touched, d) <= Messages(Talk(s', d)))
            && (s'.longest <= k.window ==> Safe(s')) && (Short(s', k.window) ==> SafeAlone(s'))
  {
    var s' := Next(k, s, Touch(c, turn));
    assert (c, turn).1 in Talk(s, (c, turn).0);
    forall d ensures TalkInv(k, s', d) && Talk(s', d) == Talk(s, d) {
      assert TalkInv(k, s, d);
    }
  }

  lemma TouchStampsRow(k: Config, s: Sys, c: ConversationId, turn: Turn)
    requires RowsStamped(s) && Enabled(k, s, Touch(c, turn))
    ensures RowsStamped(Next(k, s, Touch(c, turn)))
  {
    var s' := Next(k, s, Touch(c, turn));
    forall d | d in s'.rows ensures StampedBy(s', d, In(s'.touched, d), s'.rows[d].lastTurnAt) {
      if d == c {
        assert turn in In(s'.touched, c) && (c, turn) in s'.stamps;
      } else {
        StampsStay(s, s', d, In(s.touched, d), In(s'.touched, d), s.rows[d].lastTurnAt);
      }
    }
  }

  /** No touch committed, no stamp changed; messages and the clock may move on. */
  ghost predicate Untouched(s: Sys, s': Sys) {
    && s.clock <= s'.clock && s'.touched == s.touched && s'.rows.Keys == s.rows.Keys
    && (forall p :: p in s.stamps ==> p in s'.stamps && s'.stamps[p] == s.stamps[p])
    && (forall c :: c in s.rows ==> s'.rows[c].lastTurnAt == s.rows[c].lastTurnAt)
    && (forall c :: Talk(s, c) <= Talk(s', c))
  }

  lemma WorkStays(k: Config, s: Sys, s': Sys, work: Work)
    requires Untouched(s, s') && WorkInv(k, s, work)
    ensures WorkInv(k, s', work)
  {
    StampsStay(s, s', work.c, work.before, work.before, work.lastTurnAt);
    PageStays(k, s, s', work);
  }

  lemma PageStays(k: Config, s: Sys, s': Sys, work: Work)
    requires Talk(s, work.c) <= Talk(s', work.c) && PageInv(k, s, work)
    ensures PageInv(k, s', work)
  {
    var talk, talk' := Talk(s, work.c), Talk(s', work.c);
    if work.Claimed? {
      assert forall m :: m in talk ==> m in talk';
    } else {
      assert talk'[..work.upTo] == talk[..work.upTo];
    }
  }

  lemma RowsStayStamped(s: Sys, s': Sys)
    requires Untouched(s, s') && RowsStamped(s)
    ensures RowsStamped(s')
  {
    forall c | c in s'.rows ensures StampedBy(s', c, In(s'.touched, c), s'.rows[c].lastTurnAt) {
      StampsStay(s, s', c, In(s.touched, c), In(s.touched, c), s.rows[c].lastTurnAt);
    }
  }

  lemma TouchedStays(s: Sys, s': Sys)
    requires Untouched(s, s')
    requires forall c :: In(s.touched, c) <= Messages(Talk(s, c))
    ensures forall c :: In(s'.touched, c) <= Messages(Talk(s', c))
  {
    forall c ensures In(s'.touched, c) <= Messages(Talk(s', c)) {
      assert In(s.touched, c) <= Messages(Talk(s, c)) && Talk(s, c) <= Talk(s', c);
      assert forall m :: m in Talk(s, c) ==> m in Talk(s', c);
    }
  }

  /** What is left to show of a step that commits no touch. */
  lemma UntouchedKeeps(k: Config, s: Sys, s': Sys)
    requires Inv(k, s) && Untouched(s, s')
    requires (s'.longest <= k.window ==> Safe(s')) && (Short(s', k.window) ==> SafeAlone(s'))
    requires forall w :: w in s'.works ==> (w in s.works && s'.works[w] == s.works[w]) || WorkInv(k, s', s'.works[w])
    requires forall c :: TalkInv(k, s', c)
    requires forall p :: p in s'.stamps ==> p.1 in Talk(s', p.0)
    requires k.distinct ==> DistinctStamps(s')
    ensures Inv(k, s')
  {
    RowsStayStamped(s, s');
    TouchedStays(s, s');
    forall w | w in s'.works ensures WorkInv(k, s', s'.works[w]) {
      if w in s.works && s'.works[w] == s.works[w] {
        WorkStays(k, s, s', s.works[w]);
      }
    }
  }

  /** A step that leaves conversations, rows and what was distilled as they are. */
  ghost predicate Aside(s: Sys, s': Sys) {
    && s'.history == s.history && s'.rows == s.rows && s'.touched == s.touched && s'.stamps == s.stamps
    && s'.distilled == s.distilled && s'.upTo == s.upTo && s'.marked == s.marked && s'.longest == s.longest
    && s.clock <= s'.clock
  }

  lemma AsideKeeps(k: Config, s: Sys, s': Sys)
    requires Inv(k, s) && Aside(s, s')
    requires forall w :: w in s'.works ==> (w in s.works && s'.works[w] == s.works[w]) || WorkInv(k, s', s'.works[w])
    ensures Inv(k, s')
  {
    forall c ensures TalkInv(k, s', c) && Talk(s', c) == Talk(s, c) {
      assert TalkInv(k, s, c);
    }
    UntouchedKeeps(k, s, s');
  }

  lemma ClaimKeeps(k: Config, s: Sys, w: WorkerId, c: ConversationId)
    requires Inv(k, s) && Enabled(k, s, Claim(w, c))
    ensures Inv(k, Next(k, s, Claim(w, c)))
  {
    var s' := Next(k, s, Claim(w, c));
    assert StampedBy(s, c, In(s.touched, c), s.rows[c].lastTurnAt);
    StampsStay(s, s', c, In(s.touched, c), In(s.touched, c), s.rows[c].lastTurnAt);
    assert In(s.touched, c) <= Messages(Talk(s, c)) && Talk(s', c) == Talk(s, c);
    assert WorkInv(k, s', s'.works[w]);
    AsideKeeps(k, s, s');
  }

  lemma ReadKeeps(k: Config, s: Sys, w: WorkerId)
    requires Inv(k, s) && Enabled(k, s, Read(w))
    ensures Inv(k, Next(k, s, Read(w)))
  {
    var s' := Next(k, s, Read(w));
    WorkStays(k, s, s', s.works[w]);
    assert Talk(s', s.works[w].c)[..|Talk(s', s.works[w].c)|] == Talk(s', s.works[w].c);
    assert WorkInv(k, s', s'.works[w]);
    AsideKeeps(k, s, s');
  }

  lemma BeginKeeps(k: Config, s: Sys, c: ConversationId, turn: Turn)
    requires Inv(k, s) && Enabled(k, s, Begin(c, turn))
    ensures Inv(k, Next(k, s, Begin(c, turn)))
  {
    var s' := Next(k, s, Begin(c, turn));
    forall d ensures TalkInv(k, s', d) && Talk(s', d) == Talk(s, d) {
      assert TalkInv(k, s, d);
    }
    UntouchedKeeps(k, s, s');
  }

  lemma SayKeepsTalk(k: Config, s: Sys, c: ConversationId, turn: Turn, d: ConversationId)
    requires TalkInv(k, s, d) && Enabled(k, s, Say(c, turn))
    ensures TalkInv(k, Next(k, s, Say(c, turn)), d)
  {
    var s' := Next(k, s, Say(c, turn));
    assert UpTo(s', d) == UpTo(s, d) && Talk(s', d)[..UpTo(s, d)] == Talk(s, d)[..UpTo(s, d)];
  }

  lemma SayKeeps(k: Config, s: Sys, c: ConversationId, turn: Turn)
    requires Inv(k, s) && Enabled(k, s, Say(c, turn))
    ensures Inv(k, Next(k, s, Say(c, turn)))
  {
    var s' := Next(k, s, Say(c, turn));
    forall d ensures TalkInv(k, s', d) && Talk(s, d) <= Talk(s', d) {
      assert TalkInv(k, s, d);
      SayKeepsTalk(k, s, c, turn, d);
    }
    assert Short(s', k.window) ==> Short(s, k.window);
    forall p | p in s'.stamps ensures p.1 in Talk(s', p.0) {
      assert p.1 in Talk(s, p.0);
    }
    UntouchedKeeps(k, s, s');
  }

  // ---------------------------------------------------------------------
  // What a page covers
  // ---------------------------------------------------------------------

  lemma PageCovers(talk: seq<Turn>, from: nat, n: nat)
    requires from <= |talk| <= from + n
    ensures Messages(talk) <= Messages(talk[..from]) + Messages(Page(talk, n))
  {
    forall m | m in talk ensures m in talk[..from] || m in Page(talk, n) {
      var i :| 0 <= i < |talk| && talk[i] == m;
      if i < from {
        assert talk[..from][i] == m;
      } else if |talk| > n {
        assert Page(talk, n)[i - (|talk| - n)] == m;
      }
    }
  }

  /** Where no sitting outgrew the window, everything up to where an attempt read
      was distilled before or is on its page. */
  lemma SeenCovers(k: Config, s: Sys, work: Work)
    requires TalkInv(k, s, work.c) && PageInv(k, s, work) && !work.Claimed? && s.longest <= k.window
    ensures Messages(Talk(s, work.c)[..work.upTo]) <= In(s.distilled, work.c) + work.seen
  {
    var talk, from := Talk(s, work.c), UpTo(s, work.c);
    var read := talk[..work.upTo];
    if work.upTo <= from {
      assert forall m :: m in read ==> m in talk[..from];
    } else {
      PageCovers(read, from, k.window);
      assert read[..from] == talk[..from];
    }
  }

  lemma DistilKeepsTalk(k: Config, s: Sys, w: WorkerId)
    requires Enabled(k, s, Distil(w))
    requires TalkInv(k, s, s.works[w].c) && PageInv(k, s, s.works[w])
    ensures TalkInv(k, Next(k, s, Distil(w)), s.works[w].c)
  {
    var work := s.works[w];
    if s.longest <= k.window {
      SeenCovers(k, s, work);
    }
  }

  lemma DistilLeaves(k: Config, s: Sys, w: WorkerId)
    requires Enabled(k, s, Distil(w))
    ensures var s' := Next(k, s, Distil(w));
            && Untouched(s, s') && s'.rows == s.rows && s'.history == s.history && s'.stamps == s.stamps
            && s'.marked == s.marked && s'.longest == s.longest
            && (forall c :: In(s.distilled, c) <= In(s'.distilled, c))
            && (forall c :: c != s.works[w].c ==> UpTo(s', c) == UpTo(s, c))
  {
  }

  lemma DistilTalks(k: Config, s: Sys, w: WorkerId)
    requires Inv(k, s) && Enabled(k, s, Distil(w))
    ensures forall c :: TalkInv(k, Next(k, s, Distil(w)), c)
  {
    DistilLeaves(k, s, w);
    forall c ensures TalkInv(k, Next(k, s, Distil(w)), c) {
      assert TalkInv(k, s, c);
      if c == s.works[w].c {
        assert WorkInv(k, s, s.works[w]);
        DistilKeepsTalk(k, s, w);
      }
    }
  }

  lemma DistilIsSafe(k: Config, s: Sys, w: WorkerId)
    requires Enabled(k, s, Distil(w))
    ensures var s' := Next(k, s, Distil(w));
            (Safe(s) ==> Safe(s')) && (SafeAlone(s) ==> SafeAlone(s')) && (Short(s', k.window) ==> Short(s, k.window))
  {
    var s' := Next(k, s, Distil(w));
    assert forall c :: Talk(s', c) == Talk(s, c);
  }

  lemma DistilWork(k: Config, s: Sys, w: WorkerId)
    requires Enabled(k, s, Distil(w)) && WorkInv(k, s, s.works[w])
    ensures WorkInv(k, Next(k, s, Distil(w)), Next(k, s, Distil(w)).works[w])
  {
    DistilLeaves(k, s, w);
    WorkStays(k, s, Next(k, s, Distil(w)), s.works[w]);
  }

  lemma DistilKeeps(k: Config, s: Sys, w: WorkerId)
    requires Inv(k, s) && Enabled(k, s, Distil(w))
    ensures Inv(k, Next(k, s, Distil(w)))
  {
    DistilLeaves(k, s, w);
    DistilTalks(k, s, w);
    DistilIsSafe(k, s, w);
    DistilWork(k, s, w);
    DistilStamps(k, s, w);
    UntouchedKeeps(k, s, Next(k, s, Distil(w)));
  }

  lemma DistilStamps(k: Config, s: Sys, w: WorkerId)
    requires Enabled(k, s, Distil(w)) && forall p :: p in s.stamps ==> p.1 in Talk(s, p.0)
    ensures var s' := Next(k, s, Distil(w));
            (forall p :: p in s'.stamps ==> p.1 in Talk(s', p.0)) && (DistinctStamps(s) ==> DistinctStamps(s'))
            && (forall u :: u in s'.works ==> u in s.works && (u != w ==> s'.works[u] == s.works[u]))
  {
    var s' := Next(k, s, Distil(w));
    forall p | p in s'.stamps ensures p.1 in Talk(s', p.0) {
      assert p in s.stamps;
    }
  }

  /** A guarded mark takes effect only on a row no touch has moved since the
      claim: every turn touched was there when the attempt read. */
  lemma MarkIsSafe(k: Config, s: Sys, w: WorkerId)
    requires w in s.works && !s.works[w].Claimed? && WorkInv(k, s, s.works[w]) && TalkInv(k, s, s.works[w].c)
    requires s.longest <= k.window && Safe(s)
    ensures Safe(Marked(s, w))
  {
    var work := s.works[w];
    SeenCovers(k, s, work);
  }

  lemma MarkIsSafeAlone(k: Config, s: Sys, w: WorkerId)
    requires w in s.works && !s.works[w].Claimed? && WorkInv(k, s, s.works[w])
    requires Short(s, k.window) && SafeAlone(s)
    ensures SafeAlone(Marked(s, w))
  {
    var work := s.works[w];
    assert |Talk(s, work.c)| <= k.window;
    assert Page(Talk(s, work.c)[..work.upTo], k.window) == Talk(s, work.c)[..work.upTo];
  }

  /** A step that writes a row's status and lets its attempt go. */
  ghost predicate Written(s: Sys, s': Sys) {
    && s'.clock == s.clock && s'.history == s.history && s'.stamps == s.stamps && s'.touched == s.touched
    && s'.distilled == s.distilled && s'.upTo == s.upTo && s'.longest == s.longest
    && s'.rows.Keys == s.rows.Keys && (forall c :: c in s.rows ==> s'.rows[c].lastTurnAt == s.rows[c].lastTurnAt)
    && (forall w :: w in s'.works ==> w in s.works && s'.works[w] == s.works[w])
  }

  lemma WrittenTalks(k: Config, s: Sys, s': Sys)
    requires Written(s, s')
    ensures Untouched(s, s') && (Short(s', k.window) <==> Short(s, k.window))
    ensures forall c :: TalkInv(k, s, c) ==> TalkInv(k, s', c)
  {
    assert forall c :: Talk(s', c) == Talk(s, c) && UpTo(s', c) == UpTo(s, c);
  }

  lemma WrittenKeeps(k: Config, s: Sys, s': Sys)
    requires Inv(k, s) && Written(s, s')
    requires (s'.longest <= k.window ==> Safe(s')) && (Short(s', k.window) ==> SafeAlone(s'))
    ensures Inv(k, s')
  {
    WrittenTalks(k, s, s');
    UntouchedKeeps(k, s, s');
  }

  lemma MarkWrites(s: Sys, w: WorkerId)
    requires w in s.works && !s.works[w].Claimed?
    ensures Written(s, Marked(s, w))
  {
  }

  lemma MarkKeeps(k: Config, s: Sys, w: WorkerId)
    requires Inv(k, s) && w in s.works && !s.works[w].Claimed?
    ensures Inv(k, Marked(s, w))
  {
    MarkWrites(s, w);
    WrittenTalks(k, s, Marked(s, w));
    assert WorkInv(k, s, s.works[w]) && TalkInv(k, s, s.works[w].c);
    if s.longest <= k.window {
      MarkIsSafe(k, s, w);
    }
    if Short(s, k.window) {
      MarkIsSafeAlone(k, s, w);
    }
    WrittenKeeps(k, s, Marked(s, w));
  }

  lemma FailIsSafe(k: Config, s: Sys, w: WorkerId, error: string, maxAttempts: nat)
    requires Enabled(k, s, Fail(w, error, maxAttempts))
    ensures Safe(s) ==> Safe(Next(k, s, Fail(w, error, maxAttempts)))
    ensures SafeAlone(s) ==> SafeAlone(Next(k, s, Fail(w, error, maxAttempts)))
    ensures Written(s, Next(k, s, Fail(w, error, maxAttempts)))
  {
  }

  lemma FailKeeps(k: Config, s: Sys, w: WorkerId, error: string, maxAttempts: nat)
    requires Inv(k, s) && Enabled(k, s, Fail(w, error, maxAttempts))
    ensures Inv(k, Next(k, s, Fail(w, error, maxAttempts)))
  {
    var s' := Next(k, s, Fail(w, error, maxAttempts));
    FailIsSafe(k, s, w, error, maxAttempts);
    WrittenTalks(k, s, s');
    WrittenKeeps(k, s, s');
  }

  lemma StepKeeps(k: Config, s: Sys, step: Step)
    requires (k.lag <= k.idle || k.distinct) && Inv(k, s) && Enabled(k, s, step)
    ensures Inv(k, Next(k, s, step))
  {
    match step {
      case Tick(_) => AsideKeeps(k, s, Next(k, s, step));
      case Say(c, turn) => SayKeeps(k, s, c, turn);
      case Begin(c, turn) => BeginKeeps(k, s, c, turn);
      case Touch(c, turn) => TouchKeeps(k, s, c, turn);
      case Claim(w, c) => ClaimKeeps(k, s, w, c);
      case Read(w) => ReadKeeps(k, s, w);
      case Distil(w) => DistilKeeps(k, s, w);
      case Mark(w) => MarkKeeps(k, s, w);
      case Skip(w) => MarkKeeps(k, s, w);
      case Fail(w, error, maxAttempts) => FailKeeps(k, s, w, error, maxAttempts);
      case Crash(_) => AsideKeeps(k, s, Next(k, s, step));
    }
  }

  lemma {:induction false} Always(k: Config, steps: seq<Step>)
    requires (k.lag <= k.idle || k.distinct) && After(k, steps).Some?
    ensures Inv(k, After(k, steps).value)
  {
    if steps != [] {
      Always(k, steps[..|steps| - 1]);
      StepKeeps(k, After(k, steps[..|steps| - 1]).value, steps[|steps| - 1]);
    } else {
      assert forall c :: TalkInv(k, INITIAL, c);
    }
  }

  // ---------------------------------------------------------------------
  // Crashes
  // ---------------------------------------------------------------------

  /** A touch of `c`, or a status write by an attempt that claimed `c`. */
  predicate Writes(s: Sys, step: Step, c: ConversationId) {
    match step
    case Touch(d, _) => d == c
    case Mark(w) => w in s.works && s.works[w].c == c
    case Skip(w) => w in s.works && s.works[w].c == c
    case Fail(w, _, _) => w in s.works && s.works[w].c == c
    case _ => false
  }

  ghost predicate Quiet(k: Config, steps: seq<Step>, more: seq<Step>, c: ConversationId) {
    forall i :: 0 <= i < |more| ==>
      After(k, steps + more[..i]).Some? && !Writes(After(k, steps + more[..i]).value, more[i], c)
  }

  lemma StepKeepsRow(k: Config, s: Sys, step: Step, c: ConversationId)
    requires Enabled(k, s, step) && c in s.rows && !Writes(s, step, c)
    ensures c in Next(k, s, step).rows && Next(k, s, step).rows[c] == s.rows[c]
  {
  }

  lemma {:induction false} QuietKeepsRow(k: Config, steps: seq<Step>, more: seq<Step>, c: ConversationId)
    requires After(k, steps).Some? && c in After(k, steps).value.rows
    requires After(k, steps + more).Some? && Quiet(k, steps, more, c)
    ensures var s := After(k, steps + more).value;
            c in s.rows && s.rows[c] == After(k, steps).value.rows[c]
  {
    if more == [] {
      assert steps + more == steps;
    } else {
      var n := |more| - 1;
      var front := more[..n];
      assert (steps + more)[..|steps + more| - 1] == steps + front;
      assert forall i :: 0 <= i < n ==> front[..i] == more[..i] && front[i] == more[i];
      QuietKeepsRow(k, steps, front, c);
      assert (steps + more)[|steps + more| - 1] == more[n];
      StepKeepsRow(k, After(k, steps + front).value, more[n], c);
    }
  }

  /** However an attempt is killed between its claim and its status write, with
      other conversations busy meanwhile, its row is what it was: pending, its
      attempts untouched, and claimable again at once. */
  lemma CrashLeavesRowPending(k: Config, steps: seq<Step>, w: WorkerId, c: ConversationId, more: seq<Step>)
    requires After(k, steps).Some? && Enabled(k, After(k, steps).value, Claim(w, c))
    requires var run := steps + [Claim(w, c)];
             Quiet(k, run, more, c) && After(k, run + more).Some?
             && Enabled(k, After(k, run + more).value, Crash(w))
    ensures var run := steps + [Claim(w, c)] + more + [Crash(w)];
            && After(k, run).Some?
            && c in After(k, run).value.rows
            && After(k, run).value.rows[c] == After(k, steps).value.rows[c]
            && After(k, run).value.rows[c].status == Pending
            && Enabled(k, After(k, run).value, Claim(w, c))
  {
    var run := steps + [Claim(w, c)];
    AfterOne(k, steps, Claim(w, c));
    QuietKeepsRow(k, run, more, c);
    ClockGrows(k, run, more);
    AfterOne(k, run + more, Crash(w));
  }

  lemma StepClock(k: Config, s: Sys, step: Step)
    requires Enabled(k, s, step)
    ensures s.clock <= Next(k, s, step).clock
  {
  }

  lemma {:induction false} ClockGrows(k: Config, steps: seq<Step>, more: seq<Step>)
    requires After(k, steps).Some? && After(k, steps + more).Some?
    ensures After(k, steps).value.clock <= After(k, steps + more).value.clock
  {
    if more == [] {
      assert steps + more == steps;
    } else {
      var n := |more| - 1;
      assert (steps + more)[..|steps + more| - 1] == steps + more[..n];
      assert (steps + more)[|steps + more| - 1] == more[n];
      ClockGrows(k, steps, more[..n]);
      StepClock(k, After(k, steps + more[..n]).value, more[n]);
    }
  }
}
