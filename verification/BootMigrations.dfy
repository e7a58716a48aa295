/**
 * Boot migrations under a session-scoped PostgreSQL advisory lock.
 *
 * `Local` is one replica's control flow, one database or client operation per step, each of which may
 * fail with or without having taken effect at the server. `Step` puts any number of replicas beside one
 * ledger and one lock, and lets any process crash at any point. `BootAttempt` is the nested
 * try/catch/finally of the program, proved to walk exactly the steps of `Local`.
 */
module BootMigrations {
  import opened Wrappers

  datatype Err = Err(auth: bool)

  /** A failed operation may still have been carried out by the server. */
  datatype Outcome = Ok | Fails(err: Err, effect: bool) {
    predicate Effective() {
      Ok? || effect
    }
  }

  datatype Mode = All | Each

  datatype Exit = Postgres | Sqlite | Threw

  datatype Pc =
    | Begin                             // construct the DataSource
    | Initialize
    | MakeClient
    | Connect
    | Lock                              // inside pg_advisory_lock
    | Load                              // runMigrations: read the ledger
    | Apply(pending: seq<nat>)          // runMigrations: commit what was missing from it
    | Unlock(failure: Option<Err>)
    | EndClient(failure: Option<Err>)
    | Destroy(err: Err)
    | Fallback
    | Done(exit: Exit)
    | Crashed

  /** The migrations one transaction commits. */
  function Batch(pending: seq<nat>, mode: Mode): seq<nat> {
    if pending == [] then [] else if mode.All? then pending else pending[..1]
  }

  /** One replica's next control point; `loaded` is what a ledger read would find missing. */
  function Local(pc: Pc, o: Outcome, loaded: seq<nat>, mode: Mode): Pc {
    match pc
    case Begin => if o.Ok? then Initialize else Done(Threw)
    case Initialize => if o.Ok? then MakeClient else Destroy(o.err)
    case MakeClient => if o.Ok? then Connect else Destroy(o.err)
    case Connect => if o.Ok? then Lock else EndClient(Some(o.err))
    case Lock => if o.Ok? then Load else EndClient(Some(o.err))
    case Load => if o.Ok? then Apply(loaded) else Unlock(Some(o.err))
    case Apply(p) =>
      if o.Fails? then Unlock(Some(o.err))
      else if p == [] then Unlock(None)
      else Apply(p[|Batch(p, mode)|..])
    case Unlock(f) => EndClient(f)
    case EndClient(f) => if f.Some? then Destroy(f.value) else Done(Postgres)
    case Destroy(e) => if e.auth then Fallback else Done(Threw)
    case Fallback => if o.Ok? then Done(Sqlite) else Done(Threw)
    case Done(_) => pc
    case Crashed => pc
  }

  // ---------------------------------------------------------------- the replicated system

  /** A lock session belongs to one boot attempt of one replica. */
  datatype Session = Session(replica: nat, attempt: nat)

  /**
   * `made`: this attempt constructed its DataSource. `pool`: its connections are open. `destroyed`:
   * whether destroy was called on it, and if so whether that took effect. `leaked`: a lock session of
   * this process was left open while it held the lock.
   */
  datatype Replica = Replica(pc: Pc, attempt: nat, made: bool, pool: bool, destroyed: Option<bool>, leaked: bool)

  datatype System = System(chain: nat, mode: Mode, ledger: seq<nat>, holder: Option<Session>, replicas: seq<Replica>)

  datatype Event =
    | Op(replica: nat, outcome: Outcome)
    | Crash(replica: nat)
    | Restart(replica: nat)
    | Drop(replica: nat)               // the server drops a live replica's lock session

  function UpTo(k: nat): (s: seq<nat>)
    ensures |s| == k && forall i :: 0 <= i < k ==> s[i] == i
  {
    seq(k, i => i)
  }

  /** Chain members the ledger does not record, in chain order. */
  function Missing(chain: nat, ledger: seq<nat>): seq<nat> {
    if chain == 0 then []
    else
      var rest := Missing(chain - 1, ledger);
      if chain - 1 in ledger then rest else rest + [chain - 1]
  }

  function Mine(s: System, i: nat): Option<Session>
    requires i < |s.replicas|
  {
    Some(Session(i, s.replicas[i].attempt))
  }

  /** pg_advisory_lock returns only to a session that finds the lock free. */
  predicate Enabled(s: System, i: nat, o: Outcome)
    requires i < |s.replicas|
  {
    match s.replicas[i].pc
    case Lock => o.Effective() ==> s.holder.None?
    case Done(_) => false
    case Crashed => false
    case _ => true
  }

  function Holder(s: System, i: nat, o: Outcome): Option<Session>
    requires i < |s.replicas|
  {
    match s.replicas[i].pc
    case Lock => if o.Effective() then Mine(s, i) else s.holder
    case Unlock(_) => if o.Effective() && s.holder == Mine(s, i) then None else s.holder
    case EndClient(_) => if o.Effective() && s.holder == Mine(s, i) then None else s.holder
    case _ => s.holder
  }

  function Moved(s: System, i: nat, o: Outcome): Replica
    requires i < |s.replicas|
  {
    var r := s.replicas[i];
    var pc := Local(r.pc, o, Missing(s.chain, s.ledger), s.mode);
    match r.pc
    case Begin => r.(pc := pc, made := o.Ok?)
    case Initialize => r.(pc := pc, pool := o.Effective())
    case EndClient(_) => r.(pc := pc, leaked := r.leaked || (!o.Effective() && s.holder == Mine(s, i)))
    case Destroy(_) => r.(pc := pc, pool := r.pool && !o.Effective(), destroyed := Some(o.Effective()))
    case _ => r.(pc := pc)
  }

  function Step(s: System, e: Event): System {
    if e.replica >= |s.replicas| then s
    else
      var i, r := e.replica, s.replicas[e.replica];
      match e
      case Op(_, o) =>
        if !Enabled(s, i, o) then s
        else s.(ledger := if r.pc.Apply? && o.Effective() then s.ledger + Batch(r.pc.pending, s.mode) else s.ledger,
                holder := Holder(s, i, o),
                replicas := s.replicas[i := Moved(s, i, o)])
      case Crash(_) =>
        s.(holder := if s.holder.Some? && s.holder.value.replica == i then None else s.holder,
           replicas := s.replicas[i := r.(pc := Crashed, pool := false, leaked := false)])
      case Restart(_) =>
        if r.pc != Crashed && r.pc != Done(Threw) then s
        else s.(replicas := s.replicas[i := Replica(Begin, r.attempt + 1, false, false, None, r.leaked)])
      case Drop(_) =>
        if s.holder.Some? && s.holder.value.replica == i
        then s.(holder := None, replicas := s.replicas[i := r.(leaked := false)])
        else s
  }

  function Run(s: System, es: seq<Event>): System {
    if es == [] then s else Step(Run(s, es[..|es| - 1]), es[|es| - 1])
  }

  function Fresh(chain: nat, mode: Mode, n: nat): System {
    System(chain, mode, [], None, seq(n, _ => Replica(Begin, 0, false, false, None, false)))
  }

  // ---------------------------------------------------------------- safety

  predicate Inside(r: Replica) {
    r.pc.Load? || r.pc.Apply?
  }

  /** Between being granted the lock and its session's end. */
  predicate MayHold(r: Replica) {
    Inside(r) || r.pc.Unlock? || r.pc.EndClient?
  }

  /** The ledger read has been fully applied. */
  predicate Migrated(r: Replica) {
    r.pc == Unlock(None) || r.pc == EndClient(None) || r.pc == Done(Postgres)
  }

  /** Exits that hand no postgres DataSource to the caller. */
  predicate Failing(r: Replica) {
    r.pc == Fallback || r.pc == Done(Sqlite) || r.pc == Done(Threw)
  }

  ghost predicate ReplicaOk(s: System, i: nat)
    requires i < |s.replicas|
  {
    var r := s.replicas[i];
    && (Inside(r) ==> s.holder == Mine(s, i))
    && (r.pc.Apply? ==> |s.ledger| <= s.chain && r.pc.pending == UpTo(s.chain)[|s.ledger|..])
    && (Migrated(r) ==> |s.ledger| == s.chain)
    && Lifecycle(r)
  }

  /** A failing exit called destroy on the DataSource it made; every other path keeps it open. */
  ghost predicate Lifecycle(r: Replica) {
    && (r.pc.Begin? ==> !r.made && !r.pool && r.destroyed.None?)
    && (r.pc == Done(Threw) && !r.made ==> !r.pool)
    && (Failing(r) && r.made ==> r.destroyed.Some? && (r.pool ==> r.destroyed == Some(false)))
    && (r.pc == Fallback || r.pc == Done(Sqlite) ==> r.made)
    && (!Failing(r) && !r.pc.Begin? && !r.pc.Crashed? ==> r.made && r.destroyed.None?)
    && (!Failing(r) && !r.pc.Begin? && !r.pc.Crashed? && !r.pc.Initialize? && !r.pc.Destroy? ==> r.pool)
    && (r.pc.Crashed? ==> !r.pool && !r.leaked)
  }

  /** Whoever holds the lock is still on its way to ending its session, or leaked it. */
  ghost predicate HolderOk(s: System) {
    s.holder.Some? ==>
      && s.holder.value.replica < |s.replicas|
      && var r := s.replicas[s.holder.value.replica];
         r.leaked || (MayHold(r) && s.holder.value.attempt == r.attempt)
  }

  ghost predicate LeakOk(s: System, i: nat)
    requires i < |s.replicas|
  {
    s.replicas[i].leaked ==>
      s.holder.Some? && s.holder.value.replica == i && s.holder.value.attempt <= s.replicas[i].attempt
      && (s.holder.value.attempt == s.replicas[i].attempt ==>
            s.replicas[i].pc.Destroy? || s.replicas[i].pc.Fallback? || s.replicas[i].pc.Done?)
  }

  ghost predicate Safe(s: System) {
    && |s.ledger| <= s.chain
    && s.ledger == UpTo(|s.ledger|)
    && HolderOk(s)
    && (forall i :: 0 <= i < |s.replicas| ==> ReplicaOk(s, i) && LeakOk(s, i))
  }

  lemma {:induction false} MissingSuffix(chain: nat, k: nat)
    requires k <= chain
    ensures Missing(chain, UpTo(k)) == UpTo(chain)[k..]
  {
    if k < chain {
      MissingSuffix(chain - 1, k);
      assert UpTo(chain)[k..] == UpTo(chain - 1)[k..] + [chain - 1];
    } else if chain > 0 {
      MissingNothing(chain, k);
    }
  }

  lemma {:induction false} MissingNothing(chain: nat, k: nat)
    requires chain <= k
    ensures Missing(chain, UpTo(k)) == []
  {
    if chain > 0 {
      MissingNothing(chain - 1, k);
      assert UpTo(k)[chain - 1] in UpTo(k);
    }
  }

  /** A server that drops a lock session under a running migration is outside the protocol's reach. */
  predicate Harmful(s: System, e: Event) {
    e.Drop? && e.replica < |s.replicas| && Inside(s.replicas[e.replica])
  }

  lemma StepKeepsChain(s: System, e: Event)
    ensures Step(s, e).chain == s.chain && Step(s, e).mode == s.mode && |Step(s, e).replicas| == |s.replicas|
    ensures Step(s, e).ledger != s.ledger ==> e.Op? && e.replica < |s.replicas| && s.replicas[e.replica].pc.Apply?
  {
  }

  /** A commit of the next missing migrations leaves the ledger a longer first part of the chain. */
  lemma CommitGrows(chain: nat, ledger: seq<nat>, mode: Mode)
    requires |ledger| <= chain && ledger == UpTo(|ledger|)
    ensures var l' := ledger + Batch(UpTo(chain)[|ledger|..], mode);
      |l'| <= chain && l' == UpTo(|l'|)
  {
  }

  /** EXACTLY ONCE, IN ORDER: the ledger only ever grows, and only by the next migrations of the chain. */
  lemma LedgerStep(s: System, e: Event)
    requires Safe(s)
    ensures var l' := Step(s, e).ledger;
            s.ledger <= l' && |l'| <= s.chain && l' == UpTo(|l'|)
    ensures Step(s, e).chain == s.chain
    ensures Step(s, e).ledger != s.ledger ==> e.Op? && e.replica < |s.replicas| && s.replicas[e.replica].pc.Apply?
  {
    StepKeepsChain(s, e);
    if Step(s, e).ledger != s.ledger {
      assert ReplicaOk(s, e.replica);
      CommitGrows(s.chain, s.ledger, s.mode);
    }
  }

  lemma StepHolder(s: System, e: Event)
    requires Safe(s) && !Harmful(s, e)
    ensures HolderOk(Step(s, e))
  {
    if e.replica < |s.replicas| {
      assert ReplicaOk(s, e.replica) && LeakOk(s, e.replica);
    }
  }

  lemma StepLeak(s: System, e: Event, i: nat)
    requires Safe(s) && i < |s.replicas|
    ensures LeakOk(Step(s, e), i)
  {
    assert LeakOk(s, i);
    if e.replica < |s.replicas| {
      assert ReplicaOk(s, e.replica);
    }
  }

  /** A replica other than the one that moved keeps its guarantee: it is not inside while the mover commits. */
  lemma StepOther(s: System, e: Event, i: nat)
    requires Safe(s) && !Harmful(s, e) && i < |s.replicas| && i != e.replica
    ensures ReplicaOk(Step(s, e), i)
  {
    assert ReplicaOk(s, i) && LeakOk(s, i);
    if e.replica < |s.replicas| {
      assert ReplicaOk(s, e.replica) && LeakOk(s, e.replica);
      LedgerStep(s, e);
    }
  }

  lemma StepLifecycle(s: System, e: Event)
    requires e.replica < |s.replicas| && Lifecycle(s.replicas[e.replica])
    ensures Lifecycle(Step(s, e).replicas[e.replica])
  {
  }

  /** The replica that moved: it enters only with the lock, and what it still has to apply stays exact. */
  lemma StepMover(s: System, e: Event)
    requires Safe(s) && !Harmful(s, e) && e.replica < |s.replicas|
    ensures ReplicaOk(Step(s, e), e.replica)
  {
    assert ReplicaOk(s, e.replica);
    StepLifecycle(s, e);
    LedgerStep(s, e);
    MissingSuffix(s.chain, |s.ledger|);
    if e.Op? && s.replicas[e.replica].pc.Apply? {
      CommitKeepsPending(s, e.replica, e.outcome);
    }
  }

  lemma CommitKeepsPending(s: System, i: nat, o: Outcome)
    requires Safe(s) && i < |s.replicas| && s.replicas[i].pc.Apply?
    ensures var t := Step(s, Op(i, o));
            && (t.replicas[i].pc.Apply? ==>
                  |t.ledger| <= t.chain && t.replicas[i].pc.pending == UpTo(t.chain)[|t.ledger|..])
            && (Migrated(t.replicas[i]) ==> |t.ledger| == t.chain)
  {
    assert ReplicaOk(s, i);
    LedgerStep(s, Op(i, o));
  }

  lemma StepSafe(s: System, e: Event)
    requires Safe(s) && !Harmful(s, e)
    ensures Safe(Step(s, e)) && s.ledger <= Step(s, e).ledger
  {
    LedgerStep(s, e);
    StepHolder(s, e);
    forall i | 0 <= i < |s.replicas| ensures ReplicaOk(Step(s, e), i) && LeakOk(Step(s, e), i) {
      StepLeak(s, e, i);
      if i == e.replica { StepMover(s, e); } else { StepOther(s, e, i); }
    }
  }

  /** No event of the run drops a lock session under a running migration. */
  predicate Undisturbed(s: System, es: seq<Event>) {
    es == [] ||
    (Undisturbed(s, es[..|es| - 1]) && !Harmful(Run(s, es[..|es| - 1]), es[|es| - 1]))
  }

  /** Failures, crashes and restarts are all that goes wrong. */
  predicate DropFree(es: seq<Event>) {
    forall i :: 0 <= i < |es| ==> !es[i].Drop?
  }

  lemma {:induction false} CrashesAreUndisturbing(s: System, es: seq<Event>)
    requires DropFree(es)
    ensures Undisturbed(s, es)
  {
    if es != [] {
      CrashesAreUndisturbing(s, es[..|es| - 1]);
    }
  }

  /** BOOT SAFETY over every run of any number of replicas, with failures and crashes at any step. */
  lemma {:induction false} RunSafe(chain: nat, mode: Mode, n: nat, es: seq<Event>)
    requires Undisturbed(Fresh(chain, mode, n), es)
    ensures var s := Run(Fresh(chain, mode, n), es);
            Safe(s) && s.chain == chain && |s.replicas| == n
  {
    if es != [] {
      var init := es[..|es| - 1];
      RunSafe(chain, mode, n, init);
      StepSafe(Run(Fresh(chain, mode, n), init), es[|es| - 1]);
    }
  }

  /** Mutual exclusion: at most one replica is inside runMigrations. */
  lemma AtMostOneInside(chain: nat, mode: Mode, n: nat, es: seq<Event>, i: nat, j: nat)
    requires Undisturbed(Fresh(chain, mode, n), es)
    requires var s := Run(Fresh(chain, mode, n), es);
             i < |s.replicas| && j < |s.replicas| && Inside(s.replicas[i]) && Inside(s.replicas[j])
    ensures i == j
  {
    RunSafe(chain, mode, n, es);
    var s := Run(Fresh(chain, mode, n), es);
    assert ReplicaOk(s, i) && ReplicaOk(s, j);
  }

  /** A replica hands out a postgres DataSource only over a full ledger, each migration recorded once. */
  lemma PostgresOnlyWhenMigrated(chain: nat, mode: Mode, n: nat, es: seq<Event>, i: nat)
    requires Undisturbed(Fresh(chain, mode, n), es)
    requires var s := Run(Fresh(chain, mode, n), es); i < |s.replicas| && s.replicas[i].pc == Done(Postgres)
    ensures var s := Run(Fresh(chain, mode, n), es);
            s.ledger == UpTo(chain) && s.replicas[i].pool && s.replicas[i].destroyed.None?
  {
    RunSafe(chain, mode, n, es);
    assert ReplicaOk(Run(Fresh(chain, mode, n), es), i);
  }

  /**
   * A replica that throws or falls back has called destroy on the DataSource it made, and its pool is
   * still open only if that very call failed without effect.
   */
  lemma FailingExitDestroys(chain: nat, mode: Mode, n: nat, es: seq<Event>, i: nat)
    requires Undisturbed(Fresh(chain, mode, n), es)
    requires var s := Run(Fresh(chain, mode, n), es); i < |s.replicas| && Failing(s.replicas[i])
    ensures var r := Run(Fresh(chain, mode, n), es).replicas[i];
            && (r.made ==> r.destroyed.Some?)
            && (r.pool ==> r.destroyed == Some(false))
            && (r.pc != Done(Threw) ==> r.made)
  {
    RunSafe(chain, mode, n, es);
    assert ReplicaOk(Run(Fresh(chain, mode, n), es), i);
  }

  /**
   * No finished boot leaves the lock held, except one whose end() also failed: once every replica has
   * returned, thrown or crashed, the lock is taken if and only if some process leaked its session.
   */
  lemma LockFreeUnlessLeaked(chain: nat, mode: Mode, n: nat, es: seq<Event>)
    requires Undisturbed(Fresh(chain, mode, n), es)
    requires forall r :: r in Run(Fresh(chain, mode, n), es).replicas ==> r.pc.Done? || r.pc.Crashed?
    ensures var s := Run(Fresh(chain, mode, n), es);
            s.holder.Some? <==> exists i :: 0 <= i < |s.replicas| && s.replicas[i].leaked
  {
    RunSafe(chain, mode, n, es);
    var s := Run(Fresh(chain, mode, n), es);
    if s.holder.Some? {
      assert s.replicas[s.holder.value.replica].leaked;
    }
    if i :| 0 <= i < |s.replicas| && s.replicas[i].leaked {
      assert LeakOk(s, i);
    }
  }

  lemma NextBatch(chain: nat, k: nat)
    requires k < chain
    ensures Batch(UpTo(chain)[k..], Each) == [k]
  {
    assert UpTo(chain)[k..][..1] == [UpTo(chain)[k]];
  }

  /** One committed migration, by a replica working one transaction per migration. */
  lemma CommitOne(s: System, i: nat, k: nat)
    requires i < |s.replicas| && s.mode.Each? && k < s.chain
    requires s.replicas[i].pc == Apply(UpTo(s.chain)[k..])
    ensures Step(s, Op(i, Ok)).ledger == s.ledger + [k]
    ensures forall j :: 0 <= j < |s.replicas| && j != i ==> Step(s, Op(i, Ok)).replicas[j] == s.replicas[j]
  {
    NextBatch(s.chain, k);
  }

  // ---------------------------------------------------------------- when exclusion can be lost

  lemma {:induction false} RunConcat(s: System, es: seq<Event>, fs: seq<Event>)
    ensures Run(s, es + fs) == Run(Run(s, es), fs)
  {
    if fs == [] {
      assert es + fs == es;
    } else {
      assert (es + fs)[..|es + fs| - 1] == es + fs[..|fs| - 1];
      RunConcat(s, es, fs[..|fs| - 1]);
    }
  }

  lemma RunTwo(s: System, a: Event, b: Event)
    ensures Run(s, [a, b]) == Step(Step(s, a), b)
  {
    assert [a, b][..1] == [a] && [a][..0] == [];
    assert Run(s, [a]) == Step(s, a);
  }

  lemma {:induction false} RunKeepsReplicas(s: System, es: seq<Event>)
    ensures |Run(s, es).replicas| == |s.replicas|
  {
    if es != [] { RunKeepsReplicas(s, es[..|es| - 1]); }
  }

  lemma {:induction false} RunFromSafe(s: System, es: seq<Event>)
    requires Safe(s) && Undisturbed(s, es)
    ensures Safe(Run(s, es))
  {
    if es != [] {
      RunFromSafe(s, es[..|es| - 1]);
      StepSafe(Run(s, es[..|es| - 1]), es[|es| - 1]);
    }
  }

  ghost predicate OneInside(s: System) {
    forall i, j :: 0 <= i < |s.replicas| && 0 <= j < |s.replicas| && Inside(s.replicas[i]) && Inside(s.replicas[j]) ==>
      i == j
  }

  lemma SafeMeansOneInside(s: System)
    requires Safe(s)
    ensures OneInside(s)
  {
    forall i, j | 0 <= i < |s.replicas| && 0 <= j < |s.replicas| && Inside(s.replicas[i]) && Inside(s.replicas[j])
      ensures i == j
    {
      assert ReplicaOk(s, i) && ReplicaOk(s, j);
    }
  }

  /** Five operations that succeed: from a fresh start to being granted the lock. */
  function Booting(j: nat): seq<Event> {
    [Op(j, Ok), Op(j, Ok), Op(j, Ok), Op(j, Ok), Op(j, Ok)]
  }

  /** Only replica `j` has moved, to `pc`. */
  ghost predicate Advanced(s: System, t: System, j: nat, pc: Pc) {
    && j < |s.replicas| == |t.replicas|
    && t.chain == s.chain && t.mode == s.mode && t.ledger == s.ledger
    && t.replicas[j].pc == pc && t.replicas[j].attempt == s.replicas[j].attempt
    && forall k :: 0 <= k < |s.replicas| && k != j ==> t.replicas[k] == s.replicas[k]
  }

  lemma AdvanceOne(s: System, t: System, j: nat, pc: Pc)
    requires Advanced(s, t, j, pc) && t.holder.None? && BeforeApply(pc) && !pc.Load?
    ensures var u := Step(t, Op(j, Ok));
      Advanced(s, u, j, Local(pc, Ok, [], s.mode)) && u.holder == if pc.Lock? then Mine(s, j) else None
  {
  }

  /** With the lock free a booting replica reaches the migrations, and nothing else moves. */
  lemma BootsToLoad(s: System, j: nat)
    requires j < |s.replicas| && s.replicas[j].pc.Begin? && s.holder.None?
    ensures Advanced(s, Run(s, Booting(j)), j, Load) && Run(s, Booting(j)).holder == Mine(s, j)
  {
    var op := Op(j, Ok);
    var s1 := Step(s, op);
    var s2 := Step(s1, op);
    var s3 := Step(s2, op);
    var s4 := Step(s3, op);
    AdvanceOne(s, s, j, Begin);
    AdvanceOne(s, s1, j, Initialize);
    AdvanceOne(s, s2, j, MakeClient);
    AdvanceOne(s, s3, j, Connect);
    AdvanceOne(s, s4, j, Lock);
    FiveSteps(s, op);
    assert Booting(j) == [op, op, op, op, op];
  }

  lemma FiveSteps(s: System, e: Event)
    ensures Run(s, [e, e, e, e, e]) == Step(Step(Step(Step(Step(s, e), e), e), e), e)
  {
    RunTwo(s, e, e);
    RunTwo(Step(Step(s, e), e), e, e);
    RunConcat(s, [e, e], [e, e]);
    assert [e, e] + [e, e] == [e, e, e, e];
    assert [e, e, e, e, e][..4] == [e, e, e, e];
  }

  /** Any other replica can crash, restart and boot its way in beside one that lost its session. */
  function Intrusion(j: nat): seq<Event> {
    [Crash(j), Restart(j)] + Booting(j)
  }

  lemma IntruderGetsIn(s: System, i: nat, j: nat)
    requires i < |s.replicas| && j < |s.replicas| && i != j && s.holder.None? && Inside(s.replicas[i])
    ensures var t := Run(s, Intrusion(j));
      && |t.replicas| == |s.replicas| && t.replicas[i] == s.replicas[i] && t.replicas[j].pc.Load?
      && t.chain == s.chain && t.mode == s.mode && t.ledger == s.ledger
      && !OneInside(t)
  {
    var s1 := Step(s, Crash(j));
    var s2 := Step(s1, Restart(j));
    RunTwo(s, Crash(j), Restart(j));
    RunConcat(s, [Crash(j), Restart(j)], Booting(j));
    assert s2.replicas[i] == s.replicas[i] && s2.holder.None? && s2.replicas[j].pc.Begin?;
    BootsToLoad(s2, j);
    var t := Run(s, Intrusion(j));
    assert Inside(t.replicas[i]) && Inside(t.replicas[j]);
  }

  /**
   * EXCLUSION, exactly: after an event in a safe state, every run without a harmful drop keeps at most one
   * replica inside the migrations if and only if the event was not itself a drop of the session of a
   * replica inside them, or there is no other replica.
   */
  lemma ExclusionExactly(s: System, e: Event)
    requires Safe(s)
    ensures (forall es :: Undisturbed(Step(s, e), es) ==> OneInside(Run(Step(s, e), es)))
            <==> !Harmful(s, e) || |s.replicas| == 1
  {
    var t := Step(s, e);
    if !Harmful(s, e) {
      StepSafe(s, e);
      forall es | Undisturbed(t, es) ensures OneInside(Run(t, es)) {
        RunFromSafe(t, es);
        SafeMeansOneInside(Run(t, es));
      }
    } else if |s.replicas| == 1 {
      forall es ensures OneInside(Run(t, es)) {
        RunKeepsReplicas(t, es);
      }
    } else {
      var i := e.replica;
      var j: nat := if i == 0 then 1 else 0;
      assert ReplicaOk(s, i) && LeakOk(s, i);
      CrashesAreUndisturbing(t, Intrusion(j));
      IntruderGetsIn(t, i, j);
    }
  }

  // Exactly-once commits need exclusion only while something is left to commit.

  ghost predicate InOrder(s: System) {
    |s.ledger| <= s.chain && s.ledger == UpTo(|s.ledger|)
  }

  /** A lone replica's pending migrations are what the ledger is missing, lock or no lock. */
  ghost predicate Alone(s: System) {
    && |s.replicas| == 1 && InOrder(s)
    && (s.replicas[0].pc.Apply? ==> s.replicas[0].pc.pending == UpTo(s.chain)[|s.ledger|..])
  }

  lemma RestOfPending(chain: nat, k: nat, mode: Mode)
    requires k <= chain
    ensures var pending := UpTo(chain)[k..];
      pending[|Batch(pending, mode)|..] == UpTo(chain)[k + |Batch(pending, mode)|..]
  {
  }

  lemma {:induction false} AlonePending(s: System, e: Event)
    requires Alone(s) && |Step(s, e).replicas| == 1 && Step(s, e).replicas[0].pc.Apply?
    ensures Step(s, e).replicas[0].pc.pending == UpTo(s.chain)[|Step(s, e).ledger|..]
  {
    if s.replicas[0].pc.Load? {
      MissingSuffix(s.chain, |s.ledger|);
    } else if s.replicas[0].pc.Apply? {
      RestOfPending(s.chain, |s.ledger|, s.mode);
    }
  }

  lemma StepAlone(s: System, e: Event)
    requires Alone(s)
    ensures Alone(Step(s, e))
  {
    StepKeepsChain(s, e);
    if Step(s, e).ledger != s.ledger { CommitGrows(s.chain, s.ledger, s.mode); }
    if Step(s, e).replicas[0].pc.Apply? { AlonePending(s, e); }
  }

  lemma {:induction false} RunAlone(s: System, es: seq<Event>)
    requires Alone(s)
    ensures Alone(Run(s, es))
  {
    if es != [] {
      RunAlone(s, es[..|es| - 1]);
      StepAlone(Run(s, es[..|es| - 1]), es[|es| - 1]);
    }
  }

  /** Over a full ledger nobody has anything to commit. */
  ghost predicate Full(s: System) {
    && s.ledger == UpTo(s.chain)
    && forall i :: 0 <= i < |s.replicas| && s.replicas[i].pc.Apply? ==> s.replicas[i].pc.pending == []
  }

  lemma StepFull(s: System, e: Event)
    requires Full(s)
    ensures Full(Step(s, e))
  {
    MissingNothing(s.chain, s.chain);
  }

  lemma {:induction false} RunFull(s: System, es: seq<Event>)
    requires Full(s)
    ensures Full(Run(s, es))
  {
    if es != [] {
      RunFull(s, es[..|es| - 1]);
      StepFull(Run(s, es[..|es| - 1]), es[|es| - 1]);
    }
  }

  lemma RunSnoc(s: System, es: seq<Event>, e: Event)
    ensures Run(s, es + [e]) == Step(Run(s, es), e)
  {
    assert (es + [e])[..|es|] == es;
  }

  lemma CommitBatch(s: System, i: nat, pending: seq<nat>)
    requires i < |s.replicas| && s.replicas[i].pc == Apply(pending)
    ensures var t := Step(s, Op(i, Ok));
      && t.ledger == s.ledger + Batch(pending, s.mode) && t.mode == s.mode && t.chain == s.chain
      && |t.replicas| == |s.replicas| && forall j :: 0 <= j < |s.replicas| && j != i ==> t.replicas[j] == s.replicas[j]
  {
  }

  lemma ReadLedger(s: System, i: nat)
    requires i < |s.replicas| && s.replicas[i].pc.Load? && InOrder(s)
    ensures var t := Step(s, Op(i, Ok));
      && t.replicas[i].pc == Apply(UpTo(s.chain)[|s.ledger|..])
      && t.ledger == s.ledger && t.mode == s.mode && t.chain == s.chain
      && |t.replicas| == |s.replicas| && forall j :: 0 <= j < |s.replicas| && j != i ==> t.replicas[j] == s.replicas[j]
  {
    MissingSuffix(s.chain, |s.ledger|);
  }

  /** Committing the next batch twice puts an old migration where a new one belongs. */
  lemma TwiceIsOutOfOrder(chain: nat, k: nat, mode: Mode)
    requires k < chain
    ensures var batch := Batch(UpTo(chain)[k..], mode);
      var ledger := UpTo(k) + batch + batch;
      ledger != UpTo(|ledger|)
  {
    var batch := Batch(UpTo(chain)[k..], mode);
    assert batch[0] == k;
    assert (UpTo(k) + batch + batch)[k + |batch|] == batch[0];
  }

  /** Both replicas hold the same pending migrations, and both commit them. */
  lemma BothCommitSame(s: System, i: nat, j: nat)
    requires i < |s.replicas| && j < |s.replicas| && i != j && InOrder(s) && |s.ledger| < s.chain
    requires s.replicas[i].pc == s.replicas[j].pc == Apply(UpTo(s.chain)[|s.ledger|..])
    ensures !InOrder(Step(Step(s, Op(i, Ok)), Op(j, Ok)))
  {
    var pending := UpTo(s.chain)[|s.ledger|..];
    CommitBatch(s, i, pending);
    CommitBatch(Step(s, Op(i, Ok)), j, pending);
    TwiceIsOutOfOrder(s.chain, |s.ledger|, s.mode);
  }

  /** Whoever has not read the ledger yet reads it. */
  function Reading(s: System, i: nat): seq<Event>
    requires i < |s.replicas|
  {
    if s.replicas[i].pc.Load? then [Op(i, Ok)] else []
  }

  lemma BothRead(s: System, i: nat, j: nat)
    requires i < |s.replicas| && j < |s.replicas| && i != j && InOrder(s)
    requires s.replicas[j].pc.Load?
    requires s.replicas[i].pc.Load? || s.replicas[i].pc == Apply(UpTo(s.chain)[|s.ledger|..])
    ensures var t := Run(s, [Op(j, Ok)] + Reading(s, i));
      && |t.replicas| == |s.replicas| && t.ledger == s.ledger && t.chain == s.chain
      && t.replicas[i].pc == t.replicas[j].pc == Apply(UpTo(s.chain)[|s.ledger|..])
  {
    assert [Op(j, Ok)][..0] == [];
    ReadLedger(s, j);
    var u := Step(s, Op(j, Ok));
    assert Run(s, [Op(j, Ok)]) == u;
    if s.replicas[i].pc.Load? {
      ReadLedger(u, i);
      RunSnoc(s, [Op(j, Ok)], Op(i, Ok));
    } else {
      assert [Op(j, Ok)] + Reading(s, i) == [Op(j, Ok)];
    }
  }

  /** The other replica boots its way in, both read the ledger, and both commit what it is missing. */
  function Collision(s: System, i: nat, j: nat): seq<Event> {
    var t := Run(s, Intrusion(j));
    Intrusion(j) + ([Op(j, Ok)] + if i < |t.replicas| then Reading(t, i) else []) + [Op(i, Ok), Op(j, Ok)]
  }

  lemma CollisionIsDropFree(s: System, i: nat, j: nat)
    ensures DropFree(Collision(s, i, j))
  {
  }

  lemma RunThree(s: System, a: seq<Event>, b: seq<Event>, c: seq<Event>)
    ensures Run(s, a + b + c) == Run(Run(Run(s, a), b), c)
  {
    RunConcat(s, a + b, c);
    RunConcat(s, a, b);
  }

  lemma CollisionBreaksOrder(s: System, i: nat, j: nat)
    requires i < |s.replicas| && j < |s.replicas| && i != j && InOrder(s) && |s.ledger| < s.chain && s.holder.None?
    requires s.replicas[i].pc.Load? || s.replicas[i].pc == Apply(UpTo(s.chain)[|s.ledger|..])
    ensures !InOrder(Run(s, Collision(s, i, j)))
  {
    IntruderGetsIn(s, i, j);
    var t := Run(s, Intrusion(j));
    var read := [Op(j, Ok)] + Reading(t, i);
    BothRead(t, i, j);
    var u := Run(t, read);
    BothCommitSame(u, i, j);
    RunTwo(u, Op(i, Ok), Op(j, Ok));
    RunThree(s, Intrusion(j), read, [Op(i, Ok), Op(j, Ok)]);
  }

  /**
   * EXACTLY ONCE, exactly: after an event in a safe state, every run without a harmful drop records the
   * chain's migrations once and in order if and only if the event was not itself a harmful drop, or there
   * is no other replica, or nothing was left to commit.
   */
  lemma ExactlyOnceExactly(s: System, e: Event)
    requires Safe(s)
    ensures (forall es :: Undisturbed(Step(s, e), es) ==> InOrder(Run(Step(s, e), es)))
            <==> !Harmful(s, e) || |s.replicas| == 1 || |s.ledger| == s.chain
  {
    var t := Step(s, e);
    if !Harmful(s, e) {
      StepSafe(s, e);
      forall es | Undisturbed(t, es) ensures InOrder(Run(t, es)) { RunFromSafe(t, es); }
    } else {
      var i := e.replica;
      assert ReplicaOk(s, i) && LeakOk(s, i);
      if |s.replicas| == 1 {
        assert Alone(t);
        forall es ensures InOrder(Run(t, es)) { RunAlone(t, es); }
      } else if |s.ledger| == s.chain {
        forall k | 0 <= k < |t.replicas| && t.replicas[k].pc.Apply? ensures t.replicas[k].pc.pending == [] {
          assert ReplicaOk(s, k);
        }
        assert Full(t);
        forall es ensures InOrder(Run(t, es)) { RunFull(t, es); FullIsInOrder(Run(t, es)); }
      } else {
        var j: nat := if i == 0 then 1 else 0;
        CollisionBreaksOrder(t, i, j);
        CollisionIsDropFree(t, i, j);
        CrashesAreUndisturbing(t, Collision(t, i, j));
      }
    }
  }

  lemma FullIsInOrder(s: System)
    requires Full(s)
    ensures InOrder(s)
  {
  }

  /**
   * A run from two fresh replicas: the first boots, reads the ledger and loses its session; the second
   * boots, reads the same ledger, and both commit the first migration.
   */
  function Disaster(): seq<Event> {
    (Booting(0) + [Op(0, Ok), Drop(0)]) + (Booting(1) + ([Op(1, Ok), Op(0, Ok)] + [Op(1, Ok)]))
  }

  lemma DisasterHead(chain: nat)
    ensures var s := Run(Fresh(chain, Each, 2), Booting(0) + [Op(0, Ok), Drop(0)]);
      && |s.replicas| == 2 && s.chain == chain && s.mode == Each && s.ledger == [] && s.holder.None?
      && s.replicas[0].pc == Apply(UpTo(chain)[0..]) && s.replicas[1].pc.Begin?
  {
    var s := Fresh(chain, Each, 2);
    BootsToLoad(s, 0);
    var s1 := Run(s, Booting(0));
    RunConcat(s, Booting(0), [Op(0, Ok), Drop(0)]);
    RunTwo(s1, Op(0, Ok), Drop(0));
    assert s1.ledger == UpTo(0);
    ReadLedger(s1, 0);
  }

  lemma DisasterCommitsTwice(chain: nat)
    requires chain >= 1
    ensures Run(Fresh(chain, Each, 2), Disaster()).ledger == [0, 0]
    ensures !OneInside(Run(Fresh(chain, Each, 2), (Booting(0) + [Op(0, Ok), Drop(0)]) + Booting(1)))
  {
    var s, head := Fresh(chain, Each, 2), Booting(0) + [Op(0, Ok), Drop(0)];
    var tail := [Op(1, Ok), Op(0, Ok)] + [Op(1, Ok)];
    DisasterHead(chain);
    var s2 := Run(s, head);
    BootsToLoad(s2, 1);
    var s3 := Run(s2, Booting(1));
    RunConcat(s, head, Booting(1));
    assert Inside(s3.replicas[0]) && Inside(s3.replicas[1]);
    RunConcat(s, head, Booting(1) + tail);
    RunConcat(s2, Booting(1), tail);
    BothCommit(s3);
  }

  lemma BothCommit(s: System)
    requires |s.replicas| == 2 && s.mode.Each? && s.chain >= 1 && s.ledger == []
    requires s.replicas[0].pc == Apply(UpTo(s.chain)[0..]) && s.replicas[1].pc.Load?
    ensures Run(s, [Op(1, Ok), Op(0, Ok)] + [Op(1, Ok)]).ledger == [0, 0]
  {
    MissingSuffix(s.chain, 0);
    assert s.ledger == UpTo(0);
    var s1 := Step(s, Op(1, Ok));
    assert s1.replicas[1].pc == Apply(UpTo(s.chain)[0..]) && s1.replicas[0] == s.replicas[0];
    CommitOne(s1, 0, 0);
    var s2 := Step(s1, Op(0, Ok));
    CommitOne(s2, 1, 0);
    RunConcat(s, [Op(1, Ok), Op(0, Ok)], [Op(1, Ok)]);
    RunTwo(s, Op(1, Ok), Op(0, Ok));
    assert [Op(1, Ok)][..0] == [];
    assert Run(s2, [Op(1, Ok)]) == Step(s2, Op(1, Ok));
  }

  // ---------------------------------------------------------------- the program

  /** Where one replica stands after its first `n` operations came out as `script` says. */
  function PcAfter(script: nat -> Outcome, loaded: seq<nat>, mode: Mode, n: nat): Pc {
    if n == 0 then Begin else Local(PcAfter(script, loaded, mode, n - 1), script(n - 1), loaded, mode)
  }

  // ---------------------------------------------------------------- exits, from the outcomes alone

  /** Commits the migrations take: one for all of them, or one for each. */
  function Commits(loaded: seq<nat>, mode: Mode): nat {
    if loaded == [] then 0 else if mode.All? then 1 else |loaded|
  }

  /**
   * The operations of the postgres attempt: construct, initialize, make the lock client, connect, lock,
   * read the ledger, commit, and return from the migrations.
   */
  function AttemptLength(loaded: seq<nat>, mode: Mode): nat {
    7 + Commits(loaded, mode)
  }

  /** Operation `f` is the first to fail. */
  ghost predicate FirstFails(script: nat -> Outcome, f: nat) {
    script(f).Fails? && forall k :: 0 <= k < f ==> script(k).Ok?
  }

  /** How many clean-up operations, destroy the last of them, follow a failure at `f`. */
  function CleanUp(f: nat): nat {
    if f <= 2 then 1 else if f <= 4 then 2 else 3
  }

  ghost predicate EndsPostgres(script: nat -> Outcome, loaded: seq<nat>, mode: Mode) {
    forall k :: 0 <= k < AttemptLength(loaded, mode) ==> script(k).Ok?
  }

  /** An operation after the construction failed first, for bad credentials, and the fallback succeeded. */
  ghost predicate EndsSqlite(script: nat -> Outcome, loaded: seq<nat>, mode: Mode) {
    exists f: nat :: 0 < f < AttemptLength(loaded, mode) && FirstFails(script, f)
      && script(f).err.auth && script(f + CleanUp(f) + 1).Ok?
  }

  /** The construction failed, or another operation did: not for bad credentials, or with the fallback failing. */
  ghost predicate EndsThrown(script: nat -> Outcome, loaded: seq<nat>, mode: Mode) {
    exists f: nat :: f < AttemptLength(loaded, mode) && FirstFails(script, f)
      && (f == 0 || !script(f).err.auth || script(f + CleanUp(f) + 1).Fails?)
  }

  lemma {:induction false} DoneStays(script: nat -> Outcome, loaded: seq<nat>, mode: Mode, m: nat, n: nat)
    requires m <= n && PcAfter(script, loaded, mode, m).Done?
    ensures PcAfter(script, loaded, mode, n) == PcAfter(script, loaded, mode, m)
    decreases n
  {
    if m < n { DoneStays(script, loaded, mode, m, n - 1); }
  }

  /** What is left to commit after `c` commits. */
  function LeftAfter(loaded: seq<nat>, mode: Mode, c: nat): seq<nat>
    requires c <= Commits(loaded, mode)
  {
    if c == 0 then loaded else if mode.All? then [] else loaded[c..]
  }

  lemma {:induction false} OneCommit(loaded: seq<nat>, mode: Mode, c: nat)
    requires c < Commits(loaded, mode)
    ensures var left := LeftAfter(loaded, mode, c);
      left != [] && left[|Batch(left, mode)|..] == LeftAfter(loaded, mode, c + 1)
  {
  }

  lemma {:induction false} CommitStep(loaded: seq<nat>, mode: Mode, c: nat)
    requires c < Commits(loaded, mode)
    ensures Local(Apply(LeftAfter(loaded, mode, c)), Ok, loaded, mode) == Apply(LeftAfter(loaded, mode, c + 1))
  {
    OneCommit(loaded, mode, c);
  }

  /** The operations before the first commit. */
  function Early(n: nat): Pc
    requires n < 6
  {
    if n == 0 then Begin
    else if n == 1 then Initialize
    else if n == 2 then MakeClient
    else if n == 3 then Connect
    else if n == 4 then Lock
    else Load
  }

  /** While all goes well: where the program stands before operation `n`. */
  function Stage(loaded: seq<nat>, mode: Mode, n: nat): Pc
    requires n < AttemptLength(loaded, mode)
  {
    if n < 6 then Early(n) else Apply(LeftAfter(loaded, mode, n - 6))
  }

  lemma {:induction false} EarlyStep(n: nat, loaded: seq<nat>, mode: Mode)
    requires n < 5
    ensures Local(Early(n), Ok, loaded, mode) == Early(n + 1)
  {
  }

  lemma {:induction false} StageStep(loaded: seq<nat>, mode: Mode, n: nat)
    requires n + 1 < AttemptLength(loaded, mode)
    ensures Local(Stage(loaded, mode, n), Ok, loaded, mode) == Stage(loaded, mode, n + 1)
  {
    if n < 5 {
      EarlyStep(n, loaded, mode);
    } else if n == 5 {
      assert LeftAfter(loaded, mode, 0) == loaded;
    } else {
      CommitStep(loaded, mode, n - 6);
    }
  }

  lemma {:induction false} AllWell(script: nat -> Outcome, loaded: seq<nat>, mode: Mode, n: nat)
    requires n < AttemptLength(loaded, mode) && forall k :: 0 <= k < n ==> script(k).Ok?
    ensures PcAfter(script, loaded, mode, n) == Stage(loaded, mode, n)
  {
    if n == 0 {
      assert PcAfter(script, loaded, mode, 0) == Begin;
    } else {
      AllWell(script, loaded, mode, n - 1);
      NextPc(script, loaded, mode, n - 1);
      StageStep(loaded, mode, n - 1);
    }
  }

  lemma {:induction false} NextPc(script: nat -> Outcome, loaded: seq<nat>, mode: Mode, n: nat)
    ensures PcAfter(script, loaded, mode, n + 1) == Local(PcAfter(script, loaded, mode, n), script(n), loaded, mode)
  {
  }

  /** The first clean-up operation a failure at `f` leads to. */
  function CleanUpPc(f: nat, err: Err): Pc {
    if f <= 2 then Destroy(err) else if f <= 4 then EndClient(Some(err)) else Unlock(Some(err))
  }

  lemma {:induction false} FailureLeaves(script: nat -> Outcome, loaded: seq<nat>, mode: Mode, f: nat)
    requires 0 < f < AttemptLength(loaded, mode) && FirstFails(script, f)
    ensures PcAfter(script, loaded, mode, f + 1) == CleanUpPc(f, script(f).err)
  {
    AllWell(script, loaded, mode, f);
    NextPc(script, loaded, mode, f);
    FailedStage(Stage(loaded, mode, f), script(f), loaded, mode, f);
  }

  lemma {:induction false} FailedStage(pc: Pc, o: Outcome, loaded: seq<nat>, mode: Mode, f: nat)
    requires 0 < f < AttemptLength(loaded, mode) && pc == Stage(loaded, mode, f) && o.Fails?
    ensures Local(pc, o, loaded, mode) == CleanUpPc(f, o.err)
  {
  }

  /** After a first failure past the construction the clean-up ends in destroy, with that failure's error. */
  lemma {:induction false} FailureReachesDestroy(script: nat -> Outcome, loaded: seq<nat>, mode: Mode, f: nat)
    requires 0 < f < AttemptLength(loaded, mode) && FirstFails(script, f)
    ensures PcAfter(script, loaded, mode, f + CleanUp(f)) == Destroy(script(f).err)
  {
    FailureLeaves(script, loaded, mode, f);
    if f > 2 { NextPc(script, loaded, mode, f + 1); }
    if f > 4 { NextPc(script, loaded, mode, f + 2); }
  }

  /** Where a failed attempt ends, and by which operation. */
  lemma {:induction false} FailureEnds(script: nat -> Outcome, loaded: seq<nat>, mode: Mode, f: nat) returns (end: nat)
    requires f < AttemptLength(loaded, mode) && FirstFails(script, f)
    ensures PcAfter(script, loaded, mode, end) ==
      Done(if f > 0 && script(f).err.auth && script(f + CleanUp(f) + 1).Ok? then Sqlite else Threw)
  {
    if f == 0 {
      assert PcAfter(script, loaded, mode, 0) == Begin;
      end := 1;
    } else {
      FailureReachesDestroy(script, loaded, mode, f);
      var d := f + CleanUp(f);
      NextPc(script, loaded, mode, d);
      if script(f).err.auth {
        NextPc(script, loaded, mode, d + 1);
        end := d + 2;
      } else {
        end := d + 1;
      }
    }
  }

  lemma {:induction false} SuccessEnds(script: nat -> Outcome, loaded: seq<nat>, mode: Mode)
    requires EndsPostgres(script, loaded, mode)
    ensures PcAfter(script, loaded, mode, AttemptLength(loaded, mode) + 2) == Done(Postgres)
  {
    var n := AttemptLength(loaded, mode);
    AllWell(script, loaded, mode, n - 1);
    NextPc(script, loaded, mode, n - 1);
    NextPc(script, loaded, mode, n);
    NextPc(script, loaded, mode, n + 1);
  }

  lemma {:induction false} SomeFailsFirst(script: nat -> Outcome, n: nat) returns (f: nat)
    requires exists k :: 0 <= k < n && script(k).Fails?
    ensures f < n && FirstFails(script, f)
    decreases n
  {
    if exists k :: 0 <= k < n - 1 && script(k).Fails? {
      f := SomeFailsFirst(script, n - 1);
    } else {
      f := n - 1;
    }
  }

  lemma {:induction false} FirstFailsOnce(script: nat -> Outcome, f: nat, g: nat)
    requires FirstFails(script, f) && FirstFails(script, g)
    ensures f == g
  {
  }

  lemma {:induction false} DoneOnce(script: nat -> Outcome, loaded: seq<nat>, mode: Mode, m: nat, n: nat)
    requires PcAfter(script, loaded, mode, m).Done? && PcAfter(script, loaded, mode, n).Done?
    ensures PcAfter(script, loaded, mode, m) == PcAfter(script, loaded, mode, n)
  {
    if m <= n { DoneStays(script, loaded, mode, m, n); } else { DoneStays(script, loaded, mode, n, m); }
  }

  /** The first failure decides between the two failing ends. */
  ghost predicate Rescued(script: nat -> Outcome, f: nat) {
    f > 0 && script(f).Fails? && script(f).err.auth && script(f + CleanUp(f) + 1).Ok?
  }

  lemma {:induction false} SqliteNeedsRescue(script: nat -> Outcome, loaded: seq<nat>, mode: Mode, f: nat)
    requires f < AttemptLength(loaded, mode) && FirstFails(script, f)
    ensures EndsSqlite(script, loaded, mode) <==> Rescued(script, f)
  {
    forall g: nat | FirstFails(script, g) ensures g == f {
      FirstFailsOnce(script, f, g);
    }
  }

  lemma {:induction false} ThrownUnlessRescued(script: nat -> Outcome, loaded: seq<nat>, mode: Mode, f: nat)
    requires f < AttemptLength(loaded, mode) && FirstFails(script, f)
    ensures EndsThrown(script, loaded, mode) <==> !Rescued(script, f)
  {
    forall g: nat | FirstFails(script, g) ensures g == f {
      FirstFailsOnce(script, f, g);
    }
  }

  lemma {:induction false} NoFailureDecides(script: nat -> Outcome, loaded: seq<nat>, mode: Mode)
    requires EndsPostgres(script, loaded, mode)
    ensures !EndsSqlite(script, loaded, mode) && !EndsThrown(script, loaded, mode)
  {
  }

  /**
   * HOW A BOOT ENDS, exactly, from its operations' outcomes: with postgres if and only if every operation
   * through the last migration succeeded; on SQLite if and only if the first to fail failed for bad
   * credentials, after the construction, and the fallback succeeded; by throwing in every other case.
   */
  lemma {:induction false} ExitExactly(script: nat -> Outcome, loaded: seq<nat>, mode: Mode, n: nat)
    requires PcAfter(script, loaded, mode, n).Done?
    ensures var exit := PcAfter(script, loaded, mode, n).exit;
      && (exit.Postgres? <==> EndsPostgres(script, loaded, mode))
      && (exit.Sqlite? <==> EndsSqlite(script, loaded, mode))
      && (exit.Threw? <==> EndsThrown(script, loaded, mode))
  {
    var last := AttemptLength(loaded, mode);
    if EndsPostgres(script, loaded, mode) {
      SuccessEnds(script, loaded, mode);
      DoneOnce(script, loaded, mode, last + 2, n);
      NoFailureDecides(script, loaded, mode);
    } else {
      var f := SomeFailsFirst(script, last);
      var end := FailureEnds(script, loaded, mode, f);
      DoneOnce(script, loaded, mode, end, n);
      SqliteNeedsRescue(script, loaded, mode, f);
      ThrownUnlessRescued(script, loaded, mode, f);
      assert !EndsPostgres(script, loaded, mode) && script(f).Fails?;
    }
  }

  /** How a block of the program ends: normally, or by an error on its way to a catch. */
  datatype Completion = Normal | Thrown(err: Err)

  function Failure(c: Completion): Option<Err> {
    match c
    case Normal => None
    case Thrown(e) => Some(e)
  }

  /**
   * One call of the factory. `script` decides each operation's outcome, `loaded` is what the ledger read
   * returns, `ops` counts the operations performed. Every method's contract says which control point
   * the operations so far have led to, so a skipped or reordered operation breaks it.
   */
  class BootAttempt {
    const script: nat -> Outcome
    const loaded: seq<nat>
    const mode: Mode
    var ops: nat

    ghost function At(): Pc
      reads this
    {
      PcAfter(script, loaded, mode, ops)
    }

    constructor (script: nat -> Outcome, loaded: seq<nat>, mode: Mode)
      ensures At() == Begin && ops == 0
      ensures this.script == script && this.loaded == loaded && this.mode == mode
    {
      this.script := script;
      this.loaded := loaded;
      this.mode := mode;
      ops := 0;
    }

    method Perform() returns (c: Completion)
      modifies this
      ensures At() == Local(old(At()), script(old(ops)), loaded, mode)
      ensures c == match script(old(ops)) { case Ok => Normal case Fails(e, _) => Thrown(e) }
    {
      c := match script(ops) { case Ok => Normal case Fails(e, _) => Thrown(e) };
      ops := ops + 1;
    }

    method RunMigrations() returns (c: Completion)
      requires At() == Load
      modifies this
      ensures At() == Unlock(Failure(c))
    {
      c := Perform();
      if c.Thrown? { return; }
      var pending := loaded;
      while pending != []
        invariant At() == Apply(pending) && c.Normal?
        decreases |pending|
      {
        c := Perform();
        if c.Thrown? { return; }
        pending := pending[|Batch(pending, mode)|..];
      }
      c := Perform();
    }

    /** The inner try/finally: unlock runs however the migrations end, and its own failure is swallowed. */
    method MigrateUnderLock() returns (c: Completion)
      requires At() == Load
      modifies this
      ensures At() == EndClient(Failure(c))
    {
      c := RunMigrations();
      var _ := Perform();
    }

    /** The middle try/finally: end runs however the locked section ends, and its own failure is swallowed. */
    method WithLockClient() returns (c: Completion)
      requires At() == Connect
      modifies this
      ensures At() == Local(EndClient(Failure(c)), Ok, loaded, mode)
    {
      c := Perform();
      if c.Normal? {
        c := Perform();
        if c.Normal? {
          c := MigrateUnderLock();
        }
      }
      var _ := Perform();
    }

    method CreateBootDataSource() returns (exit: Exit)
      requires ops == 0
      modifies this
      ensures At() == Done(exit)
      ensures exit.Postgres? <==> EndsPostgres(script, loaded, mode)
      ensures exit.Sqlite? <==> EndsSqlite(script, loaded, mode)
      ensures exit.Threw? <==> EndsThrown(script, loaded, mode)
    {
      exit := Attempt();
      ExitExactly(script, loaded, mode, ops);
    }

    method Attempt() returns (exit: Exit)
      requires At() == Begin
      modifies this
      ensures At() == Done(exit)
    {
      var c := Perform();
      if c.Thrown? { return Threw; }
      c := Perform();
      if c.Normal? {
        c := Perform();
        if c.Normal? {
          c := WithLockClient();
        }
      }
      if c.Thrown? {
        var _ := Perform();
        if !c.err.auth { return Threw; }
        c := Perform();
        if c.Thrown? { return Threw; }
        return Sqlite;
      }
      return Postgres;
    }
  }

  // ---------------------------------------------------------------- the system runs the program

  /** The outcomes of replica `i`'s operations since its last restart. */
  function OpsOf(s: System, es: seq<Event>, i: nat): seq<Outcome> {
    if es == [] then []
    else
      var u, e := Run(s, es[..|es| - 1]), es[|es| - 1];
      var before := OpsOf(s, es[..|es| - 1], i);
      if i >= |u.replicas| || e.replica != i then before
      else if e.Op? && Enabled(u, i, e.outcome) then before + [e.outcome]
      else if e.Restart? && Step(u, e) != u then []
      else before
  }

  /** What its ledger read found missing, if it has read it since then. */
  function LoadedBy(s: System, es: seq<Event>, i: nat): seq<nat> {
    if es == [] then []
    else
      var u, e := Run(s, es[..|es| - 1]), es[|es| - 1];
      var before := LoadedBy(s, es[..|es| - 1], i);
      if i >= |u.replicas| || e.replica != i then before
      else if e.Op? && e.outcome.Ok? && u.replicas[i].pc.Load? then Missing(u.chain, u.ledger)
      else if e.Restart? && Step(u, e) != u then []
      else before
  }

  /** A script that starts with the given outcomes. */
  function Script(ops: seq<Outcome>): nat -> Outcome {
    (n: nat) => if n < |ops| then ops[n] else Ok
  }

  predicate BeforeApply(pc: Pc) {
    pc.Begin? || pc.Initialize? || pc.MakeClient? || pc.Connect? || pc.Lock? || pc.Load?
  }

  lemma {:induction false} ScriptPrefix(a: seq<Outcome>, b: seq<Outcome>, loaded: seq<nat>, mode: Mode, n: nat)
    requires n <= |a| && a <= b
    ensures PcAfter(Script(a), loaded, mode, n) == PcAfter(Script(b), loaded, mode, n)
  {
    if n > 0 {
      ScriptPrefix(a, b, loaded, mode, n - 1);
      assert Script(a)(n - 1) == Script(b)(n - 1);
    }
  }

  /** Until the read has been used, what it returns makes no difference. */
  lemma {:induction false} UnreadLedger(ops: nat -> Outcome, a: seq<nat>, b: seq<nat>, mode: Mode, n: nat)
    requires BeforeApply(PcAfter(ops, a, mode, n))
    ensures PcAfter(ops, a, mode, n) == PcAfter(ops, b, mode, n)
  {
    if n > 0 { UnreadLedger(ops, a, b, mode, n - 1); }
  }

  ghost predicate FollowsProgram(s: System, es: seq<Event>, i: nat) {
    var t, ops := Run(s, es), OpsOf(s, es, i);
    i < |t.replicas| && !t.replicas[i].pc.Crashed? ==>
      t.replicas[i].pc == PcAfter(Script(ops), LoadedBy(s, es, i), t.mode, |ops|)
  }

  /** One more operation, and possibly the ledger read with it. */
  lemma {:induction false} PcAfterSnoc(ops: seq<Outcome>, o: Outcome, loaded: seq<nat>, loaded': seq<nat>, mode: Mode)
    requires loaded' == loaded || BeforeApply(PcAfter(Script(ops), loaded, mode, |ops|))
    ensures PcAfter(Script(ops + [o]), loaded', mode, |ops| + 1)
         == Local(PcAfter(Script(ops), loaded, mode, |ops|), o, loaded', mode)
  {
    var n := |ops|;
    ScriptPrefix(ops, ops + [o], loaded, mode, n);
    if loaded' != loaded { UnreadLedger(Script(ops + [o]), loaded, loaded', mode, n); }
    assert Script(ops + [o])(n) == o;
  }

  lemma {:induction false} OpRecorded(s: System, es: seq<Event>, i: nat, o: Outcome)
    requires i < |Run(s, es).replicas| && Enabled(Run(s, es), i, o)
    ensures Run(s, es + [Op(i, o)]) == Step(Run(s, es), Op(i, o))
    ensures OpsOf(s, es + [Op(i, o)], i) == OpsOf(s, es, i) + [o]
    ensures LoadedBy(s, es + [Op(i, o)], i)
         == if o.Ok? && Run(s, es).replicas[i].pc.Load? then Missing(Run(s, es).chain, Run(s, es).ledger)
            else LoadedBy(s, es, i)
  {
    assert (es + [Op(i, o)])[..|es|] == es;
  }

  lemma {:induction false} OpFollows(s: System, es: seq<Event>, i: nat, o: Outcome)
    requires FollowsProgram(s, es, i)
    ensures FollowsProgram(s, es + [Op(i, o)], i)
  {
    var u := Run(s, es);
    if i < |u.replicas| && Enabled(u, i, o) {
      OpRecorded(s, es, i, o);
      var loaded' := LoadedBy(s, es + [Op(i, o)], i);
      PcAfterSnoc(OpsOf(s, es, i), o, LoadedBy(s, es, i), loaded', u.mode);
      OpMoves(u, i, o, loaded');
    } else {
      OpIgnored(s, es, i, o);
    }
  }

  lemma {:induction false} OpIgnored(s: System, es: seq<Event>, i: nat, o: Outcome)
    requires FollowsProgram(s, es, i)
    requires i < |Run(s, es).replicas| ==> !Enabled(Run(s, es), i, o)
    ensures FollowsProgram(s, es + [Op(i, o)], i)
  {
    assert (es + [Op(i, o)])[..|es|] == es;
  }

  lemma {:induction false} OpMoves(u: System, i: nat, o: Outcome, loaded: seq<nat>)
    requires i < |u.replicas| && Enabled(u, i, o)
    requires u.replicas[i].pc.Load? && o.Ok? ==> loaded == Missing(u.chain, u.ledger)
    ensures var t := Step(u, Op(i, o));
      && |t.replicas| == |u.replicas| && t.mode == u.mode && !u.replicas[i].pc.Crashed?
      && t.replicas[i].pc == Local(u.replicas[i].pc, o, loaded, u.mode)
  {
  }

  lemma {:induction false} OtherFollows(s: System, es: seq<Event>, e: Event, i: nat)
    requires FollowsProgram(s, es, i) && (e.replica != i || !e.Op?)
    ensures FollowsProgram(s, es + [e], i)
  {
    assert (es + [e])[..|es|] == es;
  }

  lemma {:induction false} FreshFollows(s: System, i: nat)
    requires forall r :: r in s.replicas ==> r.pc.Begin?
    ensures FollowsProgram(s, [], i)
  {
  }

  /**
   * THE SYSTEM RUNS THE PROGRAM: after any run, crashes and dropped sessions included, a live replica
   * stands where its program stands after its own operations since its last restart, its ledger read
   * having returned what the ledger was missing at that moment. `BootAttempt` walks exactly those points.
   */
  lemma {:induction false} SystemRunsProgram(chain: nat, mode: Mode, n: nat, es: seq<Event>, i: nat)
    ensures FollowsProgram(Fresh(chain, mode, n), es, i)
  {
    if es == [] {
      FreshFollows(Fresh(chain, mode, n), i);
    } else {
      var init, e := es[..|es| - 1], es[|es| - 1];
      SystemRunsProgram(chain, mode, n, init, i);
      assert es == init + [e];
      if e.Op? && e.replica == i {
        OpFollows(Fresh(chain, mode, n), init, i, e.outcome);
      } else {
        OtherFollows(Fresh(chain, mode, n), init, e, i);
      }
    }
  }

  /** So ends every boot of every run of the system, from the replica's own outcomes and its own ledger read. */
  lemma RunExitExactly(chain: nat, mode: Mode, n: nat, es: seq<Event>, i: nat)
    requires var s := Run(Fresh(chain, mode, n), es); i < |s.replicas| && s.replicas[i].pc.Done?
    ensures var s := Run(Fresh(chain, mode, n), es);
      var script, loaded := Script(OpsOf(Fresh(chain, mode, n), es, i)), LoadedBy(Fresh(chain, mode, n), es, i);
      && (s.replicas[i].pc.exit.Postgres? <==> EndsPostgres(script, loaded, s.mode))
      && (s.replicas[i].pc.exit.Sqlite? <==> EndsSqlite(script, loaded, s.mode))
      && (s.replicas[i].pc.exit.Threw? <==> EndsThrown(script, loaded, s.mode))
  {
    var s0 := Fresh(chain, mode, n);
    SystemRunsProgram(chain, mode, n, es, i);
    ExitExactly(Script(OpsOf(s0, es, i)), LoadedBy(s0, es, i), Run(s0, es).mode, |OpsOf(s0, es, i)|);
  }
}
