/**
 * The WhatsApp Web build resolver: which build the registry's list yields, and the module state that
 * shares one fetch between callers, caches a success for good and rate-limits failures.
 *
 * The clock is Date.now(): positive and never going back. Promises are numbered as they are created.
 */
module WebVersion {
  import opened Wrappers

  const SETTLE_MS := 43_200_000
  const FAILURE_BACKOFF_MS := 60_000

  // ---------------------------------------------------------------- picking a settled build

  /** A registry entry. A field of the wrong type, or a date that does not parse, is None. */
  datatype Entry =
    | NotAnObject
    | Build(version: Option<string>, beta: bool, released: Option<int>, expire: Option<int>)

  predicate StartsWithDigit(v: string) {
    v != "" && '0' <= v[0] <= '9'
  }

  predicate Qualifies(e: Entry, now: int) {
    && e.Build?
    && e.version.Some? && StartsWithDigit(e.version.value)
    && !e.beta
    && e.released.Some? && e.released.value <= now - SETTLE_MS
    && (e.expire.Some? ==> now < e.expire.value)
  }

  /** What the loop holds after reading `vs`. */
  function Best(vs: seq<Entry>, now: int): (best: Option<Entry>)
    ensures best.Some? ==> Qualifies(best.value, now)
  {
    if vs == [] then None
    else
      var best := Best(vs[..|vs| - 1], now);
      var e := vs[|vs| - 1];
      if Qualifies(e, now) && (best.None? || best.value.released.value < e.released.value) then Some(e) else best
  }

  function Picked(versions: Option<seq<Entry>>, now: int, current: Option<string>): Option<string> {
    if versions.Some? && Best(versions.value, now).Some? then Best(versions.value, now).value.version else current
  }

  method PickSettledWebVersion(versions: Option<seq<Entry>>, now: int, current: Option<string>)
    returns (picked: Option<string>)
    ensures picked == Picked(versions, now, current)
  {
    if versions.None? { return current; }
    var settledCutoff := now - SETTLE_MS;
    var best: Option<Entry> := None;
    for i := 0 to |versions.value|
      invariant best == Best(versions.value[..i], now)
    {
      var e := versions.value[i];
      assert versions.value[..i + 1][..i] == versions.value[..i];
      if e.NotAnObject? { continue; }
      if e.version.None? || !StartsWithDigit(e.version.value) { continue; }
      if e.beta { continue; }
      if e.released.None? || e.released.value > settledCutoff { continue; }
      if e.expire.Some? && e.expire.value <= now { continue; }
      if best.None? || best.value.released.value < e.released.value {
        best := Some(e);
      }
    }
    assert versions.value[..|versions.value|] == versions.value;
    return if best.Some? then best.value.version else current;
  }

  /** `i` is the first entry of the latest release time among those that qualify. */
  ghost predicate FirstMaximal(vs: seq<Entry>, now: int, i: nat) {
    && i < |vs| && Qualifies(vs[i], now)
    && (forall j :: 0 <= j < i && Qualifies(vs[j], now) ==> vs[j].released.value < vs[i].released.value)
    && (forall j :: i < j < |vs| && Qualifies(vs[j], now) ==> vs[j].released.value <= vs[i].released.value)
  }

  lemma {:induction false} BestIsFirstMaximal(vs: seq<Entry>, now: int) returns (i: nat)
    ensures Best(vs, now).None? ==> forall j :: 0 <= j < |vs| ==> !Qualifies(vs[j], now)
    ensures Best(vs, now).Some? ==> FirstMaximal(vs, now, i) && Best(vs, now).value == vs[i]
  {
    i := 0;
    if vs != [] {
      var last := |vs| - 1;
      i := BestIsFirstMaximal(vs[..last], now);
      if Best(vs, now) != Best(vs[..last], now) || Best(vs[..last], now).None? {
        i := last;
      }
    }
  }

  /**
   * SETTLED PICK. With a list, the pick is the version of the first entry of maximal release time among
   * the non-beta, unexpired entries at least twelve hours old; `currentVersion` is used exactly when no
   * entry qualifies or there is no list.
   */
  lemma PickedIsNewestSettled(versions: Option<seq<Entry>>, now: int, current: Option<string>)
    ensures versions.None? ==> Picked(versions, now, current) == current
    ensures versions.Some? && (forall e :: e in versions.value ==> !Qualifies(e, now)) ==>
              Picked(versions, now, current) == current
    ensures versions.Some? && (exists e :: e in versions.value && Qualifies(e, now)) ==>
              exists i: nat ::
                FirstMaximal(versions.value, now, i) && Picked(versions, now, current) == versions.value[i].version
  {
    if versions.Some? {
      var i := BestIsFirstMaximal(versions.value, now);
    }
  }

  /** Entries that do not qualify are invisible, wherever in the list they stand. */
  lemma {:induction false} UnqualifiedIsInvisible(a: seq<Entry>, extra: seq<Entry>, b: seq<Entry>, now: int)
    requires forall e :: e in extra ==> !Qualifies(e, now)
    ensures Best(a + extra + b, now) == Best(a + b, now)
    decreases |b|, |extra|
  {
    var whole := a + extra + b;
    if b != [] {
      var init := b[..|b| - 1];
      assert whole[..|whole| - 1] == a + extra + init;
      assert (a + b)[..|a + b| - 1] == a + init;
      UnqualifiedIsInvisible(a, extra, init, now);
    } else if extra != [] {
      var init := extra[..|extra| - 1];
      assert whole[..|whole| - 1] == a + init + b;
      assert whole[|whole| - 1] == extra[|extra| - 1];
      UnqualifiedIsInvisible(a, init, b, now);
    } else {
      assert whole == a + b;
    }
  }

  /** Twelve hours, digits, no beta, no expiry: exactly what a build alone in the list must show to be picked. */
  lemma LoneBuildExactly(version: Option<string>, beta: bool, released: Option<int>, expire: Option<int>, now: int)
    ensures var picked := Picked(Some([Build(version, beta, released, expire)]), now, None);
      && (picked.Some? ==> picked == version)
      && (picked.Some? <==>
            && version.Some? && |version.value| > 0 && version.value[0] in "0123456789"
            && !beta
            && released.Some? && now - released.value >= 12 * 60 * 60 * 1000
            && !(expire.Some? && expire.value <= now))
  {
    var e := Build(version, beta, released, expire);
    assert [e][..0] == [];
    assert Best([e], now) == if Qualifies(e, now) then Some(e) else None;
    if version.Some? && version.value != "" { DigitExactly(version.value[0]); }
  }

  lemma DigitExactly(c: char)
    ensures '0' <= c <= '9' <==> c in "0123456789"
  {
    if '0' <= c <= '9' {
      assert c == "0123456789"[c as int - '0' as int];
    }
  }

  // ---------------------------------------------------------------- the resolver, specified

  datatype Reply =
    | NetworkError
    | HttpError(status: int)
    | BadBody
    | Json(current: Option<string>, versions: Option<seq<Entry>>)

  /** The build a settled fetch yields, or None for every way it can fail. */
  function Outcome(r: Reply, now: int): (v: Option<string>)
    ensures v.Some? ==> StartsWithDigit(v.value)
  {
    match r
    case Json(current, versions) => Picked(versions, now, Vetted(current))
    case _ => None
  }

  function Vetted(current: Option<string>): Option<string> {
    if current.Some? && StartsWithDigit(current.value) then current else None
  }

  /**
   * What a settled fetch may yield: the newest settled build of the list; without one the current version,
   * if it starts with a digit; nothing for an answer that is not a registry.
   */
  ghost predicate Yields(reply: Reply, now: int, v: Option<string>) {
    match reply
    case Json(current, versions) =>
      var vs := if versions.Some? then versions.value else [];
      if exists e :: e in vs && Qualifies(e, now) then
        exists i: nat :: FirstMaximal(vs, now, i) && v == vs[i].version
      else
        v == if current.Some? && |current.value| > 0 && '0' <= current.value[0] <= '9' then current else None
    case _ => v.None?
  }

  lemma OutcomeYields(reply: Reply, now: int)
    ensures Yields(reply, now, Outcome(reply, now))
  {
    if reply.Json? { PickedIsNewestSettled(reply.versions, now, Vetted(reply.current)); }
  }

  datatype Answer = Now(value: Option<string>) | Waits(id: nat)
  datatype Mark = Started(at: int) | Failed(at: int) | Resolved(version: string)

  /** `running` and `settled` are the promises created so far; `log` and `answers` are the history. */
  datatype State = State(
    cached: Option<string>, inFlight: Option<nat>, lastFailureAt: int,
    running: set<nat>, settled: map<nat, Option<string>>, next: nat,
    log: seq<Mark>, answers: seq<Answer>)

  const INIT := State(None, None, 0, {}, map[], 0, [], [])

  /** `suspends`: the fetcher returns a promise to wait on, rather than throwing before it does. */
  datatype Event = Call(now: int, suspends: bool) | Settles(now: int, id: nat, reply: Reply)

  predicate BackingOff(s: State, now: int) {
    s.lastFailureAt != 0 && now - s.lastFailureAt < FAILURE_BACKOFF_MS
  }

  predicate WouldFetch(s: State, now: int) {
    s.cached.None? && s.inFlight.None? && !BackingOff(s, now)
  }

  function AnswerTo(s: State, now: int): Answer {
    if s.cached.Some? then Now(s.cached)
    else if s.inFlight.Some? then Waits(s.inFlight.value)
    else if BackingOff(s, now) then Now(None)
    else Waits(s.next)
  }

  function Step(s: State, e: Event): State {
    match e
    case Call(now, suspends) =>
      var t := s.(answers := s.answers + [AnswerTo(s, now)]);
      if !WouldFetch(s, now) then t
      else if suspends then
        t.(inFlight := Some(s.next), running := s.running + {s.next}, next := s.next + 1, log := s.log + [Started(now)])
      else
        t.(inFlight := Some(s.next), settled := s.settled[s.next := None], next := s.next + 1,
           lastFailureAt := now, log := s.log + [Started(now), Failed(now)])
    case Settles(now, id, reply) =>
      if id !in s.running then s
      else
        var v := Outcome(reply, now);
        var t := s.(inFlight := None, running := s.running - {id}, settled := s.settled[id := v]);
        if v.Some? then t.(cached := v, log := s.log + [Resolved(v.value)])
        else t.(lastFailureAt := now, log := s.log + [Failed(now)])
  }

  function Run(s: State, es: seq<Event>): State {
    if es == [] then s else Step(Run(s, es[..|es| - 1]), es[|es| - 1])
  }

  /** Event times are positive and never go back. */
  predicate Timely(t: int, es: seq<Event>) {
    && (forall i :: 0 <= i < |es| ==> es[i].now > 0 && t <= es[i].now)
    && (forall i, j :: 0 <= i < j < |es| ==> es[i].now <= es[j].now)
  }

  predicate AlwaysSuspends(es: seq<Event>) {
    forall i :: 0 <= i < |es| && es[i].Call? ==> es[i].suspends
  }

  // ---------------------------------------------------------------- what every run keeps

  /** At most one fetch runs, and it is the one callers are told to wait for. */
  ghost predicate OneFetch(s: State) {
    && s.running == (if s.inFlight.Some? then {s.inFlight.value} else {})
    && (s.cached.Some? ==> s.inFlight.None?)
    && (forall id :: id in s.running || id in s.settled <==> 0 <= id < s.next)
    && s.running !! s.settled.Keys
  }

  /** Starts and ends alternate; nothing starts within the backoff of any earlier failure, or after a success. */
  ghost predicate GoodLog(s: State, t: int) {
    && |s.log| % 2 == |s.running|
    && (forall i :: 0 <= i < |s.log| ==> (s.log[i].Started? <==> i % 2 == 0))
    && (forall i :: 0 <= i < |s.log| && s.log[i].Failed? ==> 0 < s.log[i].at <= s.lastFailureAt)
    && s.lastFailureAt <= t
    && (forall i, j :: 0 <= i < j < |s.log| && s.log[i].Failed? && s.log[j].Started? ==>
          s.log[j].at - s.log[i].at >= FAILURE_BACKOFF_MS)
    && (forall i :: 0 <= i < |s.log| && s.log[i].Resolved? ==> i == |s.log| - 1 && s.cached == Some(s.log[i].version))
  }

  function ValueOf(s: State, a: Answer): Option<string> {
    match a
    case Now(v) => v
    case Waits(id) => if id in s.settled then s.settled[id] else None
  }

  /** A version anyone was given, or will be when their fetch settles, is the cached one. */
  ghost predicate OneVersion(s: State) {
    && (forall id :: id in s.settled && s.settled[id].Some? ==> s.settled[id] == s.cached)
    && (forall a :: a in s.answers && a.Now? && a.value.Some? ==> a.value == s.cached)
    && (forall a :: a in s.answers && a.Waits? ==> a.id in s.running || a.id in s.settled)
  }

  ghost predicate Healthy(s: State, t: int) {
    OneFetch(s) && GoodLog(s, t) && OneVersion(s)
  }

  lemma CallKeepsHealthy(s: State, t: int, now: int)
    requires Healthy(s, t) && t <= now && 0 < now
    ensures Healthy(Step(s, Call(now, true)), now)
  {
    var u := Step(s, Call(now, true));
    forall a | a in u.answers
      ensures a.Now? && a.value.Some? ==> a.value == u.cached
      ensures a.Waits? ==> a.id in u.running || a.id in u.settled
    {
      assert a in s.answers || a == AnswerTo(s, now);
    }
    if WouldFetch(s, now) {
      assert forall id :: id in u.running <==> id == s.next;
    }
  }

  lemma SettleKeepsOneFetch(s: State, now: int, id: nat, reply: Reply)
    requires OneFetch(s)
    ensures OneFetch(Step(s, Settles(now, id, reply)))
  {
    if id in s.running {
      assert s.running - {id} == {};
    }
  }

  lemma SettleKeepsLog(s: State, t: int, now: int, id: nat, reply: Reply)
    requires OneFetch(s) && GoodLog(s, t) && t <= now && 0 < now
    ensures GoodLog(Step(s, Settles(now, id, reply)), now)
  {
    var u := Step(s, Settles(now, id, reply));
    if id in s.running {
      assert s.running - {id} == {} && s.cached.None?;
      assert forall i :: 0 <= i < |s.log| ==> u.log[i] == s.log[i];
    }
  }

  lemma SettleKeepsHealthy(s: State, t: int, now: int, id: nat, reply: Reply)
    requires Healthy(s, t) && t <= now && 0 < now
    ensures Healthy(Step(s, Settles(now, id, reply)), now)
  {
    SettleKeepsOneFetch(s, now, id, reply);
    SettleKeepsLog(s, t, now, id, reply);
    assert OneVersion(Step(s, Settles(now, id, reply)));
  }

  lemma {:induction false} RunKeepsHealthy(s: State, t: int, es: seq<Event>)
    requires Healthy(s, t) && Timely(t, es) && AlwaysSuspends(es)
    ensures Healthy(Run(s, es), if es == [] then t else es[|es| - 1].now)
  {
    if es != [] {
      var n := |es| - 1;
      var before := if n == 0 then t else es[n - 1].now;
      RunKeepsHealthy(s, t, es[..n]);
      match es[n]
      case Call(now, _) => CallKeepsHealthy(Run(s, es[..n]), before, now);
      case Settles(now, id, reply) => SettleKeepsHealthy(Run(s, es[..n]), before, now, id, reply);
    }
  }

  /**
   * RESOLVER RUNS, for every run of calls and fetch outcomes with a fetcher that always suspends: each
   * fetch ends before the next starts, no fetch starts within 60 s of ANY earlier failure, none starts
   * after a success, and every non-null answer the process ever gives is the same version.
   */
  lemma ResolverRuns(es: seq<Event>)
    requires Timely(0, es) && AlwaysSuspends(es)
    ensures var s := Run(INIT, es);
      && |s.running| <= 1
      && (forall i :: 0 <= i < |s.log| ==> (s.log[i].Started? <==> i % 2 == 0))
      && (forall i, j :: 0 <= i < j < |s.log| && s.log[i].Failed? && s.log[j].Started? ==>
            s.log[j].at - s.log[i].at >= FAILURE_BACKOFF_MS)
      && (forall i, j :: 0 <= i < j < |s.log| && s.log[j].Started? ==> !s.log[i].Resolved?)
      && (forall a, b :: a in s.answers && b in s.answers && ValueOf(s, a).Some? && ValueOf(s, b).Some? ==>
            ValueOf(s, a) == ValueOf(s, b))
  {
    RunKeepsHealthy(INIT, 0, es);
  }

  /** Every failure and every success of the module is in its log. */
  ghost predicate Logged(s: State) {
    && (s.lastFailureAt != 0 ==> Failed(s.lastFailureAt) in s.log)
    && (s.cached.Some? ==> Resolved(s.cached.value) in s.log)
  }

  lemma {:induction false} RunKeepsLogged(es: seq<Event>)
    ensures Logged(Run(INIT, es))
  {
    if es != [] {
      RunKeepsLogged(es[..|es| - 1]);
      StepKeepsLogged(Run(INIT, es[..|es| - 1]), es[|es| - 1]);
    }
  }

  lemma StepKeepsLogged(s: State, e: Event)
    requires Logged(s)
    ensures Logged(Step(s, e))
  {
  }

  ghost predicate NoSuccess(log: seq<Mark>) {
    forall m :: m in log ==> !m.Resolved?
  }

  /** No failure in the last sixty seconds. */
  ghost predicate Rested(log: seq<Mark>, now: int) {
    forall m :: m in log && m.Failed? ==> now - m.at >= 60_000
  }

  lemma CachedIsSuccess(s: State, t: int)
    requires GoodLog(s, t) && Logged(s)
    ensures s.cached.None? <==> NoSuccess(s.log)
  {
  }

  lemma RunningIsStarted(s: State, t: int)
    requires OneFetch(s) && GoodLog(s, t)
    ensures s.inFlight.None? <==> s.log == [] || !s.log[|s.log| - 1].Started?
  {
  }

  lemma RestedExactly(s: State, t: int, now: int)
    requires GoodLog(s, t) && Logged(s)
    ensures BackingOff(s, now) <==> !Rested(s.log, now)
  {
    if s.lastFailureAt != 0 { assert Failed(s.lastFailureAt) in s.log; }
    forall m | m in s.log && m.Failed? ensures 0 < m.at <= s.lastFailureAt {
    }
  }

  /** No fetch has succeeded, none is running, and the last sixty seconds saw none fail. */
  ghost predicate MayFetch(log: seq<Mark>, now: int) {
    NoSuccess(log) && (log == [] || !log[|log| - 1].Started?) && Rested(log, now)
  }

  lemma FetchesExactly(s: State, t: int, now: int)
    requires Healthy(s, t) && Logged(s)
    ensures Step(s, Call(now, true)).log == if MayFetch(s.log, now) then s.log + [Started(now)] else s.log
  {
    CachedIsSuccess(s, t);
    RunningIsStarted(s, t);
    RestedExactly(s, t, now);
  }

  lemma RunSnoc(s: State, es: seq<Event>, e: Event)
    ensures Run(s, es + [e]) == Step(Run(s, es), e)
  {
    assert (es + [e])[..|es|] == es;
  }

  /**
   * WHEN A CALL FETCHES, exactly: after any run, a call starts a fetch if and only if no fetch has succeeded,
   * none is running and the last 60 seconds saw none fail. Any other call leaves the log alone.
   */
  lemma {:induction false} FetchStartsExactly(es: seq<Event>, now: int)
    requires Timely(0, es) && AlwaysSuspends(es)
    ensures var log := Run(INIT, es).log;
      Run(INIT, es + [Call(now, true)]).log
        == if MayFetch(log, now) then log + [Started(now)] else log
  {
    RunKeepsHealthy(INIT, 0, es);
    RunKeepsLogged(es);
    FetchesExactly(Run(INIT, es), if es == [] then 0 else es[|es| - 1].now, now);
    RunSnoc(INIT, es, Call(now, true));
  }

  /** The `n`-th event of `es` settled the fetch `id`, with the value `v`. */
  ghost predicate SettledAt(es: seq<Event>, n: nat, id: nat, v: Option<string>) {
    n < |es| && es[n].Settles? && es[n].id == id && Yields(es[n].reply, es[n].now, v)
  }

  /**
   * EVERY SETTLED FETCH, over every run: its value is what its own reply yields at the instant it came; a
   * version is what the module has cached, and a null was recorded as a failure at that instant.
   */
  lemma {:induction false} SettledFetchExactly(es: seq<Event>, id: nat) returns (n: nat)
    requires Timely(0, es) && AlwaysSuspends(es) && id in Run(INIT, es).settled
    ensures var s, v := Run(INIT, es), Run(INIT, es).settled[id];
      && SettledAt(es, n, id, v)
      && (v.Some? ==> s.cached == v)
      && (v.None? ==> Failed(es[n].now) in s.log)
  {
    var last := |es| - 1;
    var s, e := Run(INIT, es[..last]), es[last];
    RunKeepsHealthy(INIT, 0, es[..last]);
    if id in s.settled {
      n := SettledFetchExactly(es[..last], id);
      StepExtends(s, e);
      LogGrows(s, e);
    } else {
      n := last;
      FreshlySettled(s, e, id);
    }
  }

  lemma LogGrows(s: State, e: Event)
    ensures s.log <= Step(s, e).log
  {
  }

  lemma FreshlySettled(s: State, e: Event, id: nat)
    requires id !in s.settled && id in Step(s, e).settled && (e.Call? ==> e.suspends)
    ensures e.Settles? && e.id == id
    ensures var u := Step(s, e);
      && Yields(e.reply, e.now, u.settled[id])
      && (u.settled[id].Some? ==> u.cached == u.settled[id])
      && (u.settled[id].None? ==> Failed(e.now) in u.log)
  {
    if e.Settles? { OutcomeYields(e.reply, e.now); }
  }

  /** `u` keeps every settled promise, the cached version and the answers of `s`. */
  ghost predicate Extends(s: State, u: State) {
    && (forall id :: id in s.settled ==> id in u.settled && u.settled[id] == s.settled[id])
    && (s.cached.Some? ==> u.cached == s.cached && u.log == s.log)
    && s.answers <= u.answers
  }

  lemma StepExtends(s: State, e: Event)
    requires OneFetch(s) && (e.Call? ==> e.suspends)
    ensures Extends(s, Step(s, e))
  {
    if e.Settles? && e.id in s.running {
      assert s.running == {s.inFlight.value};
    }
  }

  /** A settled promise and the cached version never change, whatever happens next. */
  lemma {:induction false} NothingIsRevised(s: State, t: int, es: seq<Event>)
    requires Healthy(s, t) && Timely(t, es) && AlwaysSuspends(es)
    ensures Extends(s, Run(s, es))
  {
    if es != [] {
      var n := |es| - 1;
      var mid := Run(s, es[..n]);
      NothingIsRevised(s, t, es[..n]);
      RunKeepsHealthy(s, t, es[..n]);
      StepExtends(mid, es[n]);
      ExtendsIsTransitive(s, mid, Run(s, es));
    }
  }

  lemma ExtendsIsTransitive(s: State, u: State, w: State)
    requires Extends(s, u) && Extends(u, w)
    ensures Extends(s, w)
  {
  }

  predicate AllCalls(es: seq<Event>) {
    forall i :: 0 <= i < |es| ==> es[i].Call?
  }

  /** While a fetch runs, any number of callers are handed that fetch, and none is started. */
  lemma {:induction false} CallersShare(s: State, id: nat, calls: seq<Event>)
    requires OneFetch(s) && id in s.running && AllCalls(calls)
    ensures var u := Run(s, calls);
      && u == s.(answers := u.answers)
      && |u.answers| == |s.answers| + |calls| && s.answers <= u.answers
      && forall i :: |s.answers| <= i < |u.answers| ==> u.answers[i] == Waits(id)
  {
    if calls != [] {
      CallersShare(s, id, calls[..|calls| - 1]);
      assert id == s.inFlight.value;
    }
  }

  /**
   * ONE FETCH, ONE ANSWER: everyone who was waiting on a fetch, and everyone who calls before it settles,
   * gets what it settled with, whatever happens afterwards; a success is also every later answer.
   */
  lemma WaitersAndSuccessors(
    s: State, t: int, calls: seq<Event>, now: int, id: nat, reply: Reply, es: seq<Event>, later: int)
    requires Healthy(s, t) && id in s.running && AllCalls(calls)
    requires Timely(t, calls) && AlwaysSuspends(calls)
    requires 0 < now && t <= now && (calls != [] ==> calls[|calls| - 1].now <= now)
    requires Timely(now, es) && AlwaysSuspends(es)
    ensures var v, mid := Outcome(reply, now), Run(s, calls);
      var u := Run(Step(mid, Settles(now, id, reply)), es);
      && mid.log == s.log
      && s.answers + seq(|calls|, _ => Waits(id)) <= u.answers
      && ValueOf(u, Waits(id)) == v
      && (v.Some? ==> AnswerTo(u, later) == Now(v))
  {
    var mid := Run(s, calls);
    CallersShare(s, id, calls);
    RunKeepsHealthy(s, t, calls);
    var before := if calls == [] then t else calls[|calls| - 1].now;
    var w := Step(mid, Settles(now, id, reply));
    SettleKeepsHealthy(mid, before, now, id, reply);
    NothingIsRevised(w, now, es);
    assert mid.answers == s.answers + seq(|calls|, _ => Waits(id));
    assert id in w.settled;
  }

  // ---------------------------------------------------------------- a fetcher that throws at once

  /** The in-flight slot holds a promise that already settled with null: nobody is left to clear it. */
  ghost predicate Stuck(s: State) {
    && s.cached.None? && s.inFlight.Some? && s.running == {}
    && s.inFlight.value in s.settled && s.settled[s.inFlight.value] == None
  }

  /**
   * The clean-up of a fetcher that throws before suspending runs before the slot is assigned, so the
   * slot keeps a dead promise. One call keeps the resolver healthy exactly when its fetcher suspends or
   * is not reached at all.
   */
  lemma ThrowingFetcherExactly(s: State, t: int, now: int, suspends: bool)
    requires Healthy(s, t) && t <= now && 0 < now
    ensures Healthy(Step(s, Call(now, suspends)), now) <==> suspends || !WouldFetch(s, now)
    ensures !suspends && WouldFetch(s, now) ==> Stuck(Step(s, Call(now, suspends)))
  {
    CallKeepsHealthy(s, t, now);
    if !suspends && !WouldFetch(s, now) {
      assert Step(s, Call(now, suspends)) == Step(s, Call(now, true));
    }
  }

  /** Once stuck, no run ever starts another fetch, and every later caller is answered null. */
  lemma {:induction false} StuckForever(s: State, es: seq<Event>)
    requires Stuck(s)
    ensures var u := Run(s, es);
      && Stuck(u) && u.log == s.log && u.inFlight == s.inFlight
      && |s.answers| <= |u.answers|
      && forall i :: |s.answers| <= i < |u.answers| ==> ValueOf(u, u.answers[i]) == None
  {
    if es != [] { StuckForever(s, es[..|es| - 1]); }
  }

  /** The run that shows it: the first fetcher throws, and a good one an hour later is never called. */
  lemma ThrowingFetcherExample()
    ensures var u := Run(INIT, [Call(1, false), Call(3_600_001, true)]);
      u.log == [Started(1), Failed(1)] && ValueOf(u, u.answers[1]) == None
  {
    var es := [Call(1, false), Call(3_600_001, true)];
    assert es[..1] == [Call(1, false)] && es[..1][..0] == [];
    assert Run(INIT, []) == INIT;
    assert Run(INIT, es[..1]) == Step(INIT, Call(1, false));
  }

  // ---------------------------------------------------------------- the module

  class Resolver {
    var cachedCurrentVersion: Option<string>
    var inFlight: Option<nat>
    var lastFailureAt: int
    // The promises the module has created.
    var running: set<nat>
    var settled: map<nat, Option<string>>
    var next: nat
    ghost var log: seq<Mark>
    ghost var answers: seq<Answer>

    ghost function Model(): State
      reads this
    {
      State(cachedCurrentVersion, inFlight, lastFailureAt, running, settled, next, log, answers)
    }

    constructor ()
      ensures Model() == INIT
    {
      cachedCurrentVersion, inFlight, lastFailureAt := None, None, 0;
      running, settled, next := {}, map[], 0;
      log, answers := [], [];
    }

    method ResolveCurrentWebVersion(now: int, suspends: bool) returns (answer: Answer)
      modifies this
      ensures Model() == Step(old(Model()), Call(now, suspends))
      ensures answer == AnswerTo(old(Model()), now)
    {
      answer := Now(None);
      if cachedCurrentVersion.Some? {
        answer := Now(cachedCurrentVersion);
      } else if inFlight.Some? {
        answer := Waits(inFlight.value);
      } else if lastFailureAt != 0 && now - lastFailureAt < FAILURE_BACKOFF_MS {
        answer := Now(None);
      } else {
        var promise := StartFetch(now, suspends);
        inFlight := Some(promise);
        answer := Waits(promise);
      }
      answers := answers + [answer];
    }

    /** The async body, up to its first await or, when the fetcher throws, to its end. */
    method StartFetch(now: int, suspends: bool) returns (promise: nat)
      modifies this`next, this`running, this`settled, this`lastFailureAt, this`inFlight, this`log
      ensures promise == old(next) && next == promise + 1
      ensures suspends ==> running == old(running) + {promise} && settled == old(settled)
                           && lastFailureAt == old(lastFailureAt) && log == old(log) + [Started(now)]
      ensures !suspends ==> running == old(running) && settled == old(settled)[promise := None] && inFlight == None
                            && lastFailureAt == now && log == old(log) + [Started(now), Failed(now)]
    {
      promise := next;
      next := next + 1;
      log := log + [Started(now)];
      if suspends {
        running := running + {promise};
      } else {
        lastFailureAt := now;
        log := log + [Failed(now)];
        settled := settled[promise := None];
        inFlight := None;
      }
    }

    /** The rest of the async body, when the fetch and the body's parsing have an outcome. */
    method OnReply(now: int, id: nat, reply: Reply)
      requires id in running
      modifies this
      ensures Model() == Step(old(Model()), Settles(now, id, reply))
      ensures inFlight.None? && running == old(running) - {id} && next == old(next) && answers == old(answers)
      ensures id in settled && settled == old(settled)[id := settled[id]] && Yields(reply, now, settled[id])
      ensures settled[id].Some? ==>
        && cachedCurrentVersion == settled[id]
        && lastFailureAt == old(lastFailureAt) && log == old(log) + [Resolved(settled[id].value)]
      ensures settled[id].None? ==>
        && cachedCurrentVersion == old(cachedCurrentVersion)
        && lastFailureAt == now && log == old(log) + [Failed(now)]
    {
      OutcomeYields(reply, now);
      var picked: Option<string> := None;
      match reply {
        case Json(current, versions) =>
          var rawCurrent := if current.Some? && StartsWithDigit(current.value) then current else None;
          picked := PickSettledWebVersion(versions, now, rawCurrent);
        case _ =>
      }
      if picked.Some? && picked.value != "" {
        cachedCurrentVersion := picked;
        log := log + [Resolved(picked.value)];
      } else {
        lastFailureAt := now;
        log := log + [Failed(now)];
      }
      inFlight := None;
      running := running - {id};
      settled := settled[id := picked];
    }

    /** Every run of the module is a run of the specification. */
    method Drive(es: seq<Event>)
      modifies this
      ensures Model() == Run(old(Model()), es)
    {
      ghost var start := Model();
      for n := 0 to |es|
        invariant Model() == Run(start, es[..n])
      {
        assert es[..n + 1][..n] == es[..n];
        match es[n]
        case Call(now, suspends) => var _ := ResolveCurrentWebVersion(now, suspends);
        case Settles(now, id, reply) => if id in running { OnReply(now, id, reply); }
      }
      assert es[..|es|] == es;
    }
  }
}
