/**
 * Optimistic writes to a chat's paged cache while a page is in flight.
 *
 * A page that lands overwrites the cache with a value computed from an older snapshot, so a write made
 * meanwhile is queued and re-applied when the fetch settles. The specification below never mentions
 * object identity, subscriptions or listeners: a landed page simply gets every write made since the
 * fetch began. The class `ChatCache` has to get there with an identity comparison and one listener
 * per key.
 */
module MessageReplay {
  import opened Wrappers

  /**
   * One cache write: `f` builds a new value, except where `keeps` says that it hands back its argument
   * itself, the very same object.
   */
  datatype Transform<!C> = Transform(f: C -> C, keeps: C -> bool) {
    function Apply(c: C): C {
      if keeps(c) then c else f(c)
    }
  }

  function Fold<C>(ts: seq<Transform<C>>, c: C): C {
    if ts == [] then c else ts[|ts| - 1].Apply(Fold(ts[..|ts| - 1], c))
  }

  datatype Status = Idle | Fetching | Paused

  /** What one chat's slice holds, and the writes a landing page would lose. */
  datatype View<!C> = View(content: Option<C>, status: Status, pending: seq<Transform<C>>)

  datatype Event<K, !C> =
    | Open(key: K)
    | Start(key: K)
    | Pause(key: K)
    | Resume(key: K)
    | Restart(key: K)            // another fetch replaces the one in flight, without passing through idle
    | Land(key: K, page: C)
    | Fail(key: K)
    | Remove(key: K)
    | Write(key: K, t: Transform<C>)
    | Mount(key: K)

  type Views<K, !C> = map<K, View<C>>

  ghost function Written<C>(v: View<C>, t: Transform<C>): View<C> {
    if v.content.None? then v
    else View(Some(t.Apply(v.content.value)), v.status, if v.status.Idle? then v.pending else v.pending + [t])
  }

  /** The settled view: a landed page plus the queued writes, or what the last write left. */
  ghost function Settled<C>(v: View<C>, page: Option<C>): View<C> {
    View(if page.Some? then Some(Fold(v.pending, page.value)) else v.content, Idle, [])
  }

  ghost function Step<K, C>(s: Views<K, C>, e: Event<K, C>): Views<K, C> {
    if e.key !in s then (if e.Open? then s[e.key := View(None, Idle, [])] else s)
    else
      var v := s[e.key];
      match e
      case Start(k) => if v.status.Idle? then s[k := v.(status := Fetching)] else s
      case Pause(k) => if v.status.Fetching? then s[k := v.(status := Paused)] else s
      case Resume(k) => if v.status.Paused? then s[k := v.(status := Fetching)] else s
      case Restart(k) => if v.status.Idle? then s else s[k := v.(status := Fetching)]
      case Land(k, page) => if v.status.Fetching? then s[k := Settled(v, Some(page))] else s
      case Fail(k) => if v.status.Idle? then s else s[k := Settled(v, None)]
      case Remove(k) => s - {k}
      case Write(k, t) => s[k := Written(v, t)]
      case Open(_) => s
      case Mount(_) => s
  }

  ghost function Run<K, C>(s: Views<K, C>, es: seq<Event<K, C>>): Views<K, C> {
    if es == [] then s else Step(Run(s, es[..|es| - 1]), es[|es| - 1])
  }

  // ---------------------------------------------------------------- what a settled fetch leaves

  /** The writes a run makes to one chat, in order. */
  ghost function WritesTo<K, C>(es: seq<Event<K, C>>, k: K): seq<Transform<C>> {
    if es == [] then []
    else
      var e := es[|es| - 1];
      var ws := WritesTo(es[..|es| - 1], k);
      if e.Write? && e.key == k then ws + [e.t] else ws
  }

  /** Between a fetch's start and its settling the chat sees only these; other chats see anything. */
  ghost predicate InFlightFor<K, C>(es: seq<Event<K, C>>, k: K) {
    forall e :: e in es && e.key == k ==> !e.Land? && !e.Fail? && !e.Remove?
  }

  /** In flight, the chat's content and queue are the writes made so far. */
  ghost predicate Carries<K, C>(s: Views<K, C>, k: K, d0: C, ws: seq<Transform<C>>) {
    k in s && !s[k].status.Idle? && s[k].content == Some(Fold(ws, d0)) && s[k].pending == ws
  }

  lemma CarriesStep<K, C>(s: Views<K, C>, e: Event<K, C>, k: K, d0: C, ws: seq<Transform<C>>)
    requires Carries(s, k, d0, ws)
    requires e.key == k ==> !e.Land? && !e.Fail? && !e.Remove?
    ensures Carries(Step(s, e), k, d0, if e.Write? && e.key == k then ws + [e.t] else ws)
  {
    if e.Write? && e.key == k {
      assert (ws + [e.t])[..|ws|] == ws;
    }
  }

  lemma {:induction false} InFlightRun<K, C>(s: Views<K, C>, es: seq<Event<K, C>>, k: K, d0: C)
    requires k in s && s[k] == View(Some(d0), Idle, []) && InFlightFor(es, k)
    ensures Carries(Run(s, [Start(k)] + es), k, d0, WritesTo(es, k))
  {
    var all := [Start(k)] + es;
    if es == [] {
      assert all[..0] == [] && Run(s, all[..0]) == s;
    } else {
      var init := es[..|es| - 1];
      assert all[..|all| - 1] == [Start(k)] + init && all[|all| - 1] == es[|es| - 1];
      assert forall e :: e in init ==> e in es;
      assert es[|es| - 1] in es;
      InFlightRun(s, init, k, d0);
      CarriesStep(Run(s, [Start(k)] + init), es[|es| - 1], k, d0, WritesTo(init, k));
    }
  }

  /**
   * NO LOST WRITE: for every run of writes, pauses, resumes and restarts until a fetch settles, whatever
   * happens to other chats meanwhile, the idle cache holds every queued write folded once and in order over the
   * page that landed; if the fetch failed, over the value the fetch started from.
   */
  lemma NoLostWrite<K, C>(s: Views<K, C>, es: seq<Event<K, C>>, k: K, d0: C, page: C)
    requires k in s && s[k] == View(Some(d0), Idle, []) && InFlightFor(es, k)
    ensures var m := Run(s, [Start(k)] + es);
            && k in m
            && (m[k].status.Fetching? ==>
                  Step(m, Land(k, page))[k] == View(Some(Fold(WritesTo(es, k), page)), Idle, []))
            && Step(m, Fail(k))[k] == View(Some(Fold(WritesTo(es, k), d0)), Idle, [])
  {
    InFlightRun(s, es, k, d0);
  }

  /** A write takes effect at once in every state with data, whatever the fetch is doing; it queues while one is out. */
  lemma WriteTakesEffect<K, C>(s: Views<K, C>, k: K, t: Transform<C>)
    requires k in s && s[k].content.Some?
    ensures var u := Step(s, Write(k, t));
      && u.Keys == s.Keys && (forall j :: j in s && j != k ==> u[j] == s[j])
      && u[k].content == Some(t.Apply(s[k].content.value)) && u[k].status == s[k].status
      && u[k].pending == if s[k].status.Idle? then s[k].pending else s[k].pending + [t]
  {
  }

  /** The chat's query is there throughout and never starts a fetch. */
  ghost predicate IdleFor<K, C>(es: seq<Event<K, C>>, k: K) {
    forall e :: e in es && e.key == k ==> !e.Start? && !e.Remove?
  }

  /** With no fetch out, a run leaves every write made to the chat folded over what it held, and nothing queued. */
  lemma {:induction false} IdleRunFolds<K, C>(s: Views<K, C>, es: seq<Event<K, C>>, k: K, d0: C)
    requires k in s && s[k] == View(Some(d0), Idle, []) && IdleFor(es, k)
    ensures k in Run(s, es) && Run(s, es)[k] == View(Some(Fold(WritesTo(es, k), d0)), Idle, [])
  {
    if es != [] {
      var init, e := es[..|es| - 1], es[|es| - 1];
      assert forall x :: x in init ==> x in es;
      assert e in es;
      IdleRunFolds(s, init, k, d0);
      IdleStepFolds(Run(s, init), e, k, d0, WritesTo(init, k));
    }
  }

  lemma IdleStepFolds<K, C>(s: Views<K, C>, e: Event<K, C>, k: K, d0: C, ws: seq<Transform<C>>)
    requires k in s && s[k] == View(Some(Fold(ws, d0)), Idle, []) && (e.key == k ==> !e.Start? && !e.Remove?)
    ensures k in Step(s, e)
    ensures Step(s, e)[k] == View(Some(Fold(if e.Write? && e.key == k then ws + [e.t] else ws, d0)), Idle, [])
  {
    if e.Write? && e.key == k {
      assert (ws + [e.t])[..|ws|] == ws;
    }
  }

  // ---------------------------------------------------------------- pages that already reflect a write

  lemma {:induction false} FoldConcat<C>(a: seq<Transform<C>>, b: seq<Transform<C>>, c: C)
    ensures Fold(a + b, c) == Fold(b, Fold(a, c))
  {
    if b == [] {
      assert a + b == a;
    } else {
      assert (a + b)[..|a + b| - 1] == a + b[..|b| - 1];
      FoldConcat(a, b[..|b| - 1], c);
    }
  }

  /** Replaying a queue over a state that has been through all of it changes nothing. */
  ghost predicate ReplayIdempotent<C(!new)>(ts: seq<Transform<C>>) {
    forall c: C :: Fold(ts, Fold(ts, c)) == Fold(ts, c)
  }

  /** Replaying a queue over a state that has been through any first part of it ends where the queue does. */
  ghost predicate Absorbs<C(!new)>(ts: seq<Transform<C>>) {
    forall n: nat, c: C :: n <= |ts| ==> Fold(ts, Fold(ts[..n], c)) == Fold(ts, c)
  }

  /** A queue absorbs its own first parts exactly when each of those is harmless to replay. */
  lemma AbsorbsExactly<C(!new)>(ts: seq<Transform<C>>)
    ensures (forall n: nat :: n <= |ts| ==> Absorbs(ts[..n]))
            <==> (forall n: nat :: n <= |ts| ==> ReplayIdempotent(ts[..n]))
  {
    if forall n: nat :: n <= |ts| ==> Absorbs(ts[..n]) {
      forall n: nat | n <= |ts| ensures ReplayIdempotent(ts[..n]) {
        assert Absorbs(ts[..n]) && ts[..n][..n] == ts[..n];
      }
    }
    if forall n: nat :: n <= |ts| ==> ReplayIdempotent(ts[..n]) {
      forall n: nat, m: nat, c: C | n <= |ts| && m <= n
        ensures Fold(ts[..n], Fold(ts[..n][..m], c)) == Fold(ts[..n], c)
      {
        assert ReplayIdempotent(ts[..m]) && ts[..n][..m] == ts[..m];
        var p, q := ts[..m], ts[m..n];
        assert ts[..n] == p + q;
        FoldConcat(p, q, Fold(p, c));
        FoldConcat(p, q, c);
      }
    }
  }

  /** Each write is idempotent, and any two can be swapped. */
  ghost predicate Orderless<C(!new)>(ts: seq<Transform<C>>) {
    && (forall i, c: C :: 0 <= i < |ts| ==> ts[i].Apply(ts[i].Apply(c)) == ts[i].Apply(c))
    && (forall i, j, c: C :: 0 <= i < |ts| && 0 <= j < |ts| ==>
          ts[i].Apply(ts[j].Apply(c)) == ts[j].Apply(ts[i].Apply(c)))
  }

  lemma {:induction false} SwapsThrough<C(!new)>(ts: seq<Transform<C>>, n: nat, i: nat, c: C)
    requires Orderless(ts) && n <= |ts| && i < |ts|
    ensures Fold(ts[..n], ts[i].Apply(c)) == ts[i].Apply(Fold(ts[..n], c))
  {
    if n > 0 {
      assert ts[..n][..n - 1] == ts[..n - 1];
      SwapsThrough(ts, n - 1, i, c);
    }
  }

  /** Idempotent writes in any order make a queue that is harmless to replay. */
  lemma {:induction false} OrderlessIsIdempotent<C(!new)>(ts: seq<Transform<C>>, n: nat, c: C)
    requires Orderless(ts) && n <= |ts|
    ensures Fold(ts[..n], Fold(ts[..n], c)) == Fold(ts[..n], c)
  {
    if n > 0 {
      var init, t := ts[..n - 1], ts[n - 1];
      assert ts[..n][..n - 1] == init;
      OrderlessIsIdempotent(ts, n - 1, c);
      SwapsThrough(ts, n - 1, n - 1, Fold(init, c));
    }
  }

  lemma OrderlessAbsorbs<C(!new)>(ts: seq<Transform<C>>)
    requires Orderless(ts)
    ensures Absorbs(ts)
    ensures forall n: nat :: n <= |ts| ==> ReplayIdempotent(ts[..n])
  {
    forall n: nat | n <= |ts| ensures ReplayIdempotent(ts[..n]) {
      forall c: C ensures Fold(ts[..n], Fold(ts[..n], c)) == Fold(ts[..n], c) {
        OrderlessIsIdempotent(ts, n, c);
      }
    }
    AbsorbsExactly(ts);
    assert Absorbs(ts[..|ts|]) && ts[..|ts|] == ts;
  }

  /**
   * A PAGE THAT ALREADY REFLECTS WRITES: if the landing page was computed after the first `n` of the
   * queued writes, as the page of a restarted fetch can be, the replay still leaves each write's effect
   * once, provided each first part of the queue is harmless to replay over its own result.
   */
  lemma ReflectedPageSettles<K, C(!new)>(s: Views<K, C>, es: seq<Event<K, C>>, k: K, d0: C, base: C, n: nat)
    requires k in s && s[k] == View(Some(d0), Idle, []) && InFlightFor(es, k)
    requires n <= |WritesTo(es, k)|
    requires forall m: nat :: m <= |WritesTo(es, k)| ==> ReplayIdempotent(WritesTo(es, k)[..m])
    ensures var ws, m := WritesTo(es, k), Run(s, [Start(k)] + es);
            k in m && (m[k].status.Fetching? ==>
              Step(m, Land(k, Fold(ws[..n], base)))[k] == View(Some(Fold(ws, base)), Idle, []))
  {
    var ws := WritesTo(es, k);
    NoLostWrite(s, es, k, d0, Fold(ws[..n], base));
    AbsorbsExactly(ws);
    assert Absorbs(ws[..|ws|]) && ws[..|ws|] == ws;
  }

  const FIRST: Transform<int> := Transform(c => if c == 0 then 1 else if c == 2 then 3 else c, c => false)
  const SECOND: Transform<int> := Transform(c => if c == 1 then 2 else c, c => false)

  lemma FoldTwo<C>(a: Transform<C>, b: Transform<C>, c: C)
    ensures Fold([a, b], c) == b.Apply(a.Apply(c))
  {
    assert [a, b][..1] == [a] && [a][..0] == [];
    assert Fold([a], c) == a.Apply(c);
  }

  /** Idempotence of each write alone is not enough: these two are, and replaying both over both is not. */
  lemma IdempotentWritesCanClash()
    ensures forall c: int :: FIRST.Apply(FIRST.Apply(c)) == FIRST.Apply(c)
    ensures forall c: int :: SECOND.Apply(SECOND.Apply(c)) == SECOND.Apply(c)
    ensures Fold([FIRST, SECOND], 0) == 2 && Fold([FIRST, SECOND], Fold([FIRST, SECOND], 0)) == 3
  {
    FoldTwo(FIRST, SECOND, 0);
    FoldTwo(FIRST, SECOND, 2);
  }

  // ---------------------------------------------------------------- reachable states

  ghost predicate Quiescent<K, C>(s: Views<K, C>) {
    forall k :: k in s && (s[k].status.Idle? || s[k].content.None?) ==> s[k].pending == []
  }

  /** An idle chat never has writes queued, and no write ever creates a slice that had no data. */
  lemma {:induction false} IdleHasNothingQueued<K, C>(es: seq<Event<K, C>>)
    ensures Quiescent(Run<K, C>(map[], es))
  {
    if es != [] {
      var init := es[..|es| - 1];
      IdleHasNothingQueued(init);
      StepKeepsQuiescent(Run<K, C>(map[], init), es[|es| - 1]);
    }
  }

  lemma StepKeepsQuiescent<K, C>(s: Views<K, C>, e: Event<K, C>)
    requires Quiescent(s)
    ensures Quiescent(Step(s, e))
    ensures e.Write? ==> Step(s, e).Keys == s.Keys
    ensures forall k :: k in s && s[k].content.None? && k in Step(s, e) && Step(s, e)[k].content.Some? ==> e.Land?
  {
  }

  // ---------------------------------------------------------------- the cache

  /** A cache value. Two values are the same only if they are the same object. */
  class Slice<C> {
    const content: C

    constructor (content: C)
      ensures this.content == content
    {
      this.content := content;
    }
  }

  datatype Query<C> = Query(data: Option<Slice<C>>, status: Status)

  datatype PendingWrite<!C> = PendingWrite(t: Transform<C>, wrote: Slice<C>)

  ghost function Transforms<C>(queue: seq<PendingWrite<C>>): (ts: seq<Transform<C>>)
    ensures |ts| == |queue|
    ensures forall i :: 0 <= i < |queue| ==> ts[i] == queue[i].t
  {
    if queue == [] then [] else Transforms(queue[..|queue| - 1]) + [queue[|queue| - 1].t]
  }

  function QueueOf<K, C>(writes: map<K, seq<PendingWrite<C>>>, k: K): seq<PendingWrite<C>> {
    if k in writes then writes[k] else []
  }

  /** The specification's picture of the cache: contents instead of objects. */
  ghost function ViewOf<C>(q: Query<C>, queue: seq<PendingWrite<C>>): View<C> {
    View(match q.data { case Some(d) => Some(d.content) case None => None }, q.status, Transforms(queue))
  }

  ghost function ViewsOf<K, C>(qs: map<K, Query<C>>, writes: map<K, seq<PendingWrite<C>>>): Views<K, C> {
    map k | k in qs :: ViewOf(qs[k], QueueOf(writes, k))
  }

  /** A queue exists only while its fetch is out, and its last write produced the object now cached. */
  ghost predicate QueueOk<C>(q: Query<C>, queue: seq<PendingWrite<C>>) {
    queue != [] && !q.status.Idle? && q.data == Some(queue[|queue| - 1].wrote)
  }

  ghost predicate QueuesOk<K(!new), C>(qs: map<K, Query<C>>, writes: map<K, seq<PendingWrite<C>>>) {
    forall k :: k in writes ==> k in qs && QueueOk(qs[k], writes[k])
  }

  /** Two states of the cache agree on every chat but `k`. */
  ghost predicate SameElsewhere<K(!new), C>(
    qs: map<K, Query<C>>, ws: map<K, seq<PendingWrite<C>>>,
    qs': map<K, Query<C>>, ws': map<K, seq<PendingWrite<C>>>, k: K)
  {
    && (forall j :: j != k ==> (j in qs' <==> j in qs) && (j in ws' <==> j in ws))
    && (forall j :: j != k && j in qs ==> qs'[j] == qs[j])
    && (forall j :: j != k && j in ws ==> ws'[j] == ws[j])
  }

  lemma QueuesKept<K(!new), C>(
    qs: map<K, Query<C>>, ws: map<K, seq<PendingWrite<C>>>,
    qs': map<K, Query<C>>, ws': map<K, seq<PendingWrite<C>>>, k: K)
    requires QueuesOk(qs, ws) && SameElsewhere(qs, ws, qs', ws', k)
    requires k in ws' ==> k in qs' && QueueOk(qs'[k], ws'[k])
    ensures QueuesOk(qs', ws')
  {
    forall j | j in ws' ensures j in qs' && QueueOk(qs'[j], ws'[j]) {
      if j != k { assert QueueOk(qs[j], ws[j]); }
    }
  }

  /** A change confined to one chat changes that chat's view and no other. */
  lemma UpdatedChat<K(!new), C>(
    qs: map<K, Query<C>>, ws: map<K, seq<PendingWrite<C>>>,
    qs': map<K, Query<C>>, ws': map<K, seq<PendingWrite<C>>>, k: K)
    requires QueuesOk(qs, ws) && SameElsewhere(qs, ws, qs', ws', k)
    requires k in qs' && (k in ws' ==> QueueOk(qs'[k], ws'[k]))
    ensures QueuesOk(qs', ws')
    ensures ViewsOf(qs', ws') == ViewsOf(qs, ws)[k := ViewOf(qs'[k], QueueOf(ws', k))]
  {
    QueuesKept(qs, ws, qs', ws', k);
    ghost var v := ViewOf(qs'[k], QueueOf(ws', k));
    forall j | j != k && j in qs' ensures j in qs && qs'[j] == qs[j] && QueueOf(ws', j) == QueueOf(ws, j) {
    }
    UpdatedMap(ViewsOf(qs, ws), ViewsOf(qs', ws'), k, v);
  }

  /** Two maps that agree off `k`. */
  lemma UpdatedMap<K(!new), V>(a: map<K, V>, b: map<K, V>, k: K, v: V)
    requires k in b && b[k] == v
    requires forall j :: j != k ==> (j in a <==> j in b)
    requires forall j :: j != k && j in b ==> a[j] == b[j]
    ensures b == a[k := v]
  {
  }

  lemma RemovedChat<K(!new), C>(
    qs: map<K, Query<C>>, ws: map<K, seq<PendingWrite<C>>>,
    qs': map<K, Query<C>>, ws': map<K, seq<PendingWrite<C>>>, k: K)
    requires QueuesOk(qs, ws) && SameElsewhere(qs, ws, qs', ws', k)
    requires k !in qs' && k !in ws'
    ensures QueuesOk(qs', ws')
    ensures ViewsOf(qs', ws') == ViewsOf(qs, ws) - {k}
  {
  }

  lemma TransformsSnoc<C>(queue: seq<PendingWrite<C>>, w: PendingWrite<C>)
    ensures Transforms(queue + [w]) == Transforms(queue) + [w.t]
  {
    assert (queue + [w])[..|queue|] == queue;
  }

  class ChatCache<K(==,!new), C> {
    var queries: map<K, Query<C>>
    var writesLostToFetch: map<K, seq<PendingWrite<C>>>
    var settleSubscriptions: set<K>
    /** The query cache's own listeners; each one hears every event and filters on its key. */
    var listeners: seq<K>

    /** Exactly one listener per tracked subscription, one tracked subscription per queue. */
    ghost predicate Wired()
      reads this
    {
      settleSubscriptions == writesLostToFetch.Keys && Listening()
    }

    ghost predicate Listening()
      reads this
    {
      && (forall k :: k in listeners <==> k in settleSubscriptions)
      && (forall i, j :: 0 <= i < j < |listeners| ==> listeners[i] != listeners[j])
    }

    ghost predicate Valid()
      reads this
    {
      Wired() && QueuesOk(queries, writesLostToFetch)
    }

    ghost function Viewed(): Views<K, C>
      reads this
    {
      ViewsOf(queries, writesLostToFetch)
    }

    constructor ()
      ensures Valid() && Viewed() == map[]
    {
      queries := map[];
      writesLostToFetch := map[];
      settleSubscriptions := {};
      listeners := [];
    }

    /** Run a transform on an object: the same object comes back exactly where the transform keeps it. */
    method ApplyTo(t: Transform<C>, d: Slice<C>) returns (r: Slice<C>)
      ensures r.content == t.Apply(d.content)
      ensures if t.keeps(d.content) then r == d else fresh(r)
    {
      if t.keeps(d.content) {
        r := d;
      } else {
        r := new Slice(t.f(d.content));
      }
    }

    /** The notification this sends reaches no listener that would act on it. */
    method SetQueryData(k: K, d: Slice<C>)
      requires k in queries && (k in listeners ==> !queries[k].status.Idle?)
      modifies this`queries
      ensures queries == old(queries)[k := old(queries)[k].(data := Some(d))]
    {
      queries := queries[k := queries[k].(data := Some(d))];
    }

    method WriteMessagesCache(k: K, t: Transform<C>)
      requires Valid()
      modifies this
      ensures Valid() && Viewed() == Step(old(Viewed()), Write(k, t))
      ensures k !in old(queries) || old(queries)[k].data.None? ==> queries == old(queries)
      ensures k in old(queries) && old(queries)[k].data.Some? ==>
                && k in queries && queries[k].data.Some?
                && queries[k].data.value.content == t.Apply(old(queries)[k].data.value.content)
    {
      if k !in queries || queries[k].data.None? { return; }
      var d := WriteAndQueue(k, t);
      UpdatedChat(old(queries), old(writesLostToFetch), queries, writesLostToFetch, k);
    }

    method WriteAndQueue(k: K, t: Transform<C>) returns (d: Slice<C>)
      requires Wired() && k in queries && queries[k].data.Some? && (k in listeners ==> !queries[k].status.Idle?)
      modifies this
      ensures Wired() && d.content == t.Apply(old(queries)[k].data.value.content)
      ensures queries == old(queries)[k := Query(Some(d), old(queries)[k].status)]
      ensures old(queries)[k].status.Idle? ==> writesLostToFetch == old(writesLostToFetch)
      ensures !old(queries)[k].status.Idle? ==>
                && writesLostToFetch
                   == old(writesLostToFetch)[k := QueueOf(old(writesLostToFetch), k) + [PendingWrite(t, d)]]
                && Transforms(writesLostToFetch[k]) == Transforms(QueueOf(old(writesLostToFetch), k)) + [t]
    {
      var state := queries[k];
      d := ApplyTo(t, state.data.value);
      SetQueryData(k, d);
      if !state.status.Idle? {
        Enqueue(k, PendingWrite(t, d));
      }
    }

    /** Record a write made in flight, and listen for the settle if it is the first one queued. */
    method Enqueue(k: K, w: PendingWrite<C>)
      requires Wired()
      modifies this`writesLostToFetch, this`settleSubscriptions, this`listeners
      ensures Wired()
      ensures writesLostToFetch == old(writesLostToFetch)[k := QueueOf(old(writesLostToFetch), k) + [w]]
      ensures Transforms(writesLostToFetch[k]) == Transforms(QueueOf(old(writesLostToFetch), k)) + [w.t]
    {
      var queued := QueueOf(writesLostToFetch, k);
      writesLostToFetch := writesLostToFetch[k := queued + [w]];
      TransformsSnoc(queued, w);
      if queued == [] {
        ScheduleReplayOnSettle(k);
      }
    }

    /** Listen for the settle of `k`, unless a listener on it is already tracked. */
    method ScheduleReplayOnSettle(k: K)
      requires Listening()
      modifies this`settleSubscriptions, this`listeners
      ensures Listening() && settleSubscriptions == old(settleSubscriptions) + {k}
    {
      if k in settleSubscriptions { return; }
      listeners := listeners + [k];
      settleSubscriptions := settleSubscriptions + {k};
    }

    /** What a replay makes of the object now cached. */
    ghost function Replayed(queue: seq<PendingWrite<C>>, d: Slice<C>): C
      requires queue != []
    {
      if queue[|queue| - 1].wrote == d then d.content else Fold(Transforms(queue), d.content)
    }

    /**
     * The replay. It knows only the queue and the object now cached: the fold happens exactly when that
     * object is not the one the last queued write produced.
     */
    method ReplayWritesLostToFetch(k: K)
      requires k in writesLostToFetch ==> k !in listeners && writesLostToFetch[k] != []
      modifies this`queries, this`writesLostToFetch
      ensures writesLostToFetch == old(writesLostToFetch) - {k}
      ensures queries.Keys == old(queries.Keys)
      ensures forall j :: j in queries && j != k ==> queries[j] == old(queries)[j]
      ensures k in queries && (k !in old(writesLostToFetch) || old(queries)[k].data.None?) ==>
                queries[k] == old(queries)[k]
      ensures k in queries && k in old(writesLostToFetch) && old(queries)[k].data.Some? ==>
                && queries[k].status == old(queries)[k].status
                && queries[k].data.Some?
                && queries[k].data.value.content == Replayed(old(writesLostToFetch)[k], old(queries)[k].data.value)
    {
      if k !in writesLostToFetch || writesLostToFetch[k] == [] { return; }
      var queue := writesLostToFetch[k];
      writesLostToFetch := writesLostToFetch - {k};
      var current := if k in queries then queries[k].data else None;
      if current == Some(queue[|queue| - 1].wrote) { return; }
      if current.None? { return; }
      var d := current.value;
      for i := 0 to |queue|
        invariant queries == old(queries) && writesLostToFetch == old(writesLostToFetch) - {k}
        invariant d.content == Fold(Transforms(queue)[..i], current.value.content)
      {
        assert Transforms(queue)[..i + 1][..i] == Transforms(queue)[..i];
        d := ApplyTo(queue[i].t, d);
      }
      assert Transforms(queue)[..|queue|] == Transforms(queue);
      SetQueryData(k, d);
    }

    /** Drop the one listener filtering on `k`, and stop tracking it. */
    method Unsubscribe(k: K)
      requires k in settleSubscriptions && Listening()
      modifies this`listeners, this`settleSubscriptions
      ensures Listening() && settleSubscriptions == old(settleSubscriptions) - {k}
    {
      settleSubscriptions := settleSubscriptions - {k};
      var i := 0;
      while listeners[i] != k
        invariant 0 <= i < |listeners|
        invariant k in listeners[i..]
        decreases |listeners| - i
      {
        i := i + 1;
      }
      assert listeners == listeners[..i] + [k] + listeners[i + 1..];
      listeners := listeners[..i] + listeners[i + 1..];
    }

    /** The listener's body, on an event about its own key. */
    method OnCacheEvent(k: K, removed: bool)
      requires Wired() && k in settleSubscriptions && (removed || k in queries) && writesLostToFetch[k] != []
      modifies this
      ensures Wired()
      ensures queries.Keys == old(queries.Keys)
      ensures forall j :: j in queries && j != k ==> queries[j] == old(queries)[j]
      ensures removed ==> queries == old(queries)
      ensures !removed && !old(queries)[k].status.Idle? ==>
                queries == old(queries) && writesLostToFetch == old(writesLostToFetch)
      ensures removed || old(queries)[k].status.Idle? ==> writesLostToFetch == old(writesLostToFetch) - {k}
      ensures !removed && old(queries)[k].status.Idle? && old(queries)[k].data.Some? ==>
                && queries[k].status.Idle? && queries[k].data.Some?
                && queries[k].data.value.content == Replayed(old(writesLostToFetch)[k], old(queries)[k].data.value)
    {
      if removed {
        Unsubscribe(k);
        writesLostToFetch := writesLostToFetch - {k};
        return;
      }
      if !queries[k].status.Idle? { return; }
      Unsubscribe(k);
      ReplayWritesLostToFetch(k);
    }

    /** Deliver one event to every listener; only the one on that key acts. */
    method Notify(k: K, removed: bool)
      requires Wired() && (removed || k in queries)
      requires k in writesLostToFetch ==> writesLostToFetch[k] != []
      modifies this
      ensures Wired()
      ensures queries.Keys == old(queries.Keys)
      ensures forall j :: j in queries && j != k ==> queries[j] == old(queries)[j]
      ensures removed || k !in old(writesLostToFetch) ==> queries == old(queries)
      ensures !removed && !old(queries)[k].status.Idle? ==>
                queries == old(queries) && writesLostToFetch == old(writesLostToFetch)
      ensures removed || old(queries)[k].status.Idle? ==> writesLostToFetch == old(writesLostToFetch) - {k}
      ensures !removed && k in old(writesLostToFetch) && old(queries)[k].status.Idle? && old(queries)[k].data.Some? ==>
                && queries[k].status.Idle? && queries[k].data.Some?
                && queries[k].data.value.content == Replayed(old(writesLostToFetch)[k], old(queries)[k].data.value)
    {
      var snapshot := listeners;
      var i := 0;
      while i < |snapshot| && snapshot[i] != k
        invariant 0 <= i <= |snapshot| && k !in snapshot[..i]
      {
        i := i + 1;
      }
      if i < |snapshot| {
        OnCacheEvent(k, removed);
      }
    }

    // -------------------------------------------------------------- the query library's side

    method OpenQuery(k: K)
      requires Valid()
      modifies this`queries
      ensures Valid() && Viewed() == Step(old(Viewed()), Open(k))
    {
      if k in queries { return; }
      queries := queries[k := Query(None, Idle)];
      UpdatedChat(old(queries), old(writesLostToFetch), queries, writesLostToFetch, k);
    }

    method SetStatus(k: K, from: Status, to: Status)
      requires Valid() && !to.Idle?
      modifies this
      ensures Valid()
      ensures Viewed() == if k in old(Viewed()) && old(Viewed())[k].status == from
                          then old(Viewed())[k := old(Viewed())[k].(status := to)] else old(Viewed())
    {
      if k !in queries || queries[k].status != from { return; }
      queries := queries[k := queries[k].(status := to)];
      Notify(k, false);
      UpdatedChat(old(queries), old(writesLostToFetch), queries, writesLostToFetch, k);
    }

    /** The listener hears the new fetch start, finds it not idle and keeps waiting. */
    method RestartFetch(k: K)
      requires Valid()
      modifies this
      ensures Valid() && Viewed() == Step(old(Viewed()), Restart(k))
    {
      if k !in queries || queries[k].status.Idle? { return; }
      SetStatus(k, queries[k].status, Fetching);
    }

    /** The fetch settles: a landed page installs a fresh object, a failure leaves the cached one. */
    method Settle(k: K, page: Option<C>)
      requires Valid() && k in queries && !queries[k].status.Idle?
      modifies this
      ensures Valid() && Viewed() == old(Viewed())[k := Settled(old(Viewed())[k], page)]
    {
      if page.Some? {
        var fetched := new Slice(page.value);
        queries := queries[k := Query(Some(fetched), Idle)];
      } else {
        queries := queries[k := queries[k].(status := Idle)];
      }
      Notify(k, false);
      UpdatedChat(old(queries), old(writesLostToFetch), queries, writesLostToFetch, k);
    }

    method RemoveQuery(k: K)
      requires Valid()
      modifies this
      ensures Valid() && Viewed() == old(Viewed()) - {k}
      ensures k !in writesLostToFetch && k !in settleSubscriptions && k !in listeners
    {
      if k !in queries { return; }
      queries := queries - {k};
      Notify(k, true);
      RemovedChat(old(queries), old(writesLostToFetch), queries, writesLostToFetch, k);
    }

    /** The hook's own effect: a second chance that finds nothing left to do. */
    method MountEffect(k: K)
      requires Valid()
      modifies this
      ensures Valid() && Viewed() == old(Viewed()) && queries == old(queries)
    {
      if k !in queries || !queries[k].status.Idle? { return; }
      ReplayWritesLostToFetch(k);
    }

    /**
     * Every run of the cache is a run of the specification, so NoLostWrite holds of the identity test,
     * the subscriptions and the listeners, over any events on any number of chats.
     */
    method Drive(es: seq<Event<K, C>>)
      requires Valid()
      modifies this
      ensures Valid() && Viewed() == Run(old(Viewed()), es)
    {
      ghost var start := Viewed();
      for n := 0 to |es|
        invariant Valid() && Viewed() == Run(start, es[..n])
      {
        assert es[..n + 1][..n] == es[..n];
        Deliver(es[n]);
      }
      assert es[..|es|] == es;
    }

    method Deliver(e: Event<K, C>)
      requires Valid()
      modifies this
      ensures Valid() && Viewed() == Step(old(Viewed()), e)
    {
      match e
      case Open(k) => OpenQuery(k);
      case Start(k) => SetStatus(k, Idle, Fetching);
      case Pause(k) => SetStatus(k, Fetching, Paused);
      case Resume(k) => SetStatus(k, Paused, Fetching);
      case Restart(k) => RestartFetch(k);
      case Land(k, page) => if k in queries && queries[k].status.Fetching? { Settle(k, Some(page)); }
      case Fail(k) => if k in queries && !queries[k].status.Idle? { Settle(k, None); }
      case Remove(k) => RemoveQuery(k);
      case Write(k, t) => WriteMessagesCache(k, t);
      case Mount(k) => MountEffect(k);
    }
  }
}
