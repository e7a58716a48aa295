/**
 * The in-flight request-body budget: an admission controller that keeps an aggregate byte counter,
 * a per-client counter map and one reservation per request.
 *
 * The specification is a ledger of requests whose totals are SUMS over the requests that still hold
 * bytes. The class `BodyBudget` is the controller itself: it never sums anything, it keeps running
 * counters, and `BodyBudget.Valid` says that after every callback the counters are those sums.
 */
module InflightBudget {
  import opened Wrappers

  const STALL_TIMEOUT_MS := 15_000
  const STALL_POLL_MS := 5_000
  const OPENING_RESERVATION_BYTES := 1024 * 1024
  const MAX_TRACKED_CLIENTS := 10_000
  const MAX_SAFE_INTEGER := 9_007_199_254_740_991
  const EPSILON: real := 1.0 / 4503599627370496.0

  // ---------------------------------------------------------------- configuration and headers

  /** What the factory derives once. `opening` is what a chunked body reserves before any of it arrived. */
  datatype Limits = Limits(budget: nat, clientCap: nat, opening: nat)

  type Config = l: Limits | 1 <= l.clientCap && 1 <= l.opening witness Limits(1, 1, 1)

  /** The configured share, clamped to [EPSILON, 1]. */
  function Share(share: real): (r: real)
    ensures EPSILON <= r <= 1.0
  {
    var low := if share < EPSILON then EPSILON else share;
    if low > 1.0 then 1.0 else low
  }

  function Configure(budget: nat, share: real): Config {
    Limits(budget, Max(1, (budget as real * Share(share)).Floor), Max(1, Min(OPENING_RESERVATION_BYTES, budget)))
  }

  /** No client's cap, and no opening reservation, exceeds the whole budget. */
  lemma CapWithinBudget(budget: nat, share: real)
    requires budget > 0
    ensures Configure(budget, share).clientCap <= budget
    ensures share >= 1.0 ==> Configure(budget, share).clientCap == budget
    ensures Configure(budget, share).opening <= budget
  {
    var b := budget as real;
    assert b * Share(share) <= b * 1.0;
    assert (b * Share(share)).Floor as real <= b;
  }

  /**
   * The limits in the operator's terms: the cap is the whole part of the share of the budget, but a byte at
   * least; shares outside (0, 1] count as the nearest usable one. A chunked body opens at a mebibyte, or at
   * the budget if that is smaller.
   */
  lemma ConfiguredLimits(budget: nat, share: real)
    ensures var c := Configure(budget, share);
      && c.budget == budget
      && c.opening == (if budget == 0 then 1 else if budget < 1_048_576 then budget else 1_048_576)
      && (EPSILON <= share <= 1.0 ==>
            && (budget as real * share < 1.0 ==> c.clientCap == 1)
            && (budget as real * share >= 1.0 ==>
                  c.clientCap as real <= budget as real * share < (c.clientCap + 1) as real))
      && (share > 1.0 && budget > 0 ==> c.clientCap == budget)
  {
    var b := budget as real;
    assert share > 1.0 ==> b * 1.0 == b && b.Floor == budget;
  }

  /** The value of JavaScript's Number(text). */
  datatype JsNumber = NotANumber | Infinite | Finite(value: real)

  /** The declared body length: only a non-negative safe integer counts as one. */
  function ParseDeclaredLength(raw: Option<JsNumber>): Option<nat> {
    match raw
    case Some(Finite(v)) =>
      if v.Floor as real == v && 0 <= v.Floor <= MAX_SAFE_INTEGER then Some(v.Floor) else None
    case _ => None
  }

  lemma DeclaredLengthExactly(raw: Option<JsNumber>, n: nat)
    ensures ParseDeclaredLength(raw) == Some(n) <==> n <= MAX_SAFE_INTEGER && raw == Some(Finite(n as real))
  {
    assert (n as real).Floor == n;
  }

  datatype Headers = Headers(contentLength: Option<JsNumber>, chunked: bool, encoding: string)

  /** A request as admission sees it: `declared` is its usable length, `indicated` whether it has a body at all. */
  datatype Head = Head(
    client: string, declared: Option<nat>, chunked: bool, indicated: bool, encoding: string,
    responseStarted: bool, socketBytes: nat, now: int)
  {
    function Opening(cfg: Config): nat {
      match declared
      case Some(n) => n
      case None => if chunked then cfg.opening else 0
    }

    predicate Compressed() {
      indicated && encoding != "" && encoding != "identity"
    }
  }

  function ReadHead(client: string, hs: Headers, responseStarted: bool, socketBytes: nat, now: int): Head {
    Head(client, ParseDeclaredLength(hs.contentLength), hs.chunked,
         hs.chunked || (hs.contentLength.Some? && !hs.contentLength.value.NotANumber?),
         hs.encoding, responseStarted, socketBytes, now)
  }

  /** A length that is usable always indicates a body; one that is too large to be usable still does. */
  lemma LengthIndicates(client: string, hs: Headers, started: bool, socketBytes: nat, now: int)
    ensures var h := ReadHead(client, hs, started, socketBytes, now);
      && (h.declared.Some? || h.chunked ==> h.indicated)
      && (hs.contentLength == Some(Finite((MAX_SAFE_INTEGER + 1) as real)) ==> h.declared.None? && h.indicated)
  {
    assert ((MAX_SAFE_INTEGER + 1) as real).Floor == MAX_SAFE_INTEGER + 1;
  }

  /** The Content-Length header is the usable number `n`. */
  predicate Usable(hs: Headers, n: nat) {
    n <= 9_007_199_254_740_991 && hs.contentLength == Some(Finite(n as real))
  }

  /** What the headers oblige admission to reserve: a usable length, else the opening if chunked, else nothing. */
  ghost predicate Reserves(opening: nat, hs: Headers, amount: nat) {
    || Usable(hs, amount)
    || ((forall n: nat :: !Usable(hs, n)) && amount == if hs.chunked then opening else 0)
  }

  predicate CompressedBody(hs: Headers) {
    && (hs.chunked || (hs.contentLength.Some? && hs.contentLength != Some(NotANumber)))
    && hs.encoding != "" && hs.encoding != "identity"
  }

  /** The reservation read off the headers, and what else of them admission goes by. */
  lemma HeadersDecide(cfg: Config, client: string, hs: Headers, started: bool, socketBytes: nat, now: int)
    ensures var h := ReadHead(client, hs, started, socketBytes, now);
      && (forall amount: nat :: Reserves(cfg.opening, hs, amount) <==> amount == h.Opening(cfg))
      && (h.Compressed() <==> CompressedBody(hs))
      && h.client == client && h.chunked == hs.chunked && h.responseStarted == started
  {
    var h := ReadHead(client, hs, started, socketBytes, now);
    forall n: nat ensures Usable(hs, n) <==> h.declared == Some(n) {
      DeclaredLengthExactly(hs.contentLength, n);
    }
  }

  // ---------------------------------------------------------------- the ledger

  /** What one admitted request's callbacks close over. */
  datatype Request = Request(
    client: string, declared: Option<nat>, chunked: bool, reserved: nat, released: bool, armed: bool,
    startBytes: nat, lastBytes: nat, lastProgress: int)

  function Held(r: Request): nat {
    if r.released then 0 else r.reserved
  }

  /** Bytes still reserved by one client's requests, or by everybody's when `who` is None. */
  function Bytes(rs: seq<Request>, who: Option<string>): nat {
    if rs == [] then 0
    else
      var last := rs[|rs| - 1];
      Bytes(rs[..|rs| - 1], who) + if who == None || who == Some(last.client) then Held(last) else 0
  }

  datatype Ledger = Ledger(requests: seq<Request>, tracked: set<string>)

  datatype Outcome = Next | Busy | Unsupported | Dropped

  /** Every listener that releases: three on the response, two on the request. */
  datatype Terminal = ResFinish | ResClose | ResError | ReqClose | ReqError

  datatype Event =
    | Arrive(head: Head)
    | End(id: nat, terminal: Terminal)
    | Poll(id: nat, bytesRead: nat, complete: bool, now: int)
    | BodyEnd(id: nat)

  predicate Refused(cfg: Config, l: Ledger, h: Head) {
    || Bytes(l.requests, None) + h.Opening(cfg) > cfg.budget
    || Bytes(l.requests, Some(h.client)) + h.Opening(cfg) > cfg.clientCap
    || (|l.tracked| >= MAX_TRACKED_CLIENTS && h.client !in l.tracked)
  }

  function Admission(cfg: Config, l: Ledger, h: Head): Outcome {
    if h.Compressed() then (if h.responseStarted then Dropped else Unsupported)
    else if Refused(cfg, l, h) then (if h.responseStarted then Dropped else Busy)
    else Next
  }

  function Opened(cfg: Config, h: Head): Request {
    var reserved := h.Opening(cfg);
    Request(h.client, h.declared, h.chunked, reserved, false, reserved > 0, h.socketBytes, h.socketBytes, h.now)
  }

  function Admit(cfg: Config, l: Ledger, h: Head): Ledger {
    if Admission(cfg, l, h) != Next then l
    else Ledger(l.requests + [Opened(cfg, h)], l.tracked + {h.client})
  }

  function Release(l: Ledger, i: nat): Ledger
    requires i < |l.requests|
  {
    var r := l.requests[i];
    if r.released then l
    else
      var rs := l.requests[i := r.(released := true, armed := false)];
      Ledger(rs, if Bytes(rs, Some(r.client)) > 0 then l.tracked + {r.client} else l.tracked - {r.client})
  }

  predicate Over(cfg: Config, rs: seq<Request>, client: string) {
    Bytes(rs, Some(client)) > cfg.clientCap || Bytes(rs, None) > cfg.budget
  }

  function Resized(l: Ledger, i: nat, reserved: nat): Ledger
    requires i < |l.requests|
  {
    Ledger(l.requests[i := l.requests[i].(reserved := reserved)], l.tracked + {l.requests[i].client})
  }

  /** A chunked reservation moves to what arrived; crossing either limit aborts the request. */
  function Reconcile(cfg: Config, l: Ledger, i: nat, bytesRead: nat): Ledger
    requires i < |l.requests|
  {
    var r := l.requests[i];
    var actual := Max(cfg.opening, bytesRead - r.startBytes);
    if actual == r.reserved then l
    else
      var grown := Resized(l, i, actual);
      if Over(cfg, grown.requests, r.client) then Release(grown, i) else grown
  }

  /** The stall timeout is what a poll finds. */
  predicate Stalls(r: Request, bytesRead: nat, complete: bool, now: int) {
    r.armed && !complete && bytesRead == r.lastBytes && now - r.lastProgress >= STALL_TIMEOUT_MS
  }

  function Polled(cfg: Config, l: Ledger, i: nat, bytesRead: nat, complete: bool, now: int): Ledger
    requires i < |l.requests|
  {
    var r := l.requests[i];
    if !r.armed then l
    else if complete then l.(requests := l.requests[i := r.(armed := false)])
    else if bytesRead != r.lastBytes then
      var l1 := if r.declared.None? then Reconcile(cfg, l, i, bytesRead) else l;
      var r1 := l1.requests[i].(lastBytes := bytesRead, lastProgress := now);
      var whole := r.declared.Some? && bytesRead - r.startBytes >= r.declared.value;
      l1.(requests := l1.requests[i := if whole then r1.(armed := false) else r1])
    else if Stalls(r, bytesRead, complete, now) then Release(l, i)
    else l
  }

  function Step(cfg: Config, l: Ledger, e: Event): Ledger {
    match e
    case Arrive(h) => Admit(cfg, l, h)
    case End(i, _) => if i < |l.requests| then Release(l, i) else l
    case Poll(i, n, complete, now) => if i < |l.requests| then Polled(cfg, l, i, n, complete, now) else l
    case BodyEnd(i) =>
      if i < |l.requests| then l.(requests := l.requests[i := l.requests[i].(armed := false)]) else l
  }

  function Run(cfg: Config, l: Ledger, es: seq<Event>): Ledger {
    if es == [] then l else Step(cfg, Run(cfg, l, es[..|es| - 1]), es[|es| - 1])
  }

  const EMPTY := Ledger([], {})

  // ---------------------------------------------------------------- sums

  lemma BytesUpdate(rs: seq<Request>, i: nat, r: Request, who: Option<string>)
    requires i < |rs| && r.client == rs[i].client
    ensures Bytes(rs[i := r], who)
         == Bytes(rs, who)
            + if who == None || who == Some(r.client) then Held(r) - Held(rs[i]) else 0
  {
    var n := |rs| - 1;
    if i < n {
      BytesUpdate(rs[..n], i, r, who);
      assert rs[i := r][..n] == rs[..n][i := r];
    } else {
      assert rs[i := r][..n] == rs[..n];
    }
  }

  lemma BytesAppend(rs: seq<Request>, r: Request)
    ensures forall who :: Bytes(rs + [r], who)
                       == Bytes(rs, who) + if who == None || who == Some(r.client) then Held(r) else 0
  {
    assert (rs + [r])[..|rs|] == rs;
  }

  lemma BytesPositive(rs: seq<Request>, who: Option<string>) returns (i: nat)
    requires Bytes(rs, who) > 0
    ensures i < |rs| && !rs[i].released && (who == None || who == Some(rs[i].client))
  {
    i := |rs| - 1;
    if (who != None && who != Some(rs[i].client)) || Held(rs[i]) == 0 {
      i := BytesPositive(rs[..|rs| - 1], who);
    }
  }

  lemma BytesHeld(rs: seq<Request>, i: nat, who: Option<string>)
    requires i < |rs| && (who == None || who == Some(rs[i].client))
    ensures Bytes(rs, who) >= Held(rs[i])
  {
    if i < |rs| - 1 {
      BytesHeld(rs[..|rs| - 1], i, who);
    }
  }

  lemma BytesAllReleased(rs: seq<Request>, who: Option<string>)
    requires forall i | 0 <= i < |rs| :: rs[i].released
    ensures Bytes(rs, who) == 0
  {
    if Bytes(rs, who) > 0 {
      var i := BytesPositive(rs, who);
    }
  }

  /** Two different clients' bytes are disjoint parts of the aggregate. */
  lemma {:induction false} ClientsPartitionBytes(rs: seq<Request>, a: string, b: string)
    requires a != b
    ensures Bytes(rs, Some(a)) + Bytes(rs, Some(b)) <= Bytes(rs, None)
  {
    if rs != [] {
      ClientsPartitionBytes(rs[..|rs| - 1], a, b);
    }
  }

  // ---------------------------------------------------------------- what every step keeps

  ghost predicate RequestOk(cfg: Config, r: Request) {
    && (r.released ==> !r.armed)
    && (r.armed ==> r.reserved > 0)
    && (r.declared.Some? ==> r.reserved == r.declared.value)
    && (r.declared.None? && !r.chunked ==> r.reserved == 0)
    // a chunked reservation is exactly what the last observed progress had brought in
    && (r.declared.None? && r.chunked ==> r.reserved == Max(cfg.opening, r.lastBytes - r.startBytes))
  }

  ghost predicate HasLive(rs: seq<Request>, client: string) {
    exists i :: 0 <= i < |rs| && rs[i].client == client && !rs[i].released
  }

  ghost predicate Inv(cfg: Config, l: Ledger) {
    && Bytes(l.requests, None) <= cfg.budget
    && (forall c :: Bytes(l.requests, Some(c)) <= cfg.clientCap)
    && (forall c :: Bytes(l.requests, Some(c)) > 0 ==> c in l.tracked)
    && (forall c :: c in l.tracked ==> HasLive(l.requests, c))
    && |l.tracked| <= MAX_TRACKED_CLIENTS
    && (forall i :: 0 <= i < |l.requests| ==> RequestOk(cfg, l.requests[i]))
  }

  /**
   * Admission keeps the invariant; it adds exactly the reservation, of a body that is stored as it arrives;
   * every refusal leaves the ledger as it was.
   */
  lemma AdmitKeepsInv(cfg: Config, l: Ledger, h: Head)
    requires Inv(cfg, l)
    ensures Inv(cfg, Admit(cfg, l, h))
    ensures Admission(cfg, l, h) != Next ==> Admit(cfg, l, h) == l
    ensures Admission(cfg, l, h) == Next ==>
              && Bytes(Admit(cfg, l, h).requests, None) == Bytes(l.requests, None) + h.Opening(cfg)
              && (h.indicated ==> h.encoding == "" || h.encoding == "identity")
  {
    var l' := Admit(cfg, l, h);
    if Admission(cfg, l, h) == Next {
      assert l'.requests[..|l.requests|] == l.requests;
      forall c ensures Bytes(l'.requests, Some(c)) <= cfg.clientCap
      {
        assert Bytes(l.requests, Some(c)) <= cfg.clientCap;
      }
      forall c | c in l'.tracked ensures HasLive(l'.requests, c)
      {
        if c == h.client {
          assert l'.requests[|l.requests|].client == c;
        } else {
          assert HasLive(l.requests, c);
          var i :| 0 <= i < |l.requests| && l.requests[i].client == c && !l.requests[i].released;
          assert l'.requests[i] == l.requests[i];
        }
      }
    }
  }

  /** Replacing one request by an equally live one keeps every client's live witness. */
  lemma LiveUpdate(rs: seq<Request>, i: nat, r: Request, c: string)
    requires i < |rs| && r.client == rs[i].client && HasLive(rs, c)
    requires !r.released || c != r.client
    ensures HasLive(rs[i := r], c)
  {
    var j :| 0 <= j < |rs| && rs[j].client == c && !rs[j].released;
    if j != i { assert rs[i := r][j] == rs[j]; } else { assert rs[i := r][i] == r; }
  }

  /**
   * Releasing restores the invariant even when the request being released is what broke a limit:
   * only the totals WITHOUT it need to be within bounds.
   */
  lemma ReleaseKeepsInv(cfg: Config, l: Ledger, i: nat)
    requires i < |l.requests| && !l.requests[i].released
    requires forall j :: 0 <= j < |l.requests| ==> RequestOk(cfg, l.requests[j])
    requires forall c :: c in l.tracked ==> HasLive(l.requests, c)
    requires forall c :: Bytes(l.requests, Some(c)) > 0 ==> c in l.tracked
    requires |l.tracked| <= MAX_TRACKED_CLIENTS
    requires Bytes(l.requests, None) - l.requests[i].reserved <= cfg.budget
    requires forall c :: Bytes(l.requests, Some(c))
                         - (if c == l.requests[i].client then l.requests[i].reserved else 0) <= cfg.clientCap
    ensures Inv(cfg, Release(l, i))
  {
    var r := l.requests[i];
    var r' := r.(released := true, armed := false);
    var l' := Release(l, i);
    BytesUpdate(l.requests, i, r', None);
    forall c
      ensures Bytes(l'.requests, Some(c)) <= cfg.clientCap
      ensures Bytes(l'.requests, Some(c)) > 0 ==> c in l'.tracked
      ensures c in l'.tracked ==> HasLive(l'.requests, c)
    {
      BytesUpdate(l.requests, i, r', Some(c));
      if c in l'.tracked {
        if c == r.client {
          var k := BytesPositive(l'.requests, Some(c));
        } else {
          LiveUpdate(l.requests, i, r', c);
        }
      }
    }
    BytesHeld(l.requests, i, Some(r.client));
    TrackedAfterRelease(l, i);
  }

  lemma TrackedAfterRelease(l: Ledger, i: nat)
    requires i < |l.requests|
    requires forall c :: Bytes(l.requests, Some(c)) > 0 ==> c in l.tracked
    ensures |Release(l, i).tracked| <= |l.tracked|
  {
    var r := l.requests[i];
    var l' := Release(l, i);
    if !r.released {
      BytesUpdate(l.requests, i, r.(released := true, armed := false), Some(r.client));
      assert l'.tracked <= l.tracked;
      SubsetSize(l'.tracked, l.tracked);
    }
  }

  lemma SubsetSize(a: set<string>, b: set<string>)
    requires a <= b
    ensures |a| <= |b|
  {
    assert b == a + (b - a);
  }

  /** Changing bookkeeping only (timer, last byte count) changes no total and no live witness. */
  lemma TouchKeepsInv(cfg: Config, l: Ledger, i: nat, r: Request)
    requires Inv(cfg, l) && i < |l.requests|
    requires r.client == l.requests[i].client && r.released == l.requests[i].released
    requires Held(r) == Held(l.requests[i]) && RequestOk(cfg, r)
    ensures Inv(cfg, l.(requests := l.requests[i := r]))
  {
    var rs := l.requests[i := r];
    BytesUpdate(l.requests, i, r, None);
    forall c
      ensures Bytes(rs, Some(c)) == Bytes(l.requests, Some(c))
      ensures c in l.tracked ==> HasLive(rs, c)
    {
      BytesUpdate(l.requests, i, r, Some(c));
      if c in l.tracked {
        var j :| 0 <= j < |l.requests| && l.requests[j].client == c && !l.requests[j].released;
        if j != i { assert rs[j] == l.requests[j]; } else { assert rs[i] == r; }
      }
    }
  }

  /** What growing one live reservation does to the totals: only its own share and the aggregate move. */
  lemma GrownTotals(cfg: Config, l: Ledger, i: nat, r: Request)
    requires Inv(cfg, l) && i < |l.requests| && Held(l.requests[i]) > 0
    requires r.client == l.requests[i].client && !r.released
    ensures l.requests[i].client in l.tracked
    ensures var rs := l.requests[i := r];
            && Bytes(rs, None) - r.reserved <= cfg.budget
            && Bytes(rs, Some(r.client)) - r.reserved <= cfg.clientCap
            && (forall c :: c != r.client ==> Bytes(rs, Some(c)) <= cfg.clientCap)
            && (forall c :: Bytes(rs, Some(c)) > 0 ==> c in l.tracked)
            && (forall c :: c in l.tracked ==> HasLive(rs, c))
  {
    var rs := l.requests[i := r];
    BytesHeld(l.requests, i, Some(r.client));
    BytesUpdate(l.requests, i, r, None);
    BytesUpdate(l.requests, i, r, Some(r.client));
    forall c
      ensures c != r.client ==> Bytes(rs, Some(c)) == Bytes(l.requests, Some(c))
      ensures c in l.tracked ==> HasLive(rs, c)
    {
      BytesUpdate(l.requests, i, r, Some(c));
      if c in l.tracked { LiveUpdate(l.requests, i, r, c); }
    }
  }

  function Clocked(l: Ledger, i: nat, bytesRead: nat, now: int): Ledger
    requires i < |l.requests|
  {
    l.(requests := l.requests[i := l.requests[i].(lastBytes := bytesRead, lastProgress := now)])
  }

  /** Mid-stream growth: either both limits still hold, or the request is gone. */
  lemma ReconcileKeepsInv(cfg: Config, l: Ledger, i: nat, bytesRead: nat, now: int)
    requires Inv(cfg, l) && i < |l.requests| && l.requests[i].armed && l.requests[i].declared.None?
    ensures |Reconcile(cfg, l, i, bytesRead).requests| == |l.requests|
    ensures Inv(cfg, Clocked(Reconcile(cfg, l, i, bytesRead), i, bytesRead, now))
  {
    var r := l.requests[i];
    assert RequestOk(cfg, r);
    var actual := Max(cfg.opening, bytesRead - r.startBytes);
    var moved := r.(reserved := actual, lastBytes := bytesRead, lastProgress := now);
    if actual == r.reserved {
      TouchKeepsInv(cfg, l, i, moved);
      assert Clocked(l, i, bytesRead, now) == l.(requests := l.requests[i := moved]);
    } else {
      var grown := Resized(l, i, actual);
      assert Reconcile(cfg, l, i, bytesRead)
          == if Over(cfg, grown.requests, r.client) then Release(grown, i) else grown;
      GrowthKeepsInv(cfg, l, i, actual, bytesRead, now);
    }
  }

  lemma GrowthKeepsInv(cfg: Config, l: Ledger, i: nat, actual: nat, bytesRead: nat, now: int)
    requires Inv(cfg, l) && i < |l.requests| && Held(l.requests[i]) > 0
    requires RequestOk(cfg, l.requests[i].(reserved := actual, lastBytes := bytesRead, lastProgress := now))
    ensures var grown := Resized(l, i, actual);
            var l1 := if Over(cfg, grown.requests, l.requests[i].client) then Release(grown, i) else grown;
            Inv(cfg, Clocked(l1, i, bytesRead, now))
  {
    var r := l.requests[i];
    var moved := r.(reserved := actual, lastBytes := bytesRead, lastProgress := now);
    var sized := l.requests[i := r.(reserved := actual)];
    TrackedWhileHeld(cfg, l, i);
    assert sized[i := sized[i].(lastBytes := bytesRead, lastProgress := now)] == l.requests[i := moved];
    SameBytes(sized, l.requests[i := moved], i);
    if Over(cfg, sized, r.client) {
      GrownThenReleased(cfg, l, i, moved);
      ReleaseIgnoresClock(l.tracked, sized, l.requests[i := moved], i);
    } else {
      GrownWithinLimits(cfg, l, i, moved);
    }
  }

  lemma TrackedWhileHeld(cfg: Config, l: Ledger, i: nat)
    requires Inv(cfg, l) && i < |l.requests| && Held(l.requests[i]) > 0
    ensures l.tracked + {l.requests[i].client} == l.tracked
  {
    BytesHeld(l.requests, i, Some(l.requests[i].client));
  }

  lemma GrownThenReleased(cfg: Config, l: Ledger, i: nat, r: Request)
    requires Inv(cfg, l) && i < |l.requests| && Held(l.requests[i]) > 0
    requires r.client == l.requests[i].client && !r.released && RequestOk(cfg, r)
    ensures Inv(cfg, Release(l.(requests := l.requests[i := r]), i))
  {
    GrownTotals(cfg, l, i, r);
    ReleaseKeepsInv(cfg, l.(requests := l.requests[i := r]), i);
  }

  lemma GrownWithinLimits(cfg: Config, l: Ledger, i: nat, r: Request)
    requires Inv(cfg, l) && i < |l.requests| && Held(l.requests[i]) > 0
    requires r.client == l.requests[i].client && !r.released && RequestOk(cfg, r)
    requires !Over(cfg, l.requests[i := r], r.client)
    ensures Inv(cfg, l.(requests := l.requests[i := r]))
  {
    GrownTotals(cfg, l, i, r);
  }

  /** The byte-counter bookkeeping changes no total. */
  lemma SameBytes(a: seq<Request>, b: seq<Request>, i: nat)
    requires i < |a| == |b| && b == a[i := b[i]]
    requires b[i].client == a[i].client && Held(b[i]) == Held(a[i])
    ensures forall who :: Bytes(a, who) == Bytes(b, who)
  {
    forall who { BytesUpdate(a, i, b[i], who); }
  }

  /** Release looks at reservations only, so it commutes with the byte-counter bookkeeping. */
  lemma ReleaseIgnoresClock(tracked: set<string>, a: seq<Request>, b: seq<Request>, i: nat)
    requires i < |a| == |b| && b == a[i := a[i].(lastBytes := b[i].lastBytes, lastProgress := b[i].lastProgress)]
    requires !a[i].released
    ensures var la, lb := Release(Ledger(a, tracked), i), Release(Ledger(b, tracked), i);
            la.requests[i := la.requests[i].(lastBytes := b[i].lastBytes, lastProgress := b[i].lastProgress)]
              == lb.requests
            && la.tracked == lb.tracked
  {
    var ra := a[i].(released := true, armed := false);
    var rb := b[i].(released := true, armed := false);
    BytesUpdate(a, i, ra, Some(a[i].client));
    BytesUpdate(b, i, rb, Some(b[i].client));
    BytesUpdate(a, i, b[i], Some(a[i].client));
  }

  /**
   * BUDGET BOUND and CONSERVATION, one step: whatever callback runs next, the aggregate stays within
   * the budget, every client within its cap, every tracked client has a live request and every client
   * holding bytes is tracked.
   */
  lemma {:induction false} StepKeepsInv(cfg: Config, l: Ledger, e: Event)
    requires Inv(cfg, l)
    ensures Inv(cfg, Step(cfg, l, e))
  {
    match e
    case Arrive(h) =>
      AdmitKeepsInv(cfg, l, h);
    case End(i, _) =>
      if i < |l.requests| && !l.requests[i].released {
        ReleaseKeepsInv(cfg, l, i);
      }
    case BodyEnd(i) =>
      if i < |l.requests| {
        assert RequestOk(cfg, l.requests[i]);
        TouchKeepsInv(cfg, l, i, l.requests[i].(armed := false));
      }
    case Poll(i, n, complete, now) =>
      if i < |l.requests| && l.requests[i].armed {
        PollKeepsInv(cfg, l, i, n, complete, now);
      } else {
        assert Step(cfg, l, e) == l;
      }
  }

  lemma PollKeepsInv(cfg: Config, l: Ledger, i: nat, n: nat, complete: bool, now: int)
    requires Inv(cfg, l) && i < |l.requests| && l.requests[i].armed
    ensures Inv(cfg, Polled(cfg, l, i, n, complete, now))
  {
    var r := l.requests[i];
    if complete {
      TouchKeepsInv(cfg, l, i, r.(armed := false));
    } else if n == r.lastBytes {
      if Stalls(r, n, complete, now) {
        ReleaseKeepsInv(cfg, l, i);
      }
    } else if r.declared.None? {
      ReconcileKeepsInv(cfg, l, i, n, now);
    } else {
      var moved := r.(lastBytes := n, lastProgress := now);
      TouchKeepsInv(cfg, l, i, moved);
      TouchKeepsInv(cfg, l, i, moved.(armed := false));
    }
  }

  /** BUDGET BOUND over whole runs: any interleaving of any number of requests' callbacks. */
  lemma {:induction false} RunKeepsInv(cfg: Config, es: seq<Event>)
    ensures Inv(cfg, Run(cfg, EMPTY, es))
  {
    if es != [] {
      RunKeepsInv(cfg, es[..|es| - 1]);
      StepKeepsInv(cfg, Run(cfg, EMPTY, es[..|es| - 1]), es[|es| - 1]);
    }
  }

  /** DRAIN: once every request has been released nothing is counted and no client is tracked. */
  lemma DrainedIsEmpty(cfg: Config, es: seq<Event>)
    requires forall i :: 0 <= i < |Run(cfg, EMPTY, es).requests| ==> Run(cfg, EMPTY, es).requests[i].released
    ensures Bytes(Run(cfg, EMPTY, es).requests, None) == 0
    ensures Run(cfg, EMPTY, es).tracked == {}
  {
    var l := Run(cfg, EMPTY, es);
    RunKeepsInv(cfg, es);
    BytesAllReleased(l.requests, None);
    assert forall c :: !HasLive(l.requests, c);
    assert forall c :: c !in l.tracked;
  }

  /**
   * ADMISSION, from the raw headers: 415 for a compressed body, 503 for a reservation that would push the
   * aggregate or the client over its limit or for a client too many, a dropped socket for either once a
   * response has started. An admitted request raises the aggregate by exactly what the headers oblige it
   * to reserve, and has its reaper armed if that is anything.
   */
  lemma AdmissionExactly(
    cfg: Config, l: Ledger, client: string, hs: Headers, started: bool, socketBytes: nat, now: int, amount: nat)
    requires Reserves(cfg.opening, hs, amount)
    ensures var h := ReadHead(client, hs, started, socketBytes, now);
      var over := || Bytes(l.requests, None) + amount > cfg.budget
                  || Bytes(l.requests, Some(client)) + amount > cfg.clientCap
                  || (|l.tracked| >= 10_000 && client !in l.tracked);
      && (Admission(cfg, l, h) == Unsupported <==> CompressedBody(hs) && !started)
      && (Admission(cfg, l, h) == Busy <==> over && !CompressedBody(hs) && !started)
      && (Admission(cfg, l, h) == Dropped <==> (CompressedBody(hs) || over) && started)
      && (Admission(cfg, l, h) == Next ==>
            var l', n := Admit(cfg, l, h), |l.requests|;
            && |l'.requests| == n + 1 && l'.requests[..n] == l.requests
            && Bytes(l'.requests, None) == Bytes(l.requests, None) + amount
            && Bytes(l'.requests, Some(client)) == Bytes(l.requests, Some(client)) + amount
            && l'.requests[n].client == client && l'.requests[n].chunked == hs.chunked
            && !l'.requests[n].released && (l'.requests[n].armed <==> amount > 0)
            && l'.requests[n].startBytes == socketBytes && l'.requests[n].lastProgress == now)
  {
    HeadersDecide(cfg, client, hs, started, socketBytes, now);
    var h := ReadHead(client, hs, started, socketBytes, now);
    BytesAppend(l.requests, Opened(cfg, h));
  }

  /**
   * FAIRNESS: while one client holds every live byte, another client's uncompressed request of at most
   * min(cap, budget - cap) bytes is admitted, as long as the client map has room for it.
   */
  lemma OtherClientAdmitted(cfg: Config, es: seq<Event>, hog: string, h: Head)
    requires var l := Run(cfg, EMPTY, es);
             && Bytes(l.requests, None) == Bytes(l.requests, Some(hog))
             && (|l.tracked| < MAX_TRACKED_CLIENTS || h.client in l.tracked)
    requires h.client != hog && !h.Compressed()
    requires h.Opening(cfg) <= Min(cfg.clientCap, cfg.budget - cfg.clientCap)
    ensures Admission(cfg, Run(cfg, EMPTY, es), h) == Next
  {
    RunKeepsInv(cfg, es);
    ClientsPartitionBytes(Run(cfg, EMPTY, es).requests, hog, h.client);
  }

  // ---------------------------------------------------------------- exactly-once release

  /** Which request an event's callback belongs to. */
  function Addressed(e: Event): Option<nat> {
    match e
    case Arrive(_) => None
    case End(i, _) => Some(i)
    case Poll(i, _, _, _) => Some(i)
    case BodyEnd(i) => Some(i)
  }

  /** What one callback may make of a request: a release is final, and a released reservation is frozen. */
  ghost predicate Follows(r: Request, r': Request) {
    && r'.client == r.client && r'.declared == r.declared && r'.chunked == r.chunked && r'.startBytes == r.startBytes
    && (r.released ==> r'.released && r'.reserved == r.reserved)
    && (!r.armed ==> !r'.armed)
  }

  lemma PollKeepsRequest(cfg: Config, l: Ledger, k: nat, n: nat, complete: bool, now: int)
    requires k < |l.requests| && (l.requests[k].released ==> !l.requests[k].armed)
    ensures var rs := Polled(cfg, l, k, n, complete, now).requests;
      |rs| == |l.requests| && rs == l.requests[k := rs[k]] && Follows(l.requests[k], rs[k])
  {
  }

  /** Growth replaces the reservation, and ends the request if that puts a sum past its limit. */
  lemma {:induction false} ReconcileExactly(cfg: Config, l: Ledger, i: nat, bytesRead: nat)
    requires Inv(cfg, l) && i < |l.requests| && l.requests[i].armed
    ensures |Reconcile(cfg, l, i, bytesRead).requests| == |l.requests|
    ensures var r, r' := l.requests[i], Reconcile(cfg, l, i, bytesRead).requests[i];
      var grown := Max(cfg.opening, bytesRead - r.startBytes);
      var over := || Bytes(l.requests, None) - r.reserved + grown > cfg.budget
                  || Bytes(l.requests, Some(r.client)) - r.reserved + grown > cfg.clientCap;
      r' == r.(reserved := grown, released := over, armed := !over)
  {
    var r := l.requests[i];
    assert RequestOk(cfg, r);
    var actual := Max(cfg.opening, bytesRead - r.startBytes);
    BytesUpdate(l.requests, i, r.(reserved := actual), None);
    BytesUpdate(l.requests, i, r.(reserved := actual), Some(r.client));
  }

  /**
   * A POLL, exactly, in what it reads: it ends the request on fifteen silent seconds, or on growth past a
   * limit, and on nothing else; a chunked reservation follows the bytes; the reaper stands down over a
   * complete message or a whole declared body.
   */
  lemma {:induction false} PollExactly(cfg: Config, l: Ledger, i: nat, bytesRead: nat, complete: bool, now: int)
    requires Inv(cfg, l) && i < |l.requests| && l.requests[i].armed
    ensures i < |Polled(cfg, l, i, bytesRead, complete, now).requests|
    ensures var r, r' := l.requests[i], Polled(cfg, l, i, bytesRead, complete, now).requests[i];
      var arrived, moved := bytesRead - r.startBytes, bytesRead != r.lastBytes;
      var grown := if arrived > cfg.opening then arrived else cfg.opening;
      var reconciled := !complete && moved && r.declared.None?;
      && r'.reserved == (if reconciled then grown else r.reserved)
      && (r'.released <==>
            || (!complete && !moved && now - r.lastProgress >= 15_000)
            || (reconciled && (|| Bytes(l.requests, None) - r.reserved + grown > cfg.budget
                               || Bytes(l.requests, Some(r.client)) - r.reserved + grown > cfg.clientCap)))
      && (r'.armed <==> !r'.released && !complete && !(moved && r.declared.Some? && arrived >= r.declared.value))
  {
    var r := l.requests[i];
    assert RequestOk(cfg, r);
    if !complete && bytesRead != r.lastBytes && r.declared.None? {
      ReconcileExactly(cfg, l, i, bytesRead);
    }
  }

  /** Requests are never forgotten, and a callback touches only its own. */
  lemma StepKeepsRequest(cfg: Config, l: Ledger, e: Event, i: nat)
    requires Inv(cfg, l) && i < |l.requests|
    ensures i < |Step(cfg, l, e).requests|
    ensures Follows(l.requests[i], Step(cfg, l, e).requests[i])
    ensures Addressed(e) != Some(i) ==> Step(cfg, l, e).requests[i] == l.requests[i]
  {
    if e.Poll? && e.id < |l.requests| {
      assert RequestOk(cfg, l.requests[e.id]);
      PollKeepsRequest(cfg, l, e.id, e.bytesRead, e.complete, e.now);
    }
  }

  predicate ReleasedIn(l: Ledger, i: nat) {
    i < |l.requests| && l.requests[i].released
  }

  /** How many times a run took request `i`'s bytes off the counters. */
  function Decrements(cfg: Config, es: seq<Event>, i: nat): nat {
    if es == [] then 0
    else
      var before := Run(cfg, EMPTY, es[..|es| - 1]);
      Decrements(cfg, es[..|es| - 1], i)
      + if !ReleasedIn(before, i) && ReleasedIn(Step(cfg, before, es[|es| - 1]), i) then 1 else 0
  }

  /**
   * EXACTLY ONCE: however many terminal events, stall polls and mid-stream aborts hit a request, its
   * bytes leave the counters once if it ever ends and never otherwise.
   */
  lemma {:induction false} ReleasedExactlyOnce(cfg: Config, es: seq<Event>, i: nat)
    ensures Decrements(cfg, es, i) == if ReleasedIn(Run(cfg, EMPTY, es), i) then 1 else 0
  {
    if es != [] {
      var init := es[..|es| - 1];
      ReleasedExactlyOnce(cfg, init, i);
      RunKeepsInv(cfg, init);
      if i < |Run(cfg, EMPTY, init).requests| {
        StepKeepsRequest(cfg, Run(cfg, EMPTY, init), es[|es| - 1], i);
      }
    }
  }

  /** Any terminal event on an admitted request leaves it released. */
  lemma TerminalReleases(cfg: Config, es: seq<Event>, i: nat, t: Terminal)
    requires i < |Run(cfg, EMPTY, es).requests|
    ensures Decrements(cfg, es + [End(i, t)], i) == 1
  {
    assert (es + [End(i, t)])[..|es|] == es;
    ReleasedExactlyOnce(cfg, es + [End(i, t)], i);
  }

  lemma StepReservation(cfg: Config, l: Ledger, e: Event, i: nat)
    requires i < |l.requests| && RequestOk(cfg, l.requests[i])
    requires e.Poll? && e.id == i ==> e.bytesRead >= l.requests[i].lastBytes
    ensures i < |Step(cfg, l, e).requests|
    ensures l.requests[i].reserved <= Step(cfg, l, e).requests[i].reserved
    ensures Step(cfg, l, e).requests[i].declared == l.requests[i].declared
    ensures Step(cfg, l, e).requests[i].chunked == l.requests[i].chunked
  {
  }

  lemma RunRequestOk(cfg: Config, es: seq<Event>, i: nat)
    requires i < |Run(cfg, EMPTY, es).requests|
    ensures RequestOk(cfg, Run(cfg, EMPTY, es).requests[i])
  {
    RunKeepsInv(cfg, es);
  }

  /**
   * A chunked reservation never shrinks while the socket's byte counter does not, and always covers
   * the bytes seen at the last poll that observed progress.
   */
  lemma ChunkedReservationGrows(cfg: Config, es: seq<Event>, e: Event, i: nat)
    requires i < |Run(cfg, EMPTY, es).requests|
    requires e.Poll? && e.id == i ==> e.bytesRead >= Run(cfg, EMPTY, es).requests[i].lastBytes
    ensures i < |Run(cfg, EMPTY, es + [e]).requests|
    ensures var r, r' := Run(cfg, EMPTY, es).requests[i], Run(cfg, EMPTY, es + [e]).requests[i];
            && r.reserved <= r'.reserved
            && r'.chunked == r.chunked
            && (r'.declared.None? && r'.chunked ==> r'.reserved >= 1 && r'.reserved >= r'.lastBytes - r'.startBytes)
  {
    assert (es + [e])[..|es|] == es;
    RunRequestOk(cfg, es, i);
    StepReservation(cfg, Run(cfg, EMPTY, es), e, i);
    RunRequestOk(cfg, es + [e], i);
  }

  /** Over any run a live chunked request holds a byte at least, and all that its last progress poll saw. */
  lemma ChunkedAlwaysHolds(cfg: Config, es: seq<Event>, i: nat)
    requires i < |Run(cfg, EMPTY, es).requests|
    requires var r := Run(cfg, EMPTY, es).requests[i]; r.chunked && r.declared.None? && !r.released
    ensures var r := Run(cfg, EMPTY, es).requests[i];
            && Held(r) >= 1 && Held(r) >= r.lastBytes - r.startBytes
            && Bytes(Run(cfg, EMPTY, es).requests, None) >= Held(r)
  {
    RunRequestOk(cfg, es, i);
    BytesHeld(Run(cfg, EMPTY, es).requests, i, None);
  }

  // ---------------------------------------------------------------- the stall reaper

  /** The byte counts request `i`'s polls read during a run, in order. */
  function Readings(es: seq<Event>, i: nat): seq<nat> {
    if es == [] then []
    else
      var e := es[|es| - 1];
      Readings(es[..|es| - 1], i) + if e.Poll? && e.id == i then [e.bytesRead] else []
  }

  /** Polls of request `i` find it incomplete and come STALL_POLL_MS apart, the first one interval after `t0`. */
  predicate PolledOnTime(es: seq<Event>, i: nat, t0: int) {
    if es == [] then true
    else
      var e := es[|es| - 1];
      && PolledOnTime(es[..|es| - 1], i, t0)
      && (e.Poll? && e.id == i ==>
            !e.complete && e.now == t0 + STALL_POLL_MS * (|Readings(es[..|es| - 1], i)| + 1))
  }

  /** How many readings at the end of a history repeat the one before them. */
  function Quiet(h: seq<nat>): nat {
    if |h| < 2 || h[|h| - 1] != h[|h| - 2] then 0 else Quiet(h[..|h| - 1]) + 1
  }

  lemma QuietNext(h: seq<nat>, n: nat)
    requires h != []
    ensures Quiet(h + [n]) == if n == h[|h| - 1] then Quiet(h) + 1 else 0
  {
    assert (h + [n])[..|h|] == h;
  }

  /** What a history `h` of readings since `t0` makes of a request's clocks. */
  ghost predicate ClockedBy(r: Request, t0: int, h: seq<nat>)
    requires h != []
  {
    r.lastBytes == h[|h| - 1] && r.lastProgress == t0 + STALL_POLL_MS * (|h| - 1 - Quiet(h))
  }

  /** The next poll on time finds a stall exactly on the third repeated reading. */
  lemma ClockStalls(r: Request, t0: int, h: seq<nat>, n: nat)
    requires h != [] && r.armed && ClockedBy(r, t0, h)
    ensures Stalls(r, n, false, t0 + STALL_POLL_MS * |h|) <==> Quiet(h + [n]) >= 3
  {
    QuietNext(h, n);
  }

  /** One more poll of the request advances its clocks with the history. */
  lemma ClockAdvances(r: Request, r': Request, t0: int, h: seq<nat>, n: nat)
    requires h != [] && ClockedBy(r, t0, h) && r'.lastBytes == n
    requires r'.lastProgress == if n != r.lastBytes then t0 + STALL_POLL_MS * |h| else r.lastProgress
    ensures ClockedBy(r', t0, h + [n])
  {
    QuietNext(h, n);
  }

  lemma QuietThree(h: seq<nat>)
    ensures Quiet(h) >= 3 <==>
            |h| >= 4 && h[|h| - 1] == h[|h| - 2] == h[|h| - 3] == h[|h| - 4]
  {
    var n := |h|;
    if n >= 2 {
      assert h[..n - 1][n - 2] == h[n - 2];
      if n >= 3 {
        assert h[..n - 1][..n - 2] == h[..n - 2];
      }
    }
  }

  /** One callback's effect on request `i`'s reaper clocks. */
  lemma ClockStep(cfg: Config, l: Ledger, e: Event, i: nat)
    requires i < |l.requests| && (e.Poll? && e.id == i ==> !e.complete)
    ensures i < |Step(cfg, l, e).requests|
    ensures var r, r' := l.requests[i], Step(cfg, l, e).requests[i];
            r'.armed ==>
              && r.armed
              && r'.lastBytes == (if e.Poll? && e.id == i then e.bytesRead else r.lastBytes)
              && r'.lastProgress ==
                   (if e.Poll? && e.id == i && e.bytesRead != r.lastBytes then e.now else r.lastProgress)
  {
  }

  /** The readings a request's clocks depend on: the one it started from, and its polls'. */
  function History(l: Ledger, es: seq<Event>, i: nat): seq<nat>
    requires i < |l.requests|
  {
    [l.requests[i].lastBytes] + Readings(es, i)
  }

  /** The reaper's two clocks, as a function of the readings alone. */
  lemma {:induction false} StallClock(cfg: Config, l: Ledger, es: seq<Event>, i: nat)
    requires i < |l.requests| && PolledOnTime(es, i, l.requests[i].lastProgress)
    ensures i < |Run(cfg, l, es).requests|
    ensures Run(cfg, l, es).requests[i].armed ==>
              && l.requests[i].armed
              && ClockedBy(Run(cfg, l, es).requests[i], l.requests[i].lastProgress, History(l, es, i))
  {
    if es != [] {
      var init, e := es[..|es| - 1], es[|es| - 1];
      StallClock(cfg, l, init, i);
      ClockStep(cfg, Run(cfg, l, init), e, i);
      var r, r' := Run(cfg, l, init).requests[i], Run(cfg, l, es).requests[i];
      if r'.armed && e.Poll? && e.id == i {
        assert History(l, es, i) == History(l, init, i) + [e.bytesRead];
        ClockAdvances(r, r', l.requests[i].lastProgress, History(l, init, i), e.bytesRead);
      } else {
        assert r'.armed ==> History(l, es, i) == History(l, init, i);
      }
    }
  }

  /**
   * STALL REAPER, exactly: with polls on time, the next poll reaps a request as stalled if and only if
   * it is the third poll in a row to read the same byte count.
   */
  lemma ReapedIffThreeSilentPolls(cfg: Config, l: Ledger, es: seq<Event>, i: nat, n: nat)
    requires i < |l.requests| && PolledOnTime(es, i, l.requests[i].lastProgress)
    requires i < |Run(cfg, l, es).requests| && Run(cfg, l, es).requests[i].armed
    ensures var h := History(l, es, i) + [n];
            Stalls(Run(cfg, l, es).requests[i], n, false, l.requests[i].lastProgress + STALL_POLL_MS * (|h| - 1))
            <==> |h| >= 4 && h[|h| - 1] == h[|h| - 2] == h[|h| - 3] == h[|h| - 4]
  {
    StallClock(cfg, l, es, i);
    ClockStalls(Run(cfg, l, es).requests[i], l.requests[i].lastProgress, History(l, es, i), n);
    QuietThree(History(l, es, i) + [n]);
  }

  /** Request `i` hears nothing but terminal events and incomplete polls that still read `bytes`. */
  predicate Silent(es: seq<Event>, i: nat, bytes: nat) {
    forall e :: e in es && Addressed(e) == Some(i) ==>
      e.End? || (e.Poll? && !e.complete && e.bytesRead == bytes)
  }

  /**
   * A silent, incomplete, body-carrying request is gone after any poll that comes at least the stall
   * timeout after its last progress, however late its timers fire and whatever other requests do.
   */
  lemma {:induction false} SilentIsReaped(cfg: Config, l: Ledger, es: seq<Event>, i: nat, k: nat)
    requires Inv(cfg, l) && i < |l.requests|
    requires l.requests[i].armed && Silent(es, i, l.requests[i].lastBytes)
    requires k < |es| && es[k].Poll? && es[k].id == i
    requires es[k].now >= l.requests[i].lastProgress + STALL_TIMEOUT_MS
    ensures ReleasedIn(Run(cfg, l, es), i)
  {
    SilentUntilReaped(cfg, l, es[..k], i);
    assert es[..k + 1][..k] == es[..k];
    assert ReleasedIn(Run(cfg, l, es[..k + 1]), i);
    ReleaseIsFinal(cfg, l, es, i, k + 1);
  }

  lemma {:induction false} SilentUntilReaped(cfg: Config, l: Ledger, es: seq<Event>, i: nat)
    requires Inv(cfg, l) && i < |l.requests|
    requires l.requests[i].armed && Silent(es, i, l.requests[i].lastBytes)
    ensures Inv(cfg, Run(cfg, l, es)) && i < |Run(cfg, l, es).requests|
    ensures ReleasedIn(Run(cfg, l, es), i) || Run(cfg, l, es).requests[i] == l.requests[i]
  {
    if es != [] {
      var init, e := es[..|es| - 1], es[|es| - 1];
      SilentUntilReaped(cfg, l, init, i);
      StepKeepsInv(cfg, Run(cfg, l, init), e);
      StepKeepsRequest(cfg, Run(cfg, l, init), e, i);
    }
  }

  lemma {:induction false} ReleaseIsFinal(cfg: Config, l: Ledger, es: seq<Event>, i: nat, k: nat)
    requires Inv(cfg, l) && k <= |es| && ReleasedIn(Run(cfg, l, es[..k]), i)
    ensures Inv(cfg, Run(cfg, l, es)) && ReleasedIn(Run(cfg, l, es), i)
  {
    if k == |es| {
      assert es[..k] == es;
      RunFromKeepsInv(cfg, l, es);
    } else {
      var init := es[..|es| - 1];
      assert init[..k] == es[..k];
      ReleaseIsFinal(cfg, l, init, i, k);
      StepKeepsInv(cfg, Run(cfg, l, init), es[|es| - 1]);
      StepKeepsRequest(cfg, Run(cfg, l, init), es[|es| - 1], i);
    }
  }

  lemma {:induction false} RunFromKeepsInv(cfg: Config, l: Ledger, es: seq<Event>)
    requires Inv(cfg, l)
    ensures Inv(cfg, Run(cfg, l, es))
  {
    if es != [] {
      RunFromKeepsInv(cfg, l, es[..|es| - 1]);
      StepKeepsInv(cfg, Run(cfg, l, es[..|es| - 1]), es[|es| - 1]);
    }
  }

  // ---------------------------------------------------------------- the controller

  /** The middleware's state: running counters, never a sum. */
  class BodyBudget {
    const cfg: Config
    var inFlightBytes: int
    var clientInFlight: map<string, int>
    var requests: seq<Request>

    ghost function Book(): Ledger
      reads this
    {
      Ledger(requests, clientInFlight.Keys)
    }

    /** CONSERVATION: both counters are the sums of the reservations still held. */
    ghost predicate Counted()
      reads this
    {
      && inFlightBytes == Bytes(requests, None)
      && (forall c :: (if c in clientInFlight then clientInFlight[c] else 0) == Bytes(requests, Some(c)))
    }

    ghost predicate Valid()
      reads this
    {
      Counted() && Inv(cfg, Book())
    }

    constructor (budgetBytes: nat, share: real)
      ensures Valid() && cfg == Configure(budgetBytes, share) && Book() == EMPTY
    {
      cfg := Configure(budgetBytes, share);
      inFlightBytes := 0;
      clientInFlight := map[];
      requests := [];
    }

    function CurrentBytes(): (n: int)
      requires Valid()
      reads this
      ensures n == Bytes(requests, None) && 0 <= n <= cfg.budget
    {
      inFlightBytes
    }

    function ClientBytes(client: string): (n: int)
      requires Valid()
      reads this
      ensures n == Bytes(requests, Some(client)) && 0 <= n <= cfg.clientCap
    {
      if client in clientInFlight then clientInFlight[client] else 0
    }

    /** The middleware's entry: it reads the headers once, then admits or refuses. */
    method OnRequest(client: string, hs: Headers, responseStarted: bool, socketBytes: nat, now: int)
      returns (outcome: Outcome)
      requires Valid()
      modifies this`inFlightBytes, this`clientInFlight, this`requests
      ensures Valid()
      ensures var h := ReadHead(client, hs, responseStarted, socketBytes, now);
              outcome == Admission(cfg, old(Book()), h) && Book() == Admit(cfg, old(Book()), h)
      ensures forall amount: nat :: Reserves(cfg.opening, hs, amount) ==>
                && inFlightBytes == old(inFlightBytes) + (if outcome.Next? then amount else 0)
                && (outcome.Next? ==> requests != [] && (requests[|requests| - 1].armed <==> amount > 0))
    {
      forall amount: nat | Reserves(cfg.opening, hs, amount) {
        AdmissionExactly(cfg, Book(), client, hs, responseStarted, socketBytes, now, amount);
      }
      var h := ReadHead(client, hs, responseStarted, socketBytes, now);
      outcome := Middleware(h);
    }

    method Middleware(h: Head) returns (outcome: Outcome)
      requires Valid()
      modifies this`inFlightBytes, this`clientInFlight, this`requests
      ensures Valid()
      ensures outcome == Admission(cfg, old(Book()), h)
      ensures Book() == Admit(cfg, old(Book()), h)
    {
      AdmitKeepsInv(cfg, Book(), h);
      outcome := Reserve(h);
    }

    /** The three admission checks, from the running counters. */
    method Overloaded(client: string, reserved: nat) returns (busy: bool)
      requires Counted()
      ensures busy <==> || Bytes(requests, None) + reserved > cfg.budget
                        || Bytes(requests, Some(client)) + reserved > cfg.clientCap
                        || (|clientInFlight.Keys| >= MAX_TRACKED_CLIENTS && client !in clientInFlight.Keys)
    {
      var clientBusy := if client in clientInFlight then clientInFlight[client] else 0;
      assert |clientInFlight.Keys| == |clientInFlight|;
      var mapAtCapacity := |clientInFlight| >= MAX_TRACKED_CLIENTS && client !in clientInFlight;
      busy := inFlightBytes + reserved > cfg.budget || clientBusy + reserved > cfg.clientCap || mapAtCapacity;
    }

    /** Refuses a compressed body, then an overload; a response already on its way leaves only the socket to drop. */
    method Judge(h: Head) returns (outcome: Outcome)
      requires Counted()
      ensures outcome == Admission(cfg, Book(), h)
    {
      if h.Compressed() {
        return if h.responseStarted then Dropped else Unsupported;
      }
      var busy := Overloaded(h.client, h.Opening(cfg));
      if busy {
        return if h.responseStarted then Dropped else Busy;
      }
      return Next;
    }

    method Reserve(h: Head) returns (outcome: Outcome)
      requires Counted()
      modifies this`inFlightBytes, this`clientInFlight, this`requests
      ensures Counted()
      ensures outcome == Admission(cfg, old(Book()), h)
      ensures Book() == Admit(cfg, old(Book()), h)
    {
      outcome := Judge(h);
      if outcome == Next {
        var reserved := h.Opening(cfg);
        Charge(Request(
          h.client, h.declared, h.chunked, reserved, false, reserved > 0, h.socketBytes, h.socketBytes, h.now));
      }
    }

    method Charge(r: Request)
      requires Counted() && !r.released
      modifies this`inFlightBytes, this`clientInFlight, this`requests
      ensures Counted()
      ensures Book() == Ledger(old(requests) + [r], old(clientInFlight.Keys) + {r.client})
    {
      BytesAppend(requests, r);
      var clientBusy := if r.client in clientInFlight then clientInFlight[r.client] else 0;
      inFlightBytes := inFlightBytes + r.reserved;
      clientInFlight := clientInFlight[r.client := clientBusy + r.reserved];
      requests := requests + [r];
    }

    /** The shared body of every terminal path: only the first call does anything. */
    method ReleaseBytes(i: nat)
      requires i < |requests| && Counted()
      modifies this`inFlightBytes, this`clientInFlight, this`requests
      ensures Counted() && Book() == Release(old(Book()), i)
      ensures inFlightBytes == old(inFlightBytes) - if old(requests)[i].released then 0 else old(requests)[i].reserved
    {
      var r := requests[i];
      if r.released { return; }
      var r' := r.(released := true, armed := false);
      BytesUpdate(requests, i, r', None);
      BytesHeld(requests, i, Some(r.client));
      forall c { BytesUpdate(requests, i, r', Some(c)); }
      requests := requests[i := r'];
      inFlightBytes := inFlightBytes - r.reserved;
      var busy := (if r.client in clientInFlight then clientInFlight[r.client] else r.reserved) - r.reserved;
      if busy > 0 {
        clientInFlight := clientInFlight[r.client := busy];
      } else {
        clientInFlight := clientInFlight - {r.client};
      }
    }

    method OnTerminal(i: nat, t: Terminal)
      requires Valid() && i < |requests|
      modifies this`inFlightBytes, this`clientInFlight, this`requests
      ensures Valid() && Book() == Step(cfg, old(Book()), End(i, t))
      ensures requests[i].released && !requests[i].armed
      ensures inFlightBytes == old(inFlightBytes) - if old(requests)[i].released then 0 else old(requests)[i].reserved
    {
      StepKeepsInv(cfg, Book(), End(i, t));
      ReleaseBytes(i);
    }

    method Disarm(i: nat)
      requires Counted() && i < |requests|
      modifies this`requests
      ensures Counted() && requests == old(requests)[i := old(requests)[i].(armed := false)]
    {
      SameBytes(requests, requests[i := requests[i].(armed := false)], i);
      requests := requests[i := requests[i].(armed := false)];
    }

    method OnBodyEnd(i: nat)
      requires Valid() && i < |requests|
      modifies this`requests
      ensures Valid() && Book() == Step(cfg, old(Book()), BodyEnd(i))
      ensures !requests[i].armed && requests[i].reserved == old(requests)[i].reserved
    {
      StepKeepsInv(cfg, Book(), BodyEnd(i));
      Disarm(i);
    }

    /** Move one live reservation to `actual`, adjusting both counters by the difference. */
    method Resize(i: nat, actual: nat) returns (busy: int)
      requires Counted() && i < |requests| && !requests[i].released
      modifies this`inFlightBytes, this`clientInFlight, this`requests
      ensures Counted()
      ensures requests == old(requests)[i := old(requests)[i].(reserved := actual)]
      ensures clientInFlight.Keys == old(clientInFlight.Keys) + {requests[i].client}
      ensures busy == Bytes(requests, Some(requests[i].client))
    {
      var r := requests[i];
      var delta := actual - r.reserved;
      var r' := r.(reserved := actual);
      forall who { BytesUpdate(requests, i, r', who); }
      inFlightBytes := inFlightBytes + delta;
      requests := requests[i := r'];
      busy := (if r.client in clientInFlight then clientInFlight[r.client] else 0) + delta;
      clientInFlight := clientInFlight[r.client := busy];
    }

    /** Crossing either limit mid-stream drops the request. */
    method AbortIfOver(i: nat, busy: int)
      requires Counted() && i < |requests| && !requests[i].released && busy == Bytes(requests, Some(requests[i].client))
      modifies this`inFlightBytes, this`clientInFlight, this`requests
      ensures Counted()
      ensures Book() == if Over(cfg, old(requests), old(requests)[i].client)
                        then Release(old(Book()), i) else old(Book())
    {
      if busy > cfg.clientCap {
        ReleaseBytes(i);
        return;
      }
      if inFlightBytes > cfg.budget {
        ReleaseBytes(i);
      }
    }

    method ReconcileUndeclared(i: nat, bytesRead: nat)
      requires Counted() && i < |requests| && !requests[i].released
      modifies this`inFlightBytes, this`clientInFlight, this`requests
      ensures Counted() && Book() == Reconcile(cfg, old(Book()), i, bytesRead)
    {
      var actual := Max(cfg.opening, bytesRead - requests[i].startBytes);
      if actual == requests[i].reserved { return; }
      var busy := Resize(i, actual);
      assert Book() == Resized(old(Book()), i, actual);
      AbortIfOver(i, busy);
    }

    /** A poll that observed new bytes. */
    method OnProgress(i: nat, bytesRead: nat, now: int)
      requires Counted() && i < |requests| && requests[i].armed && !requests[i].released
      requires bytesRead != requests[i].lastBytes
      modifies this`inFlightBytes, this`clientInFlight, this`requests
      ensures Counted() && Book() == Polled(cfg, old(Book()), i, bytesRead, false, now)
    {
      var r := requests[i];
      if r.declared.None? {
        ReconcileUndeclared(i, bytesRead);
      }
      var moved := requests[i].(lastBytes := bytesRead, lastProgress := now);
      if r.declared.Some? && bytesRead - r.startBytes >= r.declared.value {
        moved := moved.(armed := false);
      }
      SameBytes(requests, requests[i := moved], i);
      requests := requests[i := moved];
    }

    method OnPoll(i: nat, bytesRead: nat, complete: bool, now: int)
      requires Valid() && i < |requests|
      modifies this`inFlightBytes, this`clientInFlight, this`requests
      ensures Valid() && Book() == Step(cfg, old(Book()), Poll(i, bytesRead, complete, now))
    {
      StepKeepsInv(cfg, Book(), Poll(i, bytesRead, complete, now));
      assert RequestOk(cfg, requests[i]);
      PollTimer(i, bytesRead, complete, now);
    }

    method PollTimer(i: nat, bytesRead: nat, complete: bool, now: int)
      requires Counted() && i < |requests| && (requests[i].released ==> !requests[i].armed)
      modifies this`inFlightBytes, this`clientInFlight, this`requests
      ensures Counted() && Book() == Polled(cfg, old(Book()), i, bytesRead, complete, now)
    {
      if !requests[i].armed { return; }          // clearInterval: the callback no longer runs
      if complete {
        Disarm(i);
        return;
      }
      if bytesRead != requests[i].lastBytes {
        OnProgress(i, bytesRead, now);
        return;
      }
      if now - requests[i].lastProgress >= STALL_TIMEOUT_MS {
        ReleaseBytes(i);
      }
    }

    /** CONSERVATION over whole runs: any sequence of callbacks leaves the counters equal to the sums. */
    method Drive(es: seq<Event>)
      requires Valid()
      modifies this`inFlightBytes, this`clientInFlight, this`requests
      ensures Valid() && Book() == Run(cfg, old(Book()), es)
    {
      ghost var start := Book();
      assert es[..0] == [];
      for k := 0 to |es|
        invariant Valid() && Book() == Run(cfg, start, es[..k])
      {
        assert es[..k + 1][..k] == es[..k];
        match es[k] {
          case Arrive(h) => var _ := Middleware(h);
          case End(i, t) => if i < |requests| { OnTerminal(i, t); }
          case Poll(i, n, complete, now) => if i < |requests| { OnPoll(i, n, complete, now); }
          case BodyEnd(i) => if i < |requests| { OnBodyEnd(i); }
        }
      }
      assert es[..|es|] == es;
    }
  }
}
