/**
 * Holding a reader's position in a chat thread while media above decodes and older pages arrive.
 *
 * A thread is a sequence of item heights under a browser that clamps every scroll write. The theory is
 * about a reader who is neither pinned to the bottom nor being restored to a saved spot: `Settled` is
 * where an item will sit relative to the container's top edge once every correction still owed has been
 * applied, and `Slip` is exactly how far one event moves that spot. `ScrollPosition` is the hook.
 */
module ScrollAnchor {
  import opened Wrappers

  const BOTTOM_PIN_THRESHOLD_PX := 24

  /** `seed` is the box height recorded when the item mounted or last fired a handled load event. */
  datatype Item = Item(height: nat, seed: nat)

  function Top(items: seq<Item>, k: nat): nat
    requires k <= |items|
  {
    if k == 0 then 0 else Top(items, k - 1) + items[k - 1].height
  }

  function Sum(xs: seq<int>): int {
    if xs == [] then 0 else Sum(xs[..|xs| - 1]) + xs[|xs| - 1]
  }

  // ---------------------------------------------------------------- the pure decisions

  function GrewAboveReadingPosition(mediaBottom: int, containerTop: int): bool {
    mediaBottom <= containerTop
  }

  function CorrectionForMediaGrowth(seeded: int, current: int, mediaBottom: int, containerTop: int): Option<int> {
    var grew := current - seeded;
    if grew <= 0 then None
    else if GrewAboveReadingPosition(mediaBottom - grew, containerTop) then Some(grew) else None
  }

  predicate IsNearBottom(scrollTop: int, scrollHeight: int, clientHeight: int) {
    scrollHeight - scrollTop - clientHeight <= BOTTOM_PIN_THRESHOLD_PX
  }

  datatype Restore = Saved | Bottom | Nothing

  function DecideRestoreTarget(chat: Option<string>, loaded: bool, saved: Option<int>): Restore {
    if chat.Some? && loaded then (if saved.Some? then Saved else Bottom) else Nothing
  }

  // ---------------------------------------------------------------- a reader's view of the thread

  /**
   * `spinner`: height of the in-flow loading row above the items. `owed`: corrections waiting for their
   * animation frame. `saved`: the remembered position of this chat.
   */
  datatype View = View(
    items: seq<Item>, spinner: nat, client: nat, edge: int, scrollTop: int, owed: seq<int>,
    awaiting: bool, requestHeight: int, wasFetching: bool, saved: int)

  datatype Event =
    | Decode(item: nat, height: nat)     // an item's box grows, then its load event fires
    | Frame                              // the oldest animation-frame callback runs
    | Request                            // the reader asks for an older page
    | Fetching(spinner: nat)             // the commit on which the query reports itself in flight
    | Landing(page: seq<Item>)           // the commit on which it no longer is; [] if the fetch failed
    | Append(row: Item)                  // a live message at the bottom
    | Scroll(top: int)                   // the reader scrolls

  function ScrollHeight(v: View): int {
    Max(v.client, v.spinner + Top(v.items, |v.items|))
  }

  /** The browser's clamp on a scroll write. */
  function Clamp(v: View, top: int): int {
    Max(0, Min(top, ScrollHeight(v) - v.client))
  }

  /** As far down as the browser scrolls. */
  function BottomOf(v: View): int {
    Max(0, ScrollHeight(v) - v.client)
  }

  /** Viewport coordinate of an item's bottom edge. */
  function BottomEdge(v: View, j: nat): int
    requires j < |v.items|
  {
    v.edge + v.spinner + Top(v.items, j + 1) - v.scrollTop
  }

  /** Viewport coordinate of an item's top edge: its place on screen. */
  function ScreenTop(v: View, k: nat): int
    requires k <= |v.items|
  {
    v.edge + v.spinner + Top(v.items, k) - v.scrollTop
  }

  function Grow(v: View, j: nat, h: nat): View
    requires j < |v.items|
  {
    v.(items := v.items[j := v.items[j].(height := h)])
  }

  /** What the load handler decides for the reader once the new height is in layout. */
  function Loaded(v: View, j: nat): View
    requires j < |v.items|
  {
    if v.awaiting then v
    else
      var h := v.items[j].height;
      var correction := CorrectionForMediaGrowth(v.items[j].seed, h, BottomEdge(v, j), v.edge);
      v.(items := v.items[j := Item(h, h)],
         owed := if correction.Some? then v.owed + [correction.value] else v.owed)
  }

  function Write(v: View, top: int): View {
    v.(scrollTop := Clamp(v, top), saved := top)
  }

  /** The layout effect of a commit: only the falling edge of an awaited fetch corrects. */
  function PageEffect(v: View, fetching: bool): View {
    var w := v.(wasFetching := fetching);
    if fetching || !v.wasFetching || !v.awaiting then w
    else
      var grew := ScrollHeight(v) - v.requestHeight;
      var done := w.(awaiting := false);
      if grew > 0 then Write(done, v.scrollTop + grew) else done
  }

  function Step(v: View, e: Event): View {
    match e
    case Decode(j, h) => if j < |v.items| then Loaded(Grow(v, j, h), j) else v
    case Frame => if v.owed == [] then v else Write(v.(owed := v.owed[1..]), v.scrollTop + v.owed[0])
    case Request => v.(awaiting := true, requestHeight := ScrollHeight(v))
    case Fetching(h) => PageEffect(v.(spinner := h), true)
    case Landing(page) => PageEffect(v.(items := page + v.items, spinner := 0), false)
    case Append(row) => PageEffect(v.(items := v.items + [row]), v.wasFetching)
    case Scroll(top) => v.(scrollTop := top, saved := top)
  }

  function Run(v: View, es: seq<Event>): View {
    if es == [] then v else Step(Run(v, es[..|es| - 1]), es[|es| - 1])
  }

  // ---------------------------------------------------------------- sums of heights

  lemma TopUpdate(items: seq<Item>, j: nat, item: Item, k: nat)
    requires j < |items| && k <= |items|
    ensures Top(items[j := item], k) == Top(items, k) + if j < k then item.height - items[j].height else 0
  {
    if k > 0 { TopUpdate(items, j, item, k - 1); }
  }

  lemma {:induction false} TopPrepend(page: seq<Item>, items: seq<Item>, k: nat)
    requires k <= |items|
    ensures Top(page + items, |page| + k) == Top(page, |page|) + Top(items, k)
  {
    if k > 0 {
      TopPrepend(page, items, k - 1);
      assert (page + items)[|page| + k - 1] == items[k - 1];
    } else {
      TopPrefix(page, items, |page|);
    }
  }

  lemma {:induction false} TopPrefix(a: seq<Item>, b: seq<Item>, k: nat)
    requires k <= |a|
    ensures Top(a + b, k) == Top(a, k)
  {
    if k > 0 { TopPrefix(a, b, k - 1); }
  }

  lemma TopMonotone(items: seq<Item>, j: nat, k: nat)
    requires j <= k <= |items|
    ensures Top(items, j) <= Top(items, k)
  {
    if j < k { TopMonotone(items, j, k - 1); }
  }

  // ---------------------------------------------------------------- what is owed, and what slips

  /** Everything that will still be added to scrollTop: queued corrections, and the landing's own. */
  function Owed(v: View): int {
    Sum(v.owed) + if v.awaiting then Top(v.items, |v.items|) - v.requestHeight else 0
  }

  /** Where item `k` sits relative to the top edge once everything owed has been applied. */
  function Settled(v: View, k: nat): int
    requires k <= |v.items|
  {
    Top(v.items, k) - v.scrollTop - Owed(v)
  }

  /** The item at index `k` before an event is at this index after it. */
  function Follow(e: Event, k: nat): nat {
    if e.Landing? then k + |e.page| else k
  }

  /** Does the load handler judge this decode to be above the reading position? */
  predicate Judged(v: View, j: nat, h: nat)
    requires j < |v.items|
  {
    var g := Grow(v, j, h);
    CorrectionForMediaGrowth(v.items[j].seed, h, BottomEdge(g, j), v.edge).Some?
  }

  /** How far one event moves item `k` on screen for good. */
  function Slip(v: View, e: Event, k: nat): int
    requires k <= |v.items|
  {
    match e
    case Decode(j, h) =>
      if j >= |v.items| then 0
      else
        var grew := h - v.items[j].height;
        (if j < k then grew else 0) - (if v.awaiting || Judged(v, j, h) then grew else 0)
    case Append(row) => if v.awaiting then -(row.height as int) else 0
    case Landing(page) => if v.awaiting then 0 else Top(page, |page|)
    case Scroll(top) => v.scrollTop - top
    case _ => 0
  }

  function Followed(es: seq<Event>, k: nat): nat {
    if es == [] then k else Follow(es[|es| - 1], Followed(es[..|es| - 1], k))
  }

  lemma {:induction false} FollowedInRange(v: View, es: seq<Event>, k: nat)
    requires k <= |v.items|
    ensures Followed(es, k) <= |Run(v, es).items|
    ensures k < |v.items| ==> Followed(es, k) < |Run(v, es).items|
  {
    if es != [] { FollowedInRange(v, es[..|es| - 1], k); }
  }

  function TotalSlip(v: View, es: seq<Event>, k: nat): int
    requires k <= |v.items|
  {
    if es == [] then 0
    else
      var init := es[..|es| - 1];
      FollowedInRange(v, init, k);
      TotalSlip(v, init, k) + Slip(Run(v, init), es[|es| - 1], Followed(init, k))
  }

  // ---------------------------------------------------------------- steadiness

  /** A genuine scroll that leaves the reader short of the bottom, where the thread would pin itself. */
  predicate Away(v: View, top: int) {
    0 <= top && top != v.scrollTop && !IsNearBottom(top, ScrollHeight(v), v.client)
  }

  /**
   * What the browser and the query library guarantee: boxes only grow, a load event finds the seed its
   * own mount or last handled load left, one request at a time, and a page in flight was requested. Of
   * the reader: his scrolls stay away from the bottom, with room for the corrections still owed.
   */
  predicate Sane(v: View, e: Event) {
    match e
    case Decode(j, h) => j < |v.items| ==> v.items[j].height <= h && v.items[j].seed == v.items[j].height
    case Request => !v.awaiting
    case Fetching(_) => v.awaiting
    case Landing(_) => v.awaiting && v.wasFetching
    case Scroll(top) => Away(v, top) && top + Owed(v) <= Top(v.items, |v.items|) - v.client
    case _ => true
  }

  /**
   * A scrollable thread whose owed corrections all still fit: applying every one of them would leave the
   * viewport inside the content.
   */
  ghost predicate Steady(v: View) {
    && v.client <= Top(v.items, |v.items|)
    && 0 <= v.scrollTop
    && v.scrollTop + Owed(v) <= Top(v.items, |v.items|) - v.client
    && (forall i :: 0 <= i < |v.owed| ==> v.owed[i] > 0)
    && (v.awaiting ==> v.requestHeight <= Top(v.items, |v.items|))
    && (v.spinner > 0 ==> v.awaiting)
    && v.saved == v.scrollTop
  }

  predicate AtRest(v: View) {
    v.owed == [] && !v.awaiting
  }

  lemma SumAppend(xs: seq<int>, x: int)
    ensures Sum(xs + [x]) == Sum(xs) + x
  {
    assert (xs + [x])[..|xs|] == xs;
  }

  lemma {:induction false} SumHead(xs: seq<int>)
    requires xs != []
    ensures Sum(xs) == xs[0] + Sum(xs[1..])
  {
    if |xs| > 1 {
      SumHead(xs[..|xs| - 1]);
      assert xs[..|xs| - 1][1..] == xs[1..][..|xs| - 2];
    }
  }

  lemma SumPositive(xs: seq<int>)
    requires forall i :: 0 <= i < |xs| ==> xs[i] > 0
    ensures Sum(xs) >= 0
  {
  }

  /** A decode outside a fetch is judged above exactly when its box ended at or above the top edge before it grew. */
  lemma JudgedExactly(v: View, j: nat, h: nat)
    requires j < |v.items| && v.spinner == 0 && v.items[j].seed == v.items[j].height < h
    ensures Judged(v, j, h) <==> Top(v.items, j + 1) <= v.scrollTop
  {
    TopUpdate(v.items, j, v.items[j].(height := h), j + 1);
  }

  /** What a decode does to the thread's geometry, whichever way it is judged. */
  lemma DecodeGeometry(v: View, j: nat, h: nat, k: nat)
    requires j < |v.items| && k <= |v.items|
    ensures var v' := Step(v, Decode(j, h));
            && |v'.items| == |v.items|
            && Top(v'.items, k) == Top(v.items, k) + if j < k then h - v.items[j].height else 0
  {
    var v' := Step(v, Decode(j, h));
    TopUpdate(v.items, j, v'.items[j], k);
    assert v'.items == v.items[j := v'.items[j]];
  }

  /** ... and to what is owed outside a fetch. */
  lemma DecodeOwed(v: View, j: nat, h: nat)
    requires j < |v.items| && !v.awaiting && v.items[j].seed == v.items[j].height
    ensures Owed(Step(v, Decode(j, h))) == Owed(v) + if Judged(v, j, h) then h - v.items[j].height else 0
  {
    SumAppend(v.owed, h - v.items[j].height);
  }

  /** A decode touches the items and what is owed, and owes only growth. */
  lemma DecodeTouches(v: View, j: nat, h: nat)
    requires j < |v.items|
    ensures var v' := Step(v, Decode(j, h));
      && v' == v.(items := v'.items, owed := v'.owed)
      && (v'.owed == v.owed || (|v'.owed| == |v.owed| + 1 && v'.owed[..|v.owed|] == v.owed && v'.owed[|v.owed|] > 0))
      && (v.awaiting ==> v'.owed == v.owed)
  {
  }

  lemma DecodeSlip(v: View, j: nat, h: nat, k: nat)
    requires Steady(v) && Sane(v, Decode(j, h)) && j < |v.items| && k <= |v.items|
    ensures var v' := Step(v, Decode(j, h));
            Steady(v') && Settled(v', k) == Settled(v, k) + Slip(v, Decode(j, h), k)
  {
    DecodeGeometry(v, j, h, k);
    DecodeGeometry(v, j, h, |v.items|);
    DecodeTouches(v, j, h);
    if !v.awaiting {
      DecodeOwed(v, j, h);
    }
  }

  lemma FrameSlip(v: View, k: nat)
    requires Steady(v) && v.owed != [] && k <= |v.items|
    ensures var v' := Step(v, Frame);
            Steady(v') && Settled(v', k) == Settled(v, k) && v'.scrollTop == v.scrollTop + v.owed[0]
  {
    SumHead(v.owed);
    SumPositive(v.owed[1..]);
  }

  lemma LandingSlip(v: View, page: seq<Item>, k: nat)
    requires Steady(v) && Sane(v, Landing(page)) && k <= |v.items|
    ensures var v' := Step(v, Landing(page));
            && Steady(v') && Settled(v', |page| + k) == Settled(v, k)
            && v'.scrollTop == v.scrollTop + Top(v'.items, |v'.items|) - v.requestHeight
  {
    TopPrepend(page, v.items, k);
    TopPrepend(page, v.items, |v.items|);
    SumPositive(v.owed);
  }

  lemma AppendSlip(v: View, row: Item, k: nat)
    requires Steady(v) && k <= |v.items|
    ensures var v' := Step(v, Append(row));
            Steady(v') && Settled(v', k) == Settled(v, k) + Slip(v, Append(row), k)
  {
    TopPrefix(v.items, [row], k);
    TopPrefix(v.items, [row], |v.items|);
  }

  /** Asking for a page, and the commit that shows its fetch, move nothing. */
  lemma AskingSlip(v: View, e: Event, k: nat)
    requires Steady(v) && Sane(v, e) && k <= |v.items| && (e.Request? || e.Fetching?)
    ensures Steady(Step(v, e)) && Settled(Step(v, e), k) == Settled(v, k)
  {
  }

  lemma ScrollSlip(v: View, top: int, k: nat)
    requires Steady(v) && Sane(v, Scroll(top)) && k <= |v.items|
    ensures var v' := Step(v, Scroll(top));
            Steady(v') && Settled(v', k) == Settled(v, k) + v.scrollTop - top
  {
  }

  /** One event moves an item's settled place by exactly its slip, whatever the event. */
  lemma StepSlip(v: View, e: Event, k: nat)
    requires Steady(v) && Sane(v, e) && k <= |v.items|
    ensures Follow(e, k) <= |Step(v, e).items|
    ensures Steady(Step(v, e)) && Settled(Step(v, e), Follow(e, k)) == Settled(v, k) + Slip(v, e, k)
  {
    match e
    case Decode(j, h) => if j < |v.items| { DecodeSlip(v, j, h, k); }
    case Frame => if v.owed != [] { FrameSlip(v, k); }
    case Request => AskingSlip(v, e, k);
    case Fetching(_) => AskingSlip(v, e, k);
    case Landing(page) => LandingSlip(v, page, k);
    case Append(row) => AppendSlip(v, row, k);
    case Scroll(top) => ScrollSlip(v, top, k);
  }

  predicate SaneRun(v: View, es: seq<Event>) {
    es == [] || (SaneRun(v, es[..|es| - 1]) && Sane(Run(v, es[..|es| - 1]), es[|es| - 1]))
  }

  predicate AwayRun(v: View, es: seq<Event>) {
    es == [] ||
    (AwayRun(v, es[..|es| - 1]) && (es[|es| - 1].Scroll? ==> Away(Run(v, es[..|es| - 1]), es[|es| - 1].top)))
  }

  lemma {:induction false} AwayAt(v: View, es: seq<Event>, n: nat)
    requires AwayRun(v, es) && n < |es|
    ensures es[n].Scroll? ==> Away(Run(v, es[..n]), es[n].top)
    decreases |es|
  {
    if n < |es| - 1 {
      assert es[..|es| - 1][..n] == es[..n];
      AwayAt(v, es[..|es| - 1], n);
    }
  }

  /** A sane run is one the hook can be driven through. */
  lemma {:induction false} SaneRunIsAway(v: View, es: seq<Event>)
    requires SaneRun(v, es)
    ensures AwayRun(v, es)
  {
    if es != [] { SaneRunIsAway(v, es[..|es| - 1]); }
  }

  lemma {:induction false} RunSlip(v: View, es: seq<Event>, k: nat)
    requires Steady(v) && SaneRun(v, es) && k <= |v.items|
    ensures Followed(es, k) <= |Run(v, es).items|
    ensures Steady(Run(v, es)) && Settled(Run(v, es), Followed(es, k)) == Settled(v, k) + TotalSlip(v, es, k)
  {
    if es != [] {
      var init := es[..|es| - 1];
      RunSlip(v, init, k);
      StepSlip(Run(v, init), es[|es| - 1], Followed(init, k));
    }
  }

  /**
   * NO WRITE IS CLAMPED: along any run, whatever decodes and pages arrive, each correction moves
   * scrollTop by exactly its amount, and the remembered position is the one being read.
   */
  lemma WritesAreExact(v: View, es: seq<Event>, e: Event)
    requires Steady(v) && SaneRun(v, es + [e])
    ensures var before, after := Run(v, es), Run(v, es + [e]);
            && after.saved == after.scrollTop
            && after.scrollTop == before.scrollTop
                 + match e
                   case Frame => if before.owed == [] then 0 else before.owed[0]
                   case Landing(page) => Top(page + before.items, |page + before.items|) - before.requestHeight
                   case Scroll(top) => top - before.scrollTop
                   case _ => 0
  {
    assert (es + [e])[..|es|] == es;
    RunSlip(v, es, 0);
    StepSlip(Run(v, es), e, 0);
    match e
    case Frame => if Run(v, es).owed != [] { FrameSlip(Run(v, es), 0); }
    case Landing(page) => LandingSlip(Run(v, es), page, 0);
    case _ =>
  }

  /**
   * The exact displacement: once nothing is owed, an item sits as far from where it was on screen as the
   * run's events slipped, no more and no less.
   */
  lemma DisplacementIsSlip(v: View, es: seq<Event>, k: nat)
    requires Steady(v) && AtRest(v) && SaneRun(v, es) && AtRest(Run(v, es)) && k <= |v.items|
    ensures Followed(es, k) <= |Run(v, es).items|
    ensures Run(v, es).edge == v.edge
    ensures ScreenTop(Run(v, es), Followed(es, k)) - ScreenTop(v, k) == TotalSlip(v, es, k)
  {
    RunSlip(v, es, k);
    EdgeFixed(v, es);
  }

  lemma {:induction false} EdgeFixed(v: View, es: seq<Event>)
    ensures Run(v, es).edge == v.edge && Run(v, es).client == v.client
  {
    if es != [] { EdgeFixed(v, es[..|es| - 1]); }
  }

  // ---------------------------------------------------------------- the reader held still

  /** Some part of item `k` is, or will settle, below the top edge. */
  predicate Visible(v: View, k: nat)
    requires k < |v.items|
  {
    Settled(v, k) + v.items[k].height > 0
  }

  /** Growth at or below a visible item is never taken for growth above the reader. */
  lemma BelowIsNotJudged(v: View, j: nat, h: nat, k: nat)
    requires Steady(v) && Sane(v, Decode(j, h)) && !v.awaiting && k <= j < |v.items| && Visible(v, k)
    ensures !Judged(v, j, h)
  {
    if v.items[j].height < h {
      JudgedExactly(v, j, h);
      TopMonotone(v.items, k + 1, j + 1);
      SumPositive(v.owed);
    }
  }

  /**
   * A reader watching item `k`: his own scrolling leaves it in sight, and nothing at or below it grows
   * while a page is in flight.
   */
  predicate Watching(v: View, e: Event, k: nat)
    requires k < |v.items|
  {
    match e
    case Decode(j, h) => k <= j < |v.items| && v.awaiting ==> h == v.items[j].height
    case Append(row) => v.awaiting ==> row.height == 0
    case Scroll(top) => Visible(Step(v, e), k)
    case _ => true
  }

  /** Growth above item `k` is corrected: its box ended at or above the top edge, or a page is in flight. */
  predicate Caught(v: View, e: Event, k: nat)
    requires k < |v.items|
  {
    e.Decode? && e.item < k && e.height > v.items[e.item].height ==>
      v.awaiting || Top(v.items, e.item + 1) <= v.scrollTop
  }

  predicate WatchingRun(v: View, es: seq<Event>, k: nat)
    requires k < |v.items|
  {
    es == [] ||
    var init := es[..|es| - 1];
    FollowedInRange(v, init, k);
    WatchingRun(v, init, k) && Watching(Run(v, init), es[|es| - 1], Followed(init, k))
  }

  predicate CaughtRun(v: View, es: seq<Event>, k: nat)
    requires k < |v.items|
  {
    es == [] ||
    var init := es[..|es| - 1];
    FollowedInRange(v, init, k);
    CaughtRun(v, init, k) && Caught(Run(v, init), es[|es| - 1], Followed(init, k))
  }

  function ScrolledBy(v: View, e: Event): int {
    if e.Scroll? then e.top - v.scrollTop else 0
  }

  /** How far the reader scrolled in all. */
  function Scrolled(v: View, es: seq<Event>): int {
    if es == [] then 0
    else
      var init := es[..|es| - 1];
      Scrolled(v, init) + ScrolledBy(Run(v, init), es[|es| - 1])
  }

  /** Besides the reader's own scrolling, an event only ever pushes the item down, and only if not caught. */
  lemma SlipIsMiss(v: View, e: Event, k: nat)
    requires Steady(v) && Sane(v, e) && k < |v.items| && Visible(v, k) && Watching(v, e, k)
    ensures Slip(v, e, k) + ScrolledBy(v, e) >= 0
    ensures Slip(v, e, k) + ScrolledBy(v, e) == 0 <==> Caught(v, e, k)
  {
    if e.Decode? && e.item < |v.items| && !v.awaiting && e.height > v.items[e.item].height {
      JudgedExactly(v, e.item, e.height);
      if k <= e.item { BelowIsNotJudged(v, e.item, e.height, k); }
    }
  }

  lemma WatchedStaysVisible(v: View, e: Event, k: nat)
    requires Steady(v) && Sane(v, e) && k < |v.items| && Visible(v, k) && Watching(v, e, k)
    ensures Follow(e, k) < |Step(v, e).items| && Visible(Step(v, e), Follow(e, k))
  {
    StepSlip(v, e, k);
    SlipIsMiss(v, e, k);
  }

  lemma {:induction false} SlipsAreMisses(v: View, es: seq<Event>, k: nat)
    requires Steady(v) && SaneRun(v, es) && k < |v.items| && Visible(v, k) && WatchingRun(v, es, k)
    ensures TotalSlip(v, es, k) + Scrolled(v, es) >= 0
    ensures TotalSlip(v, es, k) + Scrolled(v, es) == 0 <==> CaughtRun(v, es, k)
    ensures Followed(es, k) < |Run(v, es).items| && Visible(Run(v, es), Followed(es, k))
  {
    if es != [] {
      var init := es[..|es| - 1];
      SlipsAreMisses(v, init, k);
      RunSlip(v, init, k);
      SlipIsMiss(Run(v, init), es[|es| - 1], Followed(init, k));
      WatchedStaysVisible(Run(v, init), es[|es| - 1], Followed(init, k));
    }
  }

  /**
   * READER HELD STILL, exactly: over any run of decodes, frames, landing pages, live messages and the
   * reader's own scrolls, a watched item moves on screen by what the reader scrolled, no more, if and only
   * if every growth above it was caught. What is not caught pushes it down. When all is caught, scrollTop
   * gained what the reader scrolled and exactly the growth above.
   */
  lemma ReaderHeldStill(v: View, es: seq<Event>, k: nat)
    requires Steady(v) && AtRest(v) && k < |v.items| && Visible(v, k)
    requires SaneRun(v, es) && WatchingRun(v, es, k) && AtRest(Run(v, es))
    ensures var w, k' := Run(v, es), Followed(es, k);
            && k' < |w.items|
            && ScreenTop(w, k') >= ScreenTop(v, k) - Scrolled(v, es)
            && (ScreenTop(w, k') == ScreenTop(v, k) - Scrolled(v, es) <==> CaughtRun(v, es, k))
            && (CaughtRun(v, es, k) ==>
                  w.scrollTop - v.scrollTop == Scrolled(v, es) + Top(w.items, k') - Top(v.items, k))
  {
    SlipsAreMisses(v, es, k);
    DisplacementIsSlip(v, es, k);
    RunSlip(v, es, k);
  }

  /** With nothing owed, every decode above the item at the top edge is judged correctly. */
  lemma JudgedWhenNothingOwed(v: View, j: nat, h: nat, k: nat)
    requires Steady(v) && AtRest(v) && j < k < |v.items| && Settled(v, k) <= 0
    requires v.items[j].seed == v.items[j].height < h
    ensures Judged(v, j, h)
  {
    JudgedExactly(v, j, h);
    TopMonotone(v.items, j + 1, k);
  }

  /** How much a run of decodes has grown the first `m` items. */
  function Grown(v: View, es: seq<Event>, m: nat): int {
    if es == [] then 0
    else
      var init, e := es[..|es| - 1], es[|es| - 1];
      var u := Run(v, init);
      Grown(v, init, m) + if e.Decode? && e.item < m && e.item < |u.items| then e.height - u.items[e.item].height else 0
  }

  predicate AllDecodes(es: seq<Event>) {
    forall i :: 0 <= i < |es| ==> es[i].Decode?
  }

  lemma {:induction false} BeforeTheFrame(v: View, es: seq<Event>, m: nat)
    requires AllDecodes(es) && m <= |v.items|
    ensures var u := Run(v, es);
            && |u.items| == |v.items| && u.scrollTop == v.scrollTop
            && u.spinner == v.spinner && u.awaiting == v.awaiting
            && Top(u.items, m) == Top(v.items, m) + Grown(v, es, m)
  {
    if es != [] {
      var init, e := es[..|es| - 1], es[|es| - 1];
      BeforeTheFrame(v, init, m);
      if e.item < |v.items| {
        DecodeGeometry(Run(v, init), e.item, e.height, m);
      }
    }
  }

  /**
   * The case the handler misses, exactly, for any number of decodes in one frame and in any order: while
   * their corrections are still owed, the next one counts as above only if its box, pushed down by all
   * the growth at or above it so far, still ended at or above the edge. Otherwise it is never corrected.
   */
  lemma DecodesInOneFrame(v: View, es: seq<Event>, j: nat, h: nat, k: nat)
    requires Steady(v) && !v.awaiting && AllDecodes(es) && j < k <= |v.items|
    requires SaneRun(v, es + [Decode(j, h)]) && |Run(v, es).items| == |v.items| && h > Run(v, es).items[j].height
    ensures var u := Run(v, es);
            var seen := Top(v.items, j + 1) + Grown(v, es, j + 1) <= v.scrollTop;
            && (Judged(u, j, h) <==> seen)
            && Slip(u, Decode(j, h), k) == if seen then 0 else h - u.items[j].height
  {
    assert (es + [Decode(j, h)])[..|es|] == es;
    BeforeTheFrame(v, es, j + 1);
    JudgedExactly(Run(v, es), j, h);
  }

  /** An empty box grows by 100, then a box ending 10 above the edge by 30, then the frame: the reader moves by 30. */
  lemma SecondDecodeMissed()
    ensures var v := View([Item(0, 0), Item(50, 50), Item(1000, 1000)], 0, 500, 0, 60, [], false, 0, false, 60);
            var w := Run(v, [Decode(0, 100), Decode(1, 80), Frame]);
            && Steady(v) && AtRest(v) && AtRest(w) && Visible(v, 2)
            && |w.items| == 3 && ScreenTop(w, 2) - ScreenTop(v, 2) == 30
  {
    var v := View([Item(0, 0), Item(50, 50), Item(1000, 1000)], 0, 500, 0, 60, [], false, 0, false, 60);
    var es := [Decode(0, 100), Decode(1, 80), Frame];
    assert Top(v.items, 1) == 0 && Top(v.items, 2) == 50 && Top(v.items, 3) == 1050;
    assert es[..2][..1] == [Decode(0, 100)] && es[..2][..1][..0] == [];
    var v1 := Step(v, Decode(0, 100));
    assert Run(v, es[..2][..1]) == v1;
    assert v1.items == [Item(100, 100), Item(50, 50), Item(1000, 1000)] && v1.owed == [100];
    assert Top(v1.items, 1) == 100 && Top(v1.items, 2) == 150;
    JudgedExactly(v1, 1, 80);
    var v2 := Step(v1, Decode(1, 80));
    assert Run(v, es[..2]) == v2;
    assert v2.items == [Item(100, 100), Item(80, 80), Item(1000, 1000)] && v2.owed == [100];
    assert Top(v2.items, 1) == 100 && Top(v2.items, 2) == 180 && Top(v2.items, 3) == 1180;
    assert Run(v, es) == Step(v2, Frame);
  }

  // ---------------------------------------------------------------- a saved spot being restored

  /**
   * The other mode: a saved position too deep for the content decoded so far, re-applied on every load
   * until the reader scrolls. `queued`: animation-frame callbacks waiting. `due`: the browser owes the
   * container a scroll event. `flag`: the next scroll event is taken for the hook's own.
   */
  datatype Session = Session(el: View, restore: Option<int>, queued: nat, flag: bool, due: bool, saved: Option<int>)

  datatype Beat =
    | Load(item: nat, height: nat)       // an item's box grows and its load event fires
    | Paint                              // a frame: the event that is due, then the callbacks

  /** One callback's write of the target. */
  function Rewritten(s: Session): Session
    requires s.restore.Some?
  {
    var top := Clamp(s.el, s.restore.value);
    var moved := top != s.el.scrollTop;
    s.(el := s.el.(scrollTop := top), flag := moved, due := s.due || moved)
  }

  function Callbacks(s: Session): Session
    decreases s.queued
  {
    if s.queued == 0 then s
    else Callbacks((if s.restore.Some? then Rewritten(s) else s).(queued := s.queued - 1))
  }

  /** The scroll event that is due: our own, or taken for a genuine one, which ends the restore. */
  function Dispatched(s: Session): Session {
    if !s.due then s
    else if s.flag then s.(due := false, flag := false)
    else s.(due := false, restore := None, saved := Some(s.el.scrollTop))
  }

  function Beaten(s: Session, b: Beat): Session {
    if s.restore.None? then s
    else
      match b
      case Load(j, h) => if j < |s.el.items| then s.(el := Grow(s.el, j, h), queued := s.queued + 1) else s
      case Paint => Callbacks(Dispatched(s))
  }

  function Beats(s: Session, bs: seq<Beat>): Session {
    if bs == [] then s else Beaten(Beats(s, bs[..|bs| - 1]), bs[|bs| - 1])
  }

  /** Several loads wait for one frame, and the first callback will move the position. */
  predicate Doubled(s: Session) {
    s.restore.Some? && s.queued >= 2 && Clamp(s.el, s.restore.value) != s.el.scrollTop
  }

  predicate NeverDoubled(s: Session, bs: seq<Beat>) {
    bs == [] ||
    (NeverDoubled(s, bs[..|bs| - 1]) && (bs[|bs| - 1].Paint? ==> !Doubled(Beats(s, bs[..|bs| - 1]))))
  }

  /** The flag is up exactly when an event is due. */
  predicate InStep(s: Session) {
    s.restore.Some? && s.flag == s.due
  }

  /** An event is due that will not be recognised. */
  predicate Doomed(s: Session) {
    s.restore.Some? && s.due && !s.flag
  }

  /** Only the first callback of a frame can move the position; any further one lowers the flag again. */
  lemma {:induction false} CallbacksExactly(s: Session)
    requires s.restore.Some?
    ensures var moved := Clamp(s.el, s.restore.value) != s.el.scrollTop;
      Callbacks(s) ==
        if s.queued == 0 then s
        else s.(el := s.el.(scrollTop := Clamp(s.el, s.restore.value)), queued := 0,
                flag := moved && s.queued == 1, due := s.due || moved)
    decreases s.queued
  {
    if s.queued > 0 {
      CallbacksExactly(Rewritten(s).(queued := s.queued - 1));
    }
  }

  lemma BeatInStep(s: Session, b: Beat)
    requires InStep(s)
    ensures b.Paint? && Doubled(s) ==> Doomed(Beaten(s, b))
    ensures !(b.Paint? && Doubled(s)) ==> InStep(Beaten(s, b))
    ensures Beaten(s, b).restore == s.restore && Beaten(s, b).saved == s.saved
  {
    if b.Paint? { CallbacksExactly(Dispatched(s)); }
  }

  lemma {:induction false} EndedCallbacks(s: Session)
    requires s.restore.None?
    ensures Callbacks(s) == s.(queued := 0)
    decreases s.queued
  {
    if s.queued > 0 { EndedCallbacks(s.(queued := s.queued - 1)); }
  }

  /** The unrecognised event ends the restore and overwrites the saved position with wherever the content let it get. */
  lemma BeatDoomed(s: Session, b: Beat)
    requires Doomed(s)
    ensures b.Load? ==> Doomed(Beaten(s, b)) && Beaten(s, b).el.scrollTop == s.el.scrollTop
    ensures b.Paint? ==> Beaten(s, b).restore.None? && Beaten(s, b).saved == Some(s.el.scrollTop)
  {
    if b.Paint? { EndedCallbacks(Dispatched(s)); }
  }

  lemma {:induction false} BeatsInStep(s: Session, bs: seq<Beat>)
    requires InStep(s)
    ensures NeverDoubled(s, bs) ==>
              InStep(Beats(s, bs)) && Beats(s, bs).restore == s.restore && Beats(s, bs).saved == s.saved
    ensures !NeverDoubled(s, bs) ==> Doomed(Beats(s, bs)) || Beats(s, bs).restore.None?
  {
    if bs != [] {
      var init, b := bs[..|bs| - 1], bs[|bs| - 1];
      BeatsInStep(s, init);
      var u := Beats(s, init);
      if NeverDoubled(s, init) {
        BeatInStep(u, b);
      } else if u.restore.Some? {
        BeatDoomed(u, b);
      }
    }
  }

  /**
   * A PENDING RESTORE SURVIVES, exactly: with no scroll of the reader's, any run of loads and frames
   * leaves the restore pending and the saved position alone, the next frame included, if and only if no
   * frame of it finds two or more loads waiting while the position is not yet where the content lets the
   * target be.
   */
  lemma RestoreSurvivesExactly(s: Session, bs: seq<Beat>)
    requires InStep(s)
    ensures var u := Beats(s, bs + [Paint]);
      && (u.restore.Some? <==> NeverDoubled(s, bs))
      && (NeverDoubled(s, bs) ==> u.restore == s.restore && u.saved == s.saved)
  {
    var u := Beats(s, bs);
    assert (bs + [Paint])[..|bs|] == bs;
    BeatsInStep(s, bs);
    if NeverDoubled(s, bs) {
      BeatInStep(u, Paint);
    } else if u.restore.Some? {
      BeatDoomed(u, Paint);
    }
  }

  /** A spot saved at 900: two images of 50 load before one frame, and it is forgotten for 200. */
  lemma TwoLoadsForgetTheSpot()
    ensures var el := View([Item(600, 600), Item(0, 0), Item(0, 0)], 0, 500, 0, 100, [], false, 0, false, 0);
      var s := Session(el, Some(900), 0, false, false, Some(900));
      var u := Beats(s, [Load(1, 50), Load(2, 50), Paint, Paint]);
      InStep(s) && u.restore.None? && u.saved == Some(200)
  {
    var el := View([Item(600, 600), Item(0, 0), Item(0, 0)], 0, 500, 0, 100, [], false, 0, false, 0);
    var s := Session(el, Some(900), 0, false, false, Some(900));
    var bs := [Load(1, 50), Load(2, 50), Paint, Paint];
    assert bs[..3][..2] == [Load(1, 50), Load(2, 50)];
    assert bs[..3][..2][..1] == [Load(1, 50)] && bs[..3][..2][..1][..0] == [];
    var s1 := Beaten(s, Load(1, 50));
    assert Beats(s, bs[..3][..2][..1]) == s1;
    var s2 := Beaten(s1, Load(2, 50));
    assert Beats(s, bs[..3][..2]) == s2 && s2.queued == 2;
    var items := s2.el.items;
    assert items == [Item(600, 600), Item(50, 0), Item(50, 0)];
    assert Top(items, 1) == 600 && Top(items, 2) == 650 && Top(items, 3) == 700;
    CallbacksExactly(s2);
    var s3 := Beaten(s2, Paint);
    assert Beats(s, bs[..3]) == s3 && Doomed(s3) && s3.el.scrollTop == 200;
    BeatDoomed(s3, Paint);
  }

  lemma {:induction false} EndedStays(s: Session, bs: seq<Beat>, k: nat)
    requires k <= |bs| && Beats(s, bs[..k]).restore.None?
    ensures Beats(s, bs) == Beats(s, bs[..k])
    decreases |bs|
  {
    if k == |bs| {
      assert bs[..k] == bs;
    } else {
      var init := bs[..|bs| - 1];
      assert init[..k] == bs[..k];
      EndedStays(s, init, k);
    }
  }

  // ---------------------------------------------------------------- the hook

  /** A scheduled animation-frame callback and what it closed over. */
  datatype Job =
    | Correct(grew: int, chat: Option<string>)
    | Reapply(target: int)
    | Repin

  function Growths(jobs: seq<Job>): (xs: seq<int>)
    requires forall j :: j in jobs ==> j.Correct?
    ensures |xs| == |jobs| && forall i :: 0 <= i < |jobs| ==> xs[i] == jobs[i].grew
  {
    if jobs == [] then [] else Growths(jobs[..|jobs| - 1]) + [jobs[|jobs| - 1].grew]
  }

  lemma GrowthsTail(jobs: seq<Job>)
    requires jobs != [] && forall j :: j in jobs ==> j.Correct?
    ensures jobs[0] in jobs && forall j :: j in jobs[1..] ==> j in jobs
    ensures Growths(jobs[1..]) == Growths(jobs)[1..] && Growths(jobs)[0] == jobs[0].grew
  {
  }

  /** A thread one of whose items grew, whatever height is on record for it. */
  lemma {:induction false} GrownThread(v: View, j: nat, h: nat, seed: nat)
    requires j < |v.items| && v.items[j].height <= h
    ensures var g, w := h - v.items[j].height, v.(items := v.items[j := Item(h, seed)]);
      && BottomOf(v) <= BottomOf(w) <= BottomOf(v) + g
      && Top(w.items, j + 1) == Top(v.items, j + 1) + g
      && (BottomOf(v) > 0 ==> BottomOf(w) == BottomOf(v) + g)
  {
    TopUpdate(v.items, j, Item(h, seed), j + 1);
    TopUpdate(v.items, j, Item(h, seed), |v.items|);
  }

  /** `el` is the container as the browser sees it; the other fields are the hook's refs. */
  class ScrollPosition {
    var items: seq<Item>
    var spinner: nat
    var client: nat
    var edge: int
    var scrollTop: int
    /** The browser owes the container a scroll event. */
    var scrollDue: bool

    var activeChat: Option<string>
    var scrollMap: map<string, int>
    var prevChat: Option<string>
    var pinned: bool
    var pendingRestore: Option<int>
    var programmaticWrite: bool
    var prevScrollHeight: int
    var awaitingOlderPage: bool
    var wasFetchingOlder: bool
    var jobs: seq<Job>

    /** Reading further back: not pinned, nothing being restored, one chat on screen throughout. */
    ghost predicate Reading()
      reads this
    {
      && !pinned && pendingRestore.None?
      && activeChat.Some? && prevChat == activeChat && activeChat.value in scrollMap
      && (forall j :: j in jobs ==> j.Correct? && j.chat == activeChat)
    }

    ghost function Now(): View
      requires Reading()
      reads this
    {
      View(items, spinner, client, edge, scrollTop, Growths(jobs),
           awaitingOlderPage, prevScrollHeight, wasFetchingOlder, scrollMap[activeChat.value])
    }

    /** The container's geometry alone, in any mode. */
    function El(): View
      reads this
    {
      View(items, spinner, client, edge, scrollTop, [], false, 0, false, 0)
    }

    /** A fresh mount starts pinned. */
    constructor (client: nat, edge: int)
      ensures pinned && pendingRestore.None? && jobs == [] && items == [] && scrollMap == map[]
    {
      this.client := client;
      this.edge := edge;
      items, spinner, scrollTop, scrollDue := [], 0, 0, false;
      activeChat, scrollMap, prevChat := None, map[], None;
      pinned, pendingRestore, programmaticWrite := true, None, false;
      prevScrollHeight, awaitingOlderPage, wasFetchingOlder, jobs := 0, false, false, [];
    }

    /** The browser clamps; a write that moves nothing lowers the flag, whatever event may still be due. */
    method WriteScrollTop(top: int)
      modifies this`scrollTop, this`scrollDue, this`programmaticWrite
      ensures scrollTop == Clamp(old(El()), top)
      ensures programmaticWrite <==> scrollTop != old(scrollTop)
      ensures scrollDue <==> old(scrollDue) || scrollTop != old(scrollTop)
    {
      var before := scrollTop;
      programmaticWrite := true;
      scrollTop := Clamp(El(), top);
      if scrollTop == before {
        programmaticWrite := false;
      } else {
        scrollDue := true;
      }
    }

    method PinToBottom()
      modifies this`scrollTop, this`scrollDue, this`programmaticWrite, this`pinned
      ensures pinned && scrollTop == BottomOf(El())
      ensures programmaticWrite <==> scrollTop != old(scrollTop)
    {
      WriteScrollTop(ScrollHeight(El()));
      pinned := true;
    }

    /** Our own write's event only lowers the flag; a genuine scroll repins or unpins and is remembered. */
    method OnScroll()
      modifies this`programmaticWrite, this`pendingRestore, this`pinned, this`scrollMap
      ensures !programmaticWrite
      ensures if old(programmaticWrite)
              then pendingRestore == old(pendingRestore) && pinned == old(pinned) && scrollMap == old(scrollMap)
              else pendingRestore.None? && (pinned <==> scrollTop + client + 24 >= ScrollHeight(El()))
                   && scrollMap == if prevChat.Some? then old(scrollMap)[prevChat.value := scrollTop]
                                   else old(scrollMap)
    {
      if programmaticWrite {
        programmaticWrite := false;
        return;
      }
      pendingRestore := None;
      pinned := IsNearBottom(scrollTop, ScrollHeight(El()), client);
      if prevChat.Some? {
        scrollMap := scrollMap[prevChat.value := scrollTop];
      }
    }

    /**
     * A READER IS HELD, A PINNED THREAD FOLLOWS: the reader of a chat scrolls to `top`, one item's media
     * then decodes, and its frame runs. More than 24 px above the bottom he moves by the growth of an item
     * that ended above his position and by nothing else; any nearer the thread goes to its new bottom.
     */
    method ScrollLoadFrame(top: int, j: nat, h: nat)
      requires jobs == [] && !programmaticWrite && !awaitingOlderPage
      requires activeChat.Some? && prevChat == activeChat
      requires 0 <= top <= BottomOf(El()) && j < |items| && items[j].seed == items[j].height <= h
      modifies this`items, this`jobs, this`scrollTop, this`scrollDue, this`programmaticWrite
      modifies this`pinned, this`scrollMap, this`pendingRestore
      ensures jobs == [] && |items| == old(|items|) && items[j].height == h
      ensures pinned <==> top + client + 24 >= old(ScrollHeight(El()))
      ensures pinned ==> scrollTop == BottomOf(El())
      ensures !pinned ==>
        var above := old(spinner + Top(items, j + 1)) <= top;
        scrollTop == top + if above then h - old(items[j].height) else 0
    {
      scrollTop := top;
      OnScroll();
      LoadThenFrame(j, h);
    }

    /** One decode and its frame, with nothing else owed. */
    method LoadThenFrame(j: nat, h: nat)
      requires jobs == [] && pendingRestore.None? && !awaitingOlderPage
      requires activeChat.Some? && prevChat == activeChat
      requires 0 <= scrollTop <= BottomOf(El()) && j < |items| && items[j].seed == items[j].height <= h
      requires !pinned ==> scrollTop < BottomOf(El())
      modifies this`items, this`jobs, this`scrollTop, this`scrollDue, this`programmaticWrite
      modifies this`pinned, this`scrollMap
      ensures jobs == [] && pinned == old(pinned) && |items| == old(|items|) && items[j].height == h
      ensures pinned ==> scrollTop == BottomOf(El())
      ensures !pinned ==>
        var above := old(spinner + Top(items, j + 1)) <= old(scrollTop);
        scrollTop == old(scrollTop) + if above then h - old(items[j].height) else 0
    {
      GrownThread(El(), j, h, items[j].seed);
      GrownThread(El(), j, h, h);
      ghost var thread, grew := El(), h - items[j].height;
      items := items[j := items[j].(height := h)];
      OnMediaLoad(j);
      assert !pinned ==> El() == thread.(items := thread.items[j := Item(h, h)]);
      if jobs != [] {
        assert !pinned ==> jobs[0] == Correct(grew, activeChat) && BottomOf(El()) == BottomOf(thread) + grew;
        RunFrame();
      }
    }

    /** Entering a chat: its saved spot, or the bottom on a first visit, and no page of the one left behind. */
    method RestoreEffect(next: Option<string>, loaded: bool)
      modifies this
      ensures prevChat == next && scrollMap == old(scrollMap) && El().items == old(El()).items
      ensures next != old(prevChat) ==> !awaitingOlderPage
      ensures next == old(prevChat) ==> awaitingOlderPage == old(awaitingOlderPage)
      ensures if next.None? || !loaded
              then pendingRestore.None? && pinned == old(pinned) && scrollTop == old(scrollTop)
              else if next.value in scrollMap
              then && pendingRestore == Some(scrollMap[next.value]) && !pinned
                   && scrollTop == Clamp(old(El()), scrollMap[next.value])
              else pendingRestore.None? && pinned && scrollTop == BottomOf(old(El()))
    {
      pendingRestore := None;
      if next != prevChat {
        awaitingOlderPage := false;
      }
      var saved := if next.Some? && next.value in scrollMap then Some(scrollMap[next.value]) else None;
      match DecideRestoreTarget(next, loaded, saved) {
        case Saved =>
          pendingRestore := saved;
          WriteScrollTop(saved.value);
          pinned := false;
        case Bottom =>
          PinToBottom();
        case Nothing =>
      }
      prevChat := next;
    }

    /** The layout effect of every commit; only the falling edge of an awaited fetch corrects. */
    method OlderPageEffect(fetching: bool)
      modifies this`scrollTop, this`scrollDue, this`programmaticWrite
      modifies this`awaitingOlderPage, this`wasFetchingOlder, this`scrollMap
      ensures wasFetchingOlder == fetching
      ensures var falling := !fetching && old(wasFetchingOlder) && old(awaitingOlderPage);
              var grew := ScrollHeight(old(El())) - old(prevScrollHeight);
              && awaitingOlderPage == (old(awaitingOlderPage) && !falling)
              && (if falling && grew > 0
                  then && scrollTop == Clamp(old(El()), old(scrollTop) + grew)
                       && (activeChat.Some? ==> scrollMap == old(scrollMap)[activeChat.value := old(scrollTop) + grew])
                       && (activeChat.None? ==> scrollMap == old(scrollMap))
                  else scrollTop == old(scrollTop) && scrollMap == old(scrollMap))
    {
      var wasFetching := wasFetchingOlder;
      wasFetchingOlder := fetching;
      if fetching || !wasFetching || !awaitingOlderPage { return; }
      awaitingOlderPage := false;
      var grew := ScrollHeight(El()) - prevScrollHeight;
      if grew > 0 {
        var corrected := scrollTop + grew;
        WriteScrollTop(corrected);
        if activeChat.Some? {
          scrollMap := scrollMap[activeChat.value := corrected];
        }
      }
    }

    method OnOlderMessagesRequested()
      modifies this`prevScrollHeight, this`awaitingOlderPage
      ensures awaitingOlderPage && prevScrollHeight == ScrollHeight(El())
    {
      prevScrollHeight := ScrollHeight(El());
      awaitingOlderPage := true;
    }

    /** A load event of item `j`, its decoded height already in layout. */
    method OnMediaLoad(j: nat)
      requires j < |items|
      modifies this`items, this`jobs
      ensures pendingRestore.Some? ==> items == old(items) && jobs == old(jobs) + [Reapply(pendingRestore.value)]
      ensures pendingRestore.None? && pinned ==> items == old(items) && jobs == old(jobs) + [Repin]
      ensures pendingRestore.None? && !pinned && awaitingOlderPage ==> items == old(items) && jobs == old(jobs)
      ensures pendingRestore.None? && !pinned && !awaitingOlderPage ==>
        var grew := old(items[j].height - items[j].seed);
        && items == old(items)[j := Item(old(items[j].height), old(items[j].height))]
        && jobs == old(jobs) + if grew > 0 && old(spinner + Top(items, j + 1)) - grew <= scrollTop
                               then [Correct(grew, activeChat)] else []
      ensures old(Reading()) ==> Reading() && Now() == Loaded(old(Now()), j)
    {
      if pendingRestore.Some? {
        jobs := jobs + [Reapply(pendingRestore.value)];
        return;
      }
      if pinned {
        jobs := jobs + [Repin];
        return;
      }
      if awaitingOlderPage { return; }
      var seeded := items[j].seed;
      var height := items[j].height;
      var bottom := BottomEdge(El(), j);
      items := items[j := Item(height, height)];
      var grew := CorrectionForMediaGrowth(seeded, height, bottom, edge);
      if grew.None? { return; }
      jobs := jobs + [Correct(grew.value, activeChat)];
      assert jobs[..|jobs| - 1] == old(jobs);
    }

    /** The held reader's frame: a delta on the live position, unless another chat is on screen by now. */
    method ApplyCorrection(grew: int, chat: Option<string>)
      modifies this`scrollTop, this`scrollDue, this`programmaticWrite, this`scrollMap
      ensures prevChat != chat ==> scrollTop == old(scrollTop) && scrollMap == old(scrollMap)
      ensures prevChat == chat ==> scrollTop == Clamp(old(El()), old(scrollTop) + grew)
      ensures prevChat == chat && chat.Some? ==> scrollMap == old(scrollMap)[chat.value := old(scrollTop) + grew]
      ensures prevChat == chat && chat.None? ==> scrollMap == old(scrollMap)
    {
      if prevChat != chat { return; }
      var next := scrollTop + grew;
      WriteScrollTop(next);
      if chat.Some? {
        scrollMap := scrollMap[chat.value := next];
      }
    }

    /** The oldest animation-frame callback. Each re-checks that its reason still holds. */
    method RunFrame()
      requires jobs != []
      modifies this`jobs, this`scrollTop, this`scrollDue, this`programmaticWrite, this`pinned, this`scrollMap
      ensures jobs == old(jobs)[1..]
      ensures match old(jobs)[0]
              case Repin =>
                && scrollMap == old(scrollMap) && pinned == old(pinned)
                && scrollTop == if pinned then BottomOf(El()) else old(scrollTop)
              case Reapply(target) =>
                && scrollMap == old(scrollMap) && pinned == old(pinned)
                && scrollTop == (if pendingRestore.Some? then Clamp(El(), target) else old(scrollTop))
                && programmaticWrite ==
                   (if pendingRestore.Some? then scrollTop != old(scrollTop) else old(programmaticWrite))
                && scrollDue == (old(scrollDue) || scrollTop != old(scrollTop))
              case Correct(grew, chat) =>
                && pinned == old(pinned)
                && (prevChat != chat ==> scrollTop == old(scrollTop) && scrollMap == old(scrollMap))
                && (prevChat == chat ==> scrollTop == Clamp(El(), old(scrollTop) + grew))
                && (prevChat == chat && chat.Some? ==> scrollMap == old(scrollMap)[chat.value := old(scrollTop) + grew])
    {
      var job := jobs[0];
      jobs := jobs[1..];
      match job {
        case Repin =>
          if pinned { PinToBottom(); }
        case Reapply(target) =>
          if pendingRestore.Some? { WriteScrollTop(target); }
        case Correct(grew, chat) =>
          ApplyCorrection(grew, chat);
      }
    }

    /** For a held reader a frame is the theory's frame. */
    method ReaderFrame()
      requires Reading() && jobs != []
      modifies this`jobs, this`scrollTop, this`scrollDue, this`programmaticWrite, this`pinned, this`scrollMap
      ensures Reading() && Now() == Step(old(Now()), Frame)
    {
      GrowthsTail(jobs);
      RunFrame();
    }

    // -------------------------------------------------------------- a reader's run

    /** One event of the theory, as the browser, React and the query library bring it to the hook. */
    method Deliver(e: Event)
      requires Reading() && (e.Scroll? ==> Away(Now(), e.top))
      modifies this
      ensures Reading() && Now() == Step(old(Now()), e)
    {
      match e
      case Decode(j, h) =>
        if j < |items| {
          items := items[j := items[j].(height := h)];
          OnMediaLoad(j);
        }
      case Frame =>
        if jobs != [] { ReaderFrame(); }
      case Request =>
        OnOlderMessagesRequested();
      case Fetching(h) => CommitFetching(h);
      case Landing(page) => CommitLanding(page);
      case Append(row) => CommitRow(row);
      case Scroll(top) => ReaderScrolls(top);
    }

    /** The reader scrolls; the event of our own last write, if still to come, is delivered before his. */
    method ReaderScrolls(top: int)
      requires Reading() && Away(Now(), top)
      modifies this`scrollTop, this`scrollDue, this`programmaticWrite, this`pendingRestore, this`pinned, this`scrollMap
      ensures Reading() && Now() == Step(old(Now()), Scroll(top))
    {
      if programmaticWrite { OnScroll(); }
      scrollTop := top;
      OnScroll();
    }

    /** For a held reader the effect is the theory's. */
    method ReaderPageEffect(fetching: bool)
      requires Reading()
      modifies this`scrollTop, this`scrollDue, this`programmaticWrite
      modifies this`awaitingOlderPage, this`wasFetchingOlder, this`scrollMap
      ensures Reading() && Now() == PageEffect(old(Now()), fetching)
    {
      assert ScrollHeight(El()) == ScrollHeight(Now());
      OlderPageEffect(fetching);
    }

    method CommitFetching(loadingRow: nat)
      requires Reading()
      modifies this
      ensures Reading() && Now() == Step(old(Now()), Fetching(loadingRow))
    {
      spinner := loadingRow;
      ReaderPageEffect(true);
    }

    /** The commit that drops the loading row, with whatever page came. */
    method CommitLanding(page: seq<Item>)
      requires Reading()
      modifies this
      ensures Reading() && Now() == Step(old(Now()), Landing(page))
    {
      items := page + items;
      spinner := 0;
      ReaderPageEffect(false);
    }

    method CommitRow(row: Item)
      requires Reading()
      modifies this
      ensures Reading() && Now() == Step(old(Now()), Append(row))
    {
      items := items + [row];
      ReaderPageEffect(wasFetchingOlder);
    }

    /** Every reading session of the hook is a run of the theory, so ReaderHeldStill holds of it. */
    method Drive(es: seq<Event>)
      requires Reading() && AwayRun(Now(), es)
      modifies this
      ensures Reading() && Now() == Run(old(Now()), es)
    {
      ghost var start := Now();
      for n := 0 to |es|
        invariant Reading() && Now() == Run(start, es[..n])
      {
        assert es[..n + 1][..n] == es[..n];
        AwayAt(start, es, n);
        Deliver(es[n]);
      }
      assert es[..|es|] == es;
    }
  
    // -------------------------------------------------------------- a restoring run

    ghost predicate AtSavedSpot()
      reads this
    {
      && pendingRestore.Some? && !pinned
      && activeChat.Some? && prevChat == activeChat
      && (forall j :: j in jobs ==> j == Reapply(pendingRestore.value))
    }

    ghost function Restoring(): Session
      requires activeChat.Some?
      reads this
    {
      var chat := activeChat.value;
      Session(El(), pendingRestore, |jobs|, programmaticWrite, scrollDue,
              if chat in scrollMap then Some(scrollMap[chat]) else None)
    }

    method MediaLoads(j: nat, h: nat)
      requires AtSavedSpot()
      modifies this`items, this`jobs
      ensures AtSavedSpot() && Restoring() == Beaten(old(Restoring()), Load(j, h))
    {
      if j < |items| {
        items := items[j := items[j].(height := h)];
        OnMediaLoad(j);
      }
    }

    /** The scroll event the browser owes, if any. */
    method DispatchScroll()
      requires AtSavedSpot()
      modifies this`scrollDue, this`programmaticWrite, this`pendingRestore, this`pinned, this`scrollMap
      ensures Restoring() == Dispatched(old(Restoring()))
      ensures pendingRestore.Some? ==> AtSavedSpot() && pendingRestore == old(pendingRestore)
    {
      if scrollDue {
        scrollDue := false;
        OnScroll();
      }
    }

    /** One waiting callback; it does nothing once the restore has ended. */
    method RunReapply(target: int)
      requires activeChat.Some? && prevChat == activeChat && jobs != [] && jobs[0] == Reapply(target)
      requires pendingRestore.Some? ==> pendingRestore == Some(target)
      modifies this`jobs, this`scrollTop, this`scrollDue, this`programmaticWrite, this`pinned, this`scrollMap
      ensures jobs == old(jobs)[1..] && pinned == old(pinned)
      ensures var s := old(Restoring());
        Restoring() == (if s.restore.Some? then Rewritten(s) else s).(queued := s.queued - 1)
    {
      RunFrame();
    }

    method RunCallbacks(target: int)
      requires activeChat.Some? && prevChat == activeChat
      requires pendingRestore.Some? ==> pendingRestore == Some(target)
      requires forall i :: 0 <= i < |jobs| ==> jobs[i] == Reapply(target)
      modifies this`jobs, this`scrollTop, this`scrollDue, this`programmaticWrite, this`pinned, this`scrollMap
      ensures jobs == [] && pinned == old(pinned) && Restoring() == Callbacks(old(Restoring()))
    {
      ghost var start := Restoring();
      while jobs != []
        invariant pinned == old(pinned)
        invariant forall i :: 0 <= i < |jobs| ==> jobs[i] == Reapply(target)
        invariant Callbacks(Restoring()) == Callbacks(start)
        decreases |jobs|
      {
        RunReapply(target);
      }
    }

    /** A frame as the browser runs it: scroll events first, then the animation-frame callbacks. */
    method RenderFrame()
      requires AtSavedSpot()
      modifies this
      ensures activeChat == old(activeChat) && activeChat.Some? && Restoring() == Beaten(old(Restoring()), Paint)
      ensures pendingRestore.Some? ==> AtSavedSpot()
    {
      var target := pendingRestore.value;
      assert forall i :: 0 <= i < |jobs| ==> jobs[i] in jobs;
      DispatchScroll();
      RunCallbacks(target);
    }

    /** Every restoring run of the hook is a run of the theory, up to the frame that ends it. */
    method DriveRestore(bs: seq<Beat>)
      requires AtSavedSpot()
      modifies this
      ensures activeChat.Some? && Restoring() == Beats(old(Restoring()), bs)
      ensures pendingRestore.Some? ==> AtSavedSpot()
    {
      ghost var start := Restoring();
      var n := 0;
      while n < |bs| && pendingRestore.Some?
        invariant n <= |bs| && activeChat.Some? && Restoring() == Beats(start, bs[..n])
        invariant pendingRestore.Some? ==> AtSavedSpot()
      {
        assert bs[..n + 1][..n] == bs[..n];
        match bs[n] {
          case Load(j, h) => MediaLoads(j, h);
          case Paint => RenderFrame();
        }
        n := n + 1;
      }
      if pendingRestore.None? { EndedStays(start, bs, n); }
      assert n == |bs| ==> bs[..n] == bs;
    }
  }
}
