/**
 * The build-time backport of an upstream fix into an installed dependency tree: a file-by-file protocol
 * run by external tools that may die after any write, and a script that must never take the half-written
 * tree they leave for a healthy one.
 *
 * `RunOnce` says what one run makes of a tree. `Checkout` is the script, looping over the required sites.
 */
module Backport {
  import opened Wrappers

  /** The files the patch normalizes, in the order it writes them. The typings it also touches are no site. */
  datatype Site =
    | Client | Base | Broadcast | Channel | Chat | ClientInfo | Contact | GroupChat | GroupNotification
    | Message | Utils

  const REQUIRED_SITES: seq<Site> :=
    [Base, Message, Chat, Contact, Channel, Broadcast, GroupNotification, ClientInfo, Utils, Client, GroupChat]

  /** What an applier leaves beside the sources. The script expects exactly one of them. */
  datatype Artifact = ContactReject | Stray(name: string)

  /**
   * An installed tree as the script can see it: which sites carry their marker, and whether Message.js
   * matches the looser text the script stands down on.
   */
  datatype Tree = Tree(hasBase: bool, hasMessage: bool, landed: set<Site>, normalizes: bool, artifacts: seq<Artifact>)

  /** The Message.js marker contains the looser text. */
  predicate TreeOk(t: Tree) {
    Message in t.landed ==> t.normalizes
  }

  predicate AllLanded(t: Tree) {
    forall s :: s in REQUIRED_SITES ==> s in t.landed
  }

  /** The self-disable check reads this tree as patched although it is not. */
  predicate HalfPatched(t: Tree) {
    t.normalizes && !AllLanded(t)
  }

  /** `Unmarked`: a file of the diff that normalizes nothing and has no marker, such as the typings. */
  datatype Write = File(site: Site, marked: bool, matches: bool) | Unmarked | Leave(artifact: Artifact)

  function Apply(t: Tree, w: Write): Tree {
    match w
    case File(s, marked, matches) =>
      t.(landed := if marked then t.landed + {s} else t.landed - {s},
         normalizes := if s == Message then matches || marked else t.normalizes)
    case Unmarked => t
    case Leave(a) => t.(artifacts := t.artifacts + [a])
  }

  function ApplyAll(t: Tree, ws: seq<Write>): Tree {
    if ws == [] then t else Apply(ApplyAll(t, ws[..|ws| - 1]), ws[|ws| - 1])
  }

  /**
   * One external applier: not installed; ended with a status after these writes (`refused`: its message
   * is one of those emitted before writing); or killed, and the script with it, after these writes.
   */
  datatype Tool = Missing | Ended(writes: seq<Write>, status: int, refused: bool) | Killed(writes: seq<Write>)

  datatype Unlinking = Removed | FailsAt(k: nat) | KilledAt(k: nat)

  datatype Env = Env(
    gnu: Tool, git: Tool, patchReadable: bool, crlf: bool, tempFails: bool,
    cleanupFails: bool, scanFails: bool, unlinking: Unlinking)

  datatype Result = Skipped | Applied | Failed(partial: bool) | Dead

  datatype Report = Report(tree: Tree, result: Result, wrote: bool)

  // ---------------------------------------------------------------- one run

  /** What the two appliers leave, and how control leaves them: None for normally. */
  function Appliers(env: Env, t: Tree): (Tree, Option<Result>, bool) {
    match env.gnu
    case Killed(ws) => (ApplyAll(t, ws), Some(Dead), ws != [])
    case Ended(ws, status, _) =>
      (ApplyAll(t, ws), if status == 0 || status == 1 then None else Some(Failed(true)), ws != [])
    case Missing =>
      match env.git
      case Missing => (t, Some(Failed(false)), false)
      case Killed(ws) => (ApplyAll(t, ws), Some(Dead), ws != [])
      case Ended(ws, status, refused) =>
        (ApplyAll(t, ws),
         if status == 0 || status == 1 then None else Some(Failed(!(status == 128 && refused))),
         ws != [])
  }

  /** After the appliers: scan, verify every site, remove the expected reject. */
  function Verified(env: Env, t: Tree, wrote: bool): Report {
    if env.scanFails then Report(t, Failed(false), wrote)
    else if exists a :: a in t.artifacts && a != ContactReject then Report(t, Failed(true), wrote)
    else if !AllLanded(t) then Report(t, Failed(true), wrote)
    else
      match env.unlinking
      case Removed => Report(t.(artifacts := []), Applied, wrote || t.artifacts != [])
      case FailsAt(k) =>
        if k < |t.artifacts| then Report(t.(artifacts := t.artifacts[k..]), Failed(false), wrote || k > 0)
        else Report(t.(artifacts := []), Applied, wrote || t.artifacts != [])
      case KilledAt(k) =>
        if k < |t.artifacts| then Report(t.(artifacts := t.artifacts[k..]), Dead, wrote || k > 0)
        else Report(t.(artifacts := []), Applied, wrote || t.artifacts != [])
  }

  function RunOnce(env: Env, t: Tree): Report {
    if !t.hasBase || !t.hasMessage then Report(t, Failed(false), false)
    else if t.normalizes then Report(t, if AllLanded(t) then Skipped else Failed(true), false)
    else if !env.patchReadable || (env.crlf && env.tempFails) then Report(t, Failed(false), false)
    else
      var (t1, end, wrote) := Appliers(env, t);
      if end == Some(Dead) then Report(t1, Dead, wrote)
      // a failing cleanup throws from a finally block: its error replaces whatever was on its way
      else if env.crlf && env.cleanupFails then Report(t1, Failed(false), wrote)
      else if end.Some? then Report(t1, end.value, wrote)
      else Verified(env, t1, wrote)
  }

  predicate Success(r: Result) {
    r.Skipped? || r.Applied?
  }

  /** `--best-effort` waves through every failure that was not tagged as leaving a partial tree. */
  function ExitCode(bestEffort: bool, r: Result): int {
    if Success(r) || (bestEffort && r == Failed(false)) then 0 else 1
  }

  // ---------------------------------------------------------------- what a run promises

  /** Every normalized file has its entry, and only one: a second would never be looked up. */
  lemma RequiredSitesCoverThePatch(s: Site)
    ensures s in REQUIRED_SITES
    ensures forall i, j :: 0 <= i < j < |REQUIRED_SITES| ==> REQUIRED_SITES[i] != REQUIRED_SITES[j]
  {
    assert REQUIRED_SITES[0] == Base && REQUIRED_SITES[1] == Message && REQUIRED_SITES[2] == Chat;
    assert REQUIRED_SITES[3] == Contact && REQUIRED_SITES[4] == Channel && REQUIRED_SITES[5] == Broadcast;
    assert REQUIRED_SITES[6] == GroupNotification && REQUIRED_SITES[7] == ClientInfo;
    assert REQUIRED_SITES[8] == Utils && REQUIRED_SITES[9] == Client && REQUIRED_SITES[10] == GroupChat;
  }

  /** A tool that says it refused its input has written nothing; a failing status otherwise says nothing. */
  predicate Honest(env: Env) {
    env.git.Ended? && env.git.status == 128 && env.git.refused ==> env.git.writes == []
  }

  lemma VerifiedMeansLanded(env: Env, t: Tree, wrote: bool)
    ensures var r := Verified(env, t, wrote);
      !r.result.Skipped? && (r.result.Applied? ==> AllLanded(r.tree) && r.tree.artifacts == [])
  {
  }

  /** SUCCESS MEANS LANDED: no run, over any tree and any tools, reports success unless every site landed. */
  lemma SuccessMeansLanded(env: Env, t: Tree)
    ensures Success(RunOnce(env, t).result) ==> AllLanded(RunOnce(env, t).tree)
    ensures RunOnce(env, t).result.Skipped? ==> RunOnce(env, t).tree == t
    ensures RunOnce(env, t).result.Applied? ==> RunOnce(env, t).tree.artifacts == []
  {
    var (t1, _, wrote) := Appliers(env, t);
    VerifiedMeansLanded(env, t1, wrote);
  }

  /** What `--best-effort` promises: exit 0 only over a whole tree, or over one this run did not touch. */
  predicate BestEffortPromise(env: Env, t: Tree) {
    var r := RunOnce(env, t);
    r.result != Dead && ExitCode(true, r.result) == 0 ==> AllLanded(r.tree) || (!r.wrote && r.tree == t)
  }

  /** The two steps after the first write whose failure is reported as if nothing had been written. */
  predicate UntaggedFailure(env: Env) {
    env.patchReadable && !(env.crlf && env.tempFails) && ((env.crlf && env.cleanupFails) || env.scanFails)
  }

  /** Appliers that end in an untagged failure have written nothing. */
  lemma AppliersAreHonest(env: Env, t: Tree)
    requires Honest(env)
    ensures var (t1, end, wrote) := Appliers(env, t);
      end == Some(Failed(false)) ==> !wrote && t1 == t
  {
    if env.gnu.Missing? && env.git.Ended? && env.git.writes == [] {
      assert ApplyAll(t, env.git.writes) == t;
    }
  }

  /** With the artifacts scanned, an untagged failure can only come after every site was verified. */
  lemma VerifiedIsHonest(env: Env, t: Tree, wrote: bool)
    requires !env.scanFails
    ensures var r := Verified(env, t, wrote);
      Success(r.result) || r.result == Failed(false) ==> AllLanded(r.tree)
  {
  }

  lemma BestEffortIsHonest(env: Env, t: Tree)
    requires Honest(env) && !UntaggedFailure(env)
    ensures BestEffortPromise(env, t)
  {
    var (t1, _, wrote) := Appliers(env, t);
    AppliersAreHonest(env, t);
    if !env.scanFails { VerifiedIsHonest(env, t1, wrote); }
  }

  // ---------------------------------------------------------------- exit codes, from the tools alone

  /** The applier that does the work: git only without the GNU tool. */
  function Used(env: Env): Tool {
    if env.gnu.Missing? then env.git else env.gnu
  }

  function Written(tool: Tool): seq<Write> {
    if tool.Missing? then [] else tool.writes
  }

  /** The appliers are reached and, if anything was copied for them, the copy is gone again. */
  ghost predicate Reached(env: Env, t: Tree) {
    t.hasBase && t.hasMessage && !t.normalizes && env.patchReadable && !(env.crlf && env.tempFails)
  }

  /** The applier ended with all hunks applied or some rejected, and the tree it left is a whole one. */
  ghost predicate LandsEverySite(env: Env, t: Tree) {
    && Used(env).Ended? && Used(env).status in {0, 1}
    && !(env.crlf && env.cleanupFails) && !env.scanFails
    && var after := ApplyAll(t, Used(env).writes);
       (forall s: Site :: s in after.landed) && (forall a :: a in after.artifacts ==> a == ContactReject)
  }

  /** The run stands down over a whole tree, or lands every site and removes what the applier left. */
  ghost predicate RunsThrough(env: Env, t: Tree) {
    || (t.hasBase && t.hasMessage && t.normalizes && forall s: Site :: s in t.landed)
    || (&& Reached(env, t) && LandsEverySite(env, t)
        && (env.unlinking == Removed || env.unlinking.k >= |ApplyAll(t, Used(env).writes).artifacts|))
  }

  /** Failures reported as leaving no partial tree behind. */
  ghost predicate Degrades(env: Env, t: Tree) {
    || !t.hasBase || !t.hasMessage
    || (!t.normalizes && (!env.patchReadable || (env.crlf && env.tempFails)))
    || (&& Reached(env, t) && !Used(env).Killed?
        && (|| (env.crlf && env.cleanupFails)
            || Used(env).Missing?
            || (env.gnu.Missing? && env.git.status == 128 && env.git.refused)
            || (Used(env).status in {0, 1} && env.scanFails)
            || (&& LandsEverySite(env, t) && env.unlinking.FailsAt?
                && env.unlinking.k < |ApplyAll(t, Used(env).writes).artifacts|)))
  }

  lemma AppliersExactly(env: Env, t: Tree)
    ensures var (after, end, _) := Appliers(env, t);
      && after == ApplyAll(t, Written(Used(env)))
      && (end == Some(Dead) <==> Used(env).Killed?)
      && (end.None? <==> Used(env).Ended? && Used(env).status in {0, 1})
      && (end.Some? && !Used(env).Killed? ==>
            var untouched := Used(env).Missing? || (env.gnu.Missing? && env.git.status == 128 && env.git.refused);
            end == Some(Failed(!untouched)))
  {
    assert ApplyAll(t, []) == t;
  }

  lemma VerifiedExactly(env: Env, t: Tree)
    requires !env.scanFails
    ensures var clean := (forall s: Site :: s in t.landed) && (forall a :: a in t.artifacts ==> a == ContactReject);
      var through := env.unlinking == Removed || env.unlinking.k >= |t.artifacts|;
      forall wrote :: var r := Verified(env, t, wrote).result;
        && (r == Applied <==> clean && through)
        && (r == Failed(false) <==> clean && !through && env.unlinking.FailsAt?)
        && !r.Skipped?
  {
    WholeMeansEverySite(t);
  }

  /**
   * THE EXIT CODE, exactly, from the tree and the tools: without the flag 0 if and only if every site landed
   * and the run ended normally; with it also for the failures that were not tagged as partial.
   */
  lemma ExitExactly(env: Env, t: Tree, bestEffort: bool)
    ensures ExitCode(bestEffort, RunOnce(env, t).result) == 0
        <==> RunsThrough(env, t) || (bestEffort && Degrades(env, t))
    ensures Success(RunOnce(env, t).result) <==> RunsThrough(env, t)
    ensures RunsThrough(env, t) ==> AllLanded(RunOnce(env, t).tree)
  {
    SuccessMeansLanded(env, t);
    WholeMeansEverySite(t);
    AppliersExactly(env, t);
    if !env.scanFails { VerifiedExactly(env, Appliers(env, t).0); }
  }

  /** An applier that writes one file and stops. */
  function OneWrite(env: Env): Env {
    env.(gnu := Ended([File(Client, true, false)], 1, false))
  }

  const PRISTINE := Tree(true, true, {}, false, [])

  /**
   * The exact condition: the best-effort promise holds of every tree and every honest applier if and only
   * if neither the temp-directory cleanup nor the artifact scan fails where it can be reached.
   */
  lemma BestEffortExactly(env: Env)
    ensures (forall gnu: Tool, git: Tool, t: Tree ::
               Honest(env.(gnu := gnu, git := git)) ==> BestEffortPromise(env.(gnu := gnu, git := git), t))
            <==> !UntaggedFailure(env)
  {
    if UntaggedFailure(env) {
      var e := OneWrite(env).(git := Missing);
      assert e == env.(gnu := e.gnu, git := Missing) && Honest(e);
      assert e.gnu.writes[..0] == [];
      assert ApplyAll(PRISTINE, e.gnu.writes) == Apply(PRISTINE, File(Client, true, false));
      RequiredSitesCoverThePatch(Base);
      assert !BestEffortPromise(e, PRISTINE);
    } else {
      forall gnu: Tool, git: Tool, t: Tree | Honest(env.(gnu := gnu, git := git))
        ensures BestEffortPromise(env.(gnu := gnu, git := git), t)
      {
        BestEffortIsHonest(env.(gnu := gnu, git := git), t);
      }
    }
  }

  // ---------------------------------------------------------------- sequences of runs

  function Runs(t: Tree, envs: seq<Env>): Tree {
    if envs == [] then t else RunOnce(envs[|envs| - 1], Runs(t, envs[..|envs| - 1])).tree
  }

  /**
   * NEVER LATCHED IN: once a died or misapplied run has left a half-patched tree, no later run touches
   * it, and each of them fails loudly, best effort or not, however the tools behave.
   */
  lemma {:induction false} HalfPatchedFailsForever(t: Tree, envs: seq<Env>, env: Env, bestEffort: bool)
    requires t.hasBase && t.hasMessage && HalfPatched(t)
    ensures Runs(t, envs) == t
    ensures RunOnce(env, Runs(t, envs)).result == Failed(true)
    ensures ExitCode(bestEffort, RunOnce(env, Runs(t, envs)).result) == 1
  {
    if envs != [] {
      HalfPatchedFailsForever(t, envs[..|envs| - 1], env, bestEffort);
    }
  }

  /** A whole tree stays whole, and every later run stands down over it. */
  lemma {:induction false} WholeTreeStandsDown(t: Tree, envs: seq<Env>, env: Env)
    requires t.hasBase && t.hasMessage && TreeOk(t) && AllLanded(t)
    ensures Runs(t, envs) == t && RunOnce(env, t).result == Skipped
  {
    RequiredSitesCoverThePatch(Message);
    if envs != [] {
      WholeTreeStandsDown(t, envs[..|envs| - 1], env);
    }
  }

  /** Where the diff patches each normalized file. */
  function Position(s: Site): nat {
    match s
    case Client => 1
    case Base => 2
    case Broadcast => 3
    case Channel => 4
    case Chat => 5
    case ClientInfo => 6
    case Contact => 8
    case GroupChat => 9
    case GroupNotification => 10
    case Message => 11
    case Utils => 12
  }

  const WRITES := 13

  /** The typings come first; the one hunk that does not fit is rejected as Contact.js is reached. */
  function FaithfulAt(i: nat): Write
    requires i < WRITES
  {
    if i == 0 then Unmarked
    else if i == 7 then Leave(ContactReject)
    else
      var site := match i
        case 1 => Client
        case 2 => Base
        case 3 => Broadcast
        case 4 => Channel
        case 5 => Chat
        case 6 => ClientInfo
        case 8 => Contact
        case 9 => GroupChat
        case 10 => GroupNotification
        case 11 => Message
        case _ => Utils;
      File(site, true, site == Message)
  }

  /** The writes of the real applier on a pristine tree: every file in order, and the one known reject. */
  function Faithful(): (ws: seq<Write>)
    ensures |ws| == WRITES
  {
    seq(WRITES, i requires 0 <= i < WRITES => FaithfulAt(i))
  }

  lemma FaithfulSites(i: nat)
    requires i < WRITES
    ensures FaithfulAt(i).Leave? <==> i == 7
    ensures FaithfulAt(i).File? ==> FaithfulAt(i) == File(FaithfulAt(i).site, true, FaithfulAt(i).site == Message)
    ensures FaithfulAt(i).File? ==> Position(FaithfulAt(i).site) == i
  {
  }

  lemma PositionIsWritten(s: Site)
    ensures Position(s) < WRITES && FaithfulAt(Position(s)) == File(s, true, s == Message)
  {
  }

  /** A killed applier has patched the files up to where it died, and no others. */
  lemma WrittenExactly(k: nat, s: Site)
    requires k <= WRITES
    ensures Patches(Faithful()[..k], s) <==> Position(s) < k
  {
    var ws := Faithful()[..k];
    PositionIsWritten(s);
    if Position(s) < k {
      assert ws[Position(s)] == File(s, true, s == Message);
    }
    forall i | 0 <= i < k ensures ws[i] == File(s, true, s == Message) ==> i == Position(s) {
      FaithfulSites(i);
    }
  }

  function Left(ws: seq<Write>): seq<Artifact> {
    if ws == [] then []
    else
      var left := Left(ws[..|ws| - 1]);
      if ws[|ws| - 1].Leave? then left + [ws[|ws| - 1].artifact] else left
  }

  predicate Patches(ws: seq<Write>, s: Site) {
    File(s, true, s == Message) in ws
  }

  /** Writes that only patch files properly: what has landed is exactly what was written. */
  lemma {:induction false} ProperWrites(t: Tree, ws: seq<Write>)
    requires forall i :: 0 <= i < |ws| && ws[i].File? ==> ws[i].marked && (ws[i].matches <==> ws[i].site == Message)
    ensures var t' := ApplyAll(t, ws);
            && t'.hasBase == t.hasBase && t'.hasMessage == t.hasMessage
            && t'.artifacts == t.artifacts + Left(ws)
            && (forall s :: s in t'.landed <==> s in t.landed || Patches(ws, s))
            && (t'.normalizes <==> t.normalizes || Patches(ws, Message))
  {
    if ws != [] {
      var init, w := ws[..|ws| - 1], ws[|ws| - 1];
      ProperWrites(t, init);
      assert ws == init + [w];
    }
  }

  lemma KilledAfter(k: nat)
    requires k <= WRITES
    ensures var t := ApplyAll(PRISTINE, Faithful()[..k]);
            && t.hasBase && t.hasMessage
            && (forall s :: s in t.landed <==> Position(s) < k)
            && (t.normalizes <==> Position(Message) < k)
            && t.artifacts == Left(Faithful()[..k])
  {
    var ws := Faithful()[..k];
    forall i | 0 <= i < |ws| && ws[i].File? ensures ws[i].marked && (ws[i].matches <==> ws[i].site == Message) {
      FaithfulSites(i);
    }
    ProperWrites(PRISTINE, ws);
    forall s: Site ensures Patches(ws, s) <==> Position(s) < k { WrittenExactly(k, s); }
  }

  lemma WholeMeansEverySite(t: Tree)
    ensures AllLanded(t) <==> forall s: Site :: s in t.landed
  {
    if AllLanded(t) {
      forall s: Site ensures s in t.landed { RequiredSitesCoverThePatch(s); }
    }
  }

  /** Where the real applier may be killed: only between Message.js and Utils.js does the tree pass for patched. */
  lemma KilledMidway(k: nat)
    requires k <= WRITES
    ensures var t := ApplyAll(PRISTINE, Faithful()[..k]);
            && t.hasBase && t.hasMessage
            && (HalfPatched(t) <==> k == WRITES - 1)
            && (AllLanded(t) <==> k == WRITES)
  {
    var t := ApplyAll(PRISTINE, Faithful()[..k]);
    KilledAfter(k);
    WholeMeansEverySite(t);
    assert Utils in t.landed <==> k == WRITES;
  }

  predicate Faultless(env: Env) {
    env.patchReadable && !env.tempFails && !env.cleanupFails && !env.scanFails && env.unlinking == Removed
  }

  /**
   * ROUND TRIP: on a pristine tree the real applier's run, by either tool, lands every site, cleans up
   * its reject, and the next run stands down over the very same tree.
   */
  lemma FaithfulRunApplies(env: Env, next: Env)
    requires Faultless(env)
    requires var tool := Ended(Faithful(), 1, false); env.gnu == tool || (env.gnu.Missing? && env.git == tool)
    ensures var r := RunOnce(env, PRISTINE);
            && r.result == Applied && AllLanded(r.tree) && r.tree.artifacts == []
            && RunOnce(next, r.tree).result == Skipped && RunOnce(next, r.tree).tree == r.tree
  {
    assert Faithful()[..WRITES] == Faithful();
    KilledMidway(WRITES);
    KilledAfter(WRITES);
    LeftByFaithful(WRITES);
  }

  lemma {:induction false} LeftByFaithful(k: nat)
    requires k <= WRITES
    ensures Left(Faithful()[..k]) == if k < 8 then [] else [ContactReject]
  {
    if k > 0 {
      LeftByFaithful(k - 1);
      FaithfulSites(k - 1);
      assert Faithful()[..k][..k - 1] == Faithful()[..k - 1];
    }
  }

  // ---------------------------------------------------------------- the script

  /** The installed tree, changed in place by the tools and by the script's own clean-up. */
  class Checkout {
    var tree: Tree

    constructor (tree: Tree)
      ensures this.tree == tree
    {
      this.tree := tree;
    }

    /** Every required site whose marker is absent, in the order they are listed. */
    method MissingSites() returns (missing: seq<Site>)
      ensures forall s :: s in missing <==> s in REQUIRED_SITES && s !in tree.landed
      ensures missing == [] <==> AllLanded(tree)
    {
      missing := [];
      for i := 0 to |REQUIRED_SITES|
        invariant forall s :: s in missing <==> s in REQUIRED_SITES[..i] && s !in tree.landed
      {
        if REQUIRED_SITES[i] !in tree.landed {
          missing := missing + [REQUIRED_SITES[i]];
        }
      }
      assert REQUIRED_SITES[..|REQUIRED_SITES|] == REQUIRED_SITES;
      if missing != [] { assert missing[0] in missing; }
    }

    /** The external tools, writing file by file until they end or are killed. */
    method RunTool(ws: seq<Write>)
      modifies this
      ensures tree == ApplyAll(old(tree), ws)
    {
      for i := 0 to |ws|
        invariant tree == ApplyAll(old(tree), ws[..i])
      {
        assert ws[..i + 1][..i] == ws[..i];
        tree := Apply(tree, ws[i]);
      }
      assert ws[..|ws|] == ws;
    }

    /** The fallback applier: a rejected hunk is expected, a refusal left the tree alone, anything else did not. */
    method ApplyWithGit(git: Tool) returns (end: Option<Result>)
      modifies this
      ensures git.Missing? ==> tree == old(tree) && end == Some(Failed(false))
      ensures !git.Missing? ==> tree == ApplyAll(old(tree), git.writes)
      ensures git.Killed? ==> end == Some(Dead)
      ensures git.Ended? ==>
                end == if git.status == 0 || git.status == 1 then None
                       else Some(Failed(git.status != 128 || !git.refused))
    {
      match git
      case Missing => end := Some(Failed(false));
      case Killed(ws) =>
        RunTool(ws);
        end := Some(Dead);
      case Ended(ws, status, refused) =>
        RunTool(ws);
        if status == 0 || status == 1 { return None; }
        var untouched := status == 128 && refused;
        end := Some(Failed(!untouched));
    }

    method RunAppliers(env: Env) returns (end: Option<Result>)
      modifies this
      ensures tree == Appliers(env, old(tree)).0 && end == Appliers(env, old(tree)).1
    {
      match env.gnu
      case Killed(ws) =>
        RunTool(ws);
        end := Some(Dead);
      case Ended(ws, status, _) =>
        RunTool(ws);
        end := if status == 0 || status == 1 then None else Some(Failed(true));
      case Missing =>
        end := ApplyWithGit(env.git);
    }

    /** Scan for rejects, check every site, then remove the artifacts one by one. */
    method VerifyAndClean(env: Env) returns (r: Result)
      modifies this
      ensures tree == Verified(env, old(tree), false).tree && r == Verified(env, old(tree), false).result
    {
      if env.scanFails { return Failed(false); }
      var artifacts := tree.artifacts;
      for i := 0 to |artifacts|
        invariant tree == old(tree)
        invariant forall j :: 0 <= j < i ==> artifacts[j] == ContactReject
      {
        if artifacts[i] != ContactReject {
          assert artifacts[i] in tree.artifacts;
          return Failed(true);
        }
      }
      for i := 0 to |REQUIRED_SITES|
        invariant tree == old(tree)
        invariant forall j :: 0 <= j < i ==> REQUIRED_SITES[j] in tree.landed
      {
        if REQUIRED_SITES[i] !in tree.landed {
          assert REQUIRED_SITES[i] in REQUIRED_SITES;
          return Failed(true);
        }
      }
      for i := 0 to |artifacts|
        invariant tree == old(tree).(artifacts := artifacts[i..])
        invariant !env.unlinking.Removed? ==> i <= env.unlinking.k
      {
        if env.unlinking == FailsAt(i) { return Failed(false); }
        if env.unlinking == KilledAt(i) { return Dead; }
        tree := tree.(artifacts := artifacts[i + 1..]);
      }
      r := Applied;
    }

    method ApplyBackport(env: Env) returns (r: Result)
      modifies this
      ensures tree == RunOnce(env, old(tree)).tree && r == RunOnce(env, old(tree)).result
    {
      if !tree.hasBase { return Failed(false); }
      if !tree.hasMessage { return Failed(false); }
      if tree.normalizes {
        var missing := MissingSites();
        return if missing != [] then Failed(true) else Skipped;
      }
      if !env.patchReadable { return Failed(false); }
      if env.crlf && env.tempFails { return Failed(false); }
      var end := RunAppliers(env);
      if end == Some(Dead) { return Dead; }
      if env.crlf && env.cleanupFails { return Failed(false); }
      if end.Some? { return end.value; }
      r := VerifyAndClean(env);
    }

    /** The entry point: what is printed as success is never a partial tree, and what exits 0 is honest. */
    method EntryPoint(env: Env, bestEffort: bool) returns (exit: int, reported: bool)
      modifies this
      ensures tree == RunOnce(env, old(tree)).tree
      ensures reported <==> RunsThrough(env, old(tree))
      ensures exit == 0 <==> RunsThrough(env, old(tree)) || (bestEffort && Degrades(env, old(tree)))
      ensures exit == 0 || exit == 1
      ensures reported ==> AllLanded(tree)
      ensures HalfPatched(old(tree)) && old(tree).hasBase && old(tree).hasMessage ==> exit == 1 && tree == old(tree)
      ensures Honest(env) && !UntaggedFailure(env) && exit == 0 ==>
                AllLanded(tree) || (tree == old(tree) && !RunOnce(env, old(tree)).wrote)
    {
      ExitExactly(env, tree, bestEffort);
      if Honest(env) && !UntaggedFailure(env) {
        BestEffortIsHonest(env, tree);
      }
      var r := ApplyBackport(env);
      reported := Success(r);
      exit := ExitCode(bestEffort, r);
    }
  }
}
