/**
 * The status-posting repair: groups of edits that apply independently, each group all or nothing, and
 * one write of the file after every group has been resolved.
 */
module StatusPatch {
  import opened Wrappers
  import opened TextPatch

  datatype Group = Group(name: string, edits: seq<Edit>)

  /** The texts of all the groups stay out of each other's way, an edit's own two texts included. */
  ghost predicate Clean(gs: seq<Group>) {
    && (forall g :: 0 <= g < |gs| ==> NonInterfering(gs[g].edits) && OwnTextsApart(gs[g].edits))
    && (forall g, h :: 0 <= g < |gs| && 0 <= h < |gs| && g != h ==> GroupsSeparate(gs[g], gs[h]))
  }

  ghost predicate OwnTextsApart(es: seq<Edit>) {
    forall i :: 0 <= i < |es| ==> Apart(es[i].find, es[i].replace)
  }

  ghost predicate GroupsSeparate(a: Group, b: Group) {
    forall i, j :: 0 <= i < |a.edits| && 0 <= j < |b.edits| ==> Separate(a.edits[i], b.edits[j])
  }

  // What the script sees of one group: occurrence counts.

  predicate Counts(s: string, es: seq<Edit>, findCount: nat, replaceCount: nat)
    requires forall e :: e in es ==> e.find != "" && e.replace != ""
  {
    forall e :: e in es ==> Occurrences(s, e.find) == findCount && Occurrences(s, e.replace) == replaceCount
  }

  predicate Filled(g: Group) {
    forall e :: e in g.edits ==> e.find != "" && e.replace != ""
  }

  predicate NonEmpty(gs: seq<Group>) {
    forall g :: g in gs ==> Filled(g)
  }

  /** Every group's stand-down condition; a file that cannot be read counts as applied. */
  predicate IsApplied(file: Option<string>, gs: seq<Group>)
    requires NonEmpty(gs)
  {
    file.None? || forall g :: g in gs ==> Counts(file.value, g.edits, 0, 1)
  }

  datatype Patched = Refused | Resolved(source: string, applied: seq<string>, skipped: seq<string>)

  /** One more group, over what the earlier ones left. */
  function Next(r: Patched, g: Group): Patched
    requires Filled(g)
  {
    match r
    case Refused => Refused
    case Resolved(t, applied, skipped) =>
      if Counts(t, g.edits, 0, 1) then Resolved(t, applied, skipped + [g.name])
      else if Counts(t, g.edits, 1, 0) then Resolved(ApplyEdits(t, g.edits), applied + [g.name], skipped)
      else Refused
  }

  /** Resolving the groups in order over one in-memory source. */
  function Resolve(s: string, gs: seq<Group>): Patched
    requires NonEmpty(gs)
  {
    if gs == [] then Resolved(s, [], []) else Next(Resolve(s, gs[..|gs| - 1]), gs[|gs| - 1])
  }

  lemma ResolveSnoc(s: string, gs: seq<Group>, k: nat)
    requires 0 < k <= |gs| && NonEmpty(gs[..k])
    ensures NonEmpty(gs[..k - 1]) && Filled(gs[k - 1])
    ensures Resolve(s, gs[..k]) == Next(Resolve(s, gs[..k - 1]), gs[k - 1])
  {
    assert gs[..k][..k - 1] == gs[..k - 1] && gs[..k][k - 1] == gs[k - 1];
    assert gs[k - 1] in gs[..k];
  }

  // ---------------------------------------------------------------- what a run leaves

  ghost predicate EditDone(s: string, e: Edit) {
    Absent(s, e.find) && Once(s, e.replace)
  }

  lemma CountsMean(s: string, es: seq<Edit>)
    requires NonInterfering(es)
    ensures forall i :: 0 <= i < |es| ==> es[i].find != "" && es[i].replace != ""
    ensures Counts(s, es, 0, 1) <==> forall i :: 0 <= i < |es| ==> EditDone(s, es[i])
    ensures Counts(s, es, 1, 0) <==> forall i :: 0 <= i < |es| ==> Unpatched(s, es[i])
  {
    forall i | 0 <= i < |es|
      ensures Occurrences(s, es[i].find) == 0 && Occurrences(s, es[i].replace) == 1 <==> EditDone(s, es[i])
      ensures Occurrences(s, es[i].find) == 1 && Occurrences(s, es[i].replace) == 0 <==> Unpatched(s, es[i])
    {
      CountZero(s, es[i].find);
      CountOne(s, es[i].find);
      CountZero(s, es[i].replace);
      CountOne(s, es[i].replace);
    }
  }

  /** Where find and replace are apart, replacing the only find leaves none. */
  lemma FindGone(s: string, e: Edit)
    requires Unpatched(s, e) && Apart(e.find, e.replace) && Unbordered(e.replace)
    ensures EditDone(ReplaceFirst(s, e.find, e.replace), e)
  {
    EditLands(s, e);
    var p, q := EditSplits(s, e.find, e.replace);
    var t := p + e.replace + q;
    forall j ensures !Occ(t, e.find, j) {
      if Occ(t, e.find, j) {
        Survives(p, e.replace, e.find, q, e.find, j);
      }
    }
  }

  /** The first `k` edits are done. */
  ghost predicate EarlierDone(t: string, es: seq<Edit>, k: nat)
    requires k <= |es|
  {
    forall i :: 0 <= i < k ==> EditDone(t, es[i])
  }

  /** One more edit: it is done, and the separate ones done before it stay done. */
  lemma EditStep(t: string, es: seq<Edit>, k: nat)
    requires NonInterfering(es) && k < |es| && Unpatched(t, es[k]) && Apart(es[k].find, es[k].replace)
    requires EarlierDone(t, es, k)
    ensures EarlierDone(ReplaceFirst(t, es[k].find, es[k].replace), es, k + 1)
  {
    FindGone(t, es[k]);
    forall i | 0 <= i < k ensures EditDone(ReplaceFirst(t, es[k].find, es[k].replace), es[i]) {
      assert Separate(es[i], es[k]);
      EditKeeps(t, es[k], es[i].find);
      EditKeeps(t, es[k], es[i].replace);
    }
  }

  /** A group applied to a source it is unpatched in ends up done. */
  lemma {:induction false} GroupLands(s: string, es: seq<Edit>, k: nat)
    requires NonInterfering(es) && OwnTextsApart(es) && k <= |es| && LaterUnpatched(s, es, 0)
    ensures EarlierDone(ApplyEdits(s, es[..k]), es, k)
    decreases k
  {
    if k > 0 {
      GroupLands(s, es, k - 1);
      EditsProgress(s, es, k - 1);
      ApplySnoc(s, es, k - 1);
      EditStep(ApplyEdits(s, es[..k - 1]), es, k - 1);
    }
  }

  ghost predicate GroupDone(s: string, g: Group) {
    forall i :: 0 <= i < |g.edits| ==> EditDone(s, g.edits[i])
  }

  ghost predicate GroupUnpatched(s: string, g: Group) {
    forall i :: 0 <= i < |g.edits| ==> Unpatched(s, g.edits[i])
  }

  /** Group `h` is in `t` what it was in `s`. */
  ghost predicate SameGroup(s: string, t: string, h: Group) {
    && (GroupDone(s, h) <==> GroupDone(t, h))
    && (GroupUnpatched(s, h) <==> GroupUnpatched(t, h))
  }

  /** Applying one group leaves another, separate one done if it was, and unpatched if it was. */
  lemma GroupKept(t: string, g: Group, h: Group)
    requires NonInterfering(g.edits) && GroupsSeparate(h, g) && GroupUnpatched(t, g)
    ensures SameGroup(t, ApplyEdits(t, g.edits), h)
  {
    assert g.edits[..|g.edits|] == g.edits;
    forall i | 0 <= i < |h.edits|
      ensures EditDone(ApplyEdits(t, g.edits), h.edits[i]) <==> EditDone(t, h.edits[i])
      ensures Unpatched(ApplyEdits(t, g.edits), h.edits[i]) <==> Unpatched(t, h.edits[i])
    {
      assert forall j :: 0 <= j < |g.edits| ==> Separate(h.edits[i], g.edits[j]);
      EditsKeep(t, g.edits, |g.edits|, h.edits[i].find);
      EditsKeep(t, g.edits, |g.edits|, h.edits[i].replace);
    }
  }

  /** The first `k` groups are done. */
  ghost predicate DoneUpTo(s: string, gs: seq<Group>, k: nat)
    requires k <= |gs|
  {
    forall h :: 0 <= h < k ==> GroupDone(s, gs[h])
  }

  /** Resolving group `k` over a source in which the earlier ones are done leaves it and them done. */
  lemma GroupStep(t: string, gs: seq<Group>, k: nat)
    requires Clean(gs) && k < |gs| && DoneUpTo(t, gs, k)
    requires forall i :: 0 <= i < |gs[k].edits| ==> Unpatched(t, gs[k].edits[i])
    ensures DoneUpTo(ApplyEdits(t, gs[k].edits), gs, k + 1)
  {
    var es := gs[k].edits;
    assert es[..|es|] == es;
    GroupLands(t, es, |es|);
    forall h | 0 <= h < k ensures GroupDone(ApplyEdits(t, es), gs[h]) {
      GroupKept(t, gs[k], gs[h]);
    }
  }

  lemma ResolveStep(r: Patched, gs: seq<Group>, k: nat)
    requires Clean(gs) && k < |gs| && Filled(gs[k]) && r.Resolved? && DoneUpTo(r.source, gs, k)
    ensures Next(r, gs[k]).Resolved? ==> DoneUpTo(Next(r, gs[k]).source, gs, k + 1)
  {
    CountsMean(r.source, gs[k].edits);
    if Counts(r.source, gs[k].edits, 1, 0) {
      GroupStep(r.source, gs, k);
    }
  }

  /** Once the first `k` groups are resolved, every one of them is done in the source so far. */
  ghost predicate ResolvesDone(s: string, gs: seq<Group>, k: nat)
    requires k <= |gs| && NonEmpty(gs)
  {
    var r := Resolve(s, gs[..k]);
    r.Resolved? ==> DoneUpTo(r.source, gs, k)
  }

  lemma ResolvesDoneNone(s: string, gs: seq<Group>)
    requires NonEmpty(gs)
    ensures ResolvesDone(s, gs, 0)
  {
  }

  lemma ResolvesDoneNext(s: string, gs: seq<Group>)
    requires Clean(gs) && NonEmpty(gs)
    ensures forall k: nat :: k < |gs| && ResolvesDone(s, gs, k) ==> ResolvesDone(s, gs, k + 1)
  {
    forall k: nat | k < |gs| && ResolvesDone(s, gs, k) ensures ResolvesDone(s, gs, k + 1) {
      ResolveSnoc(s, gs, k + 1);
      if Resolve(s, gs[..k]).Resolved? {
        ResolveStep(Resolve(s, gs[..k]), gs, k);
      }
    }
  }

  lemma {:induction false} ResolvedIsDone(s: string, gs: seq<Group>, k: nat)
    requires k <= |gs| && NonEmpty(gs)
    requires forall j: nat :: j < |gs| && ResolvesDone(s, gs, j) ==> ResolvesDone(s, gs, j + 1)
    ensures ResolvesDone(s, gs, k)
    decreases k
  {
    if k == 0 {
      ResolvesDoneNone(s, gs);
    } else {
      ResolvedIsDone(s, gs, k - 1);
    }
  }

  lemma {:induction false} DoneIsSkipped(s: string, gs: seq<Group>, k: nat)
    requires Clean(gs) && k <= |gs| && NonEmpty(gs[..k])
    requires DoneUpTo(s, gs, |gs|)
    ensures var r := Resolve(s, gs[..k]); r.Resolved? && r.source == s && r.applied == []
  {
    if k > 0 {
      ResolveSnoc(s, gs, k);
      DoneIsSkipped(s, gs, k - 1);
      assert GroupDone(s, gs[k - 1]);
      CountsMean(s, gs[k - 1].edits);
    }
  }

  /**
   * A successful run leaves every group applied, and running again over what it left resolves to the
   * very same source with nothing applied.
   */
  lemma SuccessIsStable(s: string, gs: seq<Group>)
    requires Clean(gs) && NonEmpty(gs)
    ensures var r := Resolve(s, gs);
            r.Resolved? ==>
              && IsApplied(Some(r.source), gs)
              && Resolve(r.source, gs).Resolved?
              && Resolve(r.source, gs).source == r.source && Resolve(r.source, gs).applied == []
  {
    assert gs[..|gs|] == gs;
    ResolvesDoneNext(s, gs);
    ResolvedIsDone(s, gs, |gs|);
    var r := Resolve(s, gs);
    if r.Resolved? {
      DoneIsSkipped(r.source, gs, |gs|);
      forall g | g in gs ensures Counts(r.source, g.edits, 0, 1) {
        var h :| 0 <= h < |gs| && gs[h] == g;
        assert GroupDone(r.source, gs[h]);
        CountsMean(r.source, g.edits);
      }
    }
  }

  // ---------------------------------------------------------------- when a run goes through

  /** A source to resolve one group over: all of it is done, or none of it. */
  ghost predicate Ready(s: string, g: Group) {
    GroupDone(s, g) || GroupUnpatched(s, g)
  }

  ghost predicate ReadyUpTo(s: string, gs: seq<Group>, k: nat)
    requires k <= |gs|
  {
    forall h :: 0 <= h < k ==> Ready(s, gs[h])
  }

  /** The names of those of the first `k` groups that the source does not have yet. */
  ghost function Wanting(s: string, gs: seq<Group>, k: nat): seq<string>
    requires k <= |gs|
  {
    if k == 0 then []
    else Wanting(s, gs, k - 1) + if GroupDone(s, gs[k - 1]) then [] else [gs[k - 1].name]
  }

  /** The first `k` groups resolve as the source has them, and leave the later ones alone. */
  ghost predicate ResolvesAs(s: string, gs: seq<Group>, k: nat)
    requires k <= |gs| && NonEmpty(gs)
  {
    var r := Resolve(s, gs[..k]);
    && (r.Resolved? <==> ReadyUpTo(s, gs, k))
    && (r.Resolved? ==> r.applied == Wanting(s, gs, k) && SameFrom(s, r.source, gs, k))
  }

  ghost predicate SameFrom(s: string, t: string, gs: seq<Group>, k: nat) {
    forall h :: k <= h < |gs| ==> SameGroup(s, t, gs[h])
  }

  lemma NextSame(s: string, r: Patched, gs: seq<Group>, k: nat)
    requires Clean(gs) && k < |gs| && Filled(gs[k]) && r.Resolved? && SameFrom(s, r.source, gs, k)
    ensures var n := Next(r, gs[k]);
      && (n.Resolved? <==> Ready(s, gs[k]))
      && (n.Resolved? ==>
            && n.applied == r.applied + (if GroupDone(s, gs[k]) then [] else [gs[k].name])
            && SameFrom(s, n.source, gs, k + 1))
  {
    CountsMean(r.source, gs[k].edits);
    assert SameGroup(s, r.source, gs[k]);
    if !GroupDone(s, gs[k]) && GroupUnpatched(s, gs[k]) {
      forall h | k < h < |gs| ensures SameGroup(s, ApplyEdits(r.source, gs[k].edits), gs[h]) {
        GroupKept(r.source, gs[k], gs[h]);
      }
    }
  }

  lemma ResolvesAsNext(s: string, gs: seq<Group>)
    requires Clean(gs) && NonEmpty(gs)
    ensures forall k: nat :: k < |gs| && ResolvesAs(s, gs, k) ==> ResolvesAs(s, gs, k + 1)
  {
    forall k: nat | k < |gs| && ResolvesAs(s, gs, k) ensures ResolvesAs(s, gs, k + 1) {
      ResolveSnoc(s, gs, k + 1);
      if Resolve(s, gs[..k]).Resolved? {
        NextSame(s, Resolve(s, gs[..k]), gs, k);
      }
    }
  }

  lemma ResolvesAsNone(s: string, gs: seq<Group>)
    requires NonEmpty(gs)
    ensures ResolvesAs(s, gs, 0)
  {
  }

  lemma {:induction false} ResolvesAsUpTo(s: string, gs: seq<Group>, k: nat)
    requires k <= |gs| && NonEmpty(gs)
    requires forall j: nat :: j < |gs| && ResolvesAs(s, gs, j) ==> ResolvesAs(s, gs, j + 1)
    ensures ResolvesAs(s, gs, k)
    decreases k
  {
    if k == 0 {
      ResolvesAsNone(s, gs);
    } else {
      ResolvesAsUpTo(s, gs, k - 1);
    }
  }

  /**
   * WHEN A RUN GOES THROUGH, exactly: every group, in the source as it was found, has all its finds once and
   * no replacement or all its replacements once and no find. It then applies the groups of the first kind.
   */
  lemma {:induction false} ResolvesExactly(s: string, gs: seq<Group>)
    requires Clean(gs) && NonEmpty(gs)
    ensures Resolve(s, gs).Resolved? <==> forall h :: 0 <= h < |gs| ==> Ready(s, gs[h])
    ensures Resolve(s, gs).Resolved? ==> Resolve(s, gs).applied == Wanting(s, gs, |gs|)
  {
    ResolvesAsNext(s, gs);
    ResolvesAsUpTo(s, gs, |gs|);
    assert gs[..|gs|] == gs;
  }

  // ---------------------------------------------------------------- an instance

  predicate NoSharedCharacter(x: string, y: string) {
    forall c :: c in x ==> c !in y
  }

  lemma ForeignTextsApart(x: string, y: string)
    requires x != "" && y != "" && NoSharedCharacter(x, y)
    ensures Apart(x, y)
  {
    forall n | 0 < n <= |x| && n <= |y|
      ensures x[..n] != y[|y| - n..] && y[..n] != x[|x| - n..]
    {
      assert x[..n][0] in x && y[..n][0] in y;
    }
    ForeignTextsAbsent(x, y);
    ForeignTextsAbsent(y, x);
  }

  lemma ForeignTextsAbsent(x: string, y: string)
    requires y != "" && NoSharedCharacter(x, y)
    ensures Absent(x, y)
  {
    forall i ensures Occ(x, y, i) ==> y[0] in x {
      if Occ(x, y, i) { assert x[i] == x[i..i + |y|][0]; }
    }
  }

  lemma TwoLettersUnbordered(x: string)
    requires |x| == 2 && x[0] != x[1]
    ensures Unbordered(x)
  {
    assert x[..1] != x[1..];
  }

  const TWO_GROUPS: seq<Group> := [
    Group("guard", [Edit("ab", "cd")]),
    Group("send", [Edit("ef", "gh"), Edit("ij", "kl")])]

  lemma EditsSeparate(a: Edit, b: Edit)
    requires a.find != "" && a.replace != "" && b.find != "" && b.replace != ""
    requires NoSharedCharacter(a.find + a.replace, b.find + b.replace)
    ensures Separate(a, b) && Separate(b, a)
  {
    assert forall c :: (c in a.find || c in a.replace) ==> c in a.find + a.replace;
    assert forall c :: (c in b.find || c in b.replace) ==> c in b.find + b.replace;
    ForeignTextsApart(a.find, b.find);
    ForeignTextsApart(a.find, b.replace);
    ForeignTextsApart(a.replace, b.find);
    ForeignTextsApart(a.replace, b.replace);
    ForeignTextsApart(b.find, a.find);
    ForeignTextsApart(b.find, a.replace);
    ForeignTextsApart(b.replace, a.find);
    ForeignTextsApart(b.replace, a.replace);
  }

  lemma FreshEdit(e: Edit)
    requires |e.find| == 2 && |e.replace| == 2 && e.find[0] != e.find[1] && e.replace[0] != e.replace[1]
    requires NoSharedCharacter(e.find, e.replace)
    ensures Unbordered(e.find) && Unbordered(e.replace) && Apart(e.find, e.replace)
  {
    TwoLettersUnbordered(e.find);
    TwoLettersUnbordered(e.replace);
    ForeignTextsApart(e.find, e.replace);
  }

  lemma CleanOfThree(a: Edit, b: Edit, c: Edit, one: Group, two: Group)
    requires one.edits == [a] && two.edits == [b, c]
    requires forall e :: e in [a, b, c] ==> Unbordered(e.find) && Unbordered(e.replace) && Apart(e.find, e.replace)
    requires Separate(a, b) && Separate(b, a) && Separate(a, c) && Separate(c, a) && Separate(b, c) && Separate(c, b)
    ensures Clean([one, two]) && NonEmpty([one, two])
  {
    assert a in [a, b, c] && b in [a, b, c] && c in [a, b, c];
  }

  lemma ThreeFreshEdits(a: Edit, b: Edit, c: Edit)
    requires forall e :: e in [a, b, c] ==>
               && |e.find| == 2 && |e.replace| == 2 && e.find[0] != e.find[1] && e.replace[0] != e.replace[1]
               && NoSharedCharacter(e.find, e.replace)
    requires NoSharedCharacter(a.find + a.replace, b.find + b.replace)
    requires NoSharedCharacter(a.find + a.replace, c.find + c.replace)
    requires NoSharedCharacter(b.find + b.replace, c.find + c.replace)
    ensures forall e :: e in [a, b, c] ==> Unbordered(e.find) && Unbordered(e.replace) && Apart(e.find, e.replace)
    ensures Separate(a, b) && Separate(b, a) && Separate(a, c) && Separate(c, a) && Separate(b, c) && Separate(c, b)
  {
    assert a in [a, b, c] && b in [a, b, c] && c in [a, b, c];
    FreshEdit(a);
    FreshEdit(b);
    FreshEdit(c);
    EditsSeparate(a, b);
    EditsSeparate(a, c);
    EditsSeparate(b, c);
  }

  /** What the theorems ask of the groups can be met: two groups, of one edit and of two. */
  lemma TwoGroupsAreClean()
    ensures Clean(TWO_GROUPS) && NonEmpty(TWO_GROUPS)
  {
    var a, b, c := Edit("ab", "cd"), Edit("ef", "gh"), Edit("ij", "kl");
    ThreeFreshEdits(a, b, c);
    CleanOfThree(a, b, c, TWO_GROUPS[0], TWO_GROUPS[1]);
    assert TWO_GROUPS == [TWO_GROUPS[0], TWO_GROUPS[1]];
  }

  // ---------------------------------------------------------------- the script

  class Script {
    const groups: seq<Group>
    /** The target file, None when it is missing. */
    var file: Option<string>

    constructor (file: Option<string>, groups: seq<Group>)
      ensures this.file == file && this.groups == groups
    {
      this.file := file;
      this.groups := groups;
    }

    /** One group's edits, in order, over the in-memory source. */
    method ApplyGroup(source: string, es: seq<Edit>) returns (t: string)
      ensures t == ApplyEdits(source, es)
    {
      t := source;
      for i := 0 to |es|
        invariant t == ApplyEdits(source, es[..i])
      {
        assert es[..i + 1][..i] == es[..i];
        t := ReplaceFirst(t, es[i].find, es[i].replace);
      }
      assert es[..|es|] == es;
    }

    /** The groups in order, and one write at the end if any of them applied. */
    method ResolveGroups() returns (r: Patched)
      requires NonEmpty(groups) && file.Some?
      modifies this
      ensures r == Resolve(old(file).value, groups)
      ensures file == if r.Resolved? then Some(r.source) else old(file)
    {
      var source, applied, skipped := file.value, [], [];
      for i := 0 to |groups|
        invariant Resolve(old(file).value, groups[..i]) == Resolved(source, applied, skipped)
        invariant file == old(file)
        invariant applied == [] ==> source == old(file).value
      {
        var g := groups[i];
        ResolveSnoc(old(file).value, groups, i + 1);
        if Counts(source, g.edits, 0, 1) {
          skipped := skipped + [g.name];
        } else if Counts(source, g.edits, 1, 0) {
          source := ApplyGroup(source, g.edits);
          applied := applied + [g.name];
        } else {
          RefusalIsFinal(old(file).value, groups, i + 1);
          return Refused;
        }
      }
      assert groups[..|groups|] == groups;
      if applied != [] {
        file := Some(source);
      }
      r := Resolved(source, applied, skipped);
    }

    /**
     * A refused run leaves the file byte for byte as it was; a successful one makes it applied; a run
     * over an applied file changes nothing.
     */
    method ApplyStatusPatches() returns (r: Patched)
      requires Clean(groups) && NonEmpty(groups)
      modifies this
      ensures r == if old(file).None? then Refused else Resolve(old(file).value, groups)
      ensures r.Resolved? <==> old(file).Some? && ReadyUpTo(old(file).value, groups, |groups|)
      ensures r.Resolved? ==> r.applied == Wanting(old(file).value, groups, |groups|)
      ensures r.Refused? ==> file == old(file)
      ensures r.Resolved? ==> file == Some(r.source) && IsApplied(file, groups)
      ensures old(file).Some? && IsApplied(old(file), groups) ==> r.Resolved? && r.applied == [] && file == old(file)
    {
      if file.None? { return Refused; }
      SuccessIsStable(file.value, groups);
      ResolvesExactly(file.value, groups);
      AppliedIsStable(file.value, groups);
      r := ResolveGroups();
    }
  }

  lemma AppliedIsStable(s: string, gs: seq<Group>)
    requires Clean(gs) && NonEmpty(gs)
    ensures IsApplied(Some(s), gs) ==>
              Resolve(s, gs).Resolved? && Resolve(s, gs).source == s && Resolve(s, gs).applied == []
  {
    if IsApplied(Some(s), gs) {
      forall h | 0 <= h < |gs| ensures GroupDone(s, gs[h]) {
        assert gs[h] in gs;
        CountsMean(s, gs[h].edits);
      }
      DoneIsSkipped(s, gs, |gs|);
      assert gs[..|gs|] == gs;
    }
  }

  lemma {:induction false} RefusalIsFinal(s: string, gs: seq<Group>, k: nat)
    requires k <= |gs| && NonEmpty(gs) && Resolve(s, gs[..k]).Refused?
    ensures Resolve(s, gs).Refused?
    decreases |gs| - k
  {
    if k < |gs| {
      assert gs[..k + 1][..k] == gs[..k];
      RefusalIsFinal(s, gs, k + 1);
    } else {
      assert gs[..k] == gs;
    }
  }
}
