/**
 * The ready-sync repair: one group of edits whose replacements mostly CONTAIN their own finds, so the
 * script counts finds only after removing the replacements.
 */
module ReadySyncPatch {
  import opened Wrappers
  import opened TextPatch

  predicate NonEmpty(es: seq<Edit>) {
    forall e :: e in es ==> e.find != "" && e.replace != ""
  }

  predicate Counts(s: string, es: seq<Edit>, findCount: nat, replaceCount: nat)
    requires NonEmpty(es)
  {
    forall e :: e in es ==>
      Occurrences(s, e.replace) == replaceCount && Occurrences(Removed(s, e.replace), e.find) == findCount
  }

  predicate IsApplied(file: Option<string>, es: seq<Edit>)
    requires NonEmpty(es)
  {
    file.None? || Counts(file.value, es, 0, 1)
  }

  datatype Outcome = Skipped | Applied | Refused

  function Outcomes(s: string, es: seq<Edit>): Outcome
    requires NonEmpty(es)
  {
    if Counts(s, es, 0, 1) then Skipped
    else if Counts(s, es, 1, 0) then Applied
    else Refused
  }

  function Result(s: string, es: seq<Edit>): string
    requires NonEmpty(es)
  {
    if Outcomes(s, es).Applied? then ApplyEdits(s, es) else s
  }

  // ---------------------------------------------------------------- cutting a text out

  /** The source with the first occurrence of a text cut out. */
  function Deleted(s: string, x: string): string {
    ReplaceFirst(s, x, "")
  }

  lemma UnpatchedMeans(s: string, es: seq<Edit>)
    requires NonInterfering(es) && NonEmpty(es) && Counts(s, es, 1, 0)
    ensures LaterUnpatched(s, es, 0)
  {
    forall i | 0 <= i < |es| ensures Unpatched(s, es[i]) {
      assert es[i] in es;
      CountZero(s, es[i].replace);
      RemovedAbsent(s, es[i].replace);
      CountOne(s, es[i].find);
    }
  }

  /** Cutting out a text that occurs once joins what stood around it. */
  lemma CutAt(s: string, h: string, a: string, q: string)
    requires h != "" && Once(s, h) && s == a + h + q
    ensures Deleted(s, h) == a + q
  {
    assert s[|a|..|a| + |h|] == h;
    assert Occ(s, h, |a|);
    FirstIsOnly(s, h, |a|);
    assert s[..|a|] == a && s[|a| + |h|..] == q;
    assert a + "" + q == a + q;
  }

  /** Where a text apart from the replaced one stands: wholly before it, or wholly after. */
  lemma StandsAside(a: string, f: string, c: string, h: string) returns (before: bool, x: string, y: string)
    requires Apart(h, f) && Once(a + f + c, h)
    ensures if before then a == x + h + y else c == x + h + y
  {
    var s := a + f + c;
    var i :| OnceAt(s, h, i);
    Survives(a, f, f, c, h, i);
    if i + |h| <= |a| {
      before, x, y := true, a[..i], a[i + |h|..];
      assert a[i..i + |h|] == s[i..i + |h|];
    } else {
      var b := i - |a| - |f|;
      before, x, y := false, c[..b], c[b + |h|..];
      forall m | 0 <= m < |h| ensures c[b + m] == h[m] {
        assert s[i..i + |h|][m] == s[i + m] && s[|a| + |f| + b + m] == c[b + m];
      }
      assert c[b..b + |h|] == h;
    }
  }

  lemma CutBefore(x: string, h: string, y: string, f: string, c: string)
    requires h != "" && Once((x + h + y) + f + c, h)
    ensures Deleted((x + h + y) + f + c, h) == (x + y) + f + c
  {
    assert (x + h + y) + f + c == x + h + (y + f + c);
    CutAt((x + h + y) + f + c, h, x, y + f + c);
    assert x + (y + f + c) == (x + y) + f + c;
  }

  lemma CutAfter(a: string, f: string, x: string, h: string, y: string)
    requires h != "" && Once(a + f + (x + h + y), h)
    ensures Deleted(a + f + (x + h + y), h) == a + f + (x + y)
  {
    assert a + f + (x + h + y) == (a + f + x) + h + y;
    CutAt(a + f + (x + h + y), h, a + f + x, y);
    assert (a + f + x) + y == a + f + (x + y);
  }

  /** Cutting out a text, and replacing another one apart from it, can be done in either order. */
  lemma CutCommutes(s: string, h: string, e: Edit) returns (p: string, q: string)
    requires Once(s, h) && Once(s, e.find) && Apart(h, e.find) && Apart(h, e.replace)
    ensures Deleted(s, h) == p + e.find + q
    ensures Deleted(ReplaceFirst(s, e.find, e.replace), h) == p + e.replace + q
  {
    EditKeeps(s, e, h);
    var a, c := EditSplits(s, e.find, e.replace);
    var before, x, y := StandsAside(a, e.find, c, h);
    if before {
      p, q := x + y, c;
      CutBefore(x, h, y, e.find, c);
      CutBefore(x, h, y, e.replace, c);
    } else {
      p, q := a, x + y;
      CutAfter(a, e.find, x, h, y);
      CutAfter(a, e.replace, x, h, y);
    }
  }

  /** Applying a separate edit neither creates nor removes finds in the source with `h` cut out. */
  lemma CutKeeps(s: string, h: string, f: string, e: Edit)
    requires Once(s, h) && Once(s, e.find) && Apart(h, e.find) && Apart(h, e.replace)
    requires Apart(f, e.find) && Apart(f, e.replace)
    ensures Absent(Deleted(s, h), f) <==> Absent(Deleted(ReplaceFirst(s, e.find, e.replace), h), f)
  {
    var p, q := CutCommutes(s, h, e);
    Transport(p, e.find, e.replace, q, f);
  }

  /** Cutting the replacement back out gives what cutting the find out gave. */
  lemma CutSwaps(s: string, e: Edit)
    requires Unpatched(s, e) && e.find != "" && Unbordered(e.replace)
    ensures Deleted(ReplaceFirst(s, e.find, e.replace), e.replace) == Deleted(s, e.find)
  {
    var p, q := EditSplits(s, e.find, e.replace);
    ReplacementLands(p, e.find, e.replace, q);
    CutAt(s, e.find, p, q);
    CutAt(p + e.replace + q, e.replace, p, q);
  }

  /** The text of edit `m` standing in the source after the first `k` edits: its find, or its replacement. */
  function Standing(es: seq<Edit>, m: nat, k: nat): string
    requires m < |es|
  {
    if k <= m then es[m].find else es[m].replace
  }

  /** One edit of the run: its own text is swapped, a separate one's surroundings keep their finds. */
  lemma CutStep(t: string, es: seq<Edit>, m: nat, k: nat)
    requires m < |es| && k < |es| && Unpatched(t, es[k])
    requires es[k].find != "" && Unbordered(es[k].replace)
    requires m != k ==> Separate(es[m], es[k]) && Once(t, Standing(es, m, k))
    ensures Absent(Deleted(t, Standing(es, m, k)), es[m].find)
         == Absent(Deleted(ReplaceFirst(t, es[k].find, es[k].replace), Standing(es, m, k + 1)), es[m].find)
  {
    if k == m {
      CutSwaps(t, es[k]);
    } else {
      CutKeeps(t, Standing(es, m, k), es[m].find, es[k]);
    }
  }

  /** The source after the first `k` edits, with edit `m`'s standing text cut out. */
  function CutAfterEdits(s: string, es: seq<Edit>, m: nat, k: nat): string
    requires m < |es| && k <= |es|
  {
    Deleted(ApplyEdits(s, es[..k]), Standing(es, m, k))
  }

  /** The first `k` edits leave unchanged whether cutting edit `m` out leaves a find of its own. */
  ghost predicate SameCut(s: string, es: seq<Edit>, m: nat, k: nat)
    requires m < |es| && k <= |es|
  {
    Absent(CutAfterEdits(s, es, m, 0), es[m].find) == Absent(CutAfterEdits(s, es, m, k), es[m].find)
  }

  lemma CutNextEdit(s: string, es: seq<Edit>, m: nat, k: nat)
    requires NonInterfering(es) && m < |es| && k < |es| && LaterUnpatched(s, es, 0)
    ensures Absent(CutAfterEdits(s, es, m, k), es[m].find) == Absent(CutAfterEdits(s, es, m, k + 1), es[m].find)
  {
    EditsProgress(s, es, k);
    ApplySnoc(s, es, k);
    CutStep(ApplyEdits(s, es[..k]), es, m, k);
  }

  lemma SameCutNext(s: string, es: seq<Edit>, m: nat)
    requires NonInterfering(es) && m < |es| && LaterUnpatched(s, es, 0)
    ensures forall k: nat :: k < |es| && SameCut(s, es, m, k) ==> SameCut(s, es, m, k + 1)
  {
    forall k: nat | k < |es| && SameCut(s, es, m, k) ensures SameCut(s, es, m, k + 1) {
      CutNextEdit(s, es, m, k);
    }
  }

  lemma CutBeforeEdits(s: string, es: seq<Edit>, m: nat)
    requires m < |es|
    ensures CutAfterEdits(s, es, m, 0) == Deleted(s, es[m].find)
  {
    assert es[..0] == [];
  }

  lemma {:induction false} CutThroughEdits(s: string, es: seq<Edit>, m: nat, k: nat)
    requires m < |es| && k <= |es| && SameCut(s, es, m, 0)
    requires forall j: nat :: j < |es| && SameCut(s, es, m, j) ==> SameCut(s, es, m, j + 1)
    ensures SameCut(s, es, m, k)
    decreases k
  {
    if k > 0 { CutThroughEdits(s, es, m, k - 1); }
  }

  /** A replacement standing once: removing it is cutting it out. */
  lemma StandsOnce(t: string, r: string)
    requires Unbordered(r) && Once(t, r)
    ensures Occurrences(t, r) == 1 && Removed(t, r) == Deleted(t, r)
  {
    CountOne(t, r);
    var at :| OnceAt(t, r, at);
    RemovedOnce(t, r, at);
    FirstIsOnly(t, r, at);
    assert t[..at] + "" == t[..at];
  }

  // ---------------------------------------------------------------- what a run leaves

  /**
   * After a run that applied, exactly when the tree reads as patched: each replacement then stands once,
   * and the finds are gone if and only if cutting each find out of the ORIGINAL source leaves none.
   */
  lemma AppliedExactly(s: string, es: seq<Edit>)
    requires NonInterfering(es) && NonEmpty(es) && Outcomes(s, es).Applied?
    ensures forall i :: 0 <= i < |es| ==> Once(Result(s, es), es[i].replace)
    ensures IsApplied(Some(Result(s, es)), es)
       <==> forall i :: 0 <= i < |es| ==> Absent(Deleted(s, es[i].find), es[i].find)
  {
    UnpatchedMeans(s, es);
    var n, t := |es|, Result(s, es);
    assert es[..n] == es;
    EditsProgress(s, es, n);
    forall i | 0 <= i < n
      ensures Occurrences(t, es[i].replace) == 1
      ensures Occurrences(Removed(t, es[i].replace), es[i].find) == 0
         <==> Absent(Deleted(s, es[i].find), es[i].find)
    {
      StandsOnce(t, es[i].replace);
      CutBeforeEdits(s, es, i);
      SameCutNext(s, es, i);
      CutThroughEdits(s, es, i, n);
      CountZero(Removed(t, es[i].replace), es[i].find);
    }
  }

  /**
   * WHICH SOURCES ARE PATCHED, exactly: the script applies where every find stands once and no replacement
   * does, and stands down where every replacement stands once and no find is left around it.
   */
  lemma OutcomesExactly(s: string, es: seq<Edit>)
    requires NonInterfering(es) && NonEmpty(es) && es != []
    ensures Outcomes(s, es).Applied? <==> forall i :: 0 <= i < |es| ==> Once(s, es[i].find) && Absent(s, es[i].replace)
    ensures Outcomes(s, es).Skipped? <==> forall i :: 0 <= i < |es| ==>
      Once(s, es[i].replace) && Absent(Deleted(s, es[i].replace), es[i].find)
  {
    forall i | 0 <= i < |es|
      ensures Occurrences(s, es[i].replace) == 0 && Occurrences(Removed(s, es[i].replace), es[i].find) == 1
         <==> Once(s, es[i].find) && Absent(s, es[i].replace)
      ensures Occurrences(s, es[i].replace) == 1 && Occurrences(Removed(s, es[i].replace), es[i].find) == 0
         <==> Once(s, es[i].replace) && Absent(Deleted(s, es[i].replace), es[i].find)
    {
      EditCounts(s, es[i]);
    }
    assert es[0] in es;
  }

  lemma EditCounts(s: string, e: Edit)
    requires Unbordered(e.find) && Unbordered(e.replace) && e.find != "" && e.replace != ""
    ensures Occurrences(s, e.replace) == 0 && Occurrences(Removed(s, e.replace), e.find) == 1
       <==> Once(s, e.find) && Absent(s, e.replace)
    ensures Occurrences(s, e.replace) == 1 && Occurrences(Removed(s, e.replace), e.find) == 0
       <==> Once(s, e.replace) && Absent(Deleted(s, e.replace), e.find)
  {
    CountZero(s, e.replace);
    CountOne(s, e.replace);
    if Absent(s, e.replace) {
      RemovedAbsent(s, e.replace);
      CountOne(s, e.find);
    } else if Once(s, e.replace) {
      StandsOnce(s, e.replace);
      CountZero(Removed(s, e.replace), e.find);
    }
  }

  /** A source that already carries a replacement is never applied to. */
  lemma CarriedIsNotApplied(t: string, es: seq<Edit>, i: nat)
    requires NonEmpty(es) && i < |es| && Unbordered(es[i].replace) && Once(t, es[i].replace)
    ensures !Outcomes(t, es).Applied? && Result(t, es) == t
  {
    assert es[i] in es;
    CountOne(t, es[i].replace);
  }

  /** Whatever the source looked like, a run after one that applied never writes again. */
  lemma NeverAppliedTwice(s: string, es: seq<Edit>)
    requires NonInterfering(es) && NonEmpty(es) && es != [] && Outcomes(s, es).Applied?
    ensures Result(Result(s, es), es) == Result(s, es)
    ensures Outcomes(Result(s, es), es) ==
            if forall i :: 0 <= i < |es| ==> Absent(Deleted(s, es[i].find), es[i].find) then Skipped else Refused
  {
    AppliedExactly(s, es);
    CarriedIsNotApplied(Result(s, es), es, 0);
  }

  /** ROUND TRIP: undoing the edits restores the source, so nothing else was touched. */
  lemma AppliedIsReversible(s: string, es: seq<Edit>)
    requires NonInterfering(es) && NonEmpty(es) && Outcomes(s, es).Applied?
    ensures Undo(Result(s, es), es) == s
  {
    UnpatchedMeans(s, es);
    assert es[..|es|] == es;
    EditsUndone(s, es, |es|);
  }

  /** `f` with another `f` in its middle, between `a` and `c`. */
  function BrokenCopy(f: string, a: string, c: string, k: nat): string
    requires k <= |f|
  {
    a + (f[..k] + f + f[k..]) + c
  }

  lemma JoinsUp(f: string, a: string, c: string, k: nat)
    requires k <= |f|
    ensures Occ((a + f[..k]) + (f[k..] + c), f, |a|)
  {
    var cut := (a + f[..k]) + (f[k..] + c);
    assert cut == a + (f[..k] + f[k..]) + c && f[..k] + f[k..] == f;
    assert cut[|a|..|a| + |f|] == f;
  }

  /** Cutting a text out of a broken copy of itself joins the copy up. */
  lemma CutJoins(f: string, a: string, c: string, k: nat)
    requires 0 < k < |f| && Once(BrokenCopy(f, a, c, k), f)
    ensures !Absent(Deleted(BrokenCopy(f, a, c, k), f), f)
  {
    var s := BrokenCopy(f, a, c, k);
    assert s == (a + f[..k]) + f + (f[k..] + c);
    CutAt(s, f, a + f[..k], f[k..] + c);
    JoinsUp(f, a, c, k);
  }

  /**
   * The failing sources, for any edits: where a find the script replaces stands inside a broken copy of
   * itself, cutting it out joins the copy up, and the patched tree reads as not applied.
   */
  lemma BrokenCopyReadsUnapplied(es: seq<Edit>, m: nat, a: string, c: string, k: nat)
    requires NonInterfering(es) && NonEmpty(es) && m < |es| && 0 < k < |es[m].find|
    requires Outcomes(BrokenCopy(es[m].find, a, c, k), es).Applied?
    ensures !IsApplied(Some(Result(BrokenCopy(es[m].find, a, c, k), es)), es)
  {
    var s := BrokenCopy(es[m].find, a, c, k);
    UnpatchedMeans(s, es);
    CutJoins(es[m].find, a, c, k);
    AppliedExactly(s, es);
  }

  /** Between nothing, a broken copy holds its text once: any other occurrence would overlap that one. */
  lemma BrokenCopyHoldsOne(f: string, k: nat)
    requires Unbordered(f) && 0 < k < |f|
    ensures Once(BrokenCopy(f, "", "", k), f)
  {
    var s := BrokenCopy(f, "", "", k);
    assert s[k..k + |f|] == f;
    assert Occ(s, f, k);
    forall i | Occ(s, f, i) ensures i == k {
      if i < k {
        SelfDisjoint(s, f, i, k);
      } else if k < i {
        SelfDisjoint(s, f, k, i);
      }
    }
    assert OnceAt(s, f, k);
  }

  lemma SingleEditApplies(s: string, e: Edit)
    requires Unbordered(e.find) && Unbordered(e.replace) && Once(s, e.find) && Absent(s, e.replace)
    ensures NonInterfering([e]) && NonEmpty([e]) && Outcomes(s, [e]).Applied?
  {
    CountOne(s, e.find);
    CountZero(s, e.replace);
    RemovedAbsent(s, e.replace);
  }

  /**
   * And every find of two characters or more has such a source: an edit with it is applied there, and the
   * tree it leaves reads as not applied.
   */
  lemma NestedFindReadsUnapplied(e: Edit, k: nat)
    requires Unbordered(e.find) && 0 < k < |e.find|
    requires Unbordered(e.replace) && Absent(BrokenCopy(e.find, "", "", k), e.replace)
    ensures var s := BrokenCopy(e.find, "", "", k);
            NonInterfering([e]) && NonEmpty([e])
            && Outcomes(s, [e]).Applied? && !IsApplied(Some(Result(s, [e])), [e])
  {
    BrokenCopyHoldsOne(e.find, k);
    SingleEditApplies(BrokenCopy(e.find, "", "", k), e);
    assert [e][0] == e;
    BrokenCopyReadsUnapplied([e], 0, "", "", k);
  }

  // ---------------------------------------------------------------- the script

  class Script {
    const edits: seq<Edit>
    /** The target file, None when it is missing. */
    var file: Option<string>

    constructor (file: Option<string>, edits: seq<Edit>)
      ensures this.file == file && this.edits == edits
    {
      this.file := file;
      this.edits := edits;
    }

    /** One write, after every count has agreed; a refused or skipped run leaves the file as it was. */
    method ApplyReadySyncPatch() returns (r: Outcome)
      requires NonEmpty(edits)
      modifies this
      ensures r == if old(file).None? then Refused else Outcomes(old(file).value, edits)
      ensures !r.Applied? ==> file == old(file)
      ensures r.Applied? ==> file == Some(Result(old(file).value, edits))
    {
      if file.None? { return Refused; }
      var source := file.value;
      if Counts(source, edits, 0, 1) { return Skipped; }
      if Counts(source, edits, 1, 0) {
        for i := 0 to |edits|
          invariant source == ApplyEdits(old(file).value, edits[..i]) && file == old(file)
        {
          assert edits[..i + 1][..i] == edits[..i];
          source := ReplaceFirst(source, edits[i].find, edits[i].replace);
        }
        assert edits[..|edits|] == edits;
        file := Some(source);
        return Applied;
      }
      r := Refused;
    }
  }
}
