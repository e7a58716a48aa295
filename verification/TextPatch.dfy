/**
 * Exact-text patching of a dependency's source: each edit's `find` must occur exactly once and its
 * `replace` not at all, or the other way round; anything else is refused.
 *
 * The scripts only ever count: an occurrence count is the number of pieces JavaScript's split yields,
 * less one. The proofs are about positions, and the first section connects the two.
 */
module TextPatch {
  import opened Wrappers

  // ---------------------------------------------------------------- occurrences

  predicate Occ(s: string, x: string, i: int) {
    0 <= i && i + |x| <= |s| && s[i..i + |x|] == x
  }

  ghost predicate Absent(s: string, x: string) {
    forall i :: !Occ(s, x, i)
  }

  ghost predicate OnceAt(s: string, x: string, i: int) {
    Occ(s, x, i) && forall j :: Occ(s, x, j) ==> j == i
  }

  ghost predicate Once(s: string, x: string) {
    exists i :: OnceAt(s, x, i)
  }

  /** Index of the first occurrence at or after `from`. */
  function IndexFrom(s: string, x: string, from: nat): (r: Option<nat>)
    requires from <= |s|
    ensures r.Some? ==> from <= r.value && Occ(s, x, r.value)
    ensures r.Some? ==> forall j :: from <= j < r.value ==> !Occ(s, x, j)
    ensures r.None? ==> forall j :: from <= j ==> !Occ(s, x, j)
    decreases |s| - from
  {
    if from + |x| > |s| then None
    else if s[from..from + |x|] == x then Some(from)
    else IndexFrom(s, x, from + 1)
  }

  function Split(s: string, x: string): (parts: seq<string>)
    requires x != ""
    ensures |parts| >= 1
    decreases |s|
  {
    match IndexFrom(s, x, 0)
    case None => [s]
    case Some(i) => [s[..i]] + Split(s[i + |x|..], x)
  }

  function Occurrences(s: string, x: string): nat
    requires x != ""
  {
    |Split(s, x)| - 1
  }

  function Join(parts: seq<string>): string {
    if parts == [] then "" else parts[0] + Join(parts[1..])
  }

  /** JavaScript's replace with a text pattern: the first occurrence only. */
  function ReplaceFirst(s: string, x: string, y: string): string {
    match IndexFrom(s, x, 0)
    case None => s
    case Some(i) => s[..i] + y + s[i + |x|..]
  }

  function Removed(s: string, x: string): string
    requires x != ""
  {
    Join(Split(s, x))
  }

  /** No proper prefix of the text is also a suffix of it, so two occurrences never overlap. */
  ghost predicate Unbordered(x: string) {
    x != "" && forall n :: 0 < n < |x| ==> x[..n] != x[|x| - n..]
  }

  /** Neither text contains the other or begins where the other ends. */
  ghost predicate Apart(x: string, y: string) {
    && x != "" && y != ""
    && Absent(x, y) && Absent(y, x)
    && (forall n :: 0 < n <= |x| && n <= |y| ==> x[..n] != y[|y| - n..])
    && (forall n :: 0 < n <= |x| && n <= |y| ==> y[..n] != x[|x| - n..])
  }

  lemma ApartSymmetric(x: string, y: string)
    requires Apart(x, y)
    ensures Apart(y, x)
  {
  }

  lemma OccAppend(a: string, b: string, x: string, i: int)
    requires Occ(b, x, i)
    ensures Occ(a + b, x, |a| + i)
  {
    assert (a + b)[|a| + i..|a| + i + |x|] == b[i..i + |x|];
  }

  /** An occurrence inside an occurrence is containment. */
  lemma OccWithin(s: string, x: string, y: string, i: int, j: int)
    requires Occ(s, x, i) && Occ(s, y, j) && i <= j && j + |y| <= i + |x|
    ensures Occ(x, y, j - i)
  {
    forall m | 0 <= m < |y| ensures x[j - i + m] == y[m] {
      assert x[j - i + m] == s[i..i + |x|][j - i + m] && y[m] == s[j..j + |y|][m];
    }
    assert x[j - i..j - i + |y|] == y;
  }

  /** Two occurrences that partly overlap share a border. */
  lemma OverlapIsBorder(s: string, x: string, y: string, i: int, j: int)
    requires Occ(s, x, i) && Occ(s, y, j) && i <= j < i + |x| <= j + |y|
    ensures var n := i + |x| - j; y[..n] == x[|x| - n..]
  {
    var n := i + |x| - j;
    forall m | 0 <= m < n ensures y[m] == x[|x| - n + m] {
      assert y[m] == s[j..j + |y|][m] == s[j + m];
      assert x[|x| - n + m] == s[i..i + |x|][|x| - n + m] == s[j + m];
    }
  }

  /** Occurrences of two apart texts are disjoint. */
  lemma DisjointAhead(s: string, x: string, y: string, i: int, j: int)
    requires Apart(x, y) && Occ(s, x, i) && Occ(s, y, j) && i <= j
    ensures i + |x| <= j
  {
    if j < i + |x| {
      if j + |y| <= i + |x| {
        OccWithin(s, x, y, i, j);
      } else {
        OverlapIsBorder(s, x, y, i, j);
      }
    }
  }

  lemma Disjoint(s: string, x: string, y: string, i: int, j: int)
    requires Apart(x, y) && Occ(s, x, i) && Occ(s, y, j)
    ensures i + |x| <= j || j + |y| <= i
  {
    if i <= j {
      DisjointAhead(s, x, y, i, j);
    } else {
      ApartSymmetric(x, y);
      DisjointAhead(s, y, x, j, i);
    }
  }

  lemma SelfDisjoint(s: string, x: string, i: int, j: int)
    requires Unbordered(x) && Occ(s, x, i) && Occ(s, x, j) && i < j
    ensures i + |x| <= j
  {
    if j < i + |x| {
      OverlapIsBorder(s, x, x, i, j);
    }
  }

  // ---------------------------------------------------------------- counts and positions

  lemma CountZero(s: string, x: string)
    requires x != ""
    ensures Occurrences(s, x) == 0 <==> Absent(s, x)
  {
    if IndexFrom(s, x, 0).Some? {
      assert |Split(s[IndexFrom(s, x, 0).value + |x|..], x)| >= 1;
    }
  }

  /** A later occurrence of an unbordered text lies wholly in what follows the first. */
  lemma LaterInTail(s: string, x: string, i: int, j: int)
    requires Unbordered(x) && Occ(s, x, i) && Occ(s, x, j) && i < j
    ensures !Absent(s[i + |x|..], x)
  {
    SelfDisjoint(s, x, i, j);
    var k := j - i - |x|;
    assert s[i + |x|..][k..k + |x|] == s[j..j + |x|];
    assert Occ(s[i + |x|..], x, k);
  }

  lemma CountOne(s: string, x: string)
    requires Unbordered(x)
    ensures Occurrences(s, x) == 1 <==> Once(s, x)
  {
    match IndexFrom(s, x, 0)
    case None =>
    case Some(i) =>
      var tail := s[i + |x|..];
      CountZero(tail, x);
      forall j | Occ(s, x, j) && i < j ensures !Absent(tail, x) {
        LaterInTail(s, x, i, j);
      }
      if Absent(tail, x) {
        assert OnceAt(s, x, i);
      } else {
        var k :| Occ(tail, x, k);
        assert s == s[..i + |x|] + tail;
        OccAppend(s[..i + |x|], tail, x, k);
        assert forall m :: OnceAt(s, x, m) ==> m == i && m == i + |x| + k;
      }
  }

  lemma FirstIsOnly(s: string, x: string, i: int)
    requires OnceAt(s, x, i)
    ensures IndexFrom(s, x, 0) == Some(i)
  {
  }

  /** Removing a text that occurs once is cutting it out; removing an absent one changes nothing. */
  lemma RemovedOnce(s: string, x: string, i: int)
    requires Unbordered(x) && OnceAt(s, x, i)
    ensures Removed(s, x) == s[..i] + s[i + |x|..]
  {
    FirstIsOnly(s, x, i);
    CountOne(s, x);
    var rest := Split(s[i + |x|..], x);
    assert |rest| == 1;
    assert rest == [s[i + |x|..]];
    assert ([s[..i]] + rest)[1..] == rest;
    assert Join(rest) == s[i + |x|..] + Join(rest[1..]);
  }

  lemma RemovedAbsent(s: string, x: string)
    requires x != "" && Absent(s, x)
    ensures Removed(s, x) == s
  {
    assert Split(s, x) == [s];
    assert Join([s]) == s + Join([s][1..]);
  }

  // ---------------------------------------------------------------- one replacement among other texts

  /** Where an occurrence outside the replaced text ends up. */
  function Shift(p: string, f: string, r: string, x: string, i: int): int {
    if i + |x| <= |p| then i else i + |r| - |f|
  }

  /** An occurrence wholly outside the replaced text survives the replacement. */
  lemma Outside(p: string, f: string, r: string, q: string, x: string, i: int)
    requires Occ(p + f + q, x, i) && (i + |x| <= |p| || i >= |p| + |f|)
    requires x != ""
    ensures Occ(p + r + q, x, Shift(p, f, r, x, i))
  {
    var s, k := p + f + q, Shift(p, f, r, x, i);
    forall m | 0 <= m < |x| ensures (p + r + q)[k + m] == x[m] {
      assert s[i..i + |x|][m] == s[i + m];
    }
    assert (p + r + q)[k..k + |x|] == x;
  }

  /** ... and an occurrence of a text apart from the replaced one is always outside it. */
  lemma Survives(p: string, f: string, r: string, q: string, x: string, i: int)
    requires Apart(x, f) && Occ(p + f + q, x, i)
    ensures i + |x| <= |p| || i >= |p| + |f|
    ensures Occ(p + r + q, x, Shift(p, f, r, x, i))
  {
    assert (p + f + q)[|p|..|p| + |f|] == f;
    Disjoint(p + f + q, x, f, i, |p|);
    Outside(p, f, r, q, x, i);
  }

  /** Replacing `f` by `r` neither creates nor destroys occurrences of a text apart from both. */
  lemma Transport(p: string, f: string, r: string, q: string, x: string)
    requires Apart(x, f) && Apart(x, r)
    ensures Absent(p + f + q, x) <==> Absent(p + r + q, x)
    ensures Once(p + f + q, x) ==> Once(p + r + q, x)
  {
    if !Absent(p + f + q, x) {
      var i :| Occ(p + f + q, x, i);
      Survives(p, f, r, q, x, i);
    }
    if !Absent(p + r + q, x) {
      var i :| Occ(p + r + q, x, i);
      Survives(p, r, f, q, x, i);
    }
    if Once(p + f + q, x) {
      var i :| OnceAt(p + f + q, x, i);
      Survives(p, f, r, q, x, i);
      forall j | Occ(p + r + q, x, j) ensures j == Shift(p, f, r, x, i) {
        Survives(p, r, f, q, x, j);
      }
      assert OnceAt(p + r + q, x, Shift(p, f, r, x, i));
    }
  }

  /** The replacement text itself ends up occurring exactly once, even where it contains its find. */
  lemma ReplacementLands(p: string, f: string, r: string, q: string)
    requires f != "" && Unbordered(r) && Absent(p + f + q, r)
    ensures OnceAt(p + r + q, r, |p|)
  {
    var t := p + r + q;
    assert t[|p|..|p| + |r|] == r;
    forall j | Occ(t, r, j) ensures j == |p| {
      if j < |p| {
        SelfDisjoint(t, r, j, |p|);
        Outside(p, r, f, q, r, j);
      } else if j > |p| {
        SelfDisjoint(t, r, |p|, j);
        Outside(p, r, f, q, r, j);
      }
    }
  }

  // ---------------------------------------------------------------- edits

  datatype Edit = Edit(find: string, replace: string)

  /** Every text of one edit is apart from every text of the other. */
  ghost predicate Separate(a: Edit, b: Edit) {
    && Apart(a.find, b.find) && Apart(a.find, b.replace)
    && Apart(a.replace, b.find) && Apart(a.replace, b.replace)
  }

  /** No text overlaps itself, and different edits' texts are apart. An edit's own two texts may nest. */
  ghost predicate NonInterfering(es: seq<Edit>) {
    && (forall i :: 0 <= i < |es| ==> Unbordered(es[i].find) && Unbordered(es[i].replace))
    && (forall i, j :: 0 <= i < |es| && 0 <= j < |es| && i != j ==> Separate(es[i], es[j]))
  }

  ghost predicate Unpatched(s: string, e: Edit) {
    Once(s, e.find) && Absent(s, e.replace)
  }

  function ApplyEdits(s: string, es: seq<Edit>): string {
    if es == [] then s
    else ReplaceFirst(ApplyEdits(s, es[..|es| - 1]), es[|es| - 1].find, es[|es| - 1].replace)
  }

  /** A text that occurs once splits the source around it, and the replacement keeps both sides. */
  lemma EditSplits(s: string, f: string, r: string) returns (p: string, q: string)
    requires Once(s, f)
    ensures s == p + f + q && OnceAt(s, f, |p|)
    ensures ReplaceFirst(s, f, r) == p + r + q
  {
    var i :| OnceAt(s, f, i);
    FirstIsOnly(s, f, i);
    p, q := s[..i], s[i + |f|..];
    assert s == s[..i] + s[i..i + |f|] + s[i + |f|..];
  }

  /** Applying one edit leaves every separate edit exactly as it found it. */
  lemma EditKeeps(s: string, e: Edit, x: string)
    requires Once(s, e.find) && Apart(x, e.find) && Apart(x, e.replace)
    ensures Absent(s, x) <==> Absent(ReplaceFirst(s, e.find, e.replace), x)
    ensures Once(s, x) <==> Once(ReplaceFirst(s, e.find, e.replace), x)
  {
    var p, q := EditSplits(s, e.find, e.replace);
    Transport(p, e.find, e.replace, q, x);
    Transport(p, e.replace, e.find, q, x);
  }

  lemma EditLands(s: string, e: Edit)
    requires Unpatched(s, e) && e.find != "" && Unbordered(e.replace)
    ensures Once(ReplaceFirst(s, e.find, e.replace), e.replace)
  {
    var p, q := EditSplits(s, e.find, e.replace);
    ReplacementLands(p, e.find, e.replace, q);
  }

  /** ROUND TRIP: replacing back restores the source byte for byte, so an edit changed nothing else. */
  lemma EditUndone(s: string, e: Edit)
    requires Unpatched(s, e) && e.find != "" && Unbordered(e.replace)
    ensures ReplaceFirst(ReplaceFirst(s, e.find, e.replace), e.replace, e.find) == s
  {
    var p, q := EditSplits(s, e.find, e.replace);
    ReplacementLands(p, e.find, e.replace, q);
    FirstIsOnly(p + e.replace + q, e.replace, |p|);
    assert (p + e.replace + q)[..|p|] == p;
    assert (p + e.replace + q)[|p| + |e.replace|..] == q;
  }

  function Undo(s: string, es: seq<Edit>): string
    decreases |es|
  {
    if es == [] then s
    else Undo(ReplaceFirst(s, es[|es| - 1].replace, es[|es| - 1].find), es[..|es| - 1])
  }

  /** From the `k`th on, the edits are still to be applied. */
  ghost predicate LaterUnpatched(t: string, es: seq<Edit>, k: nat) {
    forall i :: k <= i < |es| ==> Unpatched(t, es[i])
  }

  /** The replacements of the first `k` edits stand once each. */
  ghost predicate EarlierStanding(t: string, es: seq<Edit>, k: nat)
    requires k <= |es|
  {
    forall i :: 0 <= i < k ==> Once(t, es[i].replace)
  }

  lemma KeepsUnpatched(t: string, e: Edit, other: Edit)
    requires Unpatched(t, e) && Unpatched(t, other) && Separate(other, e)
    ensures Unpatched(ReplaceFirst(t, e.find, e.replace), other)
  {
    EditKeeps(t, e, other.find);
    EditKeeps(t, e, other.replace);
  }

  /** One edit: it lands, and the separate ones stay as they were. */
  lemma EditProgresses(t: string, es: seq<Edit>, k: nat)
    requires NonInterfering(es) && k < |es| && LaterUnpatched(t, es, k) && EarlierStanding(t, es, k)
    ensures LaterUnpatched(ReplaceFirst(t, es[k].find, es[k].replace), es, k + 1)
    ensures EarlierStanding(ReplaceFirst(t, es[k].find, es[k].replace), es, k + 1)
  {
    var e := es[k];
    EditLands(t, e);
    forall i | k < i < |es| ensures Unpatched(ReplaceFirst(t, e.find, e.replace), es[i]) {
      assert Separate(es[i], e);
      KeepsUnpatched(t, e, es[i]);
    }
    forall i | 0 <= i < k ensures Once(ReplaceFirst(t, e.find, e.replace), es[i].replace) {
      assert Separate(es[i], e);
      EditKeeps(t, e, es[i].replace);
    }
  }

  /** Applying the first `k` edits leaves the later ones untouched and their own replacements in place. */
  lemma {:induction false} EditsProgress(s: string, es: seq<Edit>, k: nat)
    requires NonInterfering(es) && k <= |es| && LaterUnpatched(s, es, 0)
    ensures LaterUnpatched(ApplyEdits(s, es[..k]), es, k)
    ensures EarlierStanding(ApplyEdits(s, es[..k]), es, k)
    decreases k
  {
    if k == 0 {
      assert es[..0] == [];
    } else {
      EditsProgress(s, es, k - 1);
      ApplySnoc(s, es, k - 1);
      EditProgresses(ApplyEdits(s, es[..k - 1]), es, k - 1);
    }
  }

  lemma ApplySnoc(s: string, es: seq<Edit>, k: nat)
    requires k < |es|
    ensures ApplyEdits(s, es[..k + 1]) == ReplaceFirst(ApplyEdits(s, es[..k]), es[k].find, es[k].replace)
  {
    assert es[..k + 1][..k] == es[..k];
  }

  /** Undoing the first `k` applied edits, last first, restores the source. */
  ghost predicate Undone(s: string, es: seq<Edit>, k: nat)
    requires k <= |es|
  {
    Undo(ApplyEdits(s, es[..k]), es[..k]) == s
  }

  lemma UndoSnoc(t: string, es: seq<Edit>, k: nat)
    requires k < |es|
    ensures Undo(t, es[..k + 1]) == Undo(ReplaceFirst(t, es[k].replace, es[k].find), es[..k])
  {
    assert es[..k + 1][..k] == es[..k];
  }

  lemma UndoneNext(s: string, es: seq<Edit>, k: nat)
    requires k < |es| && Undone(s, es, k) && es[k].find != "" && Unbordered(es[k].replace)
    requires Unpatched(ApplyEdits(s, es[..k]), es[k])
    ensures Undone(s, es, k + 1)
  {
    ApplySnoc(s, es, k);
    EditUndone(ApplyEdits(s, es[..k]), es[k]);
    UndoSnoc(ApplyEdits(s, es[..k + 1]), es, k);
  }

  /** Undoing a whole list of applied edits, last first, restores the source. */
  lemma {:induction false} EditsUndone(s: string, es: seq<Edit>, k: nat)
    requires NonInterfering(es) && k <= |es| && LaterUnpatched(s, es, 0)
    ensures Undone(s, es, k)
    decreases k
  {
    if k == 0 {
      assert es[..0] == [];
    } else {
      EditsUndone(s, es, k - 1);
      EditsProgress(s, es, k - 1);
      UndoneNext(s, es, k - 1);
    }
  }

  /** The first `k` edits leave the occurrences of `x` as they were. */
  ghost predicate Kept(s: string, es: seq<Edit>, k: nat, x: string)
    requires k <= |es|
  {
    && (Absent(s, x) <==> Absent(ApplyEdits(s, es[..k]), x))
    && (Once(s, x) <==> Once(ApplyEdits(s, es[..k]), x))
  }

  lemma KeptNext(s: string, es: seq<Edit>, k: nat, x: string)
    requires k < |es| && Kept(s, es, k, x) && Unpatched(ApplyEdits(s, es[..k]), es[k])
    requires Apart(x, es[k].find) && Apart(x, es[k].replace)
    ensures Kept(s, es, k + 1, x)
  {
    ApplySnoc(s, es, k);
    EditKeeps(ApplyEdits(s, es[..k]), es[k], x);
  }

  /** Applying edits leaves the occurrences of any text apart from all of them as they were. */
  lemma {:induction false} EditsKeep(s: string, es: seq<Edit>, k: nat, x: string)
    requires NonInterfering(es) && k <= |es| && LaterUnpatched(s, es, 0)
    requires forall i :: 0 <= i < |es| ==> Apart(x, es[i].find) && Apart(x, es[i].replace)
    ensures Kept(s, es, k, x)
    decreases k
  {
    if k == 0 {
      assert es[..0] == [];
    } else {
      EditsKeep(s, es, k - 1, x);
      EditsProgress(s, es, k - 1);
      KeptNext(s, es, k - 1, x);
    }
  }
}
