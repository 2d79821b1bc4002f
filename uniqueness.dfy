/**
 * The probe loop shared by every `save` that de-duplicates a name or allocates
 * a slug: try `base`, then the suffixed forms 1, 2, 3, ... and keep the first
 * one no row in `taken` holds.  Titles and names are suffixed `" (N)"`, slugs
 * `"-N"`.
 */
module Uniqueness {
  import opened Text

  datatype Style = TitleStyle | SlugStyle

  /** The k-th candidate: `base` itself for k = 0, then `base (k)` or `base-k`. */
  function Candidate(style: Style, base: string, k: nat): string {
    if k == 0 then base
    else match style
      case TitleStyle => base + " (" + NatToString(k) + ")"
      case SlugStyle => base + "-" + NatToString(k)
  }

  /** Every candidate extends the base, so a non-empty base gives a non-empty candidate. */
  lemma CandidateExtendsBase(style: Style, base: string, k: nat)
    ensures StartsWith(Candidate(style, base, k), base)
    ensures |Candidate(style, base, k)| >= |base|
    ensures k > 0 ==> |Candidate(style, base, k)| > |base|
  {
  }

  /** No two probes of one loop are the same string: the loop cannot revisit a candidate. */
  lemma CandidateInjective(style: Style, base: string, j: nat, k: nat)
    requires Candidate(style, base, j) == Candidate(style, base, k)
    ensures j == k
  {
    var cj, ck := Candidate(style, base, j), Candidate(style, base, k);
    if j != 0 && k != 0 {
      var lead := if style == TitleStyle then base + " (" else base + "-";
      var tail := if style == TitleStyle then ")" else "";
      assert cj == lead + NatToString(j) + tail;
      assert ck == lead + NatToString(k) + tail;
      assert cj[|lead|..|cj| - |tail|] == NatToString(j);
      assert ck[|lead|..|ck| - |tail|] == NatToString(k);
      NatToStringInjective(j, k);
    }
  }

  /**
   * `r` is what the probe loop returns: the n-th candidate for some n, free,
   * and every earlier candidate is taken.
   */
  ghost predicate IsFirstFree(style: Style, base: string, taken: set<string>, r: string) {
    exists n: nat :: r == Candidate(style, base, n) && r !in taken &&
      forall j: nat :: j < n ==> Candidate(style, base, j) in taken
  }

  /**
   * The loop `while <candidate> in taken: candidate = base + suffix(counter); counter += 1`.
   * It terminates because each probed candidate is a distinct element of the
   * finite set `taken`.
   */
  method FirstFree(style: Style, base: string, taken: set<string>) returns (r: string)
    ensures IsFirstFree(style, base, taken, r)
    ensures r !in taken
  {
    r := base;
    var counter := 1;
    ghost var probed: set<string> := {};
    while r in taken
      invariant counter >= 1
      invariant r == Candidate(style, base, counter - 1)
      invariant forall j: nat :: j < counter - 1 ==> Candidate(style, base, j) in taken
      invariant probed == set j: nat | j < counter - 1 :: Candidate(style, base, j)
      invariant probed <= taken
      decreases taken - probed
    {
      if r in probed {
        var j: nat :| j < counter - 1 && Candidate(style, base, j) == r;
        CandidateInjective(style, base, j, counter - 1);
        assert false;
      }
      probed := probed + {r};
      r := Candidate(style, base, counter);
      counter := counter + 1;
      assert probed == set j: nat | j < counter - 1 :: Candidate(style, base, j);
    }
  }

  /** The first free candidate is unique: the loop's result is determined by base and taken. */
  lemma FirstFreeDeterministic(style: Style, base: string, taken: set<string>, r1: string, r2: string)
    requires IsFirstFree(style, base, taken, r1) && IsFirstFree(style, base, taken, r2)
    ensures r1 == r2
  {
    var n1: nat :| r1 == Candidate(style, base, n1) && r1 !in taken &&
      forall j: nat :: j < n1 ==> Candidate(style, base, j) in taken;
    var n2: nat :| r2 == Candidate(style, base, n2) && r2 !in taken &&
      forall j: nat :: j < n2 ==> Candidate(style, base, j) in taken;
    if n1 != n2 {
      assert n1 < n2 ==> Candidate(style, base, n1) in taken;
      assert n2 < n1 ==> Candidate(style, base, n2) in taken;
    }
  }

  /** A base nobody holds is kept verbatim (re-saving an unchanged row changes nothing). */
  lemma FirstFreeOfFreeBase(style: Style, base: string, taken: set<string>, r: string)
    requires IsFirstFree(style, base, taken, r)
    requires base !in taken
    ensures r == base
  {
    var n: nat :| r == Candidate(style, base, n) && r !in taken &&
      forall j: nat :: j < n ==> Candidate(style, base, j) in taken;
    assert Candidate(style, base, 0) == base;
  }

  /** The result is always some suffixed form of the base, so it extends it. */
  lemma FirstFreeExtendsBase(style: Style, base: string, taken: set<string>, r: string)
    requires IsFirstFree(style, base, taken, r)
    ensures StartsWith(r, base)
    ensures base != "" ==> r != ""
    ensures base in taken ==> r != base
  {
    var n: nat :| r == Candidate(style, base, n) && r !in taken &&
      forall j: nat :: j < n ==> Candidate(style, base, j) in taken;
    CandidateExtendsBase(style, base, n);
  }
}
