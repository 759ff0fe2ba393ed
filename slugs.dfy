/** Video.save's slug generation: a blank slug becomes slugify(title), and while
    that slug is already stored, `base-1`, `base-2`, ... are tried in turn.
    Django's slugify itself is not modelled: callers pass its result as `base`. */
module Slugs {
  import opened Text
  import opened Seqs

  /** The k-th slug the loop tries: the base itself, then f"{base}-{k}". */
  function Candidate(base: string, k: nat): string
  {
    if k == 0 then base else base + "-" + NatStr(k)
  }

  /** Different attempts never produce the same slug. */
  lemma CandidateInjective(base: string, a: nat, b: nat)
    requires Candidate(base, a) == Candidate(base, b)
    ensures a == b
  {
    if a != 0 && b != 0 {
      var ca, cb := Candidate(base, a), Candidate(base, b);
      assert NatStr(a) == ca[|base| + 1..];
      assert NatStr(b) == cb[|base| + 1..];
      NatStrInjective(a, b);
    }
  }

  /** r is what the loop settles on: the first candidate that is not taken. */
  ghost predicate IsChosen(base: string, taken: set<string>, r: string)
  {
    exists k: nat :: r == Candidate(base, k) && r !in taken
      && forall j :: 0 <= j < k ==> Candidate(base, j) in taken
  }

  /** The loop's outcome is determined by the base and the stored slugs. */
  lemma ChosenIsUnique(base: string, taken: set<string>, r1: string, r2: string)
    requires IsChosen(base, taken, r1) && IsChosen(base, taken, r2)
    ensures r1 == r2
  {
    var k1: nat :| r1 == Candidate(base, k1) && r1 !in taken
      && forall j :: 0 <= j < k1 ==> Candidate(base, j) in taken;
    var k2: nat :| r2 == Candidate(base, k2) && r2 !in taken
      && forall j :: 0 <= j < k2 ==> Candidate(base, j) in taken;
  }

  /** The `while Video.objects.filter(slug=self.slug).exists()` loop: returns the
      base when it is free, else base-k for the least k >= 1 that is free. */
  method AllocateSlug(base: string, taken: set<string>) returns (slug: string)
    ensures slug !in taken
    ensures IsChosen(base, taken, slug)
  {
    slug := base;
    var counter: nat := 1;
    ghost var tried: set<string> := {};
    while slug in taken
      invariant counter >= 1
      invariant slug == Candidate(base, counter - 1)
      invariant forall j :: 0 <= j < counter - 1 ==> Candidate(base, j) in taken
      invariant tried <= taken
      invariant |tried| == counter - 1
      invariant forall t :: t in tried ==> exists j :: 0 <= j < counter - 1 && t == Candidate(base, j)
      decreases |taken| - |tried|
    {
      forall j | 0 <= j < counter - 1 ensures Candidate(base, j) != slug {
        if Candidate(base, j) == slug { CandidateInjective(base, j, counter - 1); }
      }
      assert slug !in tried;
      tried := tried + {slug};
      assert |tried| <= |taken| by { SubsetCardinality(tried, taken); }
      slug := base + "-" + NatStr(counter);
      counter := counter + 1;
    }
  }

  /** Video.save's slug step: a non-blank slug is kept as it is; a blank one is
      allocated from `base` (= slugify(title)) against the stored slugs. */
  method SaveSlug(current: string, base: string, stored: set<string>) returns (slug: string)
    ensures current != [] ==> slug == current
    ensures current == [] ==> slug !in stored && IsChosen(base, stored, slug)
  {
    if current != [] {
      slug := current;
    } else {
      slug := AllocateSlug(base, stored);
    }
  }

  /** The scenario of the model tests: a second "test-video" becomes "test-video-1". */
  lemma SecondTestVideo()
    ensures IsChosen("test-video", {"test-video"}, "test-video-1")
  {
    assert NatStr(1) == "1";
    assert Candidate("test-video", 1) == "test-video-1";
    assert Candidate("test-video", 0) in {"test-video"};
  }

  // ---------- re-saving a stored video ----------

  /** As written, a later save() of a stored video whose slug is blank runs the
      loop again, and the existence query also sees the video's own row (slug
      ""). For a title that slugifies to "" (such as "???") and no other video
      holding a slug, the stored slug "" becomes "-1". */
  lemma ResaveRenamesBlankSlug(r: string)
    requires IsChosen("", {""}, r)
    ensures r == "-1"
  {
    assert NatStr(1) == "1";
    assert Candidate("", 1) == "-1";
    assert Candidate("", 0) in {""};
    assert IsChosen("", {""}, "-1");
    ChosenIsUnique("", {""}, r, "-1");
  }

  /** A chosen slug is blank only when the base is blank. */
  lemma BlankChosenFromBlankBase(base: string, taken: set<string>)
    requires IsChosen(base, taken, "")
    ensures base == ""
  {
    var k: nat :| "" == Candidate(base, k);
  }

  /** The intended behaviour: with the video's own row excluded from the query,
      re-saving keeps a blank slug as it is (the blank slug was chosen because
      "" was free among the other videos, and it still is). */
  lemma ResaveExcludingSelfKeepsSlug(others: set<string>, r: string)
    requires "" !in others
    requires IsChosen("", others, r)
    ensures r == ""
  {
    assert IsChosen("", others, "") by {
      assert Candidate("", 0) == "";
    }
    ChosenIsUnique("", others, r, "");
  }
}
