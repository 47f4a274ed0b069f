/**
 * The freshness signature: the sum of the modification times of every
 * entry of the theme's `scss/` listing whose name mentions `.scss` or
 * `.css`, plus that of the parent's `scss/bootstrap/bootstrap.scss`.
 */
module Freshness {
  import opened Wrappers
  import opened Strings

  /** One entry of the directory listing: its name and its modification time. */
  type Entry = (string, int)
  type Listing = seq<Entry>

  /** The entry takes part in the signature: its name contains `.scss` or `.css`. */
  predicate IsTracked(name: string)
    ensures IsTracked(name) <==>
      (exists i :: OccursAt(name, ".scss", i)) || (exists i :: OccursAt(name, ".css", i))
  {
    StrPos(name, ".scss") != None || StrPos(name, ".css") != None
  }

  function Contribution(e: Entry): int
  {
    if IsTracked(e.0) then e.1 else 0
  }

  /** The sum of the tracked entries' modification times (specification of the loop). */
  function TrackedSum(listing: Listing): int
  {
    if listing == [] then 0
    else TrackedSum(listing[..|listing| - 1]) + Contribution(listing[|listing| - 1])
  }

  /** The freshness signature of a listing, given the bootstrap entry's modification time. */
  function Signature(listing: Listing, bootstrapMtime: int): int
  {
    TrackedSum(listing) + bootstrapMtime
  }

  /** The fold the compiler runs over the `scss/` listing. */
  method LastModifiedScss(listing: Listing, bootstrapMtime: int) returns (total: int)
    ensures total == Signature(listing, bootstrapMtime)
  {
    total := 0;
    for i := 0 to |listing|
      invariant total == TrackedSum(listing[..i])
    {
      assert listing[..i + 1][..i] == listing[..i];
      var (name, mtime) := listing[i];
      if StrPos(name, ".scss") != None || StrPos(name, ".css") != None {
        total := total + mtime;
      }
    }
    assert listing[..|listing|] == listing;
    total := total + bootstrapMtime;
  }

  /** The signature of a concatenated listing is the sum of the parts'. */
  lemma {:induction false} TrackedSumAppend(a: Listing, b: Listing)
    ensures TrackedSum(a + b) == TrackedSum(a) + TrackedSum(b)
    decreases |b|
  {
    if b == [] {
      assert a + b == a;
    } else {
      var b' := b[..|b| - 1];
      assert (a + b)[..|a + b| - 1] == a + b';
      TrackedSumAppend(a, b');
    }
  }

  /** An entry whose name mentions neither `.scss` nor `.css` contributes nothing, wherever it stands. */
  lemma {:induction false} UntrackedContributesNothing(a: Listing, e: Entry, b: Listing)
    requires !IsTracked(e.0)
    ensures TrackedSum(a + [e] + b) == TrackedSum(a + b)
  {
    TrackedSumAppend(a + [e], b);
    TrackedSumAppend(a, [e]);
    TrackedSumAppend(a, b);
    assert TrackedSum([e]) == TrackedSum([]) + Contribution(e);
  }

  /**
   * The listing `after` has the same names as `before`, and no tracked
   * entry got older (untracked entries may change freely).
   */
  ghost predicate NoTrackedEntryOlder(before: Listing, after: Listing)
  {
    && |before| == |after|
    && forall i :: 0 <= i < |before| ==>
         after[i].0 == before[i].0 && (IsTracked(before[i].0) ==> before[i].1 <= after[i].1)
  }

  /** The signature never decreases while no tracked file gets older. */
  lemma {:induction false} SignatureMonotone(before: Listing, after: Listing, bootstrapMtime: int)
    requires NoTrackedEntryOlder(before, after)
    ensures Signature(before, bootstrapMtime) <= Signature(after, bootstrapMtime)
    decreases |before|
  {
    if before != [] {
      var n := |before| - 1;
      assert NoTrackedEntryOlder(before[..n], after[..n]);
      SignatureMonotone(before[..n], after[..n], bootstrapMtime);
    }
  }

  /** Touching one tracked file (a later modification time) strictly advances the signature. */
  lemma {:induction false} TouchAdvancesSignature(listing: Listing, k: nat, mtime: int, bootstrapMtime: int)
    requires k < |listing| && IsTracked(listing[k].0) && mtime > listing[k].1
    ensures Signature(listing[k := (listing[k].0, mtime)], bootstrapMtime) > Signature(listing, bootstrapMtime)
  {
    var touched := listing[k := (listing[k].0, mtime)];
    var a, b := listing[..k], listing[k + 1..];
    assert listing == a + [listing[k]] + b;
    assert touched == a + [touched[k]] + b;
    TrackedSumAppend(a + [listing[k]], b);
    TrackedSumAppend(a, [listing[k]]);
    TrackedSumAppend(a + [touched[k]], b);
    TrackedSumAppend(a, [touched[k]]);
    assert TrackedSum([listing[k]]) == TrackedSum([]) + Contribution(listing[k]);
    assert TrackedSum([touched[k]]) == TrackedSum([]) + Contribution(touched[k]);
  }
}
