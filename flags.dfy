/** Vectors of boolean flags, such as an object's layer membership or the
    selection state of the objects in a scene. */
module Flags {

  /** The flag vector of length n in which position k is set and every other
      position is clear. */
  function OnlyAt(n: nat, k: nat): seq<bool>
    requires k < n
  {
    seq(n, i => i == k)
  }

  /** The number of set flags in s. */
  function CountSet(s: seq<bool>): (r: nat)
    ensures r <= |s|
  {
    if s == [] then 0
    else CountSet(s[..|s| - 1]) + (if s[|s| - 1] then 1 else 0)
  }

  /** No flag is set exactly when the count is zero. */
  lemma {:induction false} CountSetZero(s: seq<bool>)
    ensures CountSet(s) == 0 <==> true !in s
  {
    if s != [] {
      var init := s[..|s| - 1];
      CountSetZero(init);
      assert s == init + [s[|s| - 1]];
    }
  }

  /** Exactly one flag is set in OnlyAt(n, k). */
  lemma {:induction false} CountSetOnlyAt(n: nat, k: nat)
    requires k < n
    ensures CountSet(OnlyAt(n, k)) == 1
  {
    var s := OnlyAt(n, k);
    var init := s[..n - 1];
    if k == n - 1 {
      CountSetZero(init);
    } else {
      assert init == OnlyAt(n - 1, k);
      CountSetOnlyAt(n - 1, k);
    }
  }

  /** A flag vector has exactly one flag set if and only if it is OnlyAt(|s|, k)
      for some position k. */
  lemma {:induction false} CountSetOne(s: seq<bool>)
    ensures CountSet(s) == 1 <==> exists k :: 0 <= k < |s| && s == OnlyAt(|s|, k)
  {
    if CountSet(s) == 1 {
      var k := OneSetPosition(s);
      assert s == OnlyAt(|s|, k);
    }
    if k :| 0 <= k < |s| && s == OnlyAt(|s|, k) {
      CountSetOnlyAt(|s|, k);
    }
  }

  /** The one set position of a vector with exactly one flag set. */
  lemma {:induction false} OneSetPosition(s: seq<bool>) returns (k: nat)
    requires CountSet(s) == 1
    ensures k < |s| && forall i :: 0 <= i < |s| ==> s[i] == (i == k)
  {
    var init := s[..|s| - 1];
    if s[|s| - 1] {
      CountSetZero(init);
      k := |s| - 1;
      forall i | 0 <= i < |s| - 1
        ensures !s[i]
      {
        assert s[i] == init[i];
      }
    } else {
      k := OneSetPosition(init);
      forall i | 0 <= i < |s| - 1
        ensures s[i] == (i == k)
      {
        assert s[i] == init[i];
      }
    }
  }
}
