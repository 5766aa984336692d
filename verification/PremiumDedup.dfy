/** Dropping duplicate premium earnings with a loop that removes rows from the very list it is
    going through. */
module PremiumDedup {

  datatype Earning = Earning(id: nat, node: nat, premium: nat, transaction: nat)

  predicate SameClass(a: Earning, b: Earning) {
    a.node == b.node && a.premium == b.premium && a.transaction == b.transaction
  }

  predicate DistinctIds(all: seq<Earning>) {
    forall i, j :: 0 <= i < j < |all| ==> all[i].id != all[j].id
  }

  /** No earlier row is of the same class. */
  predicate IsFirst(all: seq<Earning>, k: int)
    requires 0 <= k < |all|
  {
    forall j :: 0 <= j < k ==> !SameClass(all[j], all[k])
  }

  /** The first row of every class, in the original order. */
  function Firsts(all: seq<Earning>): seq<Earning> {
    if all == [] then []
    else Firsts(all[..|all| - 1]) + if IsFirst(all, |all| - 1) then [all[|all| - 1]] else []
  }

  predicate HasClass(list: seq<Earning>, e: Earning) {
    exists i :: 0 <= i < |list| && SameClass(list[i], e)
  }

  lemma {:induction false} FirstsAreRows(all: seq<Earning>)
    ensures forall e :: e in Firsts(all) ==> e in all
  {
    if all != [] {
      FirstsAreRows(all[..|all| - 1]);
    }
  }

  /** No class is lost. */
  lemma {:induction false} FirstsHoldEveryClass(all: seq<Earning>, k: nat)
    requires k < |all|
    ensures HasClass(Firsts(all), all[k])
    decreases |all|, k
  {
    var front, n := all[..|all| - 1], |all| - 1;
    if k < n {
      FirstsHoldEveryClass(front, k);
      StillHasClass(Firsts(front), Firsts(all), front[k], all[k]);
    } else if IsFirst(all, n) {
      assert SameClass(Firsts(all)[|Firsts(all)| - 1], all[k]);
    } else {
      var j :| 0 <= j < n && SameClass(all[j], all[n]);
      FirstsHoldEveryClass(all, j);
      StillHasClass(Firsts(all), Firsts(all), all[j], all[k]);
    }
  }

  /** No class is there twice. */
  lemma {:induction false} FirstsHoldNoClassTwice(all: seq<Earning>, i: nat, j: nat)
    requires i < j < |Firsts(all)|
    ensures !SameClass(Firsts(all)[i], Firsts(all)[j])
  {
    var front, n := all[..|all| - 1], |all| - 1;
    if j < |Firsts(front)| {
      FirstsHoldNoClassTwice(front, i, j);
    } else {
      FirstsAreRows(front);
      assert Firsts(front)[i] in front;
      var k :| 0 <= k < n && front[k] == Firsts(front)[i];
      assert all[k] == front[k] && IsFirst(all, n);
    }
  }

  lemma StillHasClass(kept: seq<Earning>, firsts: seq<Earning>, a: Earning, b: Earning)
    requires HasClass(kept, a) && SameClass(a, b)
    requires |kept| <= |firsts| && forall i :: 0 <= i < |kept| ==> firsts[i] == kept[i]
    ensures HasClass(firsts, b)
  {
    var i :| 0 <= i < |kept| && SameClass(kept[i], a);
    assert SameClass(firsts[i], b);
  }

  /** An earlier earning of the same farmer, for the same premium and transaction. */
  ghost predicate EarnedBefore(all: seq<Earning>, k: int)
    requires 0 <= k < |all|
  {
    exists j :: 0 <= j < k && (all[j].node, all[j].premium, all[j].transaction)
                              == (all[k].node, all[k].premium, all[k].transaction)
  }

  lemma IsFirstExactly(all: seq<Earning>, k: nat)
    requires k < |all|
    ensures IsFirst(all, k) <==> !EarnedBefore(all, k)
  {
    assert forall j :: 0 <= j < k ==>
      (SameClass(all[j], all[k]) <==> (all[j].node, all[j].premium, all[j].transaction)
                                      == (all[k].node, all[k].premium, all[k].transaction));
  }

  lemma EarnedBeforeInFront(all: seq<Earning>, k: nat)
    requires k < |all| - 1
    ensures EarnedBefore(all[..|all| - 1], k) <==> EarnedBefore(all, k)
  {
    assert forall j :: 0 <= j <= k ==> all[..|all| - 1][j] == all[j];
  }

  /** Exactly the earnings stay that nobody had for the same farmer, premium and transaction before. */
  lemma {:induction false} FirstsExactly(all: seq<Earning>, k: nat)
    requires DistinctIds(all) && k < |all|
    ensures all[k] in Firsts(all) <==> !EarnedBefore(all, k)
  {
    var front, n := all[..|all| - 1], |all| - 1;
    IsFirstExactly(all, n);
    FirstsAreRows(front);
    if k < n {
      FirstsExactly(front, k);
      EarnedBeforeInFront(all, k);
    }
  }

  lemma FirstsAreNew(all: seq<Earning>)
    requires DistinctIds(all)
    ensures forall k :: 0 <= k < |all| ==> (all[k] in Firsts(all) <==> !EarnedBefore(all, k))
  {
    forall k | 0 <= k < |all| ensures all[k] in Firsts(all) <==> !EarnedBefore(all, k) {
      FirstsExactly(all, k);
    }
  }

  /** The positions of the rows of a class, in query order. */
  function Members(all: seq<Earning>, e: Earning, n: nat): (ks: seq<nat>)
    requires n <= |all|
    ensures forall i :: 0 <= i < |ks| ==> ks[i] < n && SameClass(all[ks[i]], e)
    ensures forall i, j :: 0 <= i < j < |ks| ==> ks[i] < ks[j]
    ensures forall k :: 0 <= k < n && SameClass(all[k], e) ==> k in ks
  {
    if n == 0 then [] else Members(all, e, n - 1) + if SameClass(all[n - 1], e) then [n - 1] else []
  }

  // ----- lists as picks of positions -----

  ghost predicate Ascending(ks: seq<nat>, n: nat) {
    && (forall i :: 0 <= i < |ks| ==> ks[i] < n)
    && forall i, j :: 0 <= i < j < |ks| ==> ks[i] < ks[j]
  }

  /** The list holds the rows at the given positions. */
  ghost predicate Picks(all: seq<Earning>, ks: seq<nat>, list: seq<Earning>) {
    && Ascending(ks, |all|)
    && |list| == |ks|
    && forall i :: 0 <= i < |ks| ==> list[i] == all[ks[i]]
  }

  /** `list.remove(row)`, for a row that is there. */
  function Without(list: seq<Earning>, row: Earning): seq<Earning>
    requires row in list
  {
    if list[0] == row then list[1..] else [list[0]] + Without(list[1..], row)
  }

  lemma {:induction false} WithoutAt(list: seq<Earning>, i: nat)
    requires i < |list| && forall j :: 0 <= j < i ==> list[j] != list[i]
    ensures Without(list, list[i]) == list[..i] + list[i + 1..]
  {
    if i > 0 {
      WithoutAt(list[1..], i - 1);
    }
  }

  lemma RemovePick(all: seq<Earning>, ks: seq<nat>, list: seq<Earning>, i: nat)
    requires DistinctIds(all) && Picks(all, ks, list) && i < |ks|
    ensures all[ks[i]] in list
    ensures Picks(all, ks[..i] + ks[i + 1..], Without(list, all[ks[i]]))
    ensures forall k :: k in ks[..i] + ks[i + 1..] <==> k in ks && k != ks[i]
  {
    assert list[i] == all[ks[i]];
    forall j | 0 <= j < i ensures list[j] != list[i] {
      assert ks[j] < ks[i];
    }
    WithoutAt(list, i);
  }

  lemma {:induction false} AscendingFits(ks: seq<nat>, n: nat)
    requires Ascending(ks, n)
    ensures |ks| <= n
  {
    if ks != [] {
      AscendingFits(ks[..|ks| - 1], ks[|ks| - 1]);
    }
  }

  lemma {:induction false} PickedFirsts(all: seq<Earning>, ks: seq<nat>, list: seq<Earning>)
    requires Picks(all, ks, list)
    requires forall k :: k in ks <==> 0 <= k < |all| && IsFirst(all, k)
    ensures list == Firsts(all)
  {
    if all != [] {
      var front, n := all[..|all| - 1], |all| - 1;
      forall k | 0 <= k < n ensures IsFirst(front, k) <==> IsFirst(all, k) {
        assert forall j :: 0 <= j <= k ==> front[j] == all[j];
      }
      if IsFirst(all, n) {
        assert n in ks;
        var m := |ks| - 1;
        assert ks[m] == n;
        assert ks == ks[..m] + [n];
        PickedFirsts(front, ks[..m], list[..m]);
      } else {
        assert n !in ks;
        PickedFirsts(front, ks, list);
      }
    } else {
      AscendingFits(ks, 0);
    }
  }

  // ----- the loop -----

  /** Everything visited is the first row of its class, and the only one of it still listed; every
      row no longer listed is a later row of a class already visited. */
  ghost predicate Progress(all: seq<Earning>, ks: seq<nat>, i: nat) {
    && i <= |ks| && Ascending(ks, |all|)
    && (forall j :: 0 <= j < i ==> IsFirst(all, ks[j]))
    && (forall j :: 0 <= j < i ==> OnlyOne(all, ks, ks[j]))
    && (forall k :: 0 <= k < |all| && k !in ks ==> Dropped(all, ks, i, k))
  }

  /** No other row of the class of this one is listed. */
  ghost predicate OnlyOne(all: seq<Earning>, ks: seq<nat>, first: nat)
    requires first < |all|
  {
    forall k :: 0 <= k < |all| && SameClass(all[k], all[first]) && k != first ==> k !in ks
  }

  ghost predicate Dropped(all: seq<Earning>, ks: seq<nat>, i: nat, k: int)
    requires 0 <= k < |all| && i <= |ks| && Ascending(ks, |all|)
  {
    exists j :: 0 <= j < i && SameClass(all[k], all[ks[j]]) && k != ks[j]
  }

  lemma OneFirstPerClass(all: seq<Earning>, j: nat, k: nat)
    requires j < |all| && k < |all|
    ensures IsFirst(all, j) && IsFirst(all, k) && SameClass(all[j], all[k]) ==> j == k
  {}

  /** The row visited next is the first of its class, and all of its class is still listed. */
  lemma NextIsFirst(all: seq<Earning>, ks: seq<nat>, i: nat)
    requires Progress(all, ks, i) && i < |ks|
    ensures IsFirst(all, ks[i])
  {
    var first := FirstOfClass(all, ks[i]);
    FirstsAreListed(all, ks, i, first);
    var j :| 0 <= j < |ks| && ks[j] == first;
    assert SameClass(all[ks[i]], all[ks[j]]) && ks[i] in ks;
  }

  lemma FirstsAreListed(all: seq<Earning>, ks: seq<nat>, i: nat, first: nat)
    requires Progress(all, ks, i) && first < |all| && IsFirst(all, first)
    ensures first in ks
  {
    forall j | 0 <= j < i ensures !(SameClass(all[first], all[ks[j]]) && first != ks[j]) {
      OneFirstPerClass(all, first, ks[j]);
    }
    assert !Dropped(all, ks, i, first);
  }

  /** The class of the row being visited is still listed whole. */
  lemma ClassIsListed(all: seq<Earning>, ks: seq<nat>, i: nat, k: nat)
    requires Progress(all, ks, i) && i < |ks| && IsFirst(all, ks[i])
    requires k < |all| && SameClass(all[k], all[ks[i]])
    ensures k in ks
  {
    forall j | 0 <= j < i ensures !(SameClass(all[k], all[ks[j]]) && k != ks[j]) {
      OneFirstPerClass(all, ks[i], ks[j]);
    }
    assert !Dropped(all, ks, i, k);
  }

  lemma FirstOfClass(all: seq<Earning>, k: nat) returns (first: nat)
    requires k < |all|
    ensures first <= k && IsFirst(all, first) && SameClass(all[first], all[k])
    decreases k
  {
    if IsFirst(all, k) {
      first := k;
    } else {
      var j :| 0 <= j < k && SameClass(all[j], all[k]);
      first := FirstOfClass(all, j);
    }
  }

  lemma AllListed(all: seq<Earning>, ks: seq<nat>)
    requires |ks| == |all| && forall k :: 0 <= k < |all| ==> ks[k] == k
    ensures Picks(all, ks, all) && Progress(all, ks, 0)
  {
    forall k | 0 <= k < |all| ensures k in ks {
      assert ks[k] == k;
    }
  }

  /** Although rows disappear from the list while it is gone through, none is asked to be removed
      twice (`remove` would raise), every row that stays is visited, and what stays is the first
      row of every class in the original order. */
  method Deduplicate(all: seq<Earning>) returns (earnings: seq<Earning>, ghost visited: seq<Earning>)
    requires DistinctIds(all)
    ensures earnings == Firsts(all) && visited == earnings
    ensures forall k :: 0 <= k < |all| ==> (all[k] in earnings <==> !EarnedBefore(all, k))
  {
    earnings := all;
    visited := [];
    ghost var ks: seq<nat> := seq(|all|, (k: nat) => k);
    AllListed(all, ks);
    var i := 0;
    while i < |earnings|
      invariant Picks(all, ks, earnings) && Progress(all, ks, i)
      invariant visited == earnings[..i]
      decreases |earnings| - i
    {
      visited := visited + [earnings[i]];
      earnings, ks := Visit(all, earnings, ks, i);
      i := i + 1;
    }
    AllVisited(all, ks);
    PickedFirsts(all, ks, earnings);
    FirstsAreNew(all);
  }

  /** One pass of the loop: the duplicates of the i-th row go; they all come after it. */
  method Visit(all: seq<Earning>, list: seq<Earning>, ghost ks: seq<nat>, i: nat)
    returns (earnings: seq<Earning>, ghost left: seq<nat>)
    requires DistinctIds(all) && Picks(all, ks, list) && Progress(all, ks, i) && i < |list|
    ensures Picks(all, left, earnings) && Progress(all, left, i + 1)
    ensures i < |earnings| <= |list| && earnings[..i + 1] == list[..i + 1]
  {
    NextIsFirst(all, ks, i);
    var earned := Members(all, list[i], |all|);
    FirstMember(all, ks, i, earned);
    if |earned| > 1 {
      earnings, left := RemoveDuplicates(all, earned, list, ks, i);
      SamePrefix(all, ks, list, left, earnings, i + 1);
    } else {
      earnings, left := list, ks;
      ClassDone(all, ks, i, earned, ks);
    }
  }

  lemma SamePrefix(all: seq<Earning>, ks: seq<nat>, list: seq<Earning>, left: seq<nat>, earnings: seq<Earning>, n: nat)
    requires Picks(all, ks, list) && Picks(all, left, earnings)
    requires SameUpTo(ks, left, n)
    ensures |earnings| >= n && |list| >= n && earnings[..n] == list[..n]
  {
    forall j | 0 <= j < n ensures earnings[j] == list[j] {
      assert left[j] == ks[j];
    }
  }

  ghost predicate SameUpTo(ks: seq<nat>, left: seq<nat>, n: nat) {
    n <= |ks| && n <= |left| && forall j :: 0 <= j < n ==> left[j] == ks[j]
  }

  /** One of the first `d` duplicates of a class. */
  ghost predicate Among(earned: seq<nat>, d: nat, k: nat)
    requires d <= |earned|
  {
    exists p :: 1 <= p < d && earned[p] == k
  }

  /** The first `d` duplicates are gone, and nothing else. */
  ghost predicate Removed(ks: seq<nat>, left: seq<nat>, earned: seq<nat>, d: nat)
    requires d <= |earned|
  {
    forall k :: k in left <==> k in ks && !Among(earned, d, k)
  }

  /** The rows of a class, the first one in front. */
  ghost predicate IsClass(all: seq<Earning>, earned: seq<nat>, first: nat)
    requires first < |all|
  {
    |earned| >= 1 && earned[0] == first && earned == Members(all, all[first], |all|)
  }

  /** Remove all rows of a class but the first. */
  method RemoveDuplicates(all: seq<Earning>, earned: seq<nat>, list: seq<Earning>, ghost ks: seq<nat>, ghost i: nat)
    returns (earnings: seq<Earning>, ghost left: seq<nat>)
    requires DistinctIds(all) && Picks(all, ks, list) && Progress(all, ks, i) && i < |ks|
    requires IsFirst(all, ks[i]) && IsClass(all, earned, ks[i])
    ensures Picks(all, left, earnings) && Progress(all, left, i + 1)
    ensures SameUpTo(ks, left, i + 1)
    ensures |earnings| <= |list|
  {
    earnings, left := list, ks;
    for d := 1 to |earned|
      invariant Picks(all, left, earnings) && |earnings| <= |list|
      invariant SameUpTo(ks, left, i + 1)
      invariant Removed(ks, left, earned, d)
    {
      var p := Position(all, ks, i, earned, left, d);
      RemovePick(all, left, earnings, p);
      OneMoreRemoved(ks, left, earned, d, left[..p] + left[p + 1..]);
      earnings := Without(earnings, all[earned[d]]);
      left := left[..p] + left[p + 1..];
    }
    ClassDone(all, ks, i, earned, left);
  }

  lemma OneMoreRemoved(ks: seq<nat>, left: seq<nat>, earned: seq<nat>, d: nat, after: seq<nat>)
    requires 1 <= d < |earned| && Removed(ks, left, earned, d)
    requires forall k :: k in after <==> k in left && k != earned[d]
    ensures Removed(ks, after, earned, d + 1)
  {
    forall k ensures Among(earned, d + 1, k) <==> Among(earned, d, k) || k == earned[d] {
      assert k == earned[d] ==> Among(earned, d + 1, k);
      if Among(earned, d, k) {
        var p :| 1 <= p < d && earned[p] == k;
        assert 1 <= p < d + 1;
      }
    }
  }

  lemma FirstMember(all: seq<Earning>, ks: seq<nat>, i: nat, earned: seq<nat>)
    requires Ascending(ks, |all|) && i < |ks| && IsFirst(all, ks[i])
    requires earned == Members(all, all[ks[i]], |all|)
    ensures IsClass(all, earned, ks[i])
  {
    assert SameClass(all[ks[i]], all[ks[i]]);
    assert ks[i] in earned;
    var j :| 0 <= j < |earned| && earned[j] == ks[i];
  }

  lemma ClassMembers(all: seq<Earning>, earned: seq<nat>, first: nat, k: nat)
    requires first < |all| && k < |all| && IsClass(all, earned, first)
    ensures Among(earned, |earned|, k) <==> SameClass(all[k], all[first]) && k != first
  {
    if SameClass(all[k], all[first]) && k != first {
      assert k in earned;
      var p :| 0 <= p < |earned| && earned[p] == k;
      assert p >= 1;
    }
    if Among(earned, |earned|, k) {
      var p :| 1 <= p < |earned| && earned[p] == k;
      assert earned[0] < earned[p];
    }
  }

  /** A duplicate to be removed is still listed, behind the row being visited. */
  lemma Position(all: seq<Earning>, ks: seq<nat>, i: nat, earned: seq<nat>, left: seq<nat>, d: nat) returns (p: nat)
    requires Progress(all, ks, i) && i < |ks| && IsFirst(all, ks[i]) && Ascending(left, |all|)
    requires IsClass(all, earned, ks[i]) && 1 <= d < |earned|
    requires SameUpTo(ks, left, i + 1) && Removed(ks, left, earned, d)
    ensures i < p < |left| && left[p] == earned[d]
  {
    var k := earned[d];
    assert SameClass(all[k], all[ks[i]]) && k > ks[i];
    ClassIsListed(all, ks, i, k);
    assert !Among(earned, d, k);
    p :| 0 <= p < |left| && left[p] == k;
    assert left[i] == ks[i];
  }

  lemma ClassDone(all: seq<Earning>, ks: seq<nat>, i: nat, earned: seq<nat>, left: seq<nat>)
    requires Progress(all, ks, i) && i < |ks| && IsFirst(all, ks[i]) && Ascending(left, |all|)
    requires IsClass(all, earned, ks[i])
    requires SameUpTo(ks, left, i + 1) && Removed(ks, left, earned, |earned|)
    ensures Progress(all, left, i + 1)
  {
    forall j | 0 <= j <= i ensures IsFirst(all, left[j]) && OnlyOne(all, left, left[j]) {
      assert left[j] == ks[j];
      ClassGone(all, ks, i, earned, left, j);
    }
    forall k | 0 <= k < |all| && k !in left ensures Dropped(all, left, i + 1, k) {
      NowDropped(all, ks, i, earned, left, k);
    }
  }

  lemma ClassGone(all: seq<Earning>, ks: seq<nat>, i: nat, earned: seq<nat>, left: seq<nat>, j: nat)
    requires Progress(all, ks, i) && j <= i < |ks|
    requires IsClass(all, earned, ks[i]) && Removed(ks, left, earned, |earned|)
    ensures OnlyOne(all, left, ks[j])
  {
    if j < i {
      assert OnlyOne(all, ks, ks[j]);
    } else {
      forall k | 0 <= k < |all| && SameClass(all[k], all[ks[i]]) && k != ks[i] ensures k !in left {
        ClassMembers(all, earned, ks[i], k);
      }
    }
  }

  lemma NowDropped(all: seq<Earning>, ks: seq<nat>, i: nat, earned: seq<nat>, left: seq<nat>, k: nat)
    requires Progress(all, ks, i) && i < |ks| && Ascending(left, |all|)
    requires IsClass(all, earned, ks[i])
    requires SameUpTo(ks, left, i + 1) && Removed(ks, left, earned, |earned|)
    requires k < |all| && k !in left
    ensures Dropped(all, left, i + 1, k)
  {
    assert left[i] == ks[i];
    if k in ks {
      ClassMembers(all, earned, ks[i], k);
      assert SameClass(all[k], all[left[i]]);
    } else {
      assert Dropped(all, ks, i, k);
      var j :| 0 <= j < i && SameClass(all[k], all[ks[j]]) && k != ks[j];
      assert left[j] == ks[j];
    }
  }

  lemma AllVisited(all: seq<Earning>, ks: seq<nat>)
    requires Progress(all, ks, |ks|)
    ensures forall k :: k in ks <==> 0 <= k < |all| && IsFirst(all, k)
  {
    forall k | 0 <= k < |all| && IsFirst(all, k) ensures k in ks {
      FirstsAreListed(all, ks, |ks|, k);
    }
  }
}
