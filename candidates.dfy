/** The candidate list of the Trent-selection step. A candidate (a `User` in the
    source) is represented by its public key, a natural number. */
module Candidates {

  // ---------------------------------------------------------------------------
  // Sub-sequences

  /** The elements of s whose mask bit is set, in their original order. */
  function Select(s: seq<nat>, keep: seq<bool>): seq<nat>
    requires |keep| == |s|
    decreases |s|
  {
    if s == [] then []
    else Select(s[..|s| - 1], keep[..|s| - 1]) + (if keep[|s| - 1] then [s[|s| - 1]] else [])
  }

  /** r is obtained from s by deleting elements, without reordering. */
  ghost predicate IsSubsequence(r: seq<nat>, s: seq<nat>) {
    exists keep: seq<bool> :: |keep| == |s| && Select(s, keep) == r
  }

  // ---------------------------------------------------------------------------
  // Round 0: keeping the candidates another party offered

  /** The candidates of s whose key occurs in `offered`, in the order of s: what
      the round-0 loop means to compute ("remove the users who are not in
      common list"). */
  function Retain(s: seq<nat>, offered: seq<nat>): (r: seq<nat>)
    ensures |r| <= |s|
    ensures forall x :: x in r <==> x in s && x in offered
    decreases |s|
  {
    if s == [] then []
    else
      var last := s[|s| - 1];
      assert s == s[..|s| - 1] + [last];
      Retain(s[..|s| - 1], offered) + (if last in offered then [last] else [])
  }

  lemma {:induction false} RetainAppend(a: seq<nat>, b: seq<nat>, offered: seq<nat>)
    ensures Retain(a + b, offered) == Retain(a, offered) + Retain(b, offered)
    decreases |b|
  {
    if b != [] {
      var b' := b[..|b| - 1];
      assert (a + b)[..|a + b| - 1] == a + b';
      RetainAppend(a, b', offered);
    } else {
      assert a + b == a;
    }
  }

  /** The mask that keeps exactly the offered keys. */
  function OfferedMask(s: seq<nat>, offered: seq<nat>): (keep: seq<bool>)
    ensures |keep| == |s|
    decreases |s|
  {
    if s == [] then [] else OfferedMask(s[..|s| - 1], offered) + [s[|s| - 1] in offered]
  }

  /** A round-0 message never adds a candidate nor reorders the list. */
  lemma {:induction false} RetainIsSubsequence(s: seq<nat>, offered: seq<nat>)
    ensures IsSubsequence(Retain(s, offered), s)
  {
    SelectOfferedMask(s, offered);
  }

  lemma {:induction false} SelectOfferedMask(s: seq<nat>, offered: seq<nat>)
    ensures Select(s, OfferedMask(s, offered)) == Retain(s, offered)
    decreases |s|
  {
    if s != [] {
      var keep := OfferedMask(s, offered);
      assert keep[..|s| - 1] == OfferedMask(s[..|s| - 1], offered);
      SelectOfferedMask(s[..|s| - 1], offered);
    }
  }

  /** The common list does not depend on the order in which two offers arrive. */
  lemma {:induction false} RetainOrderIndependent(s: seq<nat>, a: seq<nat>, b: seq<nat>)
    ensures Retain(Retain(s, a), b) == Retain(Retain(s, b), a)
    decreases |s|
  {
    if s != [] {
      var s', last := s[..|s| - 1], s[|s| - 1];
      var ta := if last in a then [last] else [];
      var tb := if last in b then [last] else [];
      RetainOrderIndependent(s', a, b);
      RetainAppend(Retain(s', a), ta, b);
      RetainAppend(Retain(s', b), tb, a);
      assert ta != [] ==> ta == [last] && ta[..0] == [];
      assert tb != [] ==> tb == [last] && tb[..0] == [];
    }
  }

  /** Receiving the same offer twice gives the same list as receiving it once. */
  lemma {:induction false} RetainIdempotent(s: seq<nat>, offered: seq<nat>)
    ensures Retain(Retain(s, offered), offered) == Retain(s, offered)
    decreases |s|
  {
    if s != [] {
      var s', last := s[..|s| - 1], s[|s| - 1];
      var t := if last in offered then [last] else [];
      RetainIdempotent(s', offered);
      RetainAppend(Retain(s', offered), t, offered);
      assert t != [] ==> t[..0] == [];
    }
  }

  /** The round-0 loop, written as the comment above it intends: the iterator
      visits every candidate once, the inner loop asks whether its key occurs in
      the offered list, and the candidate is removed in place when it does not. */
  method KeepOffered(list: seq<nat>, offered: seq<nat>) returns (r: seq<nat>)
    ensures r == Retain(list, offered)
  {
    r := list;
    var i := 0;
    ghost var c := 0;
    while i < |r|
      invariant 0 <= c <= |list| && i <= |r|
      invariant r[..i] == Retain(list[..c], offered)
      invariant r[i..] == list[c..]
      decreases |r| - i
    {
      var x := r[i];
      assert x == list[c] by { assert r[i..][0] == list[c..][0]; }
      var isInBoth := false;
      for k := 0 to |offered|
        invariant isInBoth <==> x in offered[..k]
      {
        assert offered[..k + 1] == offered[..k] + [offered[k]];
        if offered[k] == x {
          isInBoth := true;
        }
      }
      assert offered[..|offered|] == offered;
      RetainPrefixStep(list, c, offered);
      if !isInBoth {
        RemoveAt(r, i, list, c);
        r := r[..i] + r[i + 1..];
      } else {
        KeepAt(r, i, list, c);
        i := i + 1;
      }
      c := c + 1;
    }
    assert list[..c] == list;
  }

  /** Filtering one more element of a prefix appends at most that element. */
  lemma RetainPrefixStep(s: seq<nat>, c: nat, offered: seq<nat>)
    requires c < |s|
    ensures Retain(s[..c + 1], offered) == Retain(s[..c], offered) + (if s[c] in offered then [s[c]] else [])
  {
    assert s[..c + 1][..c] == s[..c];
  }

  /** The list state after `it.remove()` at cursor i. */
  lemma RemoveAt(r: seq<nat>, i: nat, s: seq<nat>, c: nat)
    requires i < |r| && c < |s| && r[i..] == s[c..]
    ensures (r[..i] + r[i + 1..])[..i] == r[..i]
    ensures (r[..i] + r[i + 1..])[i..] == s[c + 1..]
  {
    assert r[i + 1..] == r[i..][1..];
    assert s[c + 1..] == s[c..][1..];
  }

  /** The list state after `it.next()` moves the cursor past a kept element. */
  lemma KeepAt(r: seq<nat>, i: nat, s: seq<nat>, c: nat)
    requires i < |r| && c < |s| && r[i..] == s[c..]
    ensures r[..i + 1] == r[..i] + [s[c]]
    ensures r[i + 1..] == s[c + 1..]
  {
    assert r[i] == r[i..][0];
    assert r[i + 1..] == r[i..][1..];
    assert s[c + 1..] == s[c..][1..];
  }

  // ---------------------------------------------------------------------------
  // Round 0 as written: the iterator advances once per offered candidate

  /** What the round-0 loop does with `kept` already walked and `rest` still
      ahead of the iterator: each pass of the outer loop calls `it.next()` once
      per element of `offered`, compares the i-th offered key with the i-th key
      it reaches, and, when no position matches, removes the last key reached.
      `Threw` carries the list left behind when the walk throws: a pass that
      needs more keys than remain (NoSuchElementException) or a removal before
      any `next()` when nothing is offered (IllegalStateException). */
  datatype Walk = Finished(list: seq<nat>) | Threw(list: seq<nat>)

  function LiteralWalk(kept: seq<nat>, rest: seq<nat>, offered: seq<nat>): (r: Walk)
    ensures kept <= r.list && |r.list| <= |kept| + |rest|
    ensures forall x :: x in r.list ==> x in kept || x in rest
    decreases |rest|
  {
    if rest == [] then Finished(kept)
    else if offered == [] || |rest| < |offered| then Threw(kept + rest)
    else
      var m := |offered|;
      var pass := rest[..m];
      if exists i :: 0 <= i < m && offered[i] == pass[i] then LiteralWalk(kept + pass, rest[m..], offered)
      else LiteralWalk(kept + pass[..m - 1], rest[m..], offered)
  }

  /** With exactly one offered candidate the literal walk is the intended filter. */
  lemma {:induction false} LiteralWalkSingleOffer(kept: seq<nat>, rest: seq<nat>, u: nat)
    ensures LiteralWalk(kept, rest, [u]) == Finished(kept + Retain(rest, [u]))
    decreases |rest|
  {
    if rest == [] {
      assert kept + [] == kept;
    } else {
      var x := rest[0];
      var step: seq<nat> := if x == u then [x] else [];
      LiteralWalkOnePass(kept, rest, u);
      LiteralWalkSingleOffer(kept + step, rest[1..], u);
      RetainConsAfter(kept, rest, u);
    }
  }

  lemma RetainConsAfter(kept: seq<nat>, rest: seq<nat>, u: nat)
    requires rest != []
    ensures kept + (if rest[0] == u then [rest[0]] else []) + Retain(rest[1..], [u]) == kept + Retain(rest, [u])
  {
    var step: seq<nat> := if rest[0] == u then [rest[0]] else [];
    RetainCons(rest, u);
    assert kept + step + Retain(rest[1..], [u]) == kept + (step + Retain(rest[1..], [u]));
  }

  /** One pass of the literal walk against a single offered key. */
  lemma LiteralWalkOnePass(kept: seq<nat>, rest: seq<nat>, u: nat)
    requires rest != []
    ensures LiteralWalk(kept, rest, [u])
         == LiteralWalk(kept + (if rest[0] == u then [rest[0]] else []), rest[1..], [u])
  {
    var pass := rest[..1];
    assert pass == [rest[0]];
    var matched := exists i :: 0 <= i < 1 && [u][i] == pass[i];
    assert matched <==> rest[0] == u by {
      if rest[0] == u { assert [u][0] == pass[0]; }
    }
    assert pass[..0] == [];
  }

  lemma RetainCons(s: seq<nat>, u: nat)
    requires s != []
    ensures Retain(s, [u]) == (if s[0] == u then [s[0]] else []) + Retain(s[1..], [u])
  {
    RetainSingle(s[0], u);
    RetainAppend([s[0]], s[1..], [u]);
    assert [s[0]] + s[1..] == s;
  }

  lemma RetainSingle(x: nat, u: nat)
    ensures Retain([x], [u]) == if x == u then [x] else []
  {
    assert [x][..0] == [];
  }

  /** Two offered keys in the opposite order: the literal walk drops candidate 2,
      which both lists hold, and keeps candidate 3, which only one holds. */
  lemma LiteralWalkDropsCommonCandidate()
    ensures LiteralWalk([], [1, 2, 3, 4], [2, 1]) == Finished([1, 3])
    ensures Retain([1, 2, 3, 4], [2, 1]) == [1, 2]
  {
    WalkFirstPass();
    WalkSecondPass();
    RetainOneTwo();
  }

  /** Neither position of [2, 1] matches [1, 2]: 1 is kept, 2 removed. */
  lemma WalkFirstPass()
    ensures LiteralWalk([], [1, 2, 3, 4], [2, 1]) == LiteralWalk([1], [3, 4], [2, 1])
  {
    var s: seq<nat> := [1, 2, 3, 4];
    assert s[..2] == [1, 2] && s[2..] == [3, 4];
    assert !(exists i :: 0 <= i < 2 && [2, 1][i] == [1, 2][i]);
    assert [1, 2][..1] == [1];
  }

  /** Neither position of [2, 1] matches [3, 4]: 3 is kept, 4 removed. */
  lemma WalkSecondPass()
    ensures LiteralWalk([1], [3, 4], [2, 1]) == Finished([1, 3])
  {
    assert [3, 4][..2] == [3, 4] && [3, 4][2..] == [];
    assert !(exists i :: 0 <= i < 2 && [2, 1][i] == [3, 4][i]);
    assert [1] + [3, 4][..1] == [1, 3];
  }

  lemma RetainOneTwo()
    ensures Retain([1, 2, 3, 4], [2, 1]) == [1, 2]
  {
    var s: seq<nat> := [1, 2, 3, 4];
    assert [1][..0] == [];
    assert Retain([1], [2, 1]) == [1];
    assert [1, 2][..1] == [1];
    assert Retain([1, 2], [2, 1]) == [1, 2];
    assert [1, 2, 3][..2] == [1, 2];
    assert Retain([1, 2, 3], [2, 1]) == [1, 2];
    assert s[..3] == [1, 2, 3];
  }

  /** A single local candidate against two offered keys: the walk needs two keys
      in one pass and throws, although candidate 5 is common to both lists. */
  lemma LiteralWalkRunsOffEnd()
    ensures LiteralWalk([], [5], [5, 6]) == Threw([5])
    ensures Retain([5], [5, 6]) == [5]
  {
    assert [5][..0] == [];
  }

  // ---------------------------------------------------------------------------
  // The constructor: removing the contract's signers

  /** The keys of s that are not in `keys`, in the order of s. */
  function Exclude(s: seq<nat>, keys: seq<nat>): (r: seq<nat>)
    ensures |r| <= |s|
    ensures forall x :: x in r <==> x in s && x !in keys
    decreases |s|
  {
    if s == [] then []
    else
      var last := s[|s| - 1];
      assert s == s[..|s| - 1] + [last];
      Exclude(s[..|s| - 1], keys) + (if last in keys then [] else [last])
  }

  lemma {:induction false} ExcludeAppend(a: seq<nat>, b: seq<nat>, keys: seq<nat>)
    ensures Exclude(a + b, keys) == Exclude(a, keys) + Exclude(b, keys)
    decreases |b|
  {
    if b != [] {
      var b' := b[..|b| - 1];
      assert (a + b)[..|a + b| - 1] == a + b';
      ExcludeAppend(a, b', keys);
    } else {
      assert a + b == a;
    }
  }

  /** Removing the signers one key at a time removes them all. */
  lemma {:induction false} ExcludeStep(s: seq<nat>, keys: seq<nat>, k: nat)
    ensures Exclude(Exclude(s, keys), [k]) == Exclude(s, keys + [k])
    decreases |s|
  {
    if s != [] {
      var s', last := s[..|s| - 1], s[|s| - 1];
      var t := if last in keys then [] else [last];
      ExcludeStep(s', keys, k);
      ExcludeAppend(Exclude(s', keys), t, [k]);
      assert t != [] ==> t[..0] == [];
      assert last in keys + [k] <==> last in keys || last == k;
    }
  }

  /** One pass of the constructor's inner loop: the iterator removes, in place,
      every candidate whose key is k. */
  method RemoveKey(list: seq<nat>, k: nat) returns (r: seq<nat>)
    ensures r == Exclude(list, [k])
  {
    r := list;
    var i := 0;
    ghost var c := 0;
    while i < |r|
      invariant 0 <= c <= |list| && i <= |r|
      invariant r[..i] == Exclude(list[..c], [k])
      invariant r[i..] == list[c..]
      decreases |r| - i
    {
      assert r[i] == list[c] by { assert r[i..][0] == list[c..][0]; }
      ExcludePrefixStep(list, c, [k]);
      if r[i] == k {
        RemoveAt(r, i, list, c);
        r := r[..i] + r[i + 1..];
      } else {
        KeepAt(r, i, list, c);
        i := i + 1;
      }
      c := c + 1;
    }
    assert list[..c] == list;
  }

  lemma ExcludePrefixStep(s: seq<nat>, c: nat, keys: seq<nat>)
    requires c < |s|
    ensures Exclude(s[..c + 1], keys) == Exclude(s[..c], keys) + (if s[c] in keys then [] else [s[c]])
  {
    assert s[..c + 1][..c] == s[..c];
  }

  /** The constructor's filtering: for each signer, remove every candidate with
      that signer's key. */
  method RemoveSigners(users: seq<nat>, parties: seq<nat>) returns (r: seq<nat>)
    ensures r == Exclude(users, parties)
  {
    r := users;
    assert Exclude(users, []) == users by { ExcludeNothing(users); }
    for p := 0 to |parties|
      invariant r == Exclude(users, parties[..p])
    {
      r := RemoveKey(r, parties[p]);
      ExcludeStep(users, parties[..p], parties[p]);
      assert parties[..p + 1] == parties[..p] + [parties[p]];
    }
    assert parties[..|parties|] == parties;
  }

  lemma {:induction false} ExcludeNothing(s: seq<nat>)
    ensures Exclude(s, []) == s
    decreases |s|
  {
    if s != [] {
      ExcludeNothing(s[..|s| - 1]);
      assert s == s[..|s| - 1] + [s[|s| - 1]];
    }
  }

  // ---------------------------------------------------------------------------
  // Round 2: sorting by public key and picking the candidate

  predicate Ascending(s: seq<nat>) {
    forall i, j :: 0 <= i < j < |s| ==> s[i] <= s[j]
  }

  function Insert(x: nat, s: seq<nat>): (r: seq<nat>)
    requires Ascending(s)
    ensures Ascending(r)
    ensures multiset(r) == multiset(s) + multiset{x}
    decreases |s|
  {
    if s == [] then [x]
    else if x <= s[0] then [x] + s
    else
      var rest := Insert(x, s[1..]);
      assert s == [s[0]] + s[1..];
      InsertBelow(s[0], x, s[1..], rest);
      [s[0]] + rest
  }

  lemma InsertBelow(low: nat, x: nat, s: seq<nat>, rest: seq<nat>)
    requires low <= x && forall k :: 0 <= k < |s| ==> low <= s[k]
    requires Ascending(rest) && multiset(rest) == multiset(s) + multiset{x}
    ensures Ascending([low] + rest)
  {
    forall k | 0 <= k < |rest|
      ensures low <= rest[k]
    {
      assert rest[k] in multiset(rest);
      if rest[k] != x {
        assert rest[k] in multiset(s);
        var j :| 0 <= j < |s| && s[j] == rest[k];
      }
    }
  }

  /** `list.sort` with the comparator on public keys: an ascending permutation. */
  function SortedKeys(s: seq<nat>): (r: seq<nat>)
    ensures Ascending(r)
    ensures multiset(r) == multiset(s)
    decreases |s|
  {
    if s == [] then []
    else
      assert s == [s[0]] + s[1..];
      Insert(s[0], SortedKeys(s[1..]))
  }

  /** Keys that compare equal are equal, so the sorted order is unique: any
      correct sort, the source's included, gives the list SortedKeys gives. */
  lemma {:induction false} SortedUnique(a: seq<nat>, b: seq<nat>)
    requires Ascending(a) && Ascending(b)
    requires multiset(a) == multiset(b)
    ensures a == b
    decreases |a|
  {
    assert |a| == |multiset(a)| == |multiset(b)| == |b|;
    if a != [] {
      SameHeads(a, b);
      AscendingTail(a);
      AscendingTail(b);
      SortedUnique(a[1..], b[1..]);
      assert a == [a[0]] + a[1..] && b == [b[0]] + b[1..];
    }
  }

  /** Two ascending arrangements of one multiset start with the same key. */
  lemma SameHeads(a: seq<nat>, b: seq<nat>)
    requires Ascending(a) && Ascending(b) && a != [] && b != []
    requires multiset(a) == multiset(b)
    ensures a[0] == b[0]
    ensures multiset(a[1..]) == multiset(b[1..])
  {
    AscendingHeadIsLeast(b, a[0]);
    AscendingHeadIsLeast(a, b[0]);
    assert a == [a[0]] + a[1..] && b == [b[0]] + b[1..];
    assert multiset(a[1..]) == multiset(a) - multiset{a[0]};
    assert multiset(b[1..]) == multiset(b) - multiset{b[0]};
  }

  lemma AscendingTail(s: seq<nat>)
    requires Ascending(s) && s != []
    ensures Ascending(s[1..])
  {
    forall i, j | 0 <= i < j < |s| - 1
      ensures s[1..][i] <= s[1..][j]
    {
      assert s[1..][i] == s[i + 1] && s[1..][j] == s[j + 1];
    }
  }

  lemma AscendingHeadIsLeast(s: seq<nat>, x: nat)
    requires Ascending(s) && x in multiset(s)
    ensures s[0] <= x
  {
    var j :| 0 <= j < |s| && s[j] == x;
    assert j == 0 || s[0] <= s[j];
  }

  /** The candidate at `finalNumber mod |candidates|` (BigInteger.mod is never
      negative). */
  function Pick(finalNumber: nat, candidates: seq<nat>): (key: nat)
    requires |candidates| > 0
    ensures key in candidates
  {
    candidates[finalNumber % |candidates|]
  }

  // ---------------------------------------------------------------------------
  // Agreement between parties

  /** No key occurs twice. */
  predicate Distinct(s: seq<nat>) {
    forall i, j :: 0 <= i < j < |s| ==> s[i] != s[j]
  }

  lemma {:induction false} RetainDistinct(s: seq<nat>, offered: seq<nat>)
    requires Distinct(s)
    ensures Distinct(Retain(s, offered))
    decreases |s|
  {
    if s != [] {
      var init, last := s[..|s| - 1], s[|s| - 1];
      assert Distinct(init) by {
        forall i, j | 0 <= i < j < |init|
          ensures init[i] != init[j]
        {
          assert init[i] == s[i] && init[j] == s[j];
        }
      }
      RetainDistinct(init, offered);
      var kept := Retain(init, offered);
      assert last !in kept;
      if last in offered {
        forall i, j | 0 <= i < j < |kept| + 1
          ensures (kept + [last])[i] != (kept + [last])[j]
        {
          if j == |kept| {
            assert (kept + [last])[i] == kept[i];
          } else {
            assert (kept + [last])[i] == kept[i] && (kept + [last])[j] == kept[j];
          }
        }
      } else {
        assert kept + [] == kept;
      }
    }
  }

  lemma {:induction false} ExcludeDistinct(s: seq<nat>, keys: seq<nat>)
    requires Distinct(s)
    ensures Distinct(Exclude(s, keys))
    decreases |s|
  {
    if s != [] {
      var init, last := s[..|s| - 1], s[|s| - 1];
      assert Distinct(init) by {
        forall i, j | 0 <= i < j < |init|
          ensures init[i] != init[j]
        {
          assert init[i] == s[i] && init[j] == s[j];
        }
      }
      ExcludeDistinct(init, keys);
      var kept := Exclude(init, keys);
      assert last !in kept;
      if last !in keys {
        forall i, j | 0 <= i < j < |kept| + 1
          ensures (kept + [last])[i] != (kept + [last])[j]
        {
          if j == |kept| {
            assert (kept + [last])[i] == kept[i];
          } else {
            assert (kept + [last])[i] == kept[i] && (kept + [last])[j] == kept[j];
          }
        }
      } else {
        assert kept + [] == kept;
      }
    }
  }

  /** A key of a list without repetitions occurs in it once or not at all. */
  lemma {:induction false} DistinctCount(s: seq<nat>, x: nat)
    requires Distinct(s)
    ensures multiset(s)[x] == if x in s then 1 else 0
    decreases |s|
  {
    if s != [] {
      var rest := s[1..];
      assert s == [s[0]] + rest;
      assert Distinct(rest) by {
        forall i, j | 0 <= i < j < |rest|
          ensures rest[i] != rest[j]
        {
          assert rest[i] == s[i + 1] && rest[j] == s[j + 1];
        }
      }
      DistinctCount(rest, x);
      if s[0] in rest {
        var j :| 0 <= j < |rest| && rest[j] == s[0];
        assert s[j + 1] == s[0];
      }
    }
  }

  lemma DistinctSameKeys(a: seq<nat>, b: seq<nat>)
    requires Distinct(a) && Distinct(b)
    requires forall x :: x in a <==> x in b
    ensures multiset(a) == multiset(b)
  {
    forall x
      ensures multiset(a)[x] == multiset(b)[x]
    {
      DistinctCount(a, x);
      DistinctCount(b, x);
    }
  }

  /** Both parties' filters keep the same keys, so one of them keeps a
      candidate exactly when the other does. */
  lemma CommonCandidateBothWays(lA: seq<nat>, lB: seq<nat>)
    ensures forall x :: x in Retain(lA, lB) <==> x in Retain(lB, lA)
    ensures Retain(lA, lB) != [] <==> Retain(lB, lA) != []
  {
    if Retain(lA, lB) != [] {
      assert Retain(lA, lB)[0] in Retain(lB, lA);
    }
    if Retain(lB, lA) != [] {
      assert Retain(lB, lA)[0] in Retain(lA, lB);
    }
  }

  /** Two parties whose lists have no repeated key and who each kept what the
      other offered hold the same candidates in the same sorted order, so one
      finalNumber picks the same Trent for both. */
  lemma ExchangedListsAgree(a: seq<nat>, b: seq<nat>)
    requires Distinct(a) && Distinct(b)
    ensures SortedKeys(Retain(a, b)) == SortedKeys(Retain(b, a))
  {
    RetainDistinct(a, b);
    RetainDistinct(b, a);
    DistinctSameKeys(Retain(a, b), Retain(b, a));
    SortedUnique(SortedKeys(Retain(a, b)), SortedKeys(Retain(b, a)));
  }

  /** With a repeated key the agreement fails: the repetition survives on one
      side only. */
  lemma RepeatedKeyBreaksAgreement()
    ensures SortedKeys(Retain([7, 7], [7])) == [7, 7]
    ensures SortedKeys(Retain([7], [7, 7])) == [7]
  {
    RetainSevens();
    SortSevens();
  }

  lemma RetainSevens()
    ensures Retain([7, 7], [7]) == [7, 7]
    ensures Retain([7], [7, 7]) == [7]
  {
    assert [7][..0] == [];
    assert Retain([7], [7]) == [7];
    assert [7, 7][..1] == [7];
  }

  lemma SortSevens()
    ensures SortedKeys([7]) == [7]
    ensures SortedKeys([7, 7]) == [7, 7]
  {
    assert [7][1..] == [];
    assert SortedKeys([7]) == Insert(7, SortedKeys([])) == [7];
    assert [7, 7][1..] == [7];
    assert Insert(7, [7]) == [7, 7];
  }
}
