/** How the desired ACL lists of several keys combine, and when their order does not matter. */
module AgentAcls {
  import opened Common
  import opened Netlink
  import opened Agent
  import opened AgentPass

  type AclLists = map<string, seq<AclConfig>>

  /** The configs for VRF `v` in the order a pass meets them. */
  function Gathered(keys: seq<string>, want: AclLists, v: string): seq<AclConfig> {
    if keys == [] then [] else ForVrf(At(want, keys[0]), v) + Gathered(keys[1..], want, v)
  }

  lemma {:induction false} ProgramOverConcat(list: seq<AclConfig>, a: seq<AclConfig>, b: seq<AclConfig>)
    ensures ProgramOver(list, a + b) == ProgramOver(ProgramOver(list, a), b)
    decreases |a|
  {
    if a == [] {
      assert a + b == b;
    } else {
      assert (a + b)[1..] == a[1..] + b;
      ProgramOverConcat(Programmed(list, a[0]), a[1..], b);
    }
  }

  /** The ACL loops program each VRF with the configs gathered for it, whatever the keys. */
  lemma {:induction false} ProgramAllGathered(p: Progress, keys: seq<string>, want: AclLists, v: string)
    ensures At(ProgramAll(p, keys, want).host.acls, v) == ProgramOver(At(p.host.acls, v), Gathered(keys, want, v))
    decreases |keys|
  {
    if keys != [] {
      ProgramListEffect(p, At(want, keys[0]));
      ProgramAllGathered(ProgramList(p, At(want, keys[0])), keys[1..], want, v);
      ProgramOverConcat(At(p.host.acls, v), ForVrf(At(want, keys[0]), v), Gathered(keys[1..], want, v));
    }
  }

  lemma {:induction false} GatheredConcat(a: seq<string>, b: seq<string>, want: AclLists, v: string)
    ensures Gathered(a + b, want, v) == Gathered(a, want, v) + Gathered(b, want, v)
  {
    if a == [] {
      assert a + b == b;
    } else {
      assert (a + b)[1..] == a[1..] + b;
      GatheredConcat(a[1..], b, want, v);
    }
  }

  // ---- last configs ----

  lemma PeeringIdsConcat(a: seq<AclConfig>, b: seq<AclConfig>)
    ensures PeeringIds(a + b) == PeeringIds(a) + PeeringIds(b)
  {
    forall id | id in PeeringIds(a) + PeeringIds(b) ensures id in PeeringIds(a + b) {
      var c :| (c in a || c in b) && c.peeringId == id;
      assert c in a + b;
    }
  }

  /** The last configs of a concatenation: those of the first part that the second does not replace, then its own. */
  lemma {:induction false} LastOfEachConcat(a: seq<AclConfig>, b: seq<AclConfig>)
    ensures LastOfEach(a + b) == Foreign(LastOfEach(a), PeeringIds(b)) + LastOfEach(b)
  {
    if a == [] {
      assert a + b == b;
    } else {
      assert (a + b)[1..] == a[1..] + b;
      LastOfEachConcat(a[1..], b);
      PeeringIdsConcat(a[1..], b);
    }
  }

  lemma {:induction false} LastOfEachIds(cfgs: seq<AclConfig>)
    ensures PeeringIds(LastOfEach(cfgs)) == PeeringIds(cfgs)
  {
    if cfgs != [] {
      LastOfEachIds(cfgs[1..]);
      PeeringIdsCons(cfgs);
      PeeringIdsConcat([cfgs[0]], LastOfEach(cfgs[1..]));
      assert PeeringIds([cfgs[0]]) == {cfgs[0].peeringId};
    }
  }

  lemma {:induction false} LastOfEachUnique(cfgs: seq<AclConfig>)
    ensures UniquePeerings(LastOfEach(cfgs))
  {
    if cfgs != [] {
      LastOfEachUnique(cfgs[1..]);
      LastOfEachIds(cfgs[1..]);
      var tail := LastOfEach(cfgs[1..]);
      forall j | 0 <= j < |tail| ensures tail[j].peeringId in PeeringIds(cfgs[1..]) {
        assert tail[j] in tail;
      }
    }
  }

  lemma {:induction false} ForeignAll(list: seq<AclConfig>, ids: set<string>)
    requires PeeringIds(list) <= ids
    ensures Foreign(list, ids) == []
  {
    if list != [] {
      PeeringIdsCons(list);
      ForeignAll(list[1..], ids);
    }
  }

  lemma {:induction false} ForeignApart(list: seq<AclConfig>, ids: set<string>)
    requires PeeringIds(list) !! ids
    ensures Foreign(list, ids) == list
  {
    if list != [] {
      PeeringIdsCons(list);
      ForeignApart(list[1..], ids);
    }
  }

  // ---- suffixes ----

  predicate IsSuffix<T(==)>(a: seq<T>, b: seq<T>) {
    |a| <= |b| && forall i | 0 <= i < |a| :: a[i] == b[|b| - |a| + i]
  }

  predicate Nested<T(==)>(a: seq<T>, b: seq<T>) {
    IsSuffix(a, b) || IsSuffix(b, a)
  }

  lemma SuffixOfSuffix<T>(a: seq<T>, b: seq<T>, c: seq<T>)
    requires IsSuffix(a, b) && IsSuffix(b, c)
    ensures IsSuffix(a, c)
  {
    forall i | 0 <= i < |a| ensures a[i] == c[|c| - |a| + i] {
      assert a[i] == b[|b| - |a| + i];
    }
  }

  lemma SuffixesOfOne<T>(a: seq<T>, b: seq<T>, c: seq<T>)
    requires IsSuffix(a, c) && IsSuffix(b, c)
    ensures Nested(a, b)
  {
    forall i, j | 0 <= i < |a| && 0 <= j < |b| && |a| - i == |b| - j ensures a[i] == b[j] {
      assert a[i] == c[|c| - |a| + i] && b[j] == c[|c| - |b| + j];
    }
  }

  lemma SuffixEachWay<T>(a: seq<T>, b: seq<T>)
    requires IsSuffix(a, b) && IsSuffix(b, a)
    ensures a == b
  {
  }

  lemma SplitIdsApart(pre: seq<AclConfig>, b: seq<AclConfig>)
    requires UniquePeerings(pre + b)
    ensures PeeringIds(pre) !! PeeringIds(b)
  {
    var all := pre + b;
    forall x, y | x in pre && y in b ensures x.peeringId != y.peeringId {
      var i :| 0 <= i < |pre| && pre[i] == x;
      var j :| 0 <= j < |b| && b[j] == y;
      assert all[i] == x && all[|pre| + j] == y;
    }
  }

  /** Of two nested lists of last configs the longer one is what programming one after the other leaves. */
  lemma NestedMerge(a: seq<AclConfig>, b: seq<AclConfig>)
    requires UniquePeerings(a)
    ensures IsSuffix(a, b) ==> Foreign(a, PeeringIds(b)) + b == b
    ensures IsSuffix(b, a) ==> Foreign(a, PeeringIds(b)) + b == a
  {
    if IsSuffix(a, b) {
      forall x | x in a ensures x in b {
        var i :| 0 <= i < |a| && a[i] == x;
        assert b[|b| - |a| + i] == x;
      }
      ForeignAll(a, PeeringIds(b));
    }
    if IsSuffix(b, a) {
      var pre := a[..|a| - |b|];
      assert a == pre + b;
      SplitIdsApart(pre, b);
      ForeignConcat(pre, b, PeeringIds(b));
      ForeignApart(pre, PeeringIds(b));
      ForeignAll(b, PeeringIds(b));
    }
  }

  // ---- several keys ----

  /** The last configs that key `k` lists for VRF `v`. */
  function LastFor(want: AclLists, k: string, v: string): seq<AclConfig> {
    LastOfEach(ForVrf(At(want, k), v))
  }

  ghost predicate NestedFor(want: AclLists, v: string) {
    forall k1, k2 | k1 in want && k2 in want :: Nested(LastFor(want, k1, v), LastFor(want, k2, v))
  }

  /** `list` is the longest of the keys' lists and has each of them as a suffix. */
  ghost predicate LongestOf(list: seq<AclConfig>, keys: seq<string>, want: AclLists, v: string) {
    && (forall k | k in keys :: IsSuffix(LastFor(want, k, v), list))
    && (keys != [] ==> exists k | k in keys :: list == LastFor(want, k, v))
    && (keys == [] ==> list == [])
  }

  lemma {:induction false} GatheredIsLongest(keys: seq<string>, want: AclLists, v: string)
    requires NestedFor(want, v) && forall k | k in keys :: k in want
    ensures LongestOf(LastOfEach(Gathered(keys, want, v)), keys, want, v)
  {
    if keys != [] {
      var k, rest := keys[0], Gathered(keys[1..], want, v);
      assert keys == [k] + keys[1..];
      GatheredIsLongest(keys[1..], want, v);
      LastOfEachConcat(ForVrf(At(want, k), v), rest);
      LastOfEachIds(rest);
      LastOfEachUnique(ForVrf(At(want, k), v));
      NestedMerge(LastFor(want, k, v), LastOfEach(rest));
      LongestMore(k, keys[1..], LastOfEach(rest), want, v);
    }
  }

  /** With one more key, the longest list is the longer of its list and the one so far. */
  lemma LongestMore(k: string, keys: seq<string>, list: seq<AclConfig>, want: AclLists, v: string)
    requires NestedFor(want, v) && k in want && (forall j | j in keys :: j in want) && LongestOf(list, keys, want, v)
    ensures IsSuffix(LastFor(want, k, v), list) ==> LongestOf(list, [k] + keys, want, v)
    ensures IsSuffix(list, LastFor(want, k, v)) ==> LongestOf(LastFor(want, k, v), [k] + keys, want, v)
    ensures Nested(LastFor(want, k, v), list)
  {
    hide LastFor;
    var x := LastFor(want, k, v);
    if keys != [] {
      var j :| j in keys && list == LastFor(want, j, v);
    }
    if IsSuffix(list, x) {
      forall j | j in [k] + keys ensures IsSuffix(LastFor(want, j, v), x) {
        if j in keys { SuffixOfSuffix(LastFor(want, j, v), list, x); }
      }
      assert k in [k] + keys;
    }
    if IsSuffix(x, list) {
      if keys == [] {
        assert k in [k] + keys;
      } else {
        var j :| j in keys && list == LastFor(want, j, v);
        assert j in [k] + keys;
      }
    }
  }

  /** Nested lists give the same last configs in any two orders of the same keys. */
  lemma NestedIgnoresOrder(keys1: seq<string>, keys2: seq<string>, want: AclLists, v: string)
    requires NestedFor(want, v) && Enumerates(keys1, want.Keys) && Enumerates(keys2, want.Keys)
    ensures LastOfEach(Gathered(keys1, want, v)) == LastOfEach(Gathered(keys2, want, v))
    ensures PeeringIds(Gathered(keys1, want, v)) == PeeringIds(Gathered(keys2, want, v))
  {
    hide LastFor, Gathered;
    var a, b := LastOfEach(Gathered(keys1, want, v)), LastOfEach(Gathered(keys2, want, v));
    GatheredIsLongest(keys1, want, v);
    GatheredIsLongest(keys2, want, v);
    EnumerationLength(keys1, want.Keys);
    EnumerationLength(keys2, want.Keys);
    if keys1 != [] {
      var i :| i in keys1 && a == LastFor(want, i, v);
      var j :| j in keys2 && b == LastFor(want, j, v);
      SuffixEachWay(a, b);
    }
    LastOfEachIds(Gathered(keys1, want, v));
    LastOfEachIds(Gathered(keys2, want, v));
  }

  /** Whichever key is met last, its last configs end the list. */
  lemma LastKeyEnds(keys: seq<string>, k: string, want: AclLists, v: string)
    ensures IsSuffix(LastFor(want, k, v), LastOfEach(Gathered(keys + [k], want, v)))
  {
    hide LastOfEach, IsSuffix, ForVrf;
    GatheredConcat(keys, [k], want, v);
    assert [k][1..] == [];
    assert Gathered([k], want, v) == ForVrf(At(want, k), v) + Gathered([], want, v) == ForVrf(At(want, k), v);
    LastConcatEnds(Gathered(keys, want, v), ForVrf(At(want, k), v));
  }

  lemma LastConcatEnds(a: seq<AclConfig>, b: seq<AclConfig>)
    ensures IsSuffix(LastOfEach(b), LastOfEach(a + b))
  {
    hide Foreign, LastOfEach;
    LastOfEachConcat(a, b);
  }
}
