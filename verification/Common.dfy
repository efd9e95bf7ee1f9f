/** Small shared datatypes and the identifiers of the control plane. */
module Common {

  datatype Option<+T> = None | Some(value: T)

  datatype Result<+T, +E> = Ok(value: T) | Err(error: E)

  /** A UUID in its printed form: 36 characters. */
  type Uuid = s: string | |s| == 36 witness seq(36, i => '0')

  /** `uuid.Nil`, the zero UUID. */
  const NIL: Uuid := "00000000-0000-0000-0000-000000000000"

  /** The first `n` characters of `s`, or all of `s` when it is shorter. */
  function Truncate(s: string, n: nat): string {
    if |s| <= n then s else s[..n]
  }

  /** The value of a Go `map[K][]V` at `k`: a missing key reads as the empty slice. */
  function At<K, V>(m: map<K, seq<V>>, k: K): seq<V> {
    if k in m then m[k] else []
  }

  /** `s` lists the members of `elems`, each exactly once, in some order. */
  ghost predicate Enumerates<T(!new)>(s: seq<T>, elems: set<T>) {
    && (forall x :: x in s <==> x in elems)
    && (forall i, j | 0 <= i < j < |s| :: s[i] != s[j])
  }

  lemma {:induction false} EnumerationLength<T(!new)>(s: seq<T>, elems: set<T>)
    requires Enumerates(s, elems)
    ensures |s| == |elems|
  {
    if |s| == 0 {
      assert forall x :: x !in elems;
      assert elems == {};
    } else {
      var last := |s| - 1;
      forall x ensures x in s[..last] <==> x in elems - {s[last]} {
        if x in elems - {s[last]} {
          var i :| 0 <= i < |s| && s[i] == x;
          assert s[..last][i] == x;
        }
      }
      EnumerationLength(s[..last], elems - {s[last]});
    }
  }

  /** Every finite set can be listed. */
  lemma {:induction false} SomeOrder<T(!new)>(elems: set<T>) returns (s: seq<T>)
    ensures Enumerates(s, elems)
  {
    if elems == {} {
      s := [];
    } else {
      var x :| x in elems;
      var rest := SomeOrder(elems - {x});
      s := rest + [x];
      forall y ensures y in s <==> y in elems {
        if y in elems && y != x { assert y in rest; }
      }
      forall i | 0 <= i < |rest| ensures rest[i] != x { assert rest[i] in rest; }
    }
  }

  /** The integers from `lo` up to but not including `hi`. */
  ghost function Interval(lo: int, hi: int): (r: set<int>)
    ensures forall x :: x in r <==> lo <= x < hi
    decreases hi - lo
  {
    if hi <= lo then {} else Interval(lo, hi - 1) + {hi - 1}
  }

  lemma {:induction false} IntervalSize(lo: int, hi: int)
    requires lo <= hi
    ensures |Interval(lo, hi)| == hi - lo
    decreases hi - lo
  {
    if lo < hi { IntervalSize(lo, hi - 1); }
  }

  // ---- lists picked from lists ----

  /** `r` is what stands in `s` at the positions `at`, which go up. */
  ghost predicate PickedAt<T>(r: seq<T>, s: seq<T>, at: seq<nat>) {
    && |at| == |r|
    && (forall i, j | 0 <= i < j < |at| :: at[i] < at[j])
    && (forall i | 0 <= i < |at| :: at[i] < |s| && r[i] == s[at[i]])
  }

  lemma PickedNone<T>()
    ensures PickedAt<T>([], [], [])
  {
  }

  function MovedUp(at: seq<nat>): seq<nat> {
    seq(|at|, i requires 0 <= i < |at| => at[i] + 1)
  }

  lemma MovedUpMembers(at: seq<nat>, j: nat)
    ensures j in MovedUp(at) <==> j > 0 && j - 1 in at
  {
    if j > 0 && j - 1 in at {
      var i :| 0 <= i < |at| && at[i] == j - 1;
      assert MovedUp(at)[i] == j;
    }
  }

  /** The positions in a list that is longer by one element in front, picked or not. */
  lemma PickedCons<T>(r: seq<T>, s: seq<T>, at: seq<nat>, first: T, picked: bool) returns (more: seq<nat>)
    requires PickedAt(r, s, at)
    ensures PickedAt(if picked then [first] + r else r, [first] + s, more)
    ensures forall j: nat :: j in more <==> if j == 0 then picked else j - 1 in at
  {
    var up := MovedUp(at);
    PickedMovedUp(r, s, at, first);
    forall j: nat ensures j in up <==> j > 0 && j - 1 in at {
      MovedUpMembers(at, j);
    }
    hide MovedUp, PickedAt;
    more := if picked then [0] + up else up;
    if picked { PickedFirst(r, [first] + s, up); }
  }

  lemma PickedFirst<T>(r: seq<T>, s: seq<T>, at: seq<nat>)
    requires s != [] && PickedAt(r, s, at) && forall i | 0 <= i < |at| :: at[i] > 0
    ensures PickedAt([s[0]] + r, s, [0] + at)
  {
    var more, longer := [0] + at, [s[0]] + r;
    forall i | 0 < i < |more| ensures more[i] == at[i - 1] && longer[i] == r[i - 1] {
    }
  }

  lemma PickedMovedUp<T>(r: seq<T>, s: seq<T>, at: seq<nat>, first: T)
    requires PickedAt(r, s, at)
    ensures PickedAt(r, [first] + s, MovedUp(at)) && forall i | 0 <= i < |at| :: MovedUp(at)[i] > 0
  {
  }

  lemma PickedSnoc<T>(r: seq<T>, s: seq<T>, at: seq<nat>, last: T)
    requires PickedAt(r, s, at)
    ensures PickedAt(r, s + [last], at) && PickedAt(r + [last], s + [last], at + [|s|])
  {
    var more, longer, all := at + [|s|], r + [last], s + [last];
    forall i | 0 <= i < |more| ensures more[i] < |all| && longer[i] == all[more[i]] {
      if i < |at| { assert at[i] < |s|; }
    }
  }
}
