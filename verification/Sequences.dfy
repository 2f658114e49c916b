/** Sequence vocabulary shared by the models: stable sorting as Python's list.sort
    performs it, the `list[-n:]` suffix, and the subsequence relation. */
module Sequences {

  datatype Option<+T> = None | Some(value: T) {
    function GetOr(default: T): T {
      match this
      case Some(v) => v
      case None => default
    }
  }

  /** `s[-n:]` for a positive n. */
  function LastN<T>(s: seq<T>, n: nat): seq<T> {
    if |s| <= n then s else s[|s| - n..]
  }

  /** The elements that satisfy p, in order. */
  function Select<T>(p: T -> bool, s: seq<T>): seq<T> {
    if s == [] then []
    else Select(p, s[..|s| - 1]) + if p(s[|s| - 1]) then [s[|s| - 1]] else []
  }

  lemma {:induction false} SelectConcat<T>(p: T -> bool, a: seq<T>, b: seq<T>)
    ensures Select(p, a + b) == Select(p, a) + Select(p, b)
  {
    if b == [] {
      assert a + b == a;
    } else {
      SelectConcat(p, a, b[..|b| - 1]);
      assert (a + b)[..|a + b| - 1] == a + b[..|b| - 1];
    }
  }

  lemma SelectOne<T>(p: T -> bool, x: T)
    ensures Select(p, [x]) == if p(x) then [x] else []
  {
    assert [x][..0] == [];
  }

  /** Removing element k: `del s[k]`. */
  function Without<T>(s: seq<T>, k: nat): seq<T>
    requires k < |s|
  {
    s[..k] + s[k + 1..]
  }

  lemma SelectSplit<T>(p: T -> bool, s: seq<T>, k: nat)
    requires k < |s|
    ensures Select(p, s) == Select(p, s[..k]) + (if p(s[k]) then [s[k]] else []) + Select(p, s[k + 1..])
  {
    var front, back := s[..k + 1], s[k + 1..];
    assert s == front + back && front[..k] == s[..k];
    SelectConcat(p, front, back);
  }

  /** Replacing an unselected element by another unselected one does not show. */
  lemma SelectUpdate<T>(p: T -> bool, s: seq<T>, k: nat, x: T)
    requires k < |s| && !p(s[k]) && !p(x)
    ensures Select(p, s[k := x]) == Select(p, s)
  {
    SelectSplit(p, s, k);
    SelectSplit(p, s[k := x], k);
    assert s[k := x][..k] == s[..k] && s[k := x][k + 1..] == s[k + 1..];
  }

  /** Deleting an element deletes it from the selection, if it was selected. */
  lemma {:induction false} SelectWithout<T>(p: T -> bool, s: seq<T>, k: nat)
    requires k < |s|
    ensures !p(s[k]) ==> Select(p, Without(s, k)) == Select(p, s)
    ensures p(s[k]) ==> var at := |Select(p, s[..k])|;
                        at < |Select(p, s)| && Select(p, s)[at] == s[k]
                        && Select(p, Without(s, k)) == Without(Select(p, s), at)
  {
    SelectSplit(p, s, k);
    SelectConcat(p, s[..k], s[k + 1..]);
    var front, back := Select(p, s[..k]), Select(p, s[k + 1..]);
    if p(s[k]) {
      assert Select(p, s) == front + [s[k]] + back;
      assert Without(front + [s[k]] + back, |front|) == front + back;
    } else {
      assert front + [] + back == front + back;
    }
  }

  // ---------- stable sorting ----------

  ghost predicate TotalPreorder<T(!new)>(le: (T, T) -> bool) {
    && (forall x, y :: le(x, y) || le(y, x))
    && (forall x, y, z :: le(x, y) && le(y, z) ==> le(x, z))
  }

  ghost predicate SortedBy<T>(le: (T, T) -> bool, s: seq<T>) {
    forall i, j :: 0 <= i < j < |s| ==> le(s[i], s[j])
  }

  /** Puts x behind every element that is not greater: the step of a stable insertion sort. */
  function Insert<T>(le: (T, T) -> bool, s: seq<T>, x: T): seq<T> {
    if s == [] || le(s[|s| - 1], x) then s + [x]
    else Insert(le, s[..|s| - 1], x) + [s[|s| - 1]]
  }

  function Sort<T>(le: (T, T) -> bool, s: seq<T>): seq<T> {
    if s == [] then [] else Insert(le, Sort(le, s[..|s| - 1]), s[|s| - 1])
  }

  lemma {:induction false} InsertMultiset<T>(le: (T, T) -> bool, s: seq<T>, x: T)
    ensures multiset(Insert(le, s, x)) == multiset(s) + multiset{x}
  {
    if s == [] || le(s[|s| - 1], x) {
    } else {
      InsertMultiset(le, s[..|s| - 1], x);
      assert s == s[..|s| - 1] + [s[|s| - 1]];
    }
  }

  lemma {:induction false} InsertSorted<T(!new)>(le: (T, T) -> bool, s: seq<T>, x: T)
    requires TotalPreorder(le) && SortedBy(le, s)
    ensures SortedBy(le, Insert(le, s, x))
  {
    if s == [] || le(s[|s| - 1], x) {
    } else {
      var front, last := s[..|s| - 1], s[|s| - 1];
      InsertSorted(le, front, x);
      InsertMultiset(le, front, x);
      var r := Insert(le, front, x);
      forall i | 0 <= i < |r|
        ensures le(r[i], last)
      {
        assert r[i] in multiset(r);
        assert r[i] == x || r[i] in front;
      }
    }
  }

  lemma {:induction false} SortMultiset<T>(le: (T, T) -> bool, s: seq<T>)
    ensures multiset(Sort(le, s)) == multiset(s)
  {
    if s != [] {
      SortMultiset(le, s[..|s| - 1]);
      InsertMultiset(le, Sort(le, s[..|s| - 1]), s[|s| - 1]);
      assert s == s[..|s| - 1] + [s[|s| - 1]];
    }
  }

  lemma SortMembers<T>(le: (T, T) -> bool, s: seq<T>)
    ensures forall x :: x in Sort(le, s) <==> x in s
    ensures |Sort(le, s)| == |s|
  {
    SortMultiset(le, s);
    assert |Sort(le, s)| == |multiset(Sort(le, s))| == |multiset(s)|;
    forall x
      ensures x in Sort(le, s) <==> x in s
    {
      assert x in Sort(le, s) <==> x in multiset(Sort(le, s));
      assert x in s <==> x in multiset(s);
    }
  }

  lemma {:induction false} SortSorted<T(!new)>(le: (T, T) -> bool, s: seq<T>)
    requires TotalPreorder(le)
    ensures SortedBy(le, Sort(le, s))
  {
    if s != [] {
      SortSorted(le, s[..|s| - 1]);
      InsertSorted(le, Sort(le, s[..|s| - 1]), s[|s| - 1]);
    }
  }

  lemma {:induction false} SortIdentity<T>(le: (T, T) -> bool, s: seq<T>)
    requires SortedBy(le, s)
    ensures Sort(le, s) == s
  {
    if s != [] {
      SortIdentity(le, s[..|s| - 1]);
      if |s| > 1 {
        assert le(s[|s| - 2], s[|s| - 1]);
      }
    }
  }

  /** Sorting an appended element is one insertion into the sorted rest. */
  lemma SortAppend<T>(le: (T, T) -> bool, s: seq<T>, x: T)
    ensures Sort(le, s + [x]) == Insert(le, Sort(le, s), x)
  {
    assert (s + [x])[..|s|] == s;
  }

  ghost predicate Antisymmetric<T(!new)>(le: (T, T) -> bool) {
    forall x, y :: le(x, y) && le(y, x) ==> x == y
  }

  lemma FrontMultiset<T(!new)>(s: seq<T>)
    requires s != []
    ensures multiset(s[..|s| - 1]) == multiset(s) - multiset{s[|s| - 1]}
    ensures s == s[..|s| - 1] + [s[|s| - 1]]
  {
    assert s == s[..|s| - 1] + [s[|s| - 1]];
  }

  /** Over a total order a sorted sequence is determined by its elements. */
  lemma {:induction false} SortedUnique<T(!new)>(le: (T, T) -> bool, s: seq<T>, t: seq<T>)
    requires TotalPreorder(le) && Antisymmetric(le)
    requires SortedBy(le, s) && SortedBy(le, t) && multiset(s) == multiset(t)
    ensures s == t
  {
    assert |multiset(s)| == |s| && |multiset(t)| == |t|;
    if s != [] {
      LastIsGreatest(le, s, t);
      FrontMultiset(s);
      FrontMultiset(t);
      SortedUnique(le, s[..|s| - 1], t[..|t| - 1]);
    }
  }

  lemma LastIsGreatest<T(!new)>(le: (T, T) -> bool, s: seq<T>, t: seq<T>)
    requires TotalPreorder(le) && Antisymmetric(le)
    requires SortedBy(le, s) && SortedBy(le, t) && multiset(s) == multiset(t)
    requires s != [] && t != []
    ensures s[|s| - 1] == t[|t| - 1]
  {
    var x, y := s[|s| - 1], t[|t| - 1];
    assert x in multiset(t) && y in multiset(s);
    var i :| 0 <= i < |t| && t[i] == x;
    var j :| 0 <= j < |s| && s[j] == y;
    assert le(x, y) by { if i < |t| - 1 { assert le(t[i], t[|t| - 1]); } else { assert le(x, x); } }
    assert le(y, x) by { if j < |s| - 1 { assert le(s[j], s[|s| - 1]); } else { assert le(y, y); } }
  }

  // ---------- string order ----------

  /** `<=` on Python strings. */
  predicate LexLe(x: string, y: string) {
    if x == "" then true
    else if y == "" then false
    else if x[0] == y[0] then LexLe(x[1..], y[1..])
    else x[0] < y[0]
  }

  /** One string comes before another exactly when it is a prefix of it, or has the smaller
      character in the first place where they differ. */
  lemma {:induction false} LexLeMeans(x: string, y: string)
    ensures LexLe(x, y) <==> x <= y || exists k: nat :: FirstDifference(x, y, k) && x[k] < y[k]
  {
    if x != "" && y != "" {
      if x[0] == y[0] {
        LexLeMeans(x[1..], y[1..]);
        assert x <= y <==> x[1..] <= y[1..] by { assert x == [x[0]] + x[1..] && y == [y[0]] + y[1..]; }
        forall k: nat
          ensures FirstDifference(x, y, k + 1) <==> FirstDifference(x[1..], y[1..], k)
        {
          if FirstDifference(x[1..], y[1..], k) {
            assert forall i :: 0 <= i < k + 1 ==> x[i] == if i == 0 then x[0] else x[1..][i - 1];
          }
          if FirstDifference(x, y, k + 1) {
            assert forall i :: 0 <= i < k ==> x[1..][i] == x[i + 1] && y[1..][i] == y[i + 1];
          }
        }
        if k: nat :| FirstDifference(x, y, k) && x[k] < y[k] {
          assert k > 0 && FirstDifference(x[1..], y[1..], k - 1);
        }
        if k: nat :| FirstDifference(x[1..], y[1..], k) && x[1..][k] < y[1..][k] {
          assert FirstDifference(x, y, k + 1);
        }
      } else {
        assert FirstDifference(x, y, 0);
        assert forall k: nat :: FirstDifference(x, y, k) ==> k == 0;
      }
    }
  }

  ghost predicate FirstDifference(x: string, y: string, k: nat) {
    k < |x| && k < |y| && x[k] != y[k] && forall i :: 0 <= i < k ==> x[i] == y[i]
  }

  lemma {:induction false} LexTotal(x: string, y: string)
    ensures LexLe(x, y) || LexLe(y, x)
  {
    if x != "" && y != "" && x[0] == y[0] {
      LexTotal(x[1..], y[1..]);
    }
  }

  lemma {:induction false} LexTransitive(x: string, y: string, z: string)
    requires LexLe(x, y) && LexLe(y, z)
    ensures LexLe(x, z)
  {
    if x != "" && x[0] == y[0] && y[0] == z[0] {
      LexTransitive(x[1..], y[1..], z[1..]);
    }
  }

  lemma {:induction false} LexAntisymmetric(x: string, y: string)
    requires LexLe(x, y) && LexLe(y, x)
    ensures x == y
  {
    if x != "" {
      LexAntisymmetric(x[1..], y[1..]);
      assert x == [x[0]] + x[1..] && y == [y[0]] + y[1..];
    }
  }

  // ---------- subsequences ----------

  /** s can be obtained from t by deleting elements. */
  ghost predicate IsSubsequence<T>(s: seq<T>, t: seq<T>) {
    if s == [] then true
    else if t == [] then false
    else if s[|s| - 1] == t[|t| - 1] then IsSubsequence(s[..|s| - 1], t[..|t| - 1])
    else IsSubsequence(s, t[..|t| - 1])
  }

  lemma {:induction false} SubsequenceSkip<T>(s: seq<T>, t: seq<T>, x: T)
    requires IsSubsequence(s, t)
    ensures IsSubsequence(s, t + [x])
    decreases |s| + |t|
  {
    assert (t + [x])[..|t|] == t;
    if s != [] && s[|s| - 1] == x {
      SubsequenceDropLast(s, t);
    }
  }

  lemma {:induction false} SubsequenceDropLast<T>(s: seq<T>, t: seq<T>)
    requires s != [] && IsSubsequence(s, t)
    ensures IsSubsequence(s[..|s| - 1], t)
    decreases |s| + |t|, 1
  {
    var last := t[|t| - 1];
    assert t == t[..|t| - 1] + [last];
    if s[|s| - 1] == last {
      SubsequenceSkip(s[..|s| - 1], t[..|t| - 1], last);
    } else {
      SubsequenceDropLast(s, t[..|t| - 1]);
      SubsequenceSkip(s[..|s| - 1], t[..|t| - 1], last);
    }
  }

  lemma SubsequenceKeep<T>(s: seq<T>, t: seq<T>, x: T)
    requires IsSubsequence(s, t)
    ensures IsSubsequence(s + [x], t + [x])
  {
    assert (s + [x])[..|s|] == s && (t + [x])[..|t|] == t;
  }

  /** Deleting one element of a subsequence leaves a subsequence. */
  lemma {:induction false} SubsequenceDelete<T>(s: seq<T>, k: nat, t: seq<T>)
    requires k < |s| && IsSubsequence(s, t)
    ensures IsSubsequence(Without(s, k), t)
    decreases |t|
  {
    var r := Without(s, k);
    if k == |s| - 1 {
      SubsequenceDropLast(s, t);
      assert r == s[..|s| - 1];
    } else {
      var last := t[|t| - 1];
      assert t == t[..|t| - 1] + [last];
      if s[|s| - 1] == last {
        var front := s[..|s| - 1];
        SubsequenceDelete(front, k, t[..|t| - 1]);
        assert r == Without(front, k) + [last];
        SubsequenceKeep(Without(front, k), t[..|t| - 1], last);
      } else {
        SubsequenceDelete(s, k, t[..|t| - 1]);
        SubsequenceSkip(r, t[..|t| - 1], last);
      }
    }
  }

  // ---------- dictionaries listed in key order ----------

  ghost function Member<T>(s: set<T>): (x: T)
    requires s != {}
    ensures x in s
  {
    var x :| x in s;
    x
  }

  ghost predicate IsGreatest(k: int, keys: set<int>) {
    k in keys && forall j :: j in keys ==> j <= k
  }

  lemma {:induction false} GreatestExists(keys: set<int>)
    requires keys != {}
    ensures exists k :: k in keys && IsGreatest(k, keys)
  {
    var x := Member(keys);
    var rest := keys - {x};
    assert keys == rest + {x};
    if rest == {} {
      assert IsGreatest(x, keys);
    } else {
      GreatestExists(rest);
      var j :| j in rest && IsGreatest(j, rest);
      assert IsGreatest(if j < x then x else j, keys);
    }
  }

  /** `max(keys)`. */
  function Greatest(keys: set<int>): (k: int)
    requires keys != {}
    ensures k in keys && forall j :: j in keys ==> j <= k
  {
    GreatestExists(keys);
    var k :| k in keys && forall j :: j in keys ==> j <= k;
    k
  }

  ghost predicate StrictlyIncreasing(s: seq<int>) {
    forall i, j :: 0 <= i < j < |s| ==> s[i] < s[j]
  }

  lemma {:induction false} IncreasingSet(s: seq<int>)
    requires StrictlyIncreasing(s)
    ensures |set x | x in s| == |s|
  {
    if s != [] {
      var front, last := s[..|s| - 1], s[|s| - 1];
      IncreasingSet(front);
      assert s == front + [last];
      assert last !in front;
      assert (set x | x in s) == (set x | x in front) + {last};
    }
  }

  /** `sorted(keys)`. */
  function SortedKeys(keys: set<int>): seq<int>
    decreases |keys|
  {
    if keys == {} then []
    else
      var k := Greatest(keys);
      SortedKeys(keys - {k}) + [k]
  }

  lemma {:induction false} SortedKeysMembers(keys: set<int>)
    ensures |SortedKeys(keys)| == |keys|
    ensures forall i :: 0 <= i < |keys| ==> SortedKeys(keys)[i] in keys
    ensures forall k :: k in keys ==> k in SortedKeys(keys)
    decreases |keys|
  {
    if keys != {} {
      var k := Greatest(keys);
      SortedKeysMembers(keys - {k});
    }
  }

  lemma {:induction false} SortedKeysIncrease(keys: set<int>)
    ensures StrictlyIncreasing(SortedKeys(keys))
    decreases |keys|
  {
    if keys != {} {
      var k := Greatest(keys);
      var front := SortedKeys(keys - {k});
      SortedKeysIncrease(keys - {k});
      SortedKeysMembers(keys - {k});
      forall i | 0 <= i < |front|
        ensures front[i] < k
      {
        assert front[i] in keys - {k};
      }
    }
  }

  lemma SortedKeysGreatest(keys: set<int>, k: int)
    requires forall j :: j in keys ==> j < k
    ensures SortedKeys(keys + {k}) == SortedKeys(keys) + [k]
  {
    var all := keys + {k};
    assert k in all;
    assert Greatest(all) == k;
    assert all - {k} == keys;
  }

  /** `[m[key] for key in keys]`. */
  function ValuesAt<V>(m: map<int, V>, keys: seq<int>): (r: seq<V>)
    requires forall i :: 0 <= i < |keys| ==> keys[i] in m
    ensures |r| == |keys| && forall i :: 0 <= i < |keys| ==> r[i] == m[keys[i]]
  {
    seq(|keys|, i requires 0 <= i < |keys| => m[keys[i]])
  }

  /** `[m[key] for key in sorted(m)]`. */
  function InKeyOrder<V>(m: map<int, V>): seq<V> {
    SortedKeysMembers(m.Keys);
    ValuesAt(m, SortedKeys(m.Keys))
  }

  lemma InKeyOrderEntry<V>(m: map<int, V>, i: nat)
    requires i < |InKeyOrder(m)|
    ensures var keys := SortedKeys(m.Keys);
            |keys| == |InKeyOrder(m)| && keys[i] in m && InKeyOrder(m)[i] == m[keys[i]]
  {
    SortedKeysMembers(m.Keys);
  }

  /** Listing a dictionary after setting a key greater than all others appends its value. */
  lemma InKeyOrderGreatest<V>(m: map<int, V>, k: int, v: V)
    requires forall j :: j in m ==> j < k
    ensures InKeyOrder(m[k := v]) == InKeyOrder(m) + [v]
  {
    var n, keys := m[k := v], SortedKeys(m.Keys);
    assert n.Keys == m.Keys + {k};
    SortedKeysGreatest(m.Keys, k);
    SortedKeysMembers(m.Keys);
    SortedKeysMembers(n.Keys);
    assert forall i :: 0 <= i < |keys| ==> keys[i] in m && keys[i] != k;
    assert ValuesAt(n, keys + [k]) == ValuesAt(m, keys) + [v];
  }
}
