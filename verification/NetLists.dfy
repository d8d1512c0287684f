/** The list comparisons that peer reconciliation rests on: util/common.go and
    compareNetIPLists of client/internal/engine.go. */
module NetLists {
  import opened Prelude
  import opened PeerModel
  import opened PeerEngine

  /** The elements of `x` that are not in `y`, in order and with repetitions. */
  function Difference(x: seq<string>, y: seq<string>): seq<string> {
    if x == [] then []
    else
      var front := Difference(x[..|x| - 1], y);
      if x[|x| - 1] in y then front else front + [x[|x| - 1]]
  }

  lemma {:induction false} DifferenceMembers(x: seq<string>, y: seq<string>)
    ensures forall s :: s in Difference(x, y) <==> s in x && s !in y
  {
    if x != [] {
      DifferenceMembers(x[..|x| - 1], y);
      assert x == x[..|x| - 1] + [x[|x| - 1]];
    }
  }

  /** The difference keeps order and repetitions: it works on every part of the list by itself. */
  lemma {:induction false} DifferenceConcat(a: seq<string>, b: seq<string>, y: seq<string>)
    ensures Difference(a + b, y) == Difference(a, y) + Difference(b, y)
    ensures forall s :: Difference([s], y) == if s in y then [] else [s]
  {
    forall s ensures Difference([s], y) == if s in y then [] else [s] {
      assert [s][..0] == [];
    }
    if b == [] {
      assert a + b == a;
    } else {
      var front := b[..|b| - 1];
      DifferenceConcat(a, front, y);
      assert (a + b)[..|a + b| - 1] == a + front;
    }
  }

  method SliceDiff(x: seq<string>, y: seq<string>) returns (diff: seq<string>)
    ensures diff == Difference(x, y)
    ensures forall s :: s in diff <==> s in x && s !in y
  {
    var mapY: set<string> := {};
    for i := 0 to |y|
      invariant forall s :: s in mapY <==> s in y[..i]
    {
      mapY := mapY + {y[i]};
    }
    assert y[..|y|] == y;
    diff := [];
    for i := 0 to |x|
      invariant diff == Difference(x[..i], y)
    {
      assert x[..i + 1][..i] == x[..i];
      if x[i] !in mapY {
        diff := diff + [x[i]];
      }
    }
    assert x[..|x|] == x;
    DifferenceMembers(x, y);
  }

  // ------------------------------------------------------------ compareNetIPLists

  function Count(freq: map<string, int>, text: string): int {
    GetOr(freq, text, 0)
  }

  /** Counts every canonical text of the list. */
  method Frequencies(list: seq<Prefix>) returns (freq: map<string, int>)
    ensures forall t :: Count(freq, t) == multiset(list)[Prefix(t)]
  {
    freq := map[];
    for i := 0 to |list|
      invariant forall t :: Count(freq, t) == multiset(list[..i])[Prefix(t)]
    {
      assert list[..i + 1] == list[..i] + [list[i]];
      assert list[i] == Prefix(list[i].text);
      freq := freq[list[i].text := Count(freq, list[i].text) + 1];
    }
    assert list[..|list|] == list;
  }

  lemma SameSizeSubset(a: multiset<Prefix>, b: multiset<Prefix>)
    requires |a| == |b| && forall p :: b[p] <= a[p]
    ensures a == b
  {
    assert b <= a;
    assert a == (a - b) + b;
    assert |a| == |a - b| + |b|;
  }

  lemma PrefixCount(s: seq<Prefix>, j: nat, p: Prefix)
    requires j <= |s|
    ensures multiset(s[..j])[p] <= multiset(s)[p]
  {
    assert s == s[..j] + s[j..];
  }

  /** The counts are what is left of `list` after taking `parsed` away. */
  ghost predicate Balanced(freq: map<string, int>, list: seq<Prefix>, parsed: seq<Prefix>) {
    forall t :: 0 <= Count(freq, t) && Count(freq, t) + multiset(parsed)[Prefix(t)] == multiset(list)[Prefix(t)]
  }

  lemma BalancedStep(freq: map<string, int>, list: seq<Prefix>, parsed: seq<Prefix>, p: Prefix)
    requires Balanced(freq, list, parsed) && Count(freq, p.text) != 0
    ensures Balanced(freq[p.text := Count(freq, p.text) - 1], list, parsed + [p])
  {
    var freq' := freq[p.text := Count(freq, p.text) - 1];
    forall t ensures 0 <= Count(freq', t)
                     && Count(freq', t) + multiset(parsed + [p])[Prefix(t)] == multiset(list)[Prefix(t)]
    {
      assert 0 <= Count(freq, t) && Count(freq, t) + multiset(parsed)[Prefix(t)] == multiset(list)[Prefix(t)];
      assert Prefix(t) == p <==> t == p.text;
    }
  }

  /** A text with no count left occurs more often on the other side. */
  lemma Exhausted(freq: map<string, int>, list: seq<Prefix>, all: seq<Prefix>, j: nat)
    requires j < |all| && Balanced(freq, list, all[..j]) && Count(freq, all[j].text) == 0
    ensures multiset(list) != multiset(all)
  {
    var p := all[j];
    assert p == Prefix(p.text);
    assert all[..j + 1] == all[..j] + [p];
    PrefixCount(all, j + 1, p);
    assert multiset(all[..j + 1])[p] == multiset(all[..j])[p] + 1;
    assert Count(freq, p.text) + multiset(all[..j])[Prefix(p.text)] == multiset(list)[Prefix(p.text)];
  }

  lemma BalancedEnd(freq: map<string, int>, list: seq<Prefix>, all: seq<Prefix>)
    requires Balanced(freq, list, all) && |list| == |all|
    ensures multiset(list) == multiset(all)
    ensures forall t :: Count(freq, t) == 0
  {
    forall p ensures multiset(all)[p] <= multiset(list)[p] {
      assert p == Prefix(p.text);
      assert Count(freq, p.text) >= 0;
    }
    SameSizeSubset(multiset(list), multiset(all));
  }

  /** Decides multiset equality. `leftover` reports that the closing scan over the counts found
      one that is not zero; it never does. */
  method CompareNetIPLists(env: Env, list1: seq<Prefix>, list2: seq<string>) returns (same: bool, leftover: bool)
    ensures same <==> SameIps(env, list1, list2)
    ensures !leftover
  {
    leftover := false;
    if |list1| != |list2| {
      DifferentLengths(env, list1, list2);
      return false, false;
    }
    var freq := Frequencies(list1);
    for j := 0 to |list2|
      invariant AllParse(env, list2[..j])
      invariant Balanced(freq, list1, ParseAll(env, list2[..j]))
    {
      var r := env.parse(list2[j]);
      if r.None? {
        return false, false;
      }
      assert AllParse(env, list2[..j + 1]);
      assert ParseAll(env, list2[..j + 1]) == ParseAll(env, list2[..j]) + [r.value];
      var key := r.value.text;
      if Count(freq, key) == 0 {
        if AllParse(env, list2) {
          assert ParseAll(env, list2)[..j] == ParseAll(env, list2[..j]);
          Exhausted(freq, list1, ParseAll(env, list2), j);
        }
        return false, false;
      }
      BalancedStep(freq, list1, ParseAll(env, list2[..j]), r.value);
      freq := freq[key := Count(freq, key) - 1];
    }
    assert list2[..|list2|] == list2;
    BalancedEnd(freq, list1, ParseAll(env, list2));
    assert forall t :: t in freq ==> freq[t] == Count(freq, t);
    leftover := AnyLeft(freq);
    same := !leftover;
  }

  /** The closing scan: some count is not zero. */
  method AnyLeft(freq: map<string, int>) returns (found: bool)
    ensures found <==> exists t :: t in freq && freq[t] != 0
  {
    var rest := freq.Keys;
    while rest != {}
      invariant rest <= freq.Keys
      invariant forall t :: t in freq && t !in rest ==> freq[t] == 0
    {
      var t :| t in rest;
      if freq[t] != 0 {
        return true;
      }
      rest := rest - {t};
    }
    found := false;
  }

  lemma DifferentLengths(env: Env, list1: seq<Prefix>, list2: seq<string>)
    requires |list1| != |list2|
    ensures !SameIps(env, list1, list2)
  {
    if AllParse(env, list2) {
      assert |multiset(list1)| == |list1| && |multiset(ParseAll(env, list2))| == |list2|;
    }
  }
}
