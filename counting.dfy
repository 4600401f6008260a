/**
 * The count dictionary built by the dashboard's two counting loops.
 *
 * A JavaScript object used as a dictionary iterates its keys in insertion order, so it is
 * modelled as an ordered association list of entries. `Bump` is the one step both loops
 * perform; `Tally` is an independent description of the finished dictionary (the distinct
 * keys in order of first occurrence, each with its number of occurrences), and
 * `TallySnoc` connects the two.
 */
module Counting {
  import opened Wrappers

  datatype Entry<K> = Entry(key: K, count: nat)

  /** Number of positions of `s` that hold `k`. */
  function CountOf<K(==)>(k: K, s: seq<K>): (n: nat)
    ensures n <= |s|
    ensures n > 0 <==> k in s
  {
    if s == [] then 0
    else
      assert s == s[..|s| - 1] + [s[|s| - 1]];
      CountOf(k, s[..|s| - 1]) + (if s[|s| - 1] == k then 1 else 0)
  }

  predicate Distinct<K(==)>(ks: seq<K>) {
    forall i, j :: 0 <= i < j < |ks| ==> ks[i] != ks[j]
  }

  /** The distinct elements of `s`, each where it first occurs in `s`. */
  function FirstOccurrences<K(==)>(s: seq<K>): (ks: seq<K>)
    ensures forall i :: 0 <= i < |ks| ==> ks[i] in s
    ensures Distinct(ks)
  {
    if s == [] then []
    else
      assert s == s[..|s| - 1] + [s[|s| - 1]];
      var earlier := FirstOccurrences(s[..|s| - 1]);
      if s[|s| - 1] in earlier then earlier else earlier + [s[|s| - 1]]
  }

  /** The index of the first occurrence of `k` in `s`, or `|s|` when there is none. */
  function Position<K(==)>(s: seq<K>, k: K): (i: nat)
    ensures i <= |s|
    ensures i < |s| ==> s[i] == k
    ensures forall j :: 0 <= j < i ==> s[j] != k
  {
    if s == [] then 0
    else if s[0] == k then 0
    else 1 + Position(s[1..], k)
  }

  /** The first index holding `k` is the only one with the properties `Position` promises. */
  lemma {:induction false} PositionUnique<K>(s: seq<K>, k: K, i: nat)
    requires i <= |s|
    requires i < |s| ==> s[i] == k
    requires forall j :: 0 <= j < i ==> s[j] != k
    ensures Position(s, k) == i
    decreases |s|
  {
    if s != [] && s[0] != k {
      PositionUnique(s[1..], k, i - 1);
    }
  }

  function Keys<K>(t: seq<Entry<K>>): (ks: seq<K>)
    ensures |ks| == |t|
    ensures forall i :: 0 <= i < |t| ==> ks[i] == t[i].key
  {
    seq(|t|, i requires 0 <= i < |t| => t[i].key)
  }

  function Counts<K>(t: seq<Entry<K>>): (ns: seq<nat>)
    ensures |ns| == |t|
    ensures forall i :: 0 <= i < |t| ==> ns[i] == t[i].count
  {
    seq(|t|, i requires 0 <= i < |t| => t[i].count)
  }

  /** Sum of all counts stored in the dictionary. */
  function SumCounts<K>(t: seq<Entry<K>>): nat {
    if t == [] then 0 else SumCounts(t[..|t| - 1]) + t[|t| - 1].count
  }

  /** The dictionary the counting loops produce for the key sequence `s` (the specification). */
  function Tally<K(==)>(s: seq<K>): seq<Entry<K>> {
    var ks := FirstOccurrences(s);
    seq(|ks|, i requires 0 <= i < |ks| => Entry(ks[i], CountOf(ks[i], s)))
  }

  /** Position of the entry for `k`, or `|t|` when there is none. */
  function IndexOf<K(==)>(t: seq<Entry<K>>, k: K): (i: nat)
    ensures i <= |t|
    ensures i < |t| ==> t[i].key == k
    ensures forall j :: 0 <= j < i ==> t[j].key != k
  {
    Position(Keys(t), k)
  }

  /** The dictionary read `data[key]`; `None` is JavaScript's `undefined`. */
  function Lookup<K(==)>(t: seq<Entry<K>>, k: K): Option<nat> {
    var i := IndexOf(t, k);
    if i < |t| then Some(t[i].count) else None
  }

  /** A read finds a count exactly when the key has an entry, and that entry holds the count. */
  lemma LookupFinds<K>(t: seq<Entry<K>>, k: K)
    ensures Lookup(t, k).Some? <==> k in Keys(t)
    ensures Lookup(t, k).Some? ==> Entry(k, Lookup(t, k).value) in t
  {
    var i := IndexOf(t, k);
    if k in Keys(t) {
      var m :| 0 <= m < |t| && Keys(t)[m] == k;
    }
  }

  /**
   * One step of either counting loop: when the key already has a (truthy, positive) count
   * it is incremented in place, otherwise the key is added at the end with count 1.
   */
  function Bump<K(==)>(t: seq<Entry<K>>, k: K): seq<Entry<K>> {
    var i := IndexOf(t, k);
    if i < |t| then t[i := Entry(k, t[i].count + 1)] else t + [Entry(k, 1)]
  }

  /** The well-formedness every count dictionary keeps: one entry per key, every count at least 1. */
  predicate WellFormed<K(==)>(t: seq<Entry<K>>) {
    Distinct(Keys(t)) && forall i :: 0 <= i < |t| ==> t[i].count >= 1
  }

  /** The first index holding `k` is the only one with the properties `IndexOf` promises. */
  lemma IndexOfUnique<K>(t: seq<Entry<K>>, k: K, i: nat)
    requires i <= |t|
    requires i < |t| ==> t[i].key == k
    requires forall j :: 0 <= j < i ==> t[j].key != k
    ensures IndexOf(t, k) == i
  {
    PositionUnique(Keys(t), k, i);
  }

  /** `Bump` keeps the dictionary well formed, and adds `k` at the end when it was not a key yet. */
  lemma BumpKeys<K>(t: seq<Entry<K>>, k: K)
    requires WellFormed(t)
    ensures WellFormed(Bump(t, k))
    ensures Keys(Bump(t, k)) == if k in Keys(t) then Keys(t) else Keys(t) + [k]
  {
    var i := IndexOf(t, k);
    if i < |t| {
      assert Keys(Bump(t, k)) == Keys(t);
    } else {
      assert Keys(Bump(t, k)) == Keys(t) + [k];
    }
  }

  /** `Bump` adds one to the count of `k` (creating it with 1) and leaves every other key alone. */
  lemma BumpLookup<K>(t: seq<Entry<K>>, k: K, k': K)
    requires WellFormed(t)
    ensures WellFormed(Bump(t, k))
    ensures Lookup(Bump(t, k), k') ==
      if k' != k then Lookup(t, k')
      else if Lookup(t, k).Some? then Some(Lookup(t, k).value + 1)
      else Some(1)
  {
    BumpKeys(t, k);
    if k' != k {
      BumpOther(t, k, k');
    } else {
      var i := IndexOf(t, k);
      IndexOfUnique(Bump(t, k), k, if i < |t| then i else |t|);
    }
  }

  /** `Bump` moves no entry, so a key other than the bumped one is found where it was. */
  lemma BumpOther<K>(t: seq<Entry<K>>, k: K, k': K)
    requires k' != k
    ensures Lookup(Bump(t, k), k') == Lookup(t, k')
  {
    var t' := Bump(t, k);
    var m := IndexOf(t, k');
    assert forall j :: 0 <= j < |t| ==> t'[j].key == t[j].key;
    IndexOfUnique(t', k', if m < |t| then m else |t'|);
  }

  lemma {:induction false} SumUpdate<K>(t: seq<Entry<K>>, i: nat, e: Entry<K>)
    requires i < |t|
    ensures SumCounts(t[i := e]) + t[i].count == SumCounts(t) + e.count
    decreases |t|
  {
    var t' := t[i := e];
    var n := |t| - 1;
    assert t'[..n] == if i < n then t[..n][i := e] else t[..n];
    if i < n {
      SumUpdate(t[..n], i, e);
    }
  }

  /** `Bump` adds exactly one to the total of the counts. */
  lemma BumpSum<K>(t: seq<Entry<K>>, k: K)
    ensures SumCounts(Bump(t, k)) == SumCounts(t) + 1
  {
    var i := IndexOf(t, k);
    if i < |t| {
      SumUpdate(t, i, Entry(k, t[i].count + 1));
    } else {
      assert (t + [Entry(k, 1)])[..|t|] == t;
    }
  }

  /** Every element of the input is among its first occurrences. */
  lemma {:induction false} InFirstOccurrences<K>(s: seq<K>, k: K)
    ensures k in FirstOccurrences(s) <==> k in s
    decreases |s|
  {
    if s != [] {
      var p := s[..|s| - 1];
      assert s == p + [s[|s| - 1]];
      InFirstOccurrences(p, k);
    }
  }

  lemma FirstOccurrencesSnoc<K>(s: seq<K>, k: K)
    ensures FirstOccurrences(s + [k]) == if k in s then FirstOccurrences(s) else FirstOccurrences(s) + [k]
  {
    assert (s + [k])[..|s|] == s;
    InFirstOccurrences(s, k);
  }

  lemma CountOfSnoc<K>(j: K, s: seq<K>, k: K)
    ensures CountOf(j, s + [k]) == CountOf(j, s) + (if j == k then 1 else 0)
  {
    assert (s + [k])[..|s|] == s;
  }

  lemma TallyAt<K>(s: seq<K>, x: nat)
    requires x < |FirstOccurrences(s)|
    ensures |Tally(s)| == |FirstOccurrences(s)|
    ensures Tally(s)[x] == Entry(FirstOccurrences(s)[x], CountOf(FirstOccurrences(s)[x], s))
  {
  }

  lemma TallyLength<K>(s: seq<K>)
    ensures |Tally(s)| == |FirstOccurrences(s)|
  {
  }

  /** A sequence that agrees with `t` everywhere except at `m`, where it holds `e`, is `t[m := e]`. */
  lemma UpdateEq<T>(t: seq<T>, u: seq<T>, m: nat, e: T)
    requires m < |t| == |u| && u[m] == e
    requires forall x :: 0 <= x < |t| && x != m ==> u[x] == t[x]
    ensures u == t[m := e]
  {
  }

  /** A sequence one longer than `t` that starts with `t` and ends with `e` is `t + [e]`. */
  lemma AppendEq<T>(t: seq<T>, u: seq<T>, e: T)
    requires |u| == |t| + 1 && u[|t|] == e
    requires forall x :: 0 <= x < |t| ==> u[x] == t[x]
    ensures u == t + [e]
  {
  }

  /** Appending a key already counted leaves every other entry of the tally as it was. */
  lemma TallySnocPresentAt<K>(s: seq<K>, k: K, m: nat, x: nat)
    requires m < |FirstOccurrences(s)| && FirstOccurrences(s)[m] == k
    requires x < |FirstOccurrences(s)|
    ensures |Tally(s + [k])| == |Tally(s)|
    ensures Tally(s + [k])[x] == if x == m then Entry(k, Tally(s)[m].count + 1) else Tally(s)[x]
    ensures x < m ==> Tally(s)[x].key != k
  {
    var ks := FirstOccurrences(s);
    FirstOccurrencesSnoc(s, k);
    TallyLength(s);
    TallyLength(s + [k]);
    TallyAt(s, x);
    TallyAt(s + [k], x);
    TallyAt(s, m);
    CountOfSnoc(ks[x], s, k);
  }

  lemma TallySnocPresent<K>(s: seq<K>, k: K, m: nat)
    requires m < |FirstOccurrences(s)| && FirstOccurrences(s)[m] == k
    ensures Tally(s + [k]) == Bump(Tally(s), k)
  {
    var t, u := Tally(s), Tally(s + [k]);
    TallyLength(s);
    forall x | 0 <= x < |t| ensures u[x] == (if x == m then Entry(k, t[m].count + 1) else t[x]) {
      TallySnocPresentAt(s, k, m, x);
    }
    forall j | 0 <= j < m ensures t[j].key != k {
      TallySnocPresentAt(s, k, m, j);
    }
    TallySnocPresentAt(s, k, m, m);
    UpdateEq(t, u, m, Entry(k, t[m].count + 1));
    IndexOfUnique(t, k, m);
  }

  /** Appending a new key leaves the existing entries as they were and adds the key with count 1. */
  lemma TallySnocAbsentAt<K>(s: seq<K>, k: K, x: nat)
    requires k !in s
    requires x <= |FirstOccurrences(s)|
    ensures |Tally(s + [k])| == |Tally(s)| + 1
    ensures Tally(s + [k])[x] == if x == |Tally(s)| then Entry(k, 1) else Tally(s)[x]
    ensures x < |Tally(s)| ==> Tally(s)[x].key != k
  {
    var ks := FirstOccurrences(s);
    FirstOccurrencesSnoc(s, k);
    TallyLength(s);
    TallyLength(s + [k]);
    TallyAt(s + [k], x);
    if x < |ks| {
      TallyAt(s, x);
      CountOfSnoc(ks[x], s, k);
    } else {
      CountOfSnoc(k, s, k);
    }
  }

  lemma TallySnocAbsent<K>(s: seq<K>, k: K)
    requires k !in s
    ensures Tally(s + [k]) == Bump(Tally(s), k)
  {
    var t, u := Tally(s), Tally(s + [k]);
    TallyLength(s);
    forall x | 0 <= x < |t| ensures u[x] == t[x] && t[x].key != k {
      TallySnocAbsentAt(s, k, x);
    }
    TallySnocAbsentAt(s, k, |t|);
    AppendEq(t, u, Entry(k, 1));
    IndexOfUnique(t, k, |t|);
  }

  /** Counting one more key is one more `Bump`: the loops build `Tally` of what they have seen. */
  lemma TallySnoc<K>(s: seq<K>, k: K)
    ensures Tally(s + [k]) == Bump(Tally(s), k)
  {
    InFirstOccurrences(s, k);
    if k in s {
      var ks := FirstOccurrences(s);
      var m :| 0 <= m < |ks| && ks[m] == k;
      TallySnocPresent(s, k, m);
    } else {
      TallySnocAbsent(s, k);
    }
  }

  /**
   * Each key of the tally is an element of the input, stored with its number of occurrences;
   * every element of the input has an entry, no key has two, and every count is at least 1.
   */
  lemma TallyMeaning<K>(s: seq<K>, k: K)
    ensures WellFormed(Tally(s))
    ensures Keys(Tally(s)) == FirstOccurrences(s)
    ensures Lookup(Tally(s), k) == if k in s then Some(CountOf(k, s)) else None
  {
    TallyKeys(s);
    var t := Tally(s);
    var ks := FirstOccurrences(s);
    InFirstOccurrences(s, k);
    if k in s {
      var m :| 0 <= m < |ks| && ks[m] == k;
      TallyAt(s, m);
      IndexOfUnique(t, k, m);
    } else {
      IndexOfUnique(t, k, |t|);
    }
  }

  /** The tally's keys are the first occurrences, and it is well formed. */
  lemma TallyKeys<K>(s: seq<K>)
    ensures WellFormed(Tally(s))
    ensures Keys(Tally(s)) == FirstOccurrences(s)
    ensures forall j :: 0 <= j < |Tally(s)| ==> Tally(s)[j].key == FirstOccurrences(s)[j]
  {
    var t := Tally(s);
    var ks := FirstOccurrences(s);
    TallyLength(s);
    forall j | 0 <= j < |t| ensures t[j].key == ks[j] && t[j].count >= 1 {
      TallyAt(s, j);
    }
    assert Keys(t) == ks;
  }

  /** The counts add up to the number of keys counted; no keys, empty dictionary. */
  lemma {:induction false} TallySum<K>(s: seq<K>)
    ensures SumCounts(Tally(s)) == |s|
    ensures s == [] <==> Tally(s) == []
    decreases |s|
  {
    if s != [] {
      var p := s[..|s| - 1];
      assert s == p + [s[|s| - 1]];
      TallySum(p);
      TallySnoc(p, s[|s| - 1]);
      BumpSum(Tally(p), s[|s| - 1]);
      InFirstOccurrences(s, s[0]);
    }
  }

  lemma PositionPrefix<K>(k: K, p: seq<K>, s: seq<K>)
    requires k in p && p <= s
    ensures Position(s, k) == Position(p, k)
  {
    var i := Position(p, k);
    PositionUnique(s, k, i);
  }

  lemma {:induction false} FirstOccurrencesOrder<K>(s: seq<K>)
    ensures forall i, j :: 0 <= i < j < |FirstOccurrences(s)| ==>
      Position(s, FirstOccurrences(s)[i]) < Position(s, FirstOccurrences(s)[j])
    decreases |s|
  {
    if s != [] {
      var p := s[..|s| - 1];
      var x := s[|s| - 1];
      assert s == p + [x];
      FirstOccurrencesOrder(p);
      InFirstOccurrences(p, x);
      var ks, ks' := FirstOccurrences(p), FirstOccurrences(s);
      forall y | y in p ensures Position(s, y) == Position(p, y) {
        PositionPrefix(y, p, s);
      }
      forall i, j | 0 <= i < j < |ks'| ensures Position(s, ks'[i]) < Position(s, ks'[j]) {
        if x in ks {
          assert ks' == ks;
        } else {
          assert ks' == ks + [x];
          if j == |ks| {
            assert Position(s, x) == |p|;
            assert Position(p, ks[i]) < |p|;
          }
        }
      }
    }
  }

  /** Keys appear in the order of their first occurrence in the input (not sorted otherwise). */
  lemma TallyOrder<K>(s: seq<K>)
    ensures forall i :: 0 <= i < |Tally(s)| ==> Tally(s)[i].key in s
    ensures forall i, j :: 0 <= i < j < |Tally(s)| ==>
      Position(s, Tally(s)[i].key) < Position(s, Tally(s)[j].key)
  {
    FirstOccurrencesOrder(s);
  }

  /** Counting a key twice. */
  lemma TallyTwice<K>(x: K)
    ensures Tally([x, x]) == [Entry(x, 2)]
  {
    calc {
      Tally([x, x]);
      { assert [x, x] == [x] + [x]; TallySnoc([x], x); }
      Bump(Tally([x]), x);
      { assert [x] == [] + [x]; TallySnoc([], x); TallyEmpty<K>(); }
      Bump(Bump([], x), x);
      { IndexOfUnique<K>([], x, 0); }
      Bump([Entry(x, 1)], x);
      { IndexOfUnique([Entry(x, 1)], x, 0); }
      [Entry(x, 2)];
    }
  }

  lemma TallyEmpty<K>()
    ensures Tally<K>([]) == []
  {
    TallyLength<K>([]);
  }

  /** Counting a key twice and then another key once. */
  lemma TallyTwiceThenOnce<K>(x: K, y: K)
    requires x != y
    ensures Tally([x, x, y]) == [Entry(x, 2), Entry(y, 1)]
  {
    calc {
      Tally([x, x, y]);
      { assert [x, x, y] == [x, x] + [y]; TallySnoc([x, x], y); }
      Bump(Tally([x, x]), y);
      { TallyTwice(x); }
      Bump([Entry(x, 2)], y);
      { IndexOfUnique([Entry(x, 2)], y, 1); }
      [Entry(x, 2), Entry(y, 1)];
    }
  }
}
