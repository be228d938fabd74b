/** A PHP array with string keys, as the plurals phrase uses it: an ordered
    list of (key, value) pairs whose keys are pairwise distinct. Insertion order
    is kept, and the renderers rely on it. */
module PhpArray {
  import opened Php

  type Entries = seq<(string, string)>

  /** `array_keys($a)`, in order. */
  function Keys(es: Entries): seq<string> {
    seq(|es|, i requires 0 <= i < |es| => es[i].0)
  }

  /** The values in order, as `foreach ($a as $v)` visits them. */
  function Values(es: Entries): seq<string> {
    seq(|es|, i requires 0 <= i < |es| => es[i].1)
  }

  predicate Distinct(ks: seq<string>) {
    forall i, j :: 0 <= i < j < |ks| ==> ks[i] != ks[j]
  }

  /** The representation invariant of every PHP array: no key occurs twice. */
  predicate DistinctKeys(es: Entries) {
    Distinct(Keys(es))
  }

  /** The position of key `k`. */
  function IndexOf(es: Entries, k: string): (i: nat)
    requires k in Keys(es)
    ensures i < |es| && es[i].0 == k
  {
    assert Keys(es) == [es[0].0] + Keys(es[1..]);
    if es[0].0 == k then 0 else IndexOf(es[1..], k) + 1
  }

  /** In an array with distinct keys a key has exactly one position. */
  lemma {:induction false} IndexOfUnique(es: Entries, k: string, i: nat)
    requires DistinctKeys(es) && i < |es| && es[i].0 == k
    ensures k in Keys(es) && IndexOf(es, k) == i
  {
    assert Keys(es)[i] == k;
    var at := IndexOf(es, k);
    assert Keys(es)[at] == k;
  }

  /** `empty($a[$k])`: a missing key reads as null, which is empty too. */
  predicate EmptyAt(es: Entries, k: string) {
    k !in Keys(es) || Empty(es[IndexOf(es, k)].1)
  }

  /** `$a[$k] = $v`: overwrite the entry of a present key in place, or append a
      new entry at the end. */
  function Assign(es: Entries, k: string, v: string): (r: Entries)
    requires DistinctKeys(es)
    ensures DistinctKeys(r)
    ensures k in Keys(es) ==> Keys(r) == Keys(es)
    ensures k !in Keys(es) ==> Keys(r) == Keys(es) + [k] && r[|es|] == (k, v)
    ensures forall i :: 0 <= i < |es| ==> r[i].1 == (if es[i].0 == k then v else es[i].1)
  {
    if k in Keys(es) then
      var at := IndexOf(es, k);
      var r := es[at := (k, v)];
      assert Keys(r) == Keys(es);
      forall i | 0 <= i < |es| && i != at ensures es[i].0 != k {
        assert Keys(es)[i] == es[i].0 && Keys(es)[at] == k;
      }
      r
    else
      var r := es + [(k, v)];
      assert Keys(r) == Keys(es) + [k];
      assert forall i :: 0 <= i < |es| ==> Keys(es)[i] == es[i].0;
      r
  }

  /** Assigning a key the value it already holds changes nothing. */
  lemma {:induction false} AssignSame(es: Entries, k: string, v: string)
    requires DistinctKeys(es) && k in Keys(es) && es[IndexOf(es, k)].1 == v
    ensures Assign(es, k, v) == es
  {
  }

  /** Every key of `ks`, in order, mapped to "". */
  function Blank(ks: seq<string>): (r: Entries) {
    seq(|ks|, i requires 0 <= i < |ks| => (ks[i], ""))
  }

  /** Building an array key by key with `$a[$k] = ''`, starting from an empty
      array, gives `Blank` of the keys as long as no key repeats. */
  lemma {:induction false} BlankSnoc(ks: seq<string>, k: string)
    requires Distinct(ks + [k])
    ensures DistinctKeys(Blank(ks)) && Assign(Blank(ks), k, "") == Blank(ks + [k])
  {
    assert Keys(Blank(ks)) == ks;
    forall i, j | 0 <= i < j < |ks| ensures ks[i] != ks[j] {
      assert (ks + [k])[i] == ks[i] && (ks + [k])[j] == ks[j];
    }
    forall j | 0 <= j < |ks| ensures ks[j] != k {
      assert (ks + [k])[j] == ks[j] && (ks + [k])[|ks|] == k;
    }
  }

  /** The keys of `qs` that `ks` lacks, each once, in the order of `qs`. */
  function Missing(ks: seq<string>, qs: seq<string>): (r: seq<string>)
    ensures Distinct(r)
    ensures forall x :: x in r <==> x in qs && x !in ks
  {
    if qs == [] then []
    else
      var init := qs[..|qs| - 1];
      var q := qs[|qs| - 1];
      assert qs == init + [q];
      var prev := Missing(ks, init);
      if q in ks || q in init then prev else prev + [q]
  }
}
