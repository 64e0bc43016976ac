/** Sequences as lists without repetition and as sets. */
module Sequences {

  ghost predicate NoDuplicates<T>(s: seq<T>) {
    forall i, j :: 0 <= i < j < |s| ==> s[i] != s[j]
  }

  function SetOf<T(==)>(s: seq<T>): set<T> {
    set x | x in s
  }

  lemma SetOfHolds<T>(s: seq<T>)
    ensures forall x :: x in SetOf(s) <==> x in s
    ensures SetOf(s) == {} <==> s == []
  {
    if s != [] { assert s[0] in SetOf(s); }
  }

  /** Two balances of a queue, what was there and came against what went and is there, add up to one. */
  lemma Regroup<T>(before: seq<T>, j: seq<T>, js: seq<T>, h: seq<T>, mid: seq<T>, hs: seq<T>, after: seq<T>)
    requires before + j == h + mid && mid + js == hs + after
    ensures before + (j + js) == (h + hs) + after
  {
    assert before + (j + js) == (before + j) + js;
    assert (h + mid) + js == h + (mid + js);
    assert h + (hs + after) == (h + hs) + after;
  }
}
