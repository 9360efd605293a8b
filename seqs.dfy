/**
 * Reference definitions on sequences shared by both components: removing
 * repeats while keeping first occurrences (what a JavaScript `Set` or an
 * `includes` guard produces) and concatenating a list of lists (`Array.flat`).
 */
module Seqs {

  /** No element occurs twice. */
  ghost predicate Distinct<T>(s: seq<T>)
  {
    forall i, j :: 0 <= i < j < |s| ==> s[i] != s[j]
  }

  /** The index of the first occurrence of `x` in `s`. */
  function IndexOf<T(==)>(s: seq<T>, x: T): (k: nat)
    requires x in s
    ensures k < |s| && s[k] == x && x !in s[..k]
  {
    if s[0] == x then 0
    else
      var k' := IndexOf(s[1..], x);
      assert s[..k' + 1] == [s[0]] + s[1..][..k'];
      k' + 1
  }

  /**
   * The elements of `s`, each once, in the order of their first occurrence:
   * the last element of `s` is kept exactly when it does not occur earlier.
   */
  function Dedup<T(==)>(s: seq<T>): seq<T>
    decreases |s|
  {
    if |s| == 0 then []
    else if s[|s| - 1] in s[..|s| - 1] then Dedup(s[..|s| - 1])
    else Dedup(s[..|s| - 1]) + [s[|s| - 1]]
  }

  /** Appending one element: it is kept exactly when it is new. */
  lemma DedupSnoc<T>(s: seq<T>, x: T)
    ensures Dedup(s + [x]) == if x in s then Dedup(s) else Dedup(s) + [x]
  {
    assert (s + [x])[..|s|] == s;
  }

  /** Removing repeats keeps exactly the elements there were. */
  lemma {:induction false} DedupElements<T>(s: seq<T>)
    ensures forall x :: x in Dedup(s) <==> x in s
    decreases |s|
  {
    if |s| > 0 {
      var p := s[..|s| - 1];
      DedupElements(p);
      assert s == p + [s[|s| - 1]];
    }
  }

  /** Removing repeats leaves no repeats. */
  lemma {:induction false} DedupDistinct<T>(s: seq<T>)
    ensures Distinct(Dedup(s))
    decreases |s|
  {
    if |s| > 0 {
      var p := s[..|s| - 1];
      DedupDistinct(p);
      DedupElements(p);
    }
  }

  /** The first occurrence of an element of a prefix is inside that prefix. */
  lemma IndexOfExtend<T>(p: seq<T>, x: T, y: T)
    requires y in p
    ensures y in p + [x] && IndexOf(p + [x], y) == IndexOf(p, y)
  {
    var s := p + [x];
    var k1, k2 := IndexOf(s, y), IndexOf(p, y);
    forall j | 0 <= j < k1 ensures s[j] != y {
      assert s[..k1][j] == s[j];
    }
    forall j | 0 <= j < k2 ensures p[j] != y {
      assert p[..k2][j] == p[j];
    }
    assert s[k2] == y;
  }

  /**
   * Removing repeats keeps the order of first occurrences: an element listed
   * earlier in `Dedup(s)` first occurs earlier in `s`.
   */
  lemma {:induction false} DedupOrder<T>(s: seq<T>)
    ensures forall x :: x in Dedup(s) <==> x in s
    ensures forall i, j :: 0 <= i < j < |Dedup(s)| ==> IndexOf(s, Dedup(s)[i]) < IndexOf(s, Dedup(s)[j])
    decreases |s|
  {
    DedupElements(s);
    if |s| > 0 {
      var p, x := s[..|s| - 1], s[|s| - 1];
      assert s == p + [x];
      DedupOrder(p);
      var d := Dedup(p);
      forall y | y in p
        ensures IndexOf(s, y) == IndexOf(p, y) < |p|
      {
        IndexOfExtend(p, x, y);
      }
      if x !in p {
        assert s[..|p|] == p;
        assert IndexOf(s, x) == |p|;
        assert Dedup(s) == d + [x];
        forall i, j | 0 <= i < j < |Dedup(s)|
          ensures IndexOf(s, Dedup(s)[i]) < IndexOf(s, Dedup(s)[j])
        {
          assert Dedup(s)[i] == d[i] && d[i] in d;
          if j < |d| {
            assert Dedup(s)[j] == d[j] && d[j] in d;
          }
        }
      } else {
        forall i, j | 0 <= i < j < |Dedup(s)|
          ensures IndexOf(s, Dedup(s)[i]) < IndexOf(s, Dedup(s)[j])
        {
          assert d[i] in d && d[j] in d;
        }
      }
    }
  }

  /** A prefix grows by one element at a time. */
  lemma PrefixSnoc<T>(s: seq<T>, j: nat)
    requires j < |s|
    ensures s[..j + 1] == s[..j] + [s[j]]
    ensures s[..j + 1][..j] == s[..j]
  {
  }

  /** Appending a prefix that grows by one element. */
  lemma AppendPrefixSnoc<T>(x: seq<T>, s: seq<T>, j: nat)
    requires j < |s|
    ensures x + s[..j + 1] == (x + s[..j]) + [s[j]]
  {
    PrefixSnoc(s, j);
  }

  /** A common front keeps one sequence a prefix of another. */
  lemma PrefixAppend<T>(c: seq<T>, a: seq<T>, b: seq<T>)
    requires a <= b
    ensures c + a <= c + b
  {
    assert (c + b)[..|c + a|] == c + b[..|a|];
  }

  /** The concatenation of a sequence of sequences, in order (`Array.flat`). */
  function Flatten<T>(ss: seq<seq<T>>): seq<T>
  {
    if ss == [] then [] else ss[0] + Flatten(ss[1..])
  }

  /** Flattening distributes over concatenation. */
  lemma {:induction false} FlattenAppend<T>(a: seq<seq<T>>, b: seq<seq<T>>)
    ensures Flatten(a + b) == Flatten(a) + Flatten(b)
  {
    if a != [] {
      assert (a + b)[1..] == a[1..] + b;
      FlattenAppend(a[1..], b);
    } else {
      assert a + b == b;
    }
  }

  /**
   * Position `p` of part `b` lands at offset `|Flatten(ss[..b])| + p` of the
   * flattened sequence: parts keep their order and their contents.
   */
  lemma FlattenIndex<T>(ss: seq<seq<T>>, b: nat, p: nat)
    requires b < |ss| && p < |ss[b]|
    ensures |Flatten(ss[..b])| + p < |Flatten(ss)|
    ensures Flatten(ss)[|Flatten(ss[..b])| + p] == ss[b][p]
  {
    assert ss == ss[..b] + ([ss[b]] + ss[b + 1..]);
    FlattenAppend(ss[..b], [ss[b]] + ss[b + 1..]);
    FlattenAppend([ss[b]], ss[b + 1..]);
    assert Flatten([ss[b]]) == ss[b] by {
      assert [ss[b]][1..] == [];
    }
  }
}
