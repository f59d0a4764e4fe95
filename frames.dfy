/**
  Generic operations on in-memory tables, as the step uses them: boolean
  row selection that keeps table order, boolean masks and their counts,
  positional assignment of a value array through a mask, and alignment of a
  column on a row key.
 */
module Frames {

  /** A nullable cell: `None` is the missing value (pandas `NA`). */
  datatype Option<T> = None | Some(value: T)

  /** The rows of `s` that satisfy `p`, in their original order. */
  function Filter<T(==,!new)>(s: seq<T>, p: T -> bool): (r: seq<T>)
    ensures |r| <= |s|
    ensures forall x :: x in r <==> x in s && p(x)
    decreases |s|
  {
    if |s| == 0 then []
    else
      var init := Filter(s[..|s| - 1], p);
      assert s == s[..|s| - 1] + [s[|s| - 1]];
      if p(s[|s| - 1]) then init + [s[|s| - 1]] else init
  }

  /** Number of `true` entries of a boolean mask. */
  function CountTrue(mask: seq<bool>): (n: nat)
    ensures n <= |mask|
  {
    if |mask| == 0 then 0
    else CountTrue(mask[..|mask| - 1]) + (if mask[|mask| - 1] then 1 else 0)
  }

  /** No row occurs twice. */
  predicate Distinct<T(==,!new)>(s: seq<T>) {
    forall i, j :: 0 <= i < j < |s| ==> s[i] != s[j]
  }

  /** Position of `x` in `s`. */
  function IndexOf<T(==,!new)>(s: seq<T>, x: T): (r: nat)
    requires x in s
    ensures r < |s| && s[r] == x
    ensures forall i :: 0 <= i < r ==> s[i] != x
  {
    if s[0] == x then 0 else 1 + IndexOf(s[1..], x)
  }

  /** The keys of the rows of `frame` (the index of a pandas frame). */
  function Keys<T(==,!new)>(frame: seq<T>, key: T -> int): set<int> {
    set x | x in frame :: key(x)
  }

  /**
    Index alignment: the entry of `column` on the row of `frame` whose key is
    `id`.
   */
  function ValueAt<T(==,!new), V>(frame: seq<T>, column: seq<V>, key: T -> int, id: int): (v: V)
    requires |column| == |frame|
    requires id in Keys(frame, key)
    ensures exists j :: 0 <= j < |frame| && key(frame[j]) == id && v == column[j]
  {
    if key(frame[0]) == id then column[0]
    else
      assert id in Keys(frame[1..], key) by {
        var x :| x in frame && key(x) == id;
        assert x != frame[0];
        assert frame == [frame[0]] + frame[1..];
      }
      var v := ValueAt(frame[1..], column[1..], key, id);
      ghost var j :| 0 <= j < |frame| - 1 && key(frame[1..][j]) == id && v == column[1..][j];
      assert key(frame[j + 1]) == id && v == column[j + 1];
      v
  }

  /**
    Aligned assignment `frame.loc[frame.index.isin(choosers.index), col] =
    choosers[col]`: every row whose key is a key of `choosers` receives, via
    `update`, the entry of `column` on the chooser row with that key; every
    other row is kept.
   */
  method AssignAligned<T(==,!new), V>(frame: seq<T>, key: T -> int, choosers: seq<T>, column: seq<V>, update: (T, V) -> T)
    returns (r: seq<T>)
    requires |column| == |choosers|
    ensures |r| == |frame|
    ensures forall i :: 0 <= i < |frame| ==>
      r[i] == if key(frame[i]) in Keys(choosers, key)
              then update(frame[i], ValueAt(choosers, column, key, key(frame[i])))
              else frame[i]
  {
    var ids := Keys(choosers, key);
    r := frame;
    for i := 0 to |frame|
      invariant |r| == |frame|
      invariant forall m :: 0 <= m < i ==>
        r[m] == if key(frame[m]) in ids
                then update(frame[m], ValueAt(choosers, column, key, key(frame[m])))
                else frame[m]
      invariant forall m :: i <= m < |frame| ==> r[m] == frame[m]
    {
      if key(frame[i]) in ids {
        r := r[i := update(frame[i], ValueAt(choosers, column, key, key(frame[i])))];
      }
    }
  }

  /**
    Positional mask assignment `column[mask] = values`: the k-th selected row
    receives the k-th value, every other row keeps its entry.
   */
  method AssignMasked<V>(column: seq<Option<V>>, mask: seq<bool>, values: seq<V>)
    returns (r: seq<Option<V>>)
    requires |mask| == |column| && |values| == CountTrue(mask)
    ensures |r| == |column|
    ensures forall j :: 0 <= j < |column| && mask[j] ==>
      CountTrue(mask[..j]) < |values| && r[j] == Some(values[CountTrue(mask[..j])])
    ensures forall j :: 0 <= j < |column| && !mask[j] ==> r[j] == column[j]
  {
    r := column;
    var c := 0;
    for j := 0 to |column|
      invariant |r| == |column|
      invariant c == CountTrue(mask[..j])
      invariant forall m :: 0 <= m < j && mask[m] ==>
        CountTrue(mask[..m]) < |values| && r[m] == Some(values[CountTrue(mask[..m])])
      invariant forall m :: 0 <= m < j && !mask[m] ==> r[m] == column[m]
      invariant forall m :: j <= m < |column| ==> r[m] == column[m]
    {
      assert mask[..j + 1][..j] == mask[..j];
      if mask[j] {
        CountTruePrefix(mask, j + 1);
        r := r[j := Some(values[c])];
        c := c + 1;
      }
    }
  }

  lemma {:induction false} CountTruePrefix(mask: seq<bool>, i: nat)
    requires i <= |mask|
    ensures CountTrue(mask[..i]) <= CountTrue(mask)
    decreases |mask| - i
  {
    if i < |mask| {
      var init := mask[..|mask| - 1];
      assert init[..i] == mask[..i];
      CountTruePrefix(init, i);
    } else {
      assert mask[..i] == mask;
    }
  }

  /** Counting a mask built row by row from `p` is counting the rows `p` selects. */
  lemma {:induction false} CountTrueMask<T(!new)>(s: seq<T>, p: T -> bool, mask: seq<bool>, j: nat)
    requires |mask| == |s| && j <= |s|
    requires forall i :: 0 <= i < |s| ==> mask[i] == p(s[i])
    ensures CountTrue(mask[..j]) == |Filter(s[..j], p)|
  {
    if j > 0 {
      CountTrueMask(s, p, mask, j - 1);
      assert mask[..j][..j - 1] == mask[..j - 1];
      assert s[..j][..j - 1] == s[..j - 1];
    }
  }

  /** Selecting from a prefix of a table gives a prefix of the selection. */
  lemma {:induction false} FilterPrefix<T(!new)>(s: seq<T>, p: T -> bool, i: nat)
    requires i <= |s|
    ensures Filter(s[..i], p) <= Filter(s, p)
    decreases |s| - i
  {
    if i < |s| {
      var init := s[..|s| - 1];
      assert init[..i] == s[..i];
      FilterPrefix(init, p, i);
    } else {
      assert s[..i] == s;
    }
  }

  /**
    A selected row sits in the selection at the position given by the number
    of selected rows before it.
   */
  lemma FilterAt<T(!new)>(s: seq<T>, p: T -> bool, j: nat)
    requires j < |s| && p(s[j])
    ensures |Filter(s[..j], p)| < |Filter(s, p)|
    ensures Filter(s, p)[|Filter(s[..j], p)|] == s[j]
  {
    var before := Filter(s[..j], p);
    var upTo := Filter(s[..j + 1], p);
    assert s[..j + 1][..j] == s[..j];
    assert s[..j + 1][j] == s[j];
    assert upTo == before + [s[j]];
    FilterPrefix(s, p, j + 1);
    assert upTo[|before|] == s[j];
  }

  /**
    A row selected by a mask built from `p` sits in the selection at the
    number of masked rows before it.
   */
  lemma MaskRank<T(!new)>(s: seq<T>, p: T -> bool, mask: seq<bool>, j: nat)
    requires |mask| == |s| && forall i :: 0 <= i < |s| ==> mask[i] == p(s[i])
    requires Distinct(Filter(s, p)) && j < |s| && mask[j]
    ensures s[j] in Filter(s, p)
    ensures IndexOf(Filter(s, p), s[j]) == CountTrue(mask[..j])
  {
    CountTrueMask(s, p, mask, j);
    FilterAt(s, p, j);
    IndexOfDistinct(Filter(s, p), CountTrue(mask[..j]));
  }

  /** Selecting with `q` after `p` is selecting with `q` when `q` implies `p`. */
  lemma {:induction false} FilterOfFilter<T(!new)>(s: seq<T>, p: T -> bool, q: T -> bool)
    requires forall x :: x in s && q(x) ==> p(x)
    ensures Filter(Filter(s, p), q) == Filter(s, q)
  {
    if |s| > 0 {
      var init := s[..|s| - 1];
      assert forall x :: x in init ==> x in s;
      FilterOfFilter(init, p, q);
      var fp := Filter(init, p);
      if p(s[|s| - 1]) {
        assert (fp + [s[|s| - 1]])[..|fp|] == fp;
      }
    }
  }

  /** Selection keeps rows distinct. */
  lemma {:induction false} FilterDistinct<T(!new)>(s: seq<T>, p: T -> bool)
    requires Distinct(s)
    ensures Distinct(Filter(s, p))
  {
    if |s| > 0 {
      var init := s[..|s| - 1];
      FilterDistinct(init, p);
      assert s[|s| - 1] !in init;
    }
  }

  /** In a table without repeated rows, a row's position is the index it was read at. */
  lemma IndexOfDistinct<T(!new)>(s: seq<T>, r: nat)
    requires Distinct(s) && r < |s|
    ensures IndexOf(s, s[r]) == r
  {
  }
}
