/** The order in which client identifiers and filters are compared. */
module Strings {

  predicate Less(a: string, b: string)
    decreases |a|
  {
    b != [] && (a == [] || a[0] < b[0] || (a[0] == b[0] && Less(a[1..], b[1..])))
  }

  lemma {:induction false} LessTotal(a: string, b: string)
    ensures a == b || Less(a, b) || Less(b, a)
    ensures !(Less(a, b) && Less(b, a))
    ensures Less(a, b) ==> a != b
    decreases |a|
  {
    if a != [] && b != [] && a[0] == b[0] {
      LessTotal(a[1..], b[1..]);
      assert a == [a[0]] + a[1..] && b == [b[0]] + b[1..];
    }
  }

  lemma {:induction false} LessTrans(a: string, b: string, c: string)
    requires Less(a, b) && Less(b, c)
    ensures Less(a, c)
    decreases |a|
  {
    if a != [] && a[0] == b[0] && b[0] == c[0] {
      LessTrans(a[1..], b[1..], c[1..]);
    }
  }

  ghost predicate Ascending(ids: seq<string>) {
    forall i, j :: 0 <= i < j < |ids| ==> Less(ids[i], ids[j])
  }

  lemma HeadIsIn(ids: seq<string>)
    requires ids != []
    ensures ids[0] in ids
  {
  }

  lemma AscendingAt(ids: seq<string>, i: nat, j: nat)
    requires Ascending(ids) && i < j < |ids|
    ensures Less(ids[i], ids[j])
  {
  }

  lemma AscendingDistinct(ids: seq<string>, i: nat, j: nat)
    requires Ascending(ids) && i < |ids| && j < |ids| && ids[i] == ids[j]
    ensures i == j
  {
    LessTotal(ids[i], ids[j]);
  }

  /** A new element goes in front of the first one that is not below it. */
  lemma AscendingInsert(ids: seq<string>, k: nat, c: string)
    requires Ascending(ids) && k <= |ids| && c !in ids
    requires (forall i :: 0 <= i < k ==> Less(ids[i], c)) && (k < |ids| ==> !Less(ids[k], c))
    ensures Ascending(ids[..k] + [c] + ids[k..])
  {
    forall i | k <= i < |ids| ensures Less(c, ids[i]) {
      LessTotal(ids[k], c);
      if k < i {
        LessTrans(c, ids[k], ids[i]);
      }
    }
    var out := ids[..k] + [c] + ids[k..];
    forall i, j | 0 <= i < j < |out| ensures Less(out[i], out[j]) {
      assert out[i] == if i < k then ids[i] else if i == k then c else ids[i - 1];
      assert out[j] == if j < k then ids[j] else if j == k then c else ids[j - 1];
    }
  }

  /** An ascending list is determined by its elements. */
  lemma {:induction false} AscendingUnique(a: seq<string>, b: seq<string>)
    requires Ascending(a) && Ascending(b) && forall x :: x in a <==> x in b
    ensures a == b
    decreases |a|
  {
    if a == [] {
      if b != [] {
        HeadIsIn(b);
      }
    } else {
      assert a[0] in b;
      assert b[0] in a;
      var i :| 0 <= i < |b| && b[i] == a[0];
      var j :| 0 <= j < |a| && a[j] == b[0];
      LessTotal(a[0], b[0]);
      assert a[0] == b[0];
      forall x ensures x in a[1..] <==> x in b[1..] {
        LessTotal(x, a[0]);
        assert a == [a[0]] + a[1..] && b == [b[0]] + b[1..];
        assert x in a[1..] ==> x in a && Less(a[0], x);
        assert x in b[1..] ==> x in b && Less(b[0], x);
      }
      AscendingUnique(a[1..], b[1..]);
      assert a == [a[0]] + a[1..] && b == [b[0]] + b[1..];
    }
  }
}
