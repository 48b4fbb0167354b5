/** Code-point order on strings and the ascending sort that Python's sorted() performs. */
module Ordering {

  predicate Leq(a: string, b: string) {
    a == [] || (b != [] && (a[0] < b[0] || (a[0] == b[0] && Leq(a[1..], b[1..]))))
  }

  predicate Ascending(s: seq<string>) {
    forall i, j :: 0 <= i < j < |s| ==> Leq(s[i], s[j])
  }

  lemma {:induction false} LeqTotal(a: string, b: string)
    ensures Leq(a, b) || Leq(b, a)
  {
    if a != [] && b != [] {
      LeqTotal(a[1..], b[1..]);
    }
  }

  lemma {:induction false} LeqTrans(a: string, b: string, c: string)
    requires Leq(a, b) && Leq(b, c)
    ensures Leq(a, c)
  {
    if a != [] && b != [] && c != [] && a[0] == b[0] == c[0] {
      LeqTrans(a[1..], b[1..], c[1..]);
    }
  }

  function Insert(x: string, s: seq<string>): (r: seq<string>)
    requires Ascending(s)
    ensures Ascending(r)
    ensures multiset(r) == multiset(s) + multiset{x}
  {
    if s == [] then [x]
    else if Leq(x, s[0]) then
      assert Ascending([x] + s) by { HeadFirst(x, s); }
      [x] + s
    else
      assert s == [s[0]] + s[1..];
      var t := Insert(x, s[1..]);
      HeadStaysFirst(x, s, t);
      [s[0]] + t
  }

  lemma HeadStaysFirst(x: string, s: seq<string>, t: seq<string>)
    requires Ascending(s) && s != [] && !Leq(x, s[0])
    requires Ascending(t) && multiset(t) == multiset(s[1..]) + multiset{x}
    ensures Ascending([s[0]] + t)
  {
    LeqTotal(x, s[0]);
    forall i | 0 <= i < |t| ensures Leq(s[0], t[i]) {
      assert t[i] in multiset(t);
      assert t[i] == x || t[i] in s[1..];
    }
  }

  lemma HeadFirst(x: string, s: seq<string>)
    requires Ascending(s) && s != [] && Leq(x, s[0])
    ensures Ascending([x] + s)
  {
    forall i | 0 <= i < |s| ensures Leq(x, s[i]) {
      if i > 0 { LeqTrans(x, s[0], s[i]); }
    }
  }

  function Sort(s: seq<string>): (r: seq<string>)
    ensures Ascending(r)
    ensures multiset(r) == multiset(s)
    ensures |r| == |s|
  {
    if s == [] then []
    else
      assert s == [s[0]] + s[1..];
      var r := Insert(s[0], Sort(s[1..]));
      assert |multiset(r)| == |multiset(s)|;
      r
  }

  /** Sorting keeps membership, and keeps a list without repetitions that way. */
  lemma SortKeepsElements(s: seq<string>)
    requires forall i, j :: 0 <= i < j < |s| ==> s[i] != s[j]
    ensures forall x :: x in Sort(s) <==> x in s
    ensures forall i, j :: 0 <= i < j < |s| ==> Sort(s)[i] != Sort(s)[j]
  {
    var r := Sort(s);
    forall x ensures x in r <==> x in s {
      assert x in multiset(r) <==> x in multiset(s);
    }
    forall i, j | 0 <= i < j < |r| ensures r[i] != r[j] {
      if r[i] == r[j] {
        MultiplicityOfRepeat(r, i, j);
        NoRepeats(s, r[i]);
      }
    }
  }

  lemma {:induction false} NoRepeats(s: seq<string>, x: string)
    requires forall i, j :: 0 <= i < j < |s| ==> s[i] != s[j]
    ensures multiset(s)[x] <= 1
  {
    if s != [] {
      assert s == [s[0]] + s[1..];
      NoRepeats(s[1..], x);
      if x == s[0] {
        assert x !in s[1..];
      }
    }
  }

  lemma MultiplicityOfRepeat(s: seq<string>, i: nat, j: nat)
    requires i < j < |s| && s[i] == s[j]
    ensures multiset(s)[s[i]] >= 2
  {
    assert s == s[..i] + [s[i]] + s[i + 1..j] + [s[j]] + s[j + 1..];
  }
}
