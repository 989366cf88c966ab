// Strings in the order `sort()` puts them.
module SortedStrings {
  // By code units; a string comes before one it starts.
  predicate Less(a: string, b: string) {
    if b == "" then false
    else if a == "" then true
    else a[0] < b[0] || (a[0] == b[0] && Less(a[1..], b[1..]))
  }

  lemma {:induction false} LessIrreflexive(a: string)
    ensures !Less(a, a)
    decreases |a|
  {
    if a != "" { LessIrreflexive(a[1..]); }
  }

  predicate Ascending(s: seq<string>) {
    forall i, j :: 0 <= i < j < |s| ==> !Less(s[j], s[i])
  }

  function Insert(x: string, s: seq<string>): (r: seq<string>)
    requires Ascending(s)
    ensures Ascending(r) && multiset(r) == multiset(s) + multiset{x}
  {
    if s == [] then [x]
    else if !Less(s[0], x) then
      InsertFront(x, s);
      [x] + s
    else
      InsertLater(x, s);
      assert s == [s[0]] + s[1..];
      [s[0]] + Insert(x, s[1..])
  }

  lemma {:induction false} LessTrichotomy(a: string, b: string)
    ensures Less(a, b) || a == b || Less(b, a)
    ensures !(Less(a, b) && Less(b, a)) && !Less(a, a)
    decreases |a|
  {
    if a != "" && b != "" {
      LessTrichotomy(a[1..], b[1..]);
      assert a == [a[0]] + a[1..] && b == [b[0]] + b[1..];
    }
    LessIrreflexive(a);
  }

  lemma {:induction false} LessTransitive(a: string, b: string, c: string)
    requires Less(a, b) && Less(b, c)
    ensures Less(a, c)
    decreases |a|
  {
    if a != "" && a[0] == b[0] == c[0] { LessTransitive(a[1..], b[1..], c[1..]); }
  }

  lemma {:induction false} InsertFront(x: string, s: seq<string>)
    requires Ascending(s) && s != [] && !Less(s[0], x)
    ensures Ascending([x] + s)
  {
    var r := [x] + s;
    forall j | 0 <= j < |s| ensures !Less(s[j], x) {
      LessTrichotomy(s[0], x);
      LessTrichotomy(s[0], s[j]);
      LessTrichotomy(s[j], x);
      if Less(s[j], x) && x != s[0] && s[j] != s[0] {
        LessTransitive(s[j], x, s[0]);
      }
    }
  }

  lemma {:induction false} InsertLater(x: string, s: seq<string>)
    requires Ascending(s) && s != [] && Less(s[0], x)
    ensures Ascending(s[1..])
    ensures forall r: seq<string> :: Ascending(r) && multiset(r) == multiset(s[1..]) + multiset{x} ==> Ascending([s[0]] + r)
  {
    LessTrichotomy(s[0], x);
    forall r: seq<string> | Ascending(r) && multiset(r) == multiset(s[1..]) + multiset{x} ensures Ascending([s[0]] + r) {
      forall j | 0 <= j < |r| ensures !Less(r[j], s[0]) {
        assert r[j] in multiset(r);
        assert r[j] == x || r[j] in multiset(s[1..]);
        if r[j] != x {
          var k :| 0 <= k < |s[1..]| && s[1..][k] == r[j];
          assert s[k + 1] == r[j];
        }
      }
    }
  }

  function Sorted(s: seq<string>): (r: seq<string>)
    ensures Ascending(r) && multiset(r) == multiset(s)
  {
    if s == [] then []
    else
      assert s == [s[0]] + s[1..];
      Insert(s[0], Sorted(s[1..]))
  }

  predicate Distinct(s: seq<string>) { forall i, j :: 0 <= i < j < |s| ==> s[i] != s[j] }

  lemma {:induction false} SingleMeansDistinct(s: seq<string>)
    requires forall x :: multiset(s)[x] <= 1
    ensures Distinct(s)
  {
    forall i, j | 0 <= i < j < |s| ensures s[i] != s[j] {
      assert s == s[..j] + s[j..];
      assert s[j..] == [s[j]] + s[j + 1..];
      assert multiset(s) == multiset(s[..j]) + (multiset{s[j]} + multiset(s[j + 1..]));
      assert s[..j][i] in multiset(s[..j]);
      assert multiset(s)[s[j]] <= 1;
    }
  }

  lemma {:induction false} SizeOfDistinct(s: seq<string>, all: set<string>)
    requires Distinct(s) && forall x :: x in all <==> x in s
    ensures |all| == |s|
  {
    if s == [] {
      assert all == {};
    } else {
      var later := s[1..];
      assert s[0] !in later;
      assert s == [s[0]] + later;
      SizeOfDistinct(later, all - {s[0]});
    }
  }

  lemma {:induction false} SubsetSize(a: set<string>, b: set<string>)
    requires a <= b
    ensures |a| <= |b|
  {
    assert b == a + (b - a);
    assert |a + (b - a)| == |a| + |b - a|;
  }
}
