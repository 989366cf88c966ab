// Which backups a sweep may delete (prunable in src/lib/backupSchedule.ts:232-236), and what sweeps do
// to a directory (src/services/backupCopy.service.ts:80-83).
module Retention {
  import opened BackupNames
  import opened SortedStrings

  function Ours(filenames: seq<string>): (r: seq<string>)
    ensures forall x :: x in r <==> x in filenames && IsBackupName(x)
  {
    if filenames == [] then []
    else if IsBackupName(filenames[0]) then [filenames[0]] + Ours(filenames[1..])
    else Ours(filenames[1..])
  }

  // prunable: our files but for the `keep` newest, oldest first.
  function Prunable(filenames: seq<string>, keep: int): seq<string> {
    if keep < 1 then []
    else
      var ours := Sorted(Ours(filenames));
      ours[..if |ours| > keep then |ours| - keep else 0]
  }

  // ── What it answers ──────────────────────────────────────────────────────────────────────────

  // A listing of a directory: its every name, once.
  ghost predicate Lists(listing: seq<string>, dir: set<string>) {
    Distinct(listing) && forall x :: x in listing <==> x in dir
  }

  ghost function Backups(dir: set<string>): set<string> { set x | x in dir && IsBackupName(x) }

  ghost function Newer(dir: set<string>, name: string): set<string> {
    set x | x in Backups(dir) && Less(name, x)
  }

  // A backup with at least `keep` newer ones beside it.
  ghost predicate Old(dir: set<string>, keep: int, name: string) {
    keep >= 1 && name in Backups(dir) && |Newer(dir, name)| >= keep
  }

  lemma {:induction false} DistinctOurs(s: seq<string>)
    requires Distinct(s)
    ensures Distinct(Ours(s))
    ensures forall x :: multiset(Ours(s))[x] <= 1
  {
    if s != [] {
      var later := s[1..];
      assert Distinct(later);
      DistinctOurs(later);
      assert s[0] !in later;
      if IsBackupName(s[0]) {
        assert Ours(s) == [s[0]] + Ours(later);
        assert multiset(Ours(s)) == multiset{s[0]} + multiset(Ours(later));
      }
    }
  }

  // The sorted backups of a listing: where each stands counts the ones newer than it.
  lemma {:induction false} StandingCountsNewer(listing: seq<string>, dir: set<string>) returns (ours: seq<string>)
    requires Lists(listing, dir)
    ensures ours == Sorted(Ours(listing)) && Distinct(ours)
    ensures forall x :: x in ours <==> x in Backups(dir)
    ensures forall i :: 0 <= i < |ours| ==> |Newer(dir, ours[i])| == |ours| - 1 - i
    ensures |ours| == |Backups(dir)|
  {
    ours := Sorted(Ours(listing));
    DistinctOurs(listing);
    SingleMeansDistinct(ours);
    forall x ensures x in ours <==> x in Backups(dir) {
      assert x in ours <==> x in multiset(ours);
      assert x in Ours(listing) <==> x in multiset(Ours(listing));
    }
    SizeOfDistinct(ours, Backups(dir));
    forall i | 0 <= i < |ours| ensures |Newer(dir, ours[i])| == |ours| - 1 - i {
      NewerFollow(dir, ours, i);
    }
  }

  lemma {:induction false} NewerFollow(dir: set<string>, ours: seq<string>, i: nat)
    requires i < |ours| && Distinct(ours) && Ascending(ours)
    requires forall x :: x in ours <==> x in Backups(dir)
    ensures |Newer(dir, ours[i])| == |ours| - 1 - i
  {
    var rest := ours[i + 1..];
    forall x ensures x in Newer(dir, ours[i]) <==> x in rest {
      LessTrichotomy(ours[i], x);
      if x in ours {
        var j :| 0 <= j < |ours| && ours[j] == x;
        if j > i { assert rest[j - i - 1] == x; }
      }
    }
    SizeOfDistinct(rest, Newer(dir, ours[i]));
  }

  lemma {:induction false} PrefixIsLess(s: seq<string>, n: nat)
    requires Ascending(s) && Distinct(s) && n <= |s|
    ensures forall x, y :: x in s[..n] && y in s[n..] ==> Less(x, y) && x != y
    ensures forall x :: x in s <==> x in s[..n] || x in s[n..]
    ensures Distinct(s[..n]) && Distinct(s[n..])
  {
    assert s == s[..n] + s[n..];
    forall x, y | x in s[..n] && y in s[n..] ensures Less(x, y) && x != y {
      var i :| 0 <= i < n && s[..n][i] == x;
      var j :| 0 <= j < |s| - n && s[n..][j] == y;
      assert !Less(s[n + j], s[i]) && s[i] != s[n + j];
      LessTrichotomy(x, y);
    }
  }

  lemma {:induction false} OldByPlace(dir: set<string>, keep: int, ours: seq<string>, n: nat, x: string)
    requires keep >= 1 && n == if |ours| > keep then |ours| - keep else 0
    requires x in ours <==> x in Backups(dir)
    requires forall i :: 0 <= i < |ours| ==> |Newer(dir, ours[i])| == |ours| - 1 - i
    ensures x in ours[..n] <==> Old(dir, keep, x)
  {
    if i :| 0 <= i < |ours| && ours[i] == x {
      assert |Newer(dir, ours[i])| == |ours| - 1 - i;
      assert i < n ==> ours[..n][i] == x;
      if j :| 0 <= j < n && ours[..n][j] == x { assert |Newer(dir, ours[j])| == |ours| - 1 - j; }
    }
  }

  lemma {:induction false} OldArePrefix(dir: set<string>, keep: int, ours: seq<string>, n: nat)
    requires keep >= 1 && n == if |ours| > keep then |ours| - keep else 0
    requires Ascending(ours) && Distinct(ours) && forall x :: x in ours <==> x in Backups(dir)
    requires forall i :: 0 <= i < |ours| ==> |Newer(dir, ours[i])| == |ours| - 1 - i
    ensures forall x :: x in ours[..n] <==> Old(dir, keep, x)
    ensures forall x :: x in ours[n..] <==> x in Backups(dir) && !Old(dir, keep, x)
  {
    forall x ensures x in ours[..n] <==> Old(dir, keep, x) { OldByPlace(dir, keep, ours, n, x); }
    PrefixIsLess(ours, n);
  }

  // A listing's backups from the oldest to the newest, and how many of them are old.
  lemma {:induction false} OldComeFirst(listing: seq<string>, dir: set<string>, keep: int)
      returns (oldest: seq<string>, newest: seq<string>)
    requires Lists(listing, dir) && keep >= 1
    ensures oldest == Prunable(listing, keep) && Distinct(oldest) && Distinct(newest)
    ensures |oldest| + |newest| == |Backups(dir)| && |newest| == if |Backups(dir)| > keep then keep else |Backups(dir)|
    ensures forall x :: x in oldest <==> Old(dir, keep, x)
    ensures forall x :: x in newest <==> x in Backups(dir) && !Old(dir, keep, x)
    ensures forall x, y :: x in oldest && y in newest ==> Less(x, y)
  {
    var ours := StandingCountsNewer(listing, dir);
    var n := if |ours| > keep then |ours| - keep else 0;
    oldest, newest := ours[..n], ours[n..];
    PrefixIsLess(ours, n);
    OldArePrefix(dir, keep, ours, n);
  }

  // What may be deleted: exactly the backups with `keep` newer ones beside them, oldest first. No
  // half-written file, and nothing the gateway did not name, is ever deleted or counted.
  lemma {:induction false} PrunableMeaning(listing: seq<string>, dir: set<string>, keep: int)
    requires Lists(listing, dir)
    ensures forall x :: x in Prunable(listing, keep) <==> Old(dir, keep, x)
    ensures Distinct(Prunable(listing, keep)) && Ascending(Prunable(listing, keep))
    ensures keep >= 1 ==> |Prunable(listing, keep)| == if |Backups(dir)| > keep then |Backups(dir)| - keep else 0
  {
    if keep >= 1 {
      var oldest, newest := OldComeFirst(listing, dir, keep);
    }
  }

  // ── Sweeps ───────────────────────────────────────────────────────────────────────────────────

  // What is left after a sweep in which some removals, perhaps all, worked.
  ghost predicate Swept(dir: set<string>, keep: int, after: set<string>) {
    && after <= dir
    && forall x :: x in dir && !Old(dir, keep, x) ==> x in after
  }

  lemma {:induction false} NewestStay(dir: set<string>, keep: int, after: set<string>, listing: seq<string>, x: string)
    requires keep >= 1 && Lists(listing, dir) && Swept(dir, keep, after) && x in after
    ensures Old(after, keep, x) <==> Old(dir, keep, x)
  {
    var oldest, newest := OldComeFirst(listing, dir, keep);
    SubsetSize(Newer(after, x), Newer(dir, x));
    if Old(dir, keep, x) {
      var names := set y | y in newest;
      SizeOfDistinct(newest, names);
      assert |oldest| > 0;
      SubsetSize(names, Newer(after, x));
    }
  }

  // A sweep whose removals partly fail leaves exactly the rest of its work to the next one: no
  // further backup is lost to it. After one whose removals all work there is nothing left to do, so
  // sweeping twice is sweeping once.
  lemma {:induction false} SweepResumes(dir: set<string>, keep: int, after: set<string>, listing: seq<string>, next: seq<string>)
    requires keep >= 1 && Lists(listing, dir) && Lists(next, after) && Swept(dir, keep, after)
    ensures forall x :: x in Prunable(next, keep) <==> x in Prunable(listing, keep) && x in after
    ensures (forall x :: x in Prunable(listing, keep) ==> x !in after) ==> Prunable(next, keep) == []
  {
    PrunableMeaning(listing, dir, keep);
    PrunableMeaning(next, after, keep);
    forall x ensures Old(after, keep, x) <==> Old(dir, keep, x) && x in after {
      if x in after { NewestStay(dir, keep, after, listing, x); }
    }
    assert Prunable(next, keep) == [] || Prunable(next, keep)[0] in Prunable(next, keep);
  }

  // A sweep whose removals all work keeps the newest `keep` backups, or all of them if there are
  // fewer, each newer than every one deleted; every other file stays.
  lemma {:induction false} SweepKeepsNewest(dir: set<string>, keep: int, listing: seq<string>, after: set<string>)
    requires keep >= 1 && Lists(listing, dir)
    requires forall x :: x in after <==> x in dir && x !in Prunable(listing, keep)
    ensures Swept(dir, keep, after)
    ensures |Backups(after)| == if |Backups(dir)| > keep then keep else |Backups(dir)|
    ensures forall x, y :: x in Backups(after) && y in dir - after ==> Less(y, x)
    ensures forall x :: x in dir && !IsBackupName(x) ==> x in after
  {
    var oldest, newest := OldComeFirst(listing, dir, keep);
    assert forall x :: x in Backups(after) <==> x in newest;
    SizeOfDistinct(newest, Backups(after));
  }
}
