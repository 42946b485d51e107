/** Keeping only the newest quarantined files of a state file. */
module QuarantineCleanup {
  import opened StableSort

  datatype Candidate = Candidate(name: string, mtime: int)

  /** Newer files first. */
  predicate NewerFirst(a: Candidate, b: Candidate) { a.mtime >= b.mtime }

  predicate IsQuarantine(name: string, prefix: string) { prefix <= name }

  ghost function Quarantined(files: map<string, int>, prefix: string): set<string>
  {
    set name | name in files && IsQuarantine(name, prefix)
  }

  ghost predicate Distinct(cs: seq<Candidate>)
  {
    forall i, j :: 0 <= i < j < |cs| ==> cs[i].name != cs[j].name
  }

  ghost function NameSet(cs: seq<Candidate>): set<string>
  {
    set i | 0 <= i < |cs| :: cs[i].name
  }

  lemma NameSetGrows(cs: seq<Candidate>, c: Candidate)
    ensures NameSet(cs + [c]) == NameSet(cs) + {c.name}
  {
    var all := cs + [c];
    forall i | 0 <= i < |cs| ensures cs[i].name in NameSet(all) { assert all[i] == cs[i]; }
    assert all[|cs|].name in NameSet(all);
  }

  lemma {:induction false} NameSetSize(cs: seq<Candidate>)
    requires Distinct(cs)
    ensures |NameSet(cs)| == |cs|
  {
    if cs != [] {
      var init, last := cs[..|cs| - 1], cs[|cs| - 1];
      assert cs == init + [last];
      NameSetGrows(init, last);
      NameSetSize(init);
      assert last.name !in NameSet(init);
    }
  }

  lemma OccursOnce(cs: seq<Candidate>, k: nat)
    requires Distinct(cs) && k < |cs|
    ensures multiset(cs)[cs[k]] == 1
  {
    assert cs == cs[..k] + [cs[k]] + cs[k + 1..];
    assert cs[k] !in cs[..k] && cs[k] !in cs[k + 1..];
  }

  lemma OccursTwice(cs: seq<Candidate>, i: nat, j: nat)
    requires i < j < |cs| && cs[i] == cs[j]
    ensures multiset(cs)[cs[i]] >= 2
  {
    assert cs == cs[..j] + cs[j..] && cs[..j][i] == cs[i] && cs[j..][0] == cs[j];
    assert cs[i] in multiset(cs[..j]) && cs[i] in multiset(cs[j..]);
  }

  lemma DistinctPermuted(a: seq<Candidate>, b: seq<Candidate>)
    requires Distinct(a) && multiset(a) == multiset(b)
    ensures Distinct(b) && NameSet(a) == NameSet(b)
  {
    forall i, j | 0 <= i < j < |b| ensures b[i].name != b[j].name {
      assert b[i] in multiset(a) && b[j] in multiset(a);
      var k :| 0 <= k < |a| && a[k] == b[i];
      var l :| 0 <= l < |a| && a[l] == b[j];
      if b[i].name == b[j].name {
        OccursTwice(b, i, j);
        OccursOnce(a, k);
      }
    }
    forall c ensures c in a <==> c in b {
      assert c in multiset(a) <==> c in multiset(b);
    }
    forall i | 0 <= i < |a| ensures a[i].name in NameSet(b) {
      assert a[i] in b;
    }
    forall i | 0 <= i < |b| ensures b[i].name in NameSet(a) {
      assert b[i] in a;
    }
  }

  /** The candidates are the quarantine files, each once, with their times. */
  ghost predicate Lists(cs: seq<Candidate>, files: map<string, int>, prefix: string)
  {
    Distinct(cs) && NameSet(cs) == Quarantined(files, prefix) &&
    forall i :: 0 <= i < |cs| ==> cs[i].name in files && files[cs[i].name] == cs[i].mtime
  }

  lemma SortLists(cs: seq<Candidate>, files: map<string, int>, prefix: string)
    requires Lists(cs, files, prefix)
    ensures Lists(Sort(cs, NewerFirst), files, prefix) && Sorted(Sort(cs, NewerFirst), NewerFirst)
  {
    SortSorts(cs, NewerFirst);
    var sorted := Sort(cs, NewerFirst);
    DistinctPermuted(cs, sorted);
    forall i | 0 <= i < |sorted| ensures sorted[i].name in files && files[sorted[i].name] == sorted[i].mtime {
      assert sorted[i] in multiset(cs);
    }
  }

  lemma NameSetSplits(cs: seq<Candidate>, n: nat)
    requires Distinct(cs) && n <= |cs|
    ensures NameSet(cs[..n]) == NameSet(cs) - NameSet(cs[n..])
  {
    forall i | 0 <= i < |cs| ensures cs[i].name in NameSet(cs[..n]) <==> i < n
      ensures cs[i].name in NameSet(cs[n..]) <==> i >= n
    {
      assert i < n ==> cs[..n][i].name == cs[i].name;
      assert i >= n ==> cs[n..][i - n].name == cs[i].name;
    }
    forall name | name in NameSet(cs[..n]) ensures name in NameSet(cs) {
      var i :| 0 <= i < n && cs[..n][i].name == name;
      assert cs[i].name == name;
    }
  }

  lemma EarlierIsNewer(sorted: seq<Candidate>, n: nat, k: string, r: string, files: map<string, int>, prefix: string)
    requires Lists(sorted, files, prefix) && Sorted(sorted, NewerFirst) && n <= |sorted|
    requires k in NameSet(sorted[..n]) && r in NameSet(sorted[n..])
    ensures k in files && r in files && files[r] <= files[k]
  {
    var i :| 0 <= i < n && sorted[..n][i].name == k;
    var j :| 0 <= j < |sorted| - n && sorted[n..][j].name == r;
    assert NewerFirst(sorted[i], sorted[n + j]);
  }

  lemma FirstOnesStay(
    sorted: seq<Candidate>, n: nat, files: map<string, int>, left: map<string, int>, prefix: string)
    requires Lists(sorted, files, prefix) && n <= |sorted| && left == files - NameSet(sorted[n..])
    ensures Quarantined(left, prefix) == NameSet(sorted[..n])
    ensures |Quarantined(left, prefix)| == n && |Quarantined(files, prefix)| == |sorted|
    ensures forall r :: r in files && r !in left ==> r in NameSet(sorted[n..])
  {
    NameSetSplits(sorted, n);
    NameSetSize(sorted);
    NameSetSize(sorted[..n]);
    assert Quarantined(left, prefix) == Quarantined(files, prefix) - NameSet(sorted[n..]);
  }

  method RemoveAll(files: map<string, int>, victims: seq<Candidate>) returns (left: map<string, int>)
    ensures left == files - NameSet(victims)
  {
    left := files;
    for i := 0 to |victims|
      invariant left == files - NameSet(victims[..i])
    {
      left := left - {victims[i].name};
      assert victims[..i + 1] == victims[..i] + [victims[i]];
      NameSetGrows(victims[..i], victims[i]);
    }
    assert victims[..|victims|] == victims;
  }

  /** The quarantine files still there, in the order of the directory listing. */
  function Listed(files: map<string, int>, entries: seq<string>, prefix: string): seq<Candidate>
  {
    if entries == [] then []
    else
      var n := |entries| - 1;
      Listed(files, entries[..n], prefix) +
      if IsQuarantine(entries[n], prefix) && entries[n] in files then [Candidate(entries[n], files[entries[n]])] else []
  }

  /** A directory listing: each entry once, and every file among them. */
  ghost predicate Listing(files: map<string, int>, entries: seq<string>)
  {
    NoRepeats(entries) && forall name :: name in files ==> name in entries
  }

  lemma {:induction false} ListedSome(files: map<string, int>, entries: seq<string>, prefix: string)
    requires NoRepeats(entries)
    ensures var cs := Listed(files, entries, prefix);
      Distinct(cs) && NameSet(cs) == (set name | name in entries && name in files && IsQuarantine(name, prefix)) &&
      forall i :: 0 <= i < |cs| ==> cs[i].name in files && files[cs[i].name] == cs[i].mtime
  {
    if entries != [] {
      var n := |entries| - 1;
      var init, entry := entries[..n], entries[n];
      assert entries == init + [entry];
      ListedSome(files, init, prefix);
      var cs := Listed(files, init, prefix);
      forall i | 0 <= i < |cs| ensures cs[i].name != entry {
        assert cs[i].name in NameSet(cs);
      }
      if IsQuarantine(entry, prefix) && entry in files {
        NameSetGrows(cs, Candidate(entry, files[entry]));
      } else {
        assert Listed(files, entries, prefix) == cs;
      }
    }
  }

  lemma ListedLists(files: map<string, int>, entries: seq<string>, prefix: string)
    requires Listing(files, entries)
    ensures Lists(Listed(files, entries, prefix), files, prefix)
  {
    ListedSome(files, entries, prefix);
  }

  /** The first loop: stat every listed quarantine file that is still there. */
  method Candidates(files: map<string, int>, entries: seq<string>, prefix: string) returns (candidates: seq<Candidate>)
    requires Listing(files, entries)
    ensures candidates == Listed(files, entries, prefix)
    ensures Lists(candidates, files, prefix)
  {
    candidates := [];
    for i := 0 to |entries|
      invariant candidates == Listed(files, entries[..i], prefix)
    {
      var entry := entries[i];
      assert entries[..i + 1][..i] == entries[..i] && entries[..i + 1][i] == entry;
      if IsQuarantine(entry, prefix) && entry in files {
        candidates := candidates + [Candidate(entry, files[entry])];
      }
    }
    assert entries[..|entries|] == entries;
    ListedLists(files, entries, prefix);
  }

  /** The files that are removed: all but the first ones of the sorted candidates. */
  function Victims(files: map<string, int>, entries: seq<string>, prefix: string, retention: nat): seq<Candidate>
  {
    var sorted := Sort(Listed(files, entries, prefix), NewerFirst);
    if retention < |sorted| then sorted[retention..] else []
  }

  /**
   * `cleanupQuarantineFiles` on a directory that maps names to modification times. Exactly the newest
   * `min(n, retention)` quarantine files stay, and no other file is touched.
   */
  method CleanupQuarantineFiles(files: map<string, int>, entries: seq<string>, prefix: string, retention: nat)
    returns (left: map<string, int>)
    requires Listing(files, entries)
    ensures left == files - NameSet(Victims(files, entries, prefix, retention))
    ensures forall name :: name in files && !IsQuarantine(name, prefix) ==> name in left
    ensures |Quarantined(left, prefix)| ==
              if |Quarantined(files, prefix)| < retention then |Quarantined(files, prefix)| else retention
    ensures forall k, r :: k in Quarantined(left, prefix) && r in Quarantined(files, prefix) && r !in left ==>
              files[r] <= files[k]
  {
    var candidates := Candidates(files, entries, prefix);
    var sorted := Sort(candidates, NewerFirst);
    SortLists(candidates, files, prefix);
    var first := if retention < |sorted| then retention else |sorted|;
    left := RemoveAll(files, sorted[first..]);
    FirstOnesStay(sorted, first, files, left, prefix);
    forall k, r | k in Quarantined(left, prefix) && r in Quarantined(files, prefix) && r !in left
      ensures files[r] <= files[k]
    {
      EarlierIsNewer(sorted, first, k, r, files, prefix);
    }
  }

  /** What sorts before a quarantine file: the newer ones, and the equally new ones listed earlier. */
  ghost function Ahead(files: map<string, int>, entries: seq<string>, prefix: string, name: string): set<Candidate>
    requires name in files
  {
    StableSort.Before(Listed(files, entries, prefix), Candidate(name, files[name]), NewerFirst)
  }

  /** A quarantine file survives the cleanup exactly when fewer than `retention` others sort before it. */
  lemma SurvivesIff(files: map<string, int>, entries: seq<string>, prefix: string, retention: nat, name: string)
    requires Listing(files, entries) && name in Quarantined(files, prefix)
    ensures name !in NameSet(Victims(files, entries, prefix, retention)) <==>
      |Ahead(files, entries, prefix, name)| < retention
  {
    var listed := Listed(files, entries, prefix);
    var sorted := Sort(listed, NewerFirst);
    ListedLists(files, entries, prefix);
    SortLists(listed, files, prefix);
    assert name in NameSet(sorted);
    var p :| 0 <= p < |sorted| && sorted[p].name == name;
    PlaceIsRank(listed, NewerFirst, p);
    var n := if retention < |sorted| then retention else |sorted|;
    assert n == |sorted| ==> sorted[n..] == [];
    LaterIffVictim(sorted, n, p);
  }

  lemma LaterIffVictim(sorted: seq<Candidate>, n: nat, p: nat)
    requires Distinct(sorted) && n <= |sorted| && p < |sorted|
    ensures sorted[p].name in NameSet(sorted[n..]) <==> n <= p
  {
    if n <= p {
      assert sorted[n..][p - n] == sorted[p];
    }
  }
}
