/** Parsing NUL-delimited `git status --porcelain=v1 --branch -z` output. */
module Porcelain {
  import opened Text

  const NUL := '\0'

  datatype File = File(
    path: string,
    renamedFrom: Option<string>,
    staged: Option<char>,
    unstaged: Option<char>,
    conflicted: bool,
    untracked: bool)

  datatype Parsed<+B> = Parsed(branch: B, files: seq<File>)

  function Code(c: char): Option<char> { if c == ' ' then None else Some(c) }

  predicate Conflicted(staged: Option<char>, unstaged: Option<char>)
  {
    staged == Some('U') || unstaged == Some('U') ||
    (staged == Some('A') && unstaged == Some('A')) || (staged == Some('D') && unstaged == Some('D'))
  }

  predicate RenameOrCopy(c: char) { c == 'R' || c == 'C' }

  /** The file an entry of at least four characters describes; `next` is the part after it. */
  function FileFrom(part: string, next: Option<string>): File
    requires |part| >= 4
  {
    var staged, unstaged := Code(part[0]), Code(part[1]);
    File(part[3..], if RenameOrCopy(part[0]) then next else None, staged, unstaged,
         Conflicted(staged, unstaged), staged == Some('?') && unstaged == Some('?'))
  }

  /** What the parsing loop computes, part by part; `branchOf` parses a branch header. */
  function ParseParts<B>(parts: seq<string>, branch: B, branchOf: string -> B): Parsed<B>
    decreases |parts|
  {
    if parts == [] then Parsed(branch, [])
    else
      var part := parts[0];
      if "## " <= part then ParseParts(parts[1..], branchOf(part[3..]), branchOf)
      else if |part| < 4 then ParseParts(parts[1..], branch, branchOf)
      else
        var renamed := RenameOrCopy(part[0]);
        var file := FileFrom(part, if |parts| > 1 then Some(parts[1]) else None);
        var rest := ParseParts(if renamed && |parts| > 1 then parts[2..] else parts[1..], branch, branchOf);
        Parsed(rest.branch, [file] + rest.files)
  }

  function NonEmpty(parts: seq<string>): seq<string>
  {
    if parts == [] then []
    else (if parts[0] == "" then [] else [parts[0]]) + NonEmpty(parts[1..])
  }

  function From(parts: seq<string>, index: nat): seq<string>
  {
    if index < |parts| then parts[index..] else []
  }

  /** The outcome of the parsing loop from a given index, branch and files on. */
  function Outcome<B>(parts: seq<string>, index: nat, branch: B, files: seq<File>, branchOf: string -> B): Parsed<B>
  {
    var rest := ParseParts(From(parts, index), branch, branchOf);
    Parsed(rest.branch, files + rest.files)
  }

  lemma HeaderTurn<B>(parts: seq<string>, index: nat, branch: B, files: seq<File>, branchOf: string -> B)
    requires index < |parts| && ("## " <= parts[index] || |parts[index]| < 4)
    ensures Outcome(parts, index, branch, files, branchOf) ==
      Outcome(parts, index + 1, if "## " <= parts[index] then branchOf(parts[index][3..]) else branch, files, branchOf)
  {
    var suffix := parts[index..];
    assert suffix[0] == parts[index] && suffix[1..] == From(parts, index + 1);
  }

  lemma FileTurn<B>(parts: seq<string>, index: nat, branch: B, files: seq<File>, branchOf: string -> B)
    requires index < |parts| && !("## " <= parts[index]) && |parts[index]| >= 4
    ensures var next := if index + 1 < |parts| then Some(parts[index + 1]) else None;
      Outcome(parts, index, branch, files, branchOf) ==
      Outcome(parts, if RenameOrCopy(parts[index][0]) then index + 2 else index + 1, branch,
              files + [FileFrom(parts[index], next)], branchOf)
  {
    var suffix := parts[index..];
    assert suffix[0] == parts[index] && suffix[1..] == From(parts, index + 1);
    if |suffix| > 1 {
      assert suffix[1] == parts[index + 1] && suffix[2..] == From(parts, index + 2);
    }
  }

  /** The loop of `parsePorcelainStatus`; `unknown` is the branch before any header is seen. */
  method ParseLoop<B>(parts: seq<string>, unknown: B, branchOf: string -> B) returns (branch: B, files: seq<File>)
    ensures Parsed(branch, files) == ParseParts(parts, unknown, branchOf)
  {
    branch, files := unknown, [];
    var index := 0;
    assert From(parts, 0) == parts;
    while index < |parts|
      invariant 0 <= index
      invariant Outcome(parts, index, branch, files, branchOf) == ParseParts(parts, unknown, branchOf)
    {
      var part := parts[index];
      if "## " <= part {
        HeaderTurn(parts, index, branch, files, branchOf);
        branch := branchOf(part[3..]);
      } else if |part| < 4 {
        HeaderTurn(parts, index, branch, files, branchOf);
      } else {
        FileTurn(parts, index, branch, files, branchOf);
        var next := if index + 1 < |parts| then Some(parts[index + 1]) else None;
        files := files + [FileFrom(part, next)];
        if RenameOrCopy(part[0]) {
          index := index + 1;
        }
      }
      index := index + 1;
    }
    assert From(parts, index) == [];
  }

  /** `parsePorcelainStatus`. */
  method ParsePorcelainStatus<B>(stdout: string, unknown: B, branchOf: string -> B) returns (branch: B, files: seq<File>)
    ensures Parsed(branch, files) == ParseParts(NonEmpty(Split(stdout, NUL)), unknown, branchOf)
  {
    branch, files := ParseLoop(NonEmpty(Split(stdout, NUL)), unknown, branchOf);
  }

  // ---------------------------------------------------------------- the printer

  /** One entry as git prints it; a rename or copy on either side is followed by its source. */
  datatype Entry = Entry(index: char, worktree: char, path: string, from: Option<string>)

  predicate StatusCode(c: char) { c in " MTADRCU?!" }

  predicate Name(s: string) { s != "" && NUL !in s }

  predicate WellFormed(e: Entry)
  {
    StatusCode(e.index) && StatusCode(e.worktree) && Name(e.path) &&
    (e.from.Some? <==> RenameOrCopy(e.index) || RenameOrCopy(e.worktree)) && (e.from.Some? ==> Name(e.from.value))
  }

  function EntryParts(e: Entry): seq<string>
  {
    [[e.index, e.worktree, ' '] + e.path] + if e.from.Some? then [e.from.value] else []
  }

  function PrintParts(entries: seq<Entry>): seq<string>
  {
    if entries == [] then [] else EntryParts(entries[0]) + PrintParts(entries[1..])
  }

  /** Every part is terminated by a NUL. */
  function Print(header: string, entries: seq<Entry>): string
  {
    Join(["## " + header] + PrintParts(entries) + [""], NUL)
  }

  /** The entry a parsed file stands for. */
  function EntryOf(f: File): Entry
  {
    Entry(if f.staged.None? then ' ' else f.staged.value, if f.unstaged.None? then ' ' else f.unstaged.value,
          f.path, f.renamedFrom)
  }

  function Entries(files: seq<File>): (entries: seq<Entry>)
    ensures |entries| == |files| && forall i :: 0 <= i < |files| ==> entries[i] == EntryOf(files[i])
  {
    seq(|files|, i requires 0 <= i < |files| => EntryOf(files[i]))
  }

  // ---------------------------------------------------------------- round trip

  /** A rename or copy that only the worktree column shows. */
  predicate WorktreeRename(e: Entry) { RenameOrCopy(e.worktree) && !RenameOrCopy(e.index) }

  function FileOf(e: Entry): File
  {
    File(e.path, e.from, Code(e.index), Code(e.worktree), Conflicted(Code(e.index), Code(e.worktree)),
         e.index == '?' && e.worktree == '?')
  }

  /** The branch and the entries that parsing parts gives. */
  function Read<B>(parts: seq<string>, branch: B, branchOf: string -> B): (B, seq<Entry>)
  {
    var parsed := ParseParts(parts, branch, branchOf);
    (parsed.branch, Entries(parsed.files))
  }

  lemma EntriesPrepend(e: Entry, files: seq<File>)
    ensures Entries([FileOf(e)] + files) == [e] + Entries(files)
  {
    assert EntryOf(FileOf(e)) == e;
  }

  lemma ReadOneEntry<B>(e: Entry, tail: seq<string>, branch: B, branchOf: string -> B)
    requires WellFormed(e) && !WorktreeRename(e)
    ensures var rest := Read(tail, branch, branchOf);
      Read(EntryParts(e) + tail, branch, branchOf) == (rest.0, [e] + rest.1)
  {
    var parts := EntryParts(e) + tail;
    var part := [e.index, e.worktree, ' '] + e.path;
    assert parts[0] == part && part[0] == e.index && part[1] == e.worktree && part[3..] == e.path;
    assert part[..3][0] != '#';
    if e.from.Some? {
      assert parts[1] == e.from.value && parts[2..] == tail;
    } else {
      assert parts[1..] == tail;
    }
    EntriesPrepend(e, ParseParts(tail, branch, branchOf).files);
  }

  lemma PrintConsTail(entries: seq<Entry>, tail: seq<string>)
    requires entries != []
    ensures PrintParts(entries) + tail == EntryParts(entries[0]) + (PrintParts(entries[1..]) + tail)
  {
    AppendAppend(EntryParts(entries[0]), PrintParts(entries[1..]), tail);
  }

  /** A reader that takes every entry off the front of its parts. */
  ghost predicate TakesEntries<B(!new)>(read: seq<string> -> (B, seq<Entry>))
  {
    forall e, rest :: WellFormed(e) && !WorktreeRename(e) ==> read(EntryParts(e) + rest) == (read(rest).0, [e] + read(rest).1)
  }

  lemma {:induction false} TakesAllEntries<B(!new)>(
    entries: seq<Entry>, tail: seq<string>, read: seq<string> -> (B, seq<Entry>))
    requires TakesEntries(read) && forall e :: e in entries ==> WellFormed(e) && !WorktreeRename(e)
    ensures read(PrintParts(entries) + tail) == (read(tail).0, entries + read(tail).1)
  {
    if entries == [] {
      EmptyAppend(tail);
      EmptyAppend(read(tail).1);
    } else {
      PrintConsTail(entries, tail);
      TakesAllEntries(entries[1..], tail, read);
      ConsAppend(entries, read(tail).1);
    }
  }

  lemma ReadEntries<B(!new)>(entries: seq<Entry>, tail: seq<string>, branch: B, branchOf: string -> B)
    requires forall e :: e in entries ==> WellFormed(e) && !WorktreeRename(e)
    ensures var rest := Read(tail, branch, branchOf);
      Read(PrintParts(entries) + tail, branch, branchOf) == (rest.0, entries + rest.1)
  {
    var read := (parts: seq<string>) => Read(parts, branch, branchOf);
    forall e, rest | WellFormed(e) && !WorktreeRename(e)
      ensures read(EntryParts(e) + rest) == (read(rest).0, [e] + read(rest).1)
    {
      ReadOneEntry(e, rest, branch, branchOf);
    }
    TakesAllEntries(entries, tail, read);
  }

  /** A worktree-side rename comes back without its source, whatever follows. */
  lemma WorktreeRenameLosesSource<B>(e: Entry, tail: seq<string>, branch: B, branchOf: string -> B)
    requires WellFormed(e) && WorktreeRename(e)
    ensures var parsed := ParseParts(EntryParts(e) + tail, branch, branchOf);
      parsed.files != [] && parsed.files[0].renamedFrom.None?
  {
    var parts := EntryParts(e) + tail;
    var part := [e.index, e.worktree, ' '] + e.path;
    assert parts[0] == part && part[0] == e.index;
    assert part[..3][0] != '#';
  }

  lemma {:induction false} NonEmptyKeeps(parts: seq<string>)
    requires forall p :: p in parts ==> p != ""
    ensures NonEmpty(parts + [""]) == parts
  {
    if parts == [] {
      assert NonEmpty([""]) == [] + NonEmpty([""][1..]);
    } else {
      assert (parts + [""])[0] == parts[0] && (parts + [""])[1..] == parts[1..] + [""];
      assert forall p :: p in parts[1..] ==> p in parts;
      assert parts[0] in parts;
      NonEmptyKeeps(parts[1..]);
      assert parts == [parts[0]] + parts[1..];
    }
  }

  lemma {:induction false} PrintedPartsAreNames(entries: seq<Entry>)
    requires forall e :: e in entries ==> WellFormed(e)
    ensures forall p :: p in PrintParts(entries) ==> Name(p)
  {
    if entries != [] {
      PrintedPartsAreNames(entries[1..]);
      assert WellFormed(entries[0]);
      assert NUL !in [entries[0].index, entries[0].worktree, ' '] + entries[0].path;
    }
  }

  /** The parts of printed output are the header and the entries' parts. */
  lemma PrintedParts(header: string, entries: seq<Entry>)
    requires NUL !in header && forall e :: e in entries ==> WellFormed(e)
    ensures NonEmpty(Split(Print(header, entries), NUL)) == ["## " + header] + PrintParts(entries)
  {
    PrintedPartsAreNames(entries);
    var parts := ["## " + header] + PrintParts(entries);
    assert forall p :: p in parts + [""] ==> NUL !in p;
    SplitJoin(parts + [""], NUL);
    NonEmptyKeeps(parts);
  }

  function FirstWorktreeRename(entries: seq<Entry>): (i: nat)
    requires exists e :: e in entries && WorktreeRename(e)
    ensures i < |entries| && WorktreeRename(entries[i])
    ensures forall j :: 0 <= j < i ==> !WorktreeRename(entries[j])
  {
    if WorktreeRename(entries[0]) then 0 else 1 + FirstWorktreeRename(entries[1..])
  }

  lemma {:induction false} PrintPartsSplits(a: seq<Entry>, b: seq<Entry>)
    ensures PrintParts(a + b) == PrintParts(a) + PrintParts(b)
  {
    if a == [] {
      assert a + b == b;
    } else {
      assert (a + b)[1..] == a[1..] + b;
      PrintPartsSplits(a[1..], b);
    }
  }

  lemma HeaderSetsBranch<B>(header: string, tail: seq<string>, unknown: B, branchOf: string -> B)
    ensures ParseParts(["## " + header] + tail, unknown, branchOf) == ParseParts(tail, branchOf(header), branchOf)
  {
    var parts := ["## " + header] + tail;
    assert parts[1..] == tail && parts[0][3..] == header;
  }

  /** The seven codes of an unmerged path. */
  predicate Unmerged(e: Entry)
  {
    [e.index, e.worktree] in ["DD", "AU", "UD", "UA", "DU", "AA", "UU"]
  }

  /** A file is flagged conflicted exactly on an unmerged code or another code with a `U`, untracked exactly on `??`. */
  predicate FlagsFit(f: File)
  {
    var e := EntryOf(f);
    (f.untracked <==> e.index == '?' && e.worktree == '?') &&
    (f.conflicted <==> Unmerged(e) || e.index == 'U' || e.worktree == 'U')
  }

  lemma FileFlagsFit(part: string, next: Option<string>)
    requires |part| >= 4
    ensures FlagsFit(FileFrom(part, next))
  {
    var f := FileFrom(part, next);
    var e := EntryOf(f);
    if f.conflicted && e.index != 'U' && e.worktree != 'U' {
      assert [e.index, e.worktree] == "AA" || [e.index, e.worktree] == "DD";
    }
    if Unmerged(e) {
      assert [e.index, e.worktree][0] == e.index && [e.index, e.worktree][1] == e.worktree;
    }
  }

  lemma {:induction false} ParsedFlagsFit<B>(parts: seq<string>, branch: B, branchOf: string -> B)
    ensures forall f :: f in ParseParts(parts, branch, branchOf).files ==> FlagsFit(f)
    decreases |parts|
  {
    if parts != [] {
      var part := parts[0];
      if "## " <= part {
        ParsedFlagsFit(parts[1..], branchOf(part[3..]), branchOf);
      } else {
        ParsedFlagsFit(parts[1..], branch, branchOf);
        if |part| >= 4 {
          FileFlagsFit(part, if |parts| > 1 then Some(parts[1]) else None);
          if |parts| > 1 {
            ParsedFlagsFit(parts[2..], branch, branchOf);
          }
        }
      }
    }
  }

  lemma PrintAround(good: seq<Entry>, bad: Entry, later: seq<Entry>)
    ensures PrintParts(good + [bad] + later) == PrintParts(good) + (EntryParts(bad) + PrintParts(later))
  {
    assert good + [bad] + later == good + ([bad] + later);
    PrintPartsSplits(good, [bad] + later);
    assert ([bad] + later)[1..] == later;
  }

  /** After entries that parse back, a worktree-side rename makes the parsed entries differ. */
  lemma BadEntryDiffers<B(!new)>(good: seq<Entry>, bad: Entry, later: seq<Entry>, branch: B, branchOf: string -> B)
    requires forall e :: e in good ==> WellFormed(e) && !WorktreeRename(e)
    requires WellFormed(bad) && WorktreeRename(bad)
    ensures Read(PrintParts(good + [bad] + later), branch, branchOf).1 != good + [bad] + later
  {
    PrintAround(good, bad, later);
    var tail := EntryParts(bad) + PrintParts(later);
    ReadEntries(good, tail, branch, branchOf);
    WorktreeRenameLosesSource(bad, PrintParts(later), branch, branchOf);
    var rest := Read(tail, branch, branchOf).1;
    assert (good + rest)[|good|] == rest[0] && (good + [bad] + later)[|good|] == bad;
  }

  lemma EntriesComeBack<B(!new)>(entries: seq<Entry>, branch: B, branchOf: string -> B)
    requires forall e :: e in entries ==> WellFormed(e)
    ensures var read := Read(PrintParts(entries), branch, branchOf);
      (read.1 == entries <==> forall e :: e in entries ==> !WorktreeRename(e)) &&
      ((forall e :: e in entries ==> !WorktreeRename(e)) ==> read.0 == branch)
  {
    if forall e :: e in entries ==> !WorktreeRename(e) {
      ReadEntries(entries, [], branch, branchOf);
      assert PrintParts(entries) + [] == PrintParts(entries);
      assert entries + Entries([]) == entries;
    } else {
      var i := FirstWorktreeRename(entries);
      var good, bad, later := entries[..i], entries[i], entries[i + 1..];
      assert entries == good + [bad] + later;
      BadEntryDiffers(good, bad, later, branch, branchOf);
    }
  }

  /**
   * Parsing printed output gives back the entries exactly when none of them is a worktree-side rename or copy, and
   * then also the header's branch. Sources may be short or look like a header.
   */
  lemma RoundTrip<B(!new)>(header: string, entries: seq<Entry>, unknown: B, branchOf: string -> B)
    requires NUL !in header && forall e :: e in entries ==> WellFormed(e)
    ensures var parsed := ParseParts(NonEmpty(Split(Print(header, entries), NUL)), unknown, branchOf);
      (Entries(parsed.files) == entries <==> forall e :: e in entries ==> !WorktreeRename(e)) &&
      ((forall e :: e in entries ==> !WorktreeRename(e)) ==> parsed.branch == branchOf(header))
  {
    PrintedParts(header, entries);
    HeaderSetsBranch(header, PrintParts(entries), unknown, branchOf);
    EntriesComeBack(entries, branchOf(header), branchOf);
  }

  // ---------------------------------------------------------------- output of other shapes

  /** Without a header the branch stays unknown. */
  lemma {:induction false} NoHeaderNoBranch<B>(parts: seq<string>, branch: B, branchOf: string -> B)
    requires forall p :: p in parts ==> !("## " <= p)
    ensures ParseParts(parts, branch, branchOf).branch == branch
    decreases |parts|
  {
    if parts != [] {
      assert parts[0] in parts;
      assert forall p :: p in parts[1..] ==> p in parts;
      NoHeaderNoBranch(parts[1..], branch, branchOf);
      if |parts| > 1 {
        assert forall p :: p in parts[2..] ==> p in parts;
        NoHeaderNoBranch(parts[2..], branch, branchOf);
      }
    }
  }

  /** A part too short for an entry is passed over. */
  lemma ShortPartIsSkipped<B>(part: string, rest: seq<string>, branch: B, branchOf: string -> B)
    requires |part| <= 3 && part != "## "
    ensures ParseParts([part] + rest, branch, branchOf) == ParseParts(rest, branch, branchOf)
  {
    assert ([part] + rest)[1..] == rest;
  }

  /** Output that ends in a rename entry without its source gives the entry with no source. */
  lemma LastRenameHasNoSource<B>(e: Entry, branch: B, branchOf: string -> B)
    requires StatusCode(e.index) && Name(e.path) && RenameOrCopy(e.index)
    ensures var parsed := ParseParts([[e.index, e.worktree, ' '] + e.path], branch, branchOf);
      parsed.branch == branch && Entries(parsed.files) == [e.(from := None)]
  {
    var part := [e.index, e.worktree, ' '] + e.path;
    assert part[0] == e.index && part[1] == e.worktree && part[3..] == e.path;
    assert part[..3][0] != '#';
    var parts: seq<string> := [part];
    assert parts[1..] == [];
    var file := FileFrom(part, None);
    assert ParseParts([part], branch, branchOf).files == [file] + [] == [file];
    assert EntryOf(file) == e.(from := None);
  }
}
