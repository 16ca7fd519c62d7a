/** The program association table (src/psi/pat.rs; section 2.4.4.3 of ISO/IEC 13818-1). */
module Pat {
  import opened Common
  import opened Sections
  import MpegCrc

  datatype PatInfo = PatInfo(progNum: nat, pmtPid: Pid)

  // ----- reading -----

  function Entry(b: Bytes): PatInfo
    requires |b| >= 4
  {
    PatInfo(b[0] as int * 256 + b[1], b[2] as int % 32 * 256 + b[3])
  }

  /** The programs among the four-byte entries; number 0 is the network, not a program. */
  function Entries(b: Bytes): seq<PatInfo> {
    if |b| < 4 then []
    else (if Entry(b).progNum != 0 then [Entry(b)] else []) + Entries(b[4..])
  }

  /** What stands between header and checksum. */
  function EntriesOf(s: Bytes): Bytes {
    if |s| < 12 then [] else s[8..|s| - 4]
  }

  function Programs(s: Bytes): seq<PatInfo> {
    Entries(EntriesOf(s))
  }

  /** `programs` have been read, `rest` is left. */
  ghost predicate ReadSoFar(programs: seq<PatInfo>, rest: Bytes, all: seq<PatInfo>) {
    programs + Entries(rest) == all
  }

  lemma ReadOne(programs: seq<PatInfo>, rest: Bytes, all: seq<PatInfo>)
    requires |rest| >= 4 && ReadSoFar(programs, rest, all)
    ensures ReadSoFar(if Entry(rest).progNum != 0 then programs + [Entry(rest)] else programs, rest[4..], all)
  {
    var more := Entries(rest[4..]);
    if Entry(rest).progNum != 0 {
      assert programs + ([Entry(rest)] + more) == programs + [Entry(rest)] + more;
    } else {
      assert [] + more == more;
    }
  }

  lemma ReadAll(programs: seq<PatInfo>, rest: Bytes, all: seq<PatInfo>)
    requires |rest| < 4 && ReadSoFar(programs, rest, all)
    ensures programs == all
  {
    assert programs + [] == programs;
  }

  lemma EntryAt(section: Bytes, pos: nat)
    requires 8 <= pos && pos + 4 <= |section| - 4
    ensures pos - 8 + 4 <= |EntriesOf(section)|
    ensures var rest := EntriesOf(section)[pos - 8..];
            && rest[0] == section[pos] && rest[1] == section[pos + 1] && rest[2] == section[pos + 2]
            && rest[3] == section[pos + 3] && rest[4..] == EntriesOf(section)[pos + 4 - 8..]
  {
  }

  /** The source subtracts the checksum's length unchecked, so it needs four bytes. */
  method AnalyzePat(section: Bytes) returns (programs: seq<PatInfo>)
    requires |section| >= 4
    ensures programs == Programs(section)
  {
    programs := [];
    var pos := 8;
    var sectionEnd := |section| - 4;
    ghost var body, all := EntriesOf(section), Programs(section);
    while pos + 4 <= sectionEnd
      invariant 8 <= pos <= 8 + |body| && ReadSoFar(programs, body[pos - 8..], all)
    {
      EntryAt(section, pos);
      ReadOne(programs, body[pos - 8..], all);
      var progNum := section[pos] as int * 256 + section[pos + 1];
      var pmtPid := section[pos + 2] as int % 32 * 256 + section[pos + 3];
      if progNum != 0 {
        programs := programs + [PatInfo(progNum, pmtPid)];
      }
      pos := pos + 4;
    }
    ReadAll(programs, body[pos - 8..], all);
  }

  // ----- writing -----

  type Mappings = seq<(nat, nat)>

  function EntryBytes(progNum: nat, pmtPid: nat): (b: Bytes)
    ensures |b| == 4
  {
    [progNum / 256 % 256, progNum % 256, pmtPid / 256 % 32 + 224, pmtPid % 256]
  }

  function EntriesBytes(m: Mappings): (b: Bytes)
    ensures |b| == 4 * |m|
  {
    if m == [] then [] else EntryBytes(m[0].0, m[0].1) + EntriesBytes(m[1..])
  }

  /** The old header, the entries asked for, length and checksum. */
  function Patched(original: Bytes, m: Mappings): Bytes
    requires |original| >= 8
  {
    Sealed(original[..8] + EntriesBytes(m))
  }

  lemma AppendEntry(section: Bytes, m: Mappings, i: nat, all: Bytes)
    requires i < |m| && section + EntriesBytes(m[i..]) == all
    ensures section + [m[i].0 / 256 % 256, m[i].0 % 256] + [m[i].1 / 256 % 32 + 224, m[i].1 % 256]
            + EntriesBytes(m[i + 1..]) == all
  {
    var entry, rest := EntryBytes(m[i].0, m[i].1), EntriesBytes(m[i + 1..]);
    assert m[i..][1..] == m[i + 1..];
    assert section + [entry[0], entry[1]] + [entry[2], entry[3]] == section + entry;
    assert section + (entry + rest) == section + entry + rest;
  }

  method PatchPatSection(original: Bytes, m: Mappings) returns (section: Bytes)
    requires |original| >= 8
    ensures section == Patched(original, m)
  {
    section := original[0..8];
    var i := 0;
    while i < |m|
      invariant i <= |m| && section + EntriesBytes(m[i..]) == original[..8] + EntriesBytes(m)
    {
      var (progNum, pmtPid) := m[i];
      AppendEntry(section, m, i, original[..8] + EntriesBytes(m));
      section := section + [progNum / 256 % 256, progNum % 256];
      section := section + [pmtPid / 256 % 32 + 224, pmtPid % 256];
      i := i + 1;
    }
    assert section + [] == section;
    var sectionLength := (|section| - 3 + 4) % 0x1_0000;
    LengthBits(|section| + 1);
    section := section[1 := section[1] / 16 * 16 + sectionLength / 256 % 16];
    section := section[2 := sectionLength % 256];
    section := section + MpegCrc.Checksum(section);
  }

  // ----- what was written is read back -----

  /** The programs asked for, in their 16 and 13 bits. */
  function Expected(m: Mappings): seq<PatInfo> {
    if m == [] then []
    else
      (if m[0].0 % 0x1_0000 != 0 then [PatInfo(m[0].0 % 0x1_0000, m[0].1 % 8192)] else []) + Expected(m[1..])
  }

  lemma EntryBack(progNum: nat, pmtPid: nat, rest: Bytes)
    ensures var b := EntryBytes(progNum, pmtPid) + rest;
            Entry(b) == PatInfo(progNum % 0x1_0000, pmtPid % 8192) && b[4..] == rest
  {
    SixteenBits(progNum);
    ThirteenBits(pmtPid);
  }

  lemma SixteenBits(n: nat)
    ensures n / 256 % 256 * 256 + n % 256 == n % 0x1_0000
  {
    var a, b := n / 0x1_0000, n % 0x1_0000;
    assert n / 256 == 256 * a + b / 256;
    assert n % 256 == b % 256;
  }

  lemma ThirteenBits(n: nat)
    ensures n / 256 % 32 * 256 + n % 256 == n % 8192
  {
    var a, b := n / 8192, n % 8192;
    assert n / 256 == 32 * a + b / 256;
    assert n % 256 == b % 256;
  }

  lemma {:induction false} EntriesBack(m: Mappings)
    ensures Entries(EntriesBytes(m)) == Expected(m)
    decreases |m|
  {
    if m != [] {
      EntryBack(m[0].0, m[0].1, EntriesBytes(m[1..]));
      EntriesBack(m[1..]);
    }
  }

  /** The rewritten section lists exactly the programs asked for, in their order, keeps the rest of the
    * header, declares its true length while 12 bits can hold it, and passes the checksum test. */
  lemma PatchedIsRight(original: Bytes, m: Mappings)
    requires |original| >= 8
    ensures var s := Patched(original, m);
            && Programs(s) == Expected(m) && |s| == 12 + 4 * |m| && s[3..8] == original[3..8]
            && (WellSized(s) <==> 8 + 4 * |m| <= 4094) && MpegCrc.Crc32(MpegCrc.INITIAL, s) == 0
  {
    var raw := original[..8] + EntriesBytes(m);
    SealedIsRight(raw);
    SealedKeeps(raw);
    EntriesBack(m);
    BehindLength(raw, Sealed(raw), original[..8], EntriesBytes(m));
    assert raw[3..8] == original[3..8];
  }

  /** What the two parts of a section are after it was sealed. */
  lemma BehindLength(raw: Bytes, s: Bytes, header: Bytes, entries: Bytes)
    requires |header| == 8 && raw == header + entries && |s| == |raw| + 4
    requires s[3..|raw|] == raw[3..]
    ensures s[8..|s| - 4] == entries && s[3..8] == raw[3..8]
  {
    assert s[8..|s| - 4] == s[3..|raw|][5..] == raw[3..][5..] == entries;
    assert s[3..8] == s[3..|raw|][..5] == raw[3..][..5];
  }

  // ----- change detection -----

  /** All that sorting by program number promises: the same entries, in order of their numbers. */
  ghost predicate SortsByNumber(sort: seq<PatInfo> -> seq<PatInfo>) {
    forall xs: seq<PatInfo> :: multiset(sort(xs)) == multiset(xs) && InOrder(sort(xs))
  }

  predicate InOrder(xs: seq<PatInfo>) {
    forall i, j :: 0 <= i < j < |xs| ==> xs[i].progNum <= xs[j].progNum
  }

  /** Every program is listed once. */
  predicate OnePerNumber(xs: seq<PatInfo>) {
    forall x, y :: x in xs && y in xs && x.progNum == y.progNum ==> x == y
  }

  function Changed(a: seq<PatInfo>, b: seq<PatInfo>, sort: seq<PatInfo> -> seq<PatInfo>): bool {
    |a| != |b| || (a != b && sort(a) != sort(b))
  }

  /** Tables with different entries always count as changed; with the same ones in another order, however
    * the sort breaks ties, they do not if no number stands for two programs. */
  lemma ChangedIff(a: seq<PatInfo>, b: seq<PatInfo>, sort: seq<PatInfo> -> seq<PatInfo>)
    requires SortsByNumber(sort)
    ensures multiset(a) != multiset(b) ==> Changed(a, b, sort)
    ensures OnePerNumber(a) ==> (Changed(a, b, sort) <==> multiset(a) != multiset(b))
  {
    assert multiset(sort(a)) == multiset(a) && multiset(sort(b)) == multiset(b);
    if multiset(a) == multiset(b) {
      assert |a| == |multiset(a)| && |b| == |multiset(b)|;
      if OnePerNumber(a) {
        forall x | x in sort(a) ensures x in a {
          assert x in multiset(sort(a));
        }
        OneArrangement(sort(a), sort(b));
      }
    }
  }

  lemma {:induction false} OneArrangement(a: seq<PatInfo>, b: seq<PatInfo>)
    requires InOrder(a) && InOrder(b) && multiset(a) == multiset(b) && OnePerNumber(a)
    ensures a == b
    decreases |a|
  {
    assert |a| == |multiset(a)| && |b| == |multiset(b)|;
    if a != [] {
      SameHead(a, b);
      HeadAside(a);
      HeadAside(b);
      TailFits(a);
      TailFits(b);
      OneArrangement(a[1..], b[1..]);
      assert a == [a[0]] + a[1..] && b == [b[0]] + b[1..];
    }
  }

  lemma TailFits(a: seq<PatInfo>)
    requires a != []
    ensures InOrder(a) ==> InOrder(a[1..])
    ensures OnePerNumber(a) ==> OnePerNumber(a[1..])
  {
    assert forall x :: x in a[1..] ==> x in a;
  }

  lemma SameHead(a: seq<PatInfo>, b: seq<PatInfo>)
    requires a != [] && b != [] && InOrder(a) && InOrder(b) && multiset(a) == multiset(b) && OnePerNumber(a)
    ensures a[0] == b[0]
  {
    assert a[0] in multiset(b) && b[0] in multiset(a);
    assert a[0] in b && b[0] in a;
  }

  lemma HeadAside(a: seq<PatInfo>)
    requires a != []
    ensures multiset(a[1..]) == multiset(a) - multiset{a[0]}
  {
    assert a == [a[0]] + a[1..];
  }
}
