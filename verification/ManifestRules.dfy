/** The rules of the two manifest scripts in words of their own: which index records, file names, lines
    and orders they mean. */
module ManifestRules {
  import opened Wrappers
  import opened Manifest

  // ---------------------------------------------------------------- index records

  predicate HexText(s: string) {
    forall i :: 0 <= i < |s| ==> '0' <= s[i] <= '9' || 'a' <= s[i] <= 'f'
  }

  /** A merged regular file, executable or not, with a full object id. */
  predicate Ordinary(r: Record) {
    r.stage == "0" && (r.mode == "100644" || r.mode == "100755") && 40 <= |r.objectId| <= 64 && HexText(r.objectId)
  }

  lemma ProblemsAreExact(r: Record)
    ensures RecordProblem(r) == None <==> Ordinary(r)
    ensures RecordProblem(r) == Some(UnmergedPath) <==> r.stage != "0"
    ensures RecordProblem(r) == Some(UnsupportedMode) <==> r.stage == "0" && r.mode != "100644" && r.mode != "100755"
    ensures Ordinary(r) ==>
              && (EntryOf(r).permission == 493 <==> r.mode == "100755")
              && (EntryOf(r).permission == 420 <==> r.mode == "100644")
              && EntryOf(r).objectId == r.objectId
  {
  }

  /** The entry of an ordinary record: rwxr-xr-x for an executable file, rw-r--r-- for any other, and the
      object the record names. */
  predicate EntryFor(e: Entry, r: Record) {
    && (r.mode == "100755" ==> e.permission == 0x1ed) && (r.mode == "100644" ==> e.permission == 0x1a4)
    && e.objectId == r.objectId
  }

  /** The index is accepted exactly when all its records are ordinary; the tracked map then has the paths
      of the records, each with the entry of its record. */
  lemma TrackedIsOrdinary(records: seq<Record>)
    requires DistinctPaths(records)
    ensures Tracked(records).Accepted? <==> forall r <- records :: Ordinary(r)
    ensures Tracked(records).Accepted? ==>
              var m := Tracked(records).value;
              && (forall r <- records :: r.path in m && EntryFor(m[r.path], r))
              && (forall p <- m :: exists r <- records :: r.path == p)
  {
    hide RecordProblem, EntryOf, Ordinary, Tracked, DistinctPaths;
    TrackedIsItsRecords(records);
    forall i | 0 <= i < |records|
      ensures RecordProblem(records[i]).None? <==> Ordinary(records[i])
      ensures Ordinary(records[i]) ==> EntryFor(EntryOf(records[i]), records[i])
    {
      ProblemsAreExact(records[i]);
      EntryIsItsRecords(records[i]);
    }
    if Tracked(records).Accepted? {
      var m := Tracked(records).value;
      forall p | p in m ensures exists r <- records :: r.path == p {
        var i :| 0 <= i < |records| && records[i].path == p;
        assert records[i] in records;
      }
    }
  }

  lemma EntryIsItsRecords(r: Record)
    ensures Ordinary(r) ==> EntryFor(EntryOf(r), r)
  {
  }

  /** A refusal names what is wrong with the first record that is not ordinary. */
  lemma {:induction false} FirstProblemIsNamed(records: seq<Record>)
    requires Tracked(records).Refused?
    ensures exists i :: 0 <= i < |records| && NamesProblem(records, i, Tracked(records).reason)
    decreases |records|
  {
    var n := |records| - 1;
    if Tracked(records[..n]).Refused? {
      FirstProblemIsNamed(records[..n]);
      var i :| 0 <= i < n && NamesProblem(records[..n], i, Tracked(records[..n]).reason);
      assert records[..n][..i] == records[..i];
      assert NamesProblem(records, i, Tracked(records).reason);
    } else {
      AcceptedAreOrdinary(records[..n]);
      ProblemsAreExact(records[n]);
      assert NamesProblem(records, n, Tracked(records).reason);
    }
  }

  lemma {:induction false} AcceptedAreOrdinary(records: seq<Record>)
    requires Tracked(records).Accepted?
    ensures forall r <- records :: Ordinary(r)
    decreases |records|
  {
    if records != [] {
      AcceptedAreOrdinary(records[..|records| - 1]);
      ProblemsAreExact(records[|records| - 1]);
      assert records == records[..|records| - 1] + [records[|records| - 1]];
    }
  }

  predicate NamesProblem(records: seq<Record>, i: int, why: Refusal) {
    && 0 <= i < |records| && (forall r <- records[..i] :: Ordinary(r)) && !Ordinary(records[i])
    && (why.UnmergedPath? <==> records[i].stage != "0")
    && (why.UnsupportedMode? <==>
          records[i].stage == "0" && records[i].mode != "100644" && records[i].mode != "100755")
    && (why.UnmergedPath? || why.UnsupportedMode? || why.MalformedObjectId?)
  }

  // ---------------------------------------------------------------- the order of names, and the archive

  /** The order of strings by their first difference; a proper prefix comes first. */
  ghost predicate ComesBefore(a: string, b: string) {
    exists k :: FirstDifference(a, b, k)
  }

  predicate FirstDifference(a: string, b: string, k: int) {
    && 0 <= k <= |a| && k < |b| && a[..k] == b[..k] && (k == |a| || a[k] < b[k])
  }

  lemma {:induction false} LessIsLexicographic(a: string, b: string)
    ensures Less(a, b) <==> ComesBefore(a, b)
    decreases |a|
  {
    if b != "" {
      if a == "" || a[0] < b[0] {
        assert FirstDifference(a, b, 0);
      } else if a[0] == b[0] {
        LessIsLexicographic(a[1..], b[1..]);
        if k :| FirstDifference(a[1..], b[1..], k) {
          assert a[..k + 1] == [a[0]] + a[1..][..k] && b[..k + 1] == [b[0]] + b[1..][..k];
          assert FirstDifference(a, b, k + 1);
        }
        if k :| FirstDifference(a, b, k) {
          assert k > 0 && a[1..][..k - 1] == a[..k][1..] && b[1..][..k - 1] == b[..k][1..];
          assert FirstDifference(a[1..], b[1..], k - 1);
        }
      } else {
        forall k ensures !FirstDifference(a, b, k) {
          if 0 < k <= |a| && k < |b| {
            assert a[..k][0] == a[0] && b[..k][0] == b[0];
          }
        }
      }
    }
  }

  predicate MemberFor(m: Member, r: Record, blob: string -> Blob) {
    && m.path == r.path && m.data == blob(r.objectId)
    && (r.mode == "100755" ==> m.permission == 0x1ed) && (r.mode == "100644" ==> m.permission == 0x1a4)
  }

  ghost predicate IsSomeRecords(m: Member, records: seq<Record>, blob: string -> Blob) {
    exists r <- records :: MemberFor(m, r, blob)
  }

  /** The archive of an accepted index: its members stand in the order of their paths, every member is
      the file of one record, and every record has its member. */
  lemma ArchiveIsItsRecords(records: seq<Record>, blob: string -> Blob, members: seq<Member>)
    requires DistinctPaths(records) && Tracked(records).Accepted?
    requires IsArchive(members, Tracked(records).value, blob)
    ensures forall i, j :: 0 <= i < j < |members| ==> ComesBefore(members[i].path, members[j].path)
    ensures forall i :: 0 <= i < |members| ==> IsSomeRecords(members[i], records, blob)
    ensures forall r <- records :: exists i :: 0 <= i < |members| && MemberFor(members[i], r, blob)
  {
    hide Tracked, DistinctPaths, ComesBefore, Ordinary, IsArchive, EntryFor, MemberFor, IsSomeRecords;
    TrackedIsOrdinary(records);
    var m := Tracked(records).value;
    MembersAscend(members, m, blob);
    forall i: nat | i < |members| ensures IsSomeRecords(members[i], records, blob) {
      MemberIsTracked(members, m, blob, i);
      var r :| r in records && r.path == members[i].path;
      MemberIsRecords(members, m, blob, i, r, records);
    }
    forall r | r in records ensures exists i :: 0 <= i < |members| && MemberFor(members[i], r, blob) {
      RecordHasMember(members, m, blob, r);
    }
  }

  lemma MemberIsRecords(members: seq<Member>, m: map<string, Entry>, blob: string -> Blob, i: nat, r: Record,
        records: seq<Record>)
    requires IsArchive(members, m, blob) && i < |members| && members[i].path == r.path && r in records
    requires r.path in m && EntryFor(m[r.path], r)
    ensures IsSomeRecords(members[i], records, blob)
  {
    hide IsArchive, EntryFor, MemberFor;
    MemberOfRecord(members, m, blob, i, r);
  }

  lemma RecordHasMember(members: seq<Member>, m: map<string, Entry>, blob: string -> Blob, r: Record)
    requires IsArchive(members, m, blob) && r.path in m && EntryFor(m[r.path], r)
    ensures exists i :: 0 <= i < |members| && MemberFor(members[i], r, blob)
  {
    hide IsArchive, EntryFor, MemberFor;
    var i := MemberAt(members, m, blob, r.path);
    MemberOfRecord(members, m, blob, i, r);
  }

  lemma MembersAscend(members: seq<Member>, m: map<string, Entry>, blob: string -> Blob)
    requires IsArchive(members, m, blob)
    ensures forall i, j :: 0 <= i < j < |members| ==> ComesBefore(members[i].path, members[j].path)
  {
    hide Less, ComesBefore;
    forall i, j | 0 <= i < j < |members| ensures ComesBefore(members[i].path, members[j].path) {
      assert PathsOf(members)[i] == members[i].path && PathsOf(members)[j] == members[j].path;
      LessIsLexicographic(members[i].path, members[j].path);
    }
  }

  lemma MemberIsTracked(members: seq<Member>, m: map<string, Entry>, blob: string -> Blob, i: nat)
    requires IsArchive(members, m, blob) && i < |members|
    ensures members[i].path in m
  {
  }

  lemma MemberOfRecord(members: seq<Member>, m: map<string, Entry>, blob: string -> Blob, i: nat, r: Record)
    requires IsArchive(members, m, blob) && i < |members| && members[i].path == r.path
    requires r.path in m && EntryFor(m[r.path], r)
    ensures MemberFor(members[i], r, blob)
  {
    hide Less;
  }

  lemma MemberAt(members: seq<Member>, m: map<string, Entry>, blob: string -> Blob, path: string) returns (i: nat)
    requires IsArchive(members, m, blob) && path in m
    ensures i < |members| && members[i].path == path
  {
    hide Less;
    assert path in PathsOf(members);
    i :| 0 <= i < |PathsOf(members)| && PathsOf(members)[i] == path;
  }

  // ---------------------------------------------------------------- file names

  predicate EndsWith(s: string, end: string) { |s| >= |end| && s[|s| - |end|..] == end }

  /** A suffix proper: a dot and more, with no other dot, at the end of a longer name. */
  predicate ProperSuffix(name: string, x: string) {
    |x| >= 2 && x[0] == '.' && '.' !in x[1..] && |name| > |x| && EndsWith(name, x)
  }

  lemma SuffixIsEnding(name: string, x: string)
    requires x != ""
    ensures Suffix(name) == x <==> ProperSuffix(name, x)
  {
    LastDotIsLast(name);
    hide LastDot;
    if LastDot(name) >= 0 {
      TailOfTail(name, LastDot(name));
      NoneFrom(name, LastDot(name) + 1, '.');
    }
    if ProperSuffix(name, x) {
      DotOfSuffix(name, x);
      NoneIn(name, |name| - |x| + 1, '.');
      LastDotAt(name, |name| - |x|);
    }
  }

  lemma DotOfSuffix(name: string, x: string)
    requires ProperSuffix(name, x)
    ensures var k := |name| - |x|; name[k] == '.' && '.' !in name[k + 1..] && name[k..] == x
  {
    assert name[|name| - |x|..][1..] == name[|name| - |x| + 1..];
  }

  lemma {:induction false} LastDotIsLast(s: string)
    ensures LastDot(s) >= 0 ==> s[LastDot(s)] == '.'
    ensures forall j :: LastDot(s) < j < |s| ==> s[j] != '.'
    decreases |s|
  {
    if s != "" && s[|s| - 1] != '.' {
      var init := s[..|s| - 1];
      LastDotIsLast(init);
      assert forall j :: 0 <= j < |init| ==> init[j] == s[j];
    }
  }

  lemma NoneFrom(s: string, k: nat, c: char)
    requires k <= |s| && forall j :: k <= j < |s| ==> s[j] != c
    ensures c !in s[k..]
  {
  }

  lemma NoneIn(s: string, k: nat, c: char)
    requires k <= |s| && c !in s[k..]
    ensures forall j :: k <= j < |s| ==> s[j] != c
  {
    forall j | k <= j < |s| ensures s[j] != c {
      assert s[k..][j - k] == s[j];
    }
  }

  lemma TailOfTail(s: string, k: nat)
    requires k < |s|
    ensures s[k..][1..] == s[k + 1..] && s[k..][0] == s[k]
  {
  }

  ghost predicate HasPart(path: string, part: string) {
    exists i :: 0 <= i < |Parts(path)| && Parts(path)[i] == part
  }

  predicate Environment(name: string) {
    name == ".env" || (|name| >= 5 && name[..5] == ".env." && name != ".env.example")
  }

  lemma EnvFilesAreEnvironments(name: string)
    ensures EnvFile(name) <==> Environment(name)
  {
  }

  lemma ExcludedPart(path: string)
    ensures SomePartIn(path, EXCLUDED_PARTS) <==>
              || HasPart(path, ".git") || HasPart(path, "target") || HasPart(path, "build") || HasPart(path, "dist")
              || HasPart(path, ".idea") || HasPart(path, ".vscode") || HasPart(path, "__pycache__")
  {
    hide Parts;
  }

  /** The generator lists a file unless a directory on its way, its name or its suffix is excluded. */
  lemma IncludedFiles(path: string)
    ensures var name := Name(path);
            Included(path) <==>
              && !HasPart(path, ".git") && !HasPart(path, "target") && !HasPart(path, "build")
              && !HasPart(path, "dist") && !HasPart(path, ".idea") && !HasPart(path, ".vscode")
              && !HasPart(path, "__pycache__")
              && name != "CHECKSUMS.sha256" && name != ".DS_Store" && !Environment(name)
              && !ProperSuffix(name, ".zip") && !ProperSuffix(name, ".log")
              && !ProperSuffix(name, ".pem") && !ProperSuffix(name, ".key")
  {
    var name := Name(path);
    hide SomePartIn, HasPart, Parts, Suffix, ProperSuffix, EnvFile, Environment;
    ExcludedPart(path);
    EnvFilesAreEnvironments(name);
    ExcludedSuffix(name);
  }

  lemma ExcludedSuffix(name: string)
    ensures Suffix(name) in EXCLUDED_SUFFIXES <==>
              || ProperSuffix(name, ".zip") || ProperSuffix(name, ".log")
              || ProperSuffix(name, ".pem") || ProperSuffix(name, ".key")
  {
    hide Suffix, ProperSuffix;
    SuffixIsEnding(name, ".zip");
    SuffixIsEnding(name, ".log");
    SuffixIsEnding(name, ".pem");
    SuffixIsEnding(name, ".key");
  }

  predicate ForbiddenSuffix(x: string) {
    || x == ".zip" || x == ".log" || x == ".pem" || x == ".key"
    || x == ".p12" || x == ".pfx" || x == ".crt" || x == ".cer"
  }

  lemma ForbiddenPart(path: string)
    ensures SomePartIn(path, FORBIDDEN_PARTS) <==>
              || HasPart(path, ".git") || HasPart(path, "target") || HasPart(path, "build") || HasPart(path, "dist")
              || HasPart(path, ".idea") || HasPart(path, ".vscode") || HasPart(path, ".settings")
              || HasPart(path, ".gradle") || HasPart(path, "coverage") || HasPart(path, "__pycache__")
  {
    hide Parts;
  }

  lemma SuffixesInLowerCase(name: string, py: Python)
    requires Sound(py)
    ensures py.lower(Suffix(name)) in FORBIDDEN_SUFFIXES <==>
              exists x :: ProperSuffix(name, x) && ForbiddenSuffix(py.lower(x))
  {
    var s := Suffix(name);
    assert LowerAscii("") && py.lower("") == "";
    hide Suffix, ProperSuffix;
    if s != "" {
      SuffixIsEnding(name, s);
    }
    if x :| ProperSuffix(name, x) && ForbiddenSuffix(py.lower(x)) {
      SuffixIsNotEmpty(name, x);
      SuffixIsEnding(name, x);
    }
  }

  lemma SuffixIsNotEmpty(name: string, x: string)
    requires ProperSuffix(name, x)
    ensures x != ""
  {
  }

  /** Packaging refuses a file for a directory on its way, for its name, or for its suffix in any case. */
  lemma ForbiddenFiles(path: string, py: Python)
    requires Sound(py)
    ensures var name := Name(path);
            Forbidden(path, py) <==>
              || HasPart(path, ".git") || HasPart(path, "target") || HasPart(path, "build") || HasPart(path, "dist")
              || HasPart(path, ".idea") || HasPart(path, ".vscode") || HasPart(path, ".settings")
              || HasPart(path, ".gradle") || HasPart(path, "coverage") || HasPart(path, "__pycache__")
              || name == ".DS_Store" || name == "CODEX_PROMPT.md" || name == "id_rsa" || name == "id_ed25519"
              || Environment(name) || exists x :: ProperSuffix(name, x) && ForbiddenSuffix(py.lower(x))
  {
    ForbiddenPart(path);
    EnvFilesAreEnvironments(Name(path));
    SuffixesInLowerCase(Name(path), py);
    hide SomePartIn, HasPart, Parts, Suffix, ProperSuffix, EnvFile, Environment;
  }

  /** No tree with a private key, a certificate store, an environment file or build output is packaged. */
  lemma SecretsAreRefused(clean: bool, tracked: map<string, Entry>, blob: string -> Blob, py: Python, path: string)
    requires Sound(py) && path in tracked
    requires var name := Name(path);
             || name == "id_rsa" || name == "id_ed25519" || Environment(name)
             || HasPart(path, "target") || HasPart(path, ".gradle")
             || exists x :: ProperSuffix(name, x) && ForbiddenSuffix(x)
    ensures Verdict(clean, tracked, blob, py) != None
  {
    ForbiddenFiles(path, py);
    AcceptedMeansExact(clean, tracked, blob, py);
    hide Verdict, Forbidden, ProperSuffix;
    assert forall x :: ForbiddenSuffix(x) ==> LowerAscii(x);
  }

  // ---------------------------------------------------------------- lines

  /** The ends of a line of str.splitlines, by number. */
  lemma LineEndsByNumber(c: char)
    ensures LineEnd(c) <==> c as int in {10, 11, 12, 13, 28, 29, 30, 0x85, 0x2028, 0x2029}
  {
  }

  /** str.splitlines, line by line: every line end ends one line, CR LF together one, and what follows
      the last end is a line only if it is not empty. */
  lemma SplitLinesByLine(l: string, c: char, rest: string)
    requires OneLine(l)
    ensures SplitLines("") == [] && (l != "" ==> SplitLines(l) == [l])
    ensures LineEnd(c) && !(c == '\r' && rest != "" && rest[0] == '\n') ==>
              SplitLines(l + [c] + rest) == [l] + SplitLines(rest)
    ensures SplitLines(l + "\r\n" + rest) == [l] + SplitLines(rest)
  {
    WholeLine(l);
    if LineEnd(c) && !(c == '\r' && rest != "" && rest[0] == '\n') {
      OneEnd(l, c, rest);
    }
    CarriageReturn(l, rest);
  }

  lemma WholeLine(l: string)
    requires OneLine(l)
    ensures l != "" ==> SplitLines(l) == [l]
  {
    assert l[..|l|] == l;
  }

  lemma OneEnd(l: string, c: char, rest: string)
    requires OneLine(l) && LineEnd(c) && !(c == '\r' && rest != "" && rest[0] == '\n')
    ensures SplitLines(l + [c] + rest) == [l] + SplitLines(rest)
  {
    hide OneLine, LineEnd;
    var s := l + [c] + rest;
    assert s[..|l|] == l && s[|l|] == c && s[|l| + 1..] == rest;
    FirstLineEndAt(s, |l|);
  }

  lemma CarriageReturn(l: string, rest: string)
    requires OneLine(l)
    ensures SplitLines(l + "\r\n" + rest) == [l] + SplitLines(rest)
  {
    assert LineEnd('\r');
    hide OneLine, LineEnd;
    var s := l + "\r\n" + rest;
    assert s[..|l|] == l && s[|l|] == '\r' && s[|l| + 1] == '\n' && s[|l| + 2..] == rest;
    FirstLineEndAt(s, |l|);
  }

  /** A line of the manifest: sixty-four hexadecimal digits, two spaces and a path. */
  lemma LinesAreDigestsAndPaths(text: string, digest: string, path: string)
    ensures ReadLine(text) == Some(Line(digest, path)) <==>
              && text == digest + "  " + path && |digest| == 64 && HexText(digest)
              && path != "" && forall i :: 0 <= i < |path| ==> path[i] != '\n'
  {
    LinesRoundTrip(text, Line(digest, path));
    hide ReadLine;
  }

  /** The manifest of one listed file. */
  lemma ManifestOfOneFile(path: string, content: string -> Blob, py: Python)
    requires Included(path)
    ensures Generated([path], content, py) == py.digest(content(path)) + "  " + path + "\n"
  {
    hide Included;
    assert [path][..0] == [];
    assert ListedLines([], content, py) == [];
    var line := PrintLine(Line(py.digest(content(path)), path));
    assert ListedLines([path], content, py) == [] + [line] == [line];
  }

  lemma {:induction false} LineOfPath(paths: seq<string>, content: string -> Blob, py: Python, i: nat)
    returns (p: string)
    requires i < |ListedLines(paths, content, py)|
    ensures p in paths && Included(p) && ListedLines(paths, content, py)[i] == py.digest(content(p)) + "  " + p
    decreases |paths|
  {
    hide Included;
    var n := |paths| - 1;
    var before := ListedLines(paths[..n], content, py);
    if i < |before| {
      p := LineOfPath(paths[..n], content, py, i);
    } else {
      p := paths[n];
    }
  }

  /** The generator writes its lines in the order of the paths: earlier lines name earlier paths. */
  lemma {:induction false} LinesInOrder(paths: seq<string>, content: string -> Blob, py: Python, i: nat, j: nat)
    returns (p: string, q: string)
    requires Ascending(paths) && i < j < |ListedLines(paths, content, py)|
    ensures ComesBefore(p, q)
    ensures ListedLines(paths, content, py)[i] == py.digest(content(p)) + "  " + p
    ensures ListedLines(paths, content, py)[j] == py.digest(content(q)) + "  " + q
    decreases |paths|
  {
    hide Included, Less, ComesBefore;
    var n := |paths| - 1;
    var before := ListedLines(paths[..n], content, py);
    if j < |before| {
      p, q := LinesInOrder(paths[..n], content, py, i, j);
    } else {
      q := paths[n];
      p := LineOfPath(paths[..n], content, py, i);
      var k :| 0 <= k < n && paths[..n][k] == p;
      assert Less(paths[k], paths[n]);
      LessIsLexicographic(p, q);
    }
  }

  /** A list of lines is accepted exactly when every line is one of the manifest and no two name the
      same path. */
  lemma {:induction false} DigestMapAccepts(lines: seq<string>)
    ensures DigestMap(lines).Accepted? <==> (forall l <- lines :: ReadLine(l).Some?) && DistinctEntries(lines)
    decreases |lines|
  {
    if lines != [] {
      hide ReadLine, DistinctEntries, Lists;
      var init := lines[..|lines| - 1];
      DigestMapAccepts(init);
      LastLine(lines);
      if DigestMap(init).Accepted? {
        AcceptedManifestIsItsLines(init);
        if ReadLine(lines[|lines| - 1]).Some? {
          ListedAlready(init, DigestMap(init).value, ReadLine(lines[|lines| - 1]).value.path);
        }
      }
    }
  }

  lemma LastLine(lines: seq<string>)
    requires lines != []
    ensures var init, last := lines[..|lines| - 1], lines[|lines| - 1];
            && ((forall l <- lines :: ReadLine(l).Some?) <==>
                  (forall l <- init :: ReadLine(l).Some?) && ReadLine(last).Some?)
            && (ReadLine(last).Some? ==>
                  (DistinctEntries(lines) <==> DistinctEntries(init) && !EntryIn(init, ReadLine(last).value.path)))
  {
    hide ReadLine;
    var init, last := lines[..|lines| - 1], |lines| - 1;
    forall i | 0 <= i < last ensures init[i] == lines[i] {}
    assert lines == init + [lines[last]];
  }

  predicate EntryIn(lines: seq<string>, path: string) {
    exists i :: 0 <= i < |lines| && ReadLine(lines[i]).Some? && ReadLine(lines[i]).value.path == path
  }

  lemma ListedAlready(lines: seq<string>, m: map<string, string>, path: string)
    requires Lists(m, lines)
    ensures path in m <==> EntryIn(lines, path)
  {
    hide ReadLine;
    if path in m {
      var i :| 0 <= i < |lines| && ReadLine(lines[i]) == Some(Line(m[path], path));
    }
  }

  predicate DistinctEntries(lines: seq<string>) {
    forall i, j :: 0 <= i < j < |lines| && ReadLine(lines[i]).Some? && ReadLine(lines[j]).Some? ==>
      ReadLine(lines[i]).value.path != ReadLine(lines[j]).value.path
  }

  // ---------------------------------------------------------------- reasons

  /** What the tree must satisfy before its manifest is looked at. */
  ghost predicate Presentable(clean: bool, tracked: map<string, Entry>, py: Python) {
    clean && CHECKSUM_NAME in tracked && forall p <- tracked :: !Forbidden(p, py)
  }

  /** The reason of a refusal, for every tree. */
  lemma ReasonsAreExact(clean: bool, tracked: map<string, Entry>, blob: string -> Blob, py: Python)
    ensures var v := Verdict(clean, tracked, blob, py);
            && (v == Some(DirtyTree) <==> !clean)
            && (v == Some(NoManifest) <==> clean && CHECKSUM_NAME !in tracked)
            && (v == Some(ForbiddenFile) <==>
                  clean && CHECKSUM_NAME in tracked && exists p <- tracked :: Forbidden(p, py))
    ensures Presentable(clean, tracked, py) ==>
              var v, parsed := Verdict(clean, tracked, blob, py), Parsed(TextOf(tracked, blob, CHECKSUM_NAME), py);
              && (parsed.Refused? ==> v == Some(parsed.reason))
              && (parsed.Accepted? ==>
                    && (v == Some(WrongPaths) <==> !ListsExactly(parsed.value, tracked))
                    && (v == Some(StaleDigest) <==>
                          ListsExactly(parsed.value, tracked)
                          && exists p <- parsed.value ::
                               p in tracked && py.digest(blob(tracked[p].objectId)) != parsed.value[p]))
  {
    hide Forbidden, Parsed;
    ParsedReasons(tracked, blob, py);
    if Presentable(clean, tracked, py) && Parsed(TextOf(tracked, blob, CHECKSUM_NAME), py).Accepted? {
      SamePaths(Parsed(TextOf(tracked, blob, CHECKSUM_NAME), py).value, tracked);
    }
  }

  predicate ListsExactly(m: map<string, string>, tracked: map<string, Entry>) {
    (forall p <- m :: p in tracked && p != "CHECKSUMS.sha256")
    && (forall p <- tracked :: p == "CHECKSUMS.sha256" || p in m)
  }

  lemma SamePaths(m: map<string, string>, tracked: map<string, Entry>)
    ensures m.Keys == tracked.Keys - {CHECKSUM_NAME} <==> ListsExactly(m, tracked)
  {
    if ListsExactly(m, tracked) {
      assert forall p :: p in m.Keys <==> p in tracked.Keys - {CHECKSUM_NAME};
    }
  }

  /** The manifest itself is refused for its encoding, a malformed line or a second entry, never else. */
  lemma ParsedReasons(tracked: map<string, Entry>, blob: string -> Blob, py: Python)
    ensures CHECKSUM_NAME in tracked ==>
              var data := TextOf(tracked, blob, CHECKSUM_NAME);
              Parsed(data, py).Refused? ==>
                var why := Parsed(data, py).reason;
                && (why.NotUtf8? <==> py.decode(data) == None)
                && (why.NotUtf8? || why.MalformedLine? || why.DuplicateEntry?)
  {
    if CHECKSUM_NAME in tracked && py.decode(TextOf(tracked, blob, CHECKSUM_NAME)).Some? {
      LineReasons(SplitLines(py.decode(TextOf(tracked, blob, CHECKSUM_NAME)).value));
    }
  }

  lemma {:induction false} LineReasons(lines: seq<string>)
    ensures DigestMap(lines).Refused? ==>
              DigestMap(lines).reason.MalformedLine? || DigestMap(lines).reason.DuplicateEntry?
    decreases |lines|
  {
    if lines != [] {
      LineReasons(lines[..|lines| - 1]);
    }
  }
}
