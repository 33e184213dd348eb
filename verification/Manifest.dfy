/** The checksum manifest: one script prints it, another accepts a source tree only when it is exactly
    the digest map of the tracked files. */
module Manifest {
  import opened Wrappers
  import opened Splitting

  type Blob = seq<bv8>

  /** What the scripts take from Python: SHA-256 as lower-case hex, the UTF-8 codec and str.lower. */
  datatype Python = Python(
    digest: Blob -> string, encode: string -> Blob, decode: Blob -> Option<string>, lower: string -> string)

  predicate HexChar(c: char) { '0' <= c <= '9' || 'a' <= c <= 'f' }

  predicate Hex(s: string) { forall i :: 0 <= i < |s| ==> HexChar(s[i]) }

  predicate HexDigest(s: string) { |s| == 64 && Hex(s) }

  predicate LowerAscii(s: string) { forall i :: 0 <= i < |s| ==> s[i] < 128 as char && !('A' <= s[i] <= 'Z') }

  ghost predicate Sound(py: Python) {
    && (forall b :: HexDigest(py.digest(b)))
    && (forall s :: py.decode(py.encode(s)) == Some(s))
    && (forall s :: LowerAscii(s) ==> py.lower(s) == s)
  }

  /** Why a script gives up. */
  datatype Refusal =
    | UnmergedPath | UnsupportedMode | MalformedObjectId
    | DirtyTree | NoManifest | ForbiddenFile
    | NotUtf8 | MalformedLine | DuplicateEntry
    | WrongPaths | StaleDigest

  datatype Checked<+T> = Accepted(value: T) | Refused(reason: Refusal)

  // ---------------------------------------------------------------- which files take part

  const CHECKSUM_NAME := "CHECKSUMS.sha256"

  const EXCLUDED_PARTS := {".git", "target", "build", "dist", ".idea", ".vscode", "__pycache__"}
  const EXCLUDED_NAMES := {CHECKSUM_NAME, ".DS_Store"}
  const EXCLUDED_SUFFIXES := {".zip", ".log", ".pem", ".key"}

  const FORBIDDEN_PARTS := {
    ".git", "target", "build", "dist", ".idea", ".vscode", ".settings", ".gradle", "coverage", "__pycache__"}
  const FORBIDDEN_SUFFIXES := {".zip", ".log", ".pem", ".key", ".p12", ".pfx", ".crt", ".cer"}

  /** The components of a relative path, as Git lists it. */
  function Parts(path: string): (ps: seq<string>)
    ensures |ps| >= 1
  {
    Split(path, '/')
  }

  function Name(path: string): string { Parts(path)[|Parts(path)| - 1] }

  function LastDot(s: string): (i: int)
    ensures -1 <= i < |s|
  {
    if s == "" then -1 else if s[|s| - 1] == '.' then |s| - 1 else LastDot(s[..|s| - 1])
  }

  /** The suffix of a file name: from its last dot, unless that is its first or last character. */
  function Suffix(name: string): string {
    var i := LastDot(name);
    if 0 < i < |name| - 1 then name[i..] else ""
  }

  predicate EnvFile(name: string) {
    name == ".env" || (".env." <= name && name != ".env.example")
  }

  predicate SomePartIn(path: string, banned: set<string>) {
    exists i :: 0 <= i < |Parts(path)| && Parts(path)[i] in banned
  }

  /** Whether the generator lists a file. */
  predicate Included(path: string) {
    && !SomePartIn(path, EXCLUDED_PARTS)
    && Name(path) !in EXCLUDED_NAMES
    && Suffix(Name(path)) !in EXCLUDED_SUFFIXES
    && !EnvFile(Name(path))
  }

  /** Whether package_source.py refuses a file. */
  predicate Forbidden(path: string, py: Python) {
    || SomePartIn(path, FORBIDDEN_PARTS)
    || Name(path) == ".DS_Store"
    || py.lower(Suffix(Name(path))) in FORBIDDEN_SUFFIXES
    || Name(path) == "CODEX_PROMPT.md"
    || EnvFile(Name(path))
    || Name(path) == "id_rsa" || Name(path) == "id_ed25519"
  }

  /** The two rule sets agree: what may be packaged is listed, unless it is named like the manifest. */
  lemma PackagedIsListed(path: string, py: Python)
    requires Sound(py) && !Forbidden(path, py)
    ensures Included(path) <==> Name(path) != CHECKSUM_NAME
  {
  }

  // ---------------------------------------------------------------- lines

  /** The characters at which str.splitlines ends a line. */
  predicate LineEnd(c: char) {
    || 10 as char <= c <= 13 as char || 0x1c as char <= c <= 0x1e as char
    || c == 0x85 as char || c == '\U{2028}' || c == '\U{2029}'
  }

  predicate OneLine(s: string) { forall i :: 0 <= i < |s| ==> !LineEnd(s[i]) }

  function FirstLineEnd(s: string): (i: nat)
    ensures i <= |s| && OneLine(s[..i]) && (i < |s| ==> LineEnd(s[i]))
  {
    if s == "" || LineEnd(s[0]) then 0
    else
      var i := 1 + FirstLineEnd(s[1..]);
      assert s[..i] == [s[0]] + s[1..][..i - 1];
      i
  }

  /** str.splitlines: CR LF ends one line, and a final line end starts no further line. */
  function SplitLines(s: string): seq<string> {
    if s == "" then []
    else
      var i := FirstLineEnd(s);
      if i == |s| then [s]
      else
        var next := if s[i] == '\r' && i + 1 < |s| && s[i + 1] == '\n' then i + 2 else i + 1;
        [s[..i]] + SplitLines(s[next..])
  }

  /** No line holds a line end. */
  lemma {:induction false} LinesAreLines(s: string)
    ensures forall i :: 0 <= i < |SplitLines(s)| ==> OneLine(SplitLines(s)[i])
  {
    if s != "" && FirstLineEnd(s) < |s| {
      var i := FirstLineEnd(s);
      LinesAreLines(s[if s[i] == '\r' && i + 1 < |s| && s[i + 1] == '\n' then i + 2 else i + 1..]);
    } else if s != "" {
      assert s[..|s|] == s;
    }
  }

  datatype Line = Line(digest: string, path: string)

  /** One entry: a digest, two spaces and a path. */
  function ReadLine(text: string): Option<Line> {
    if |text| > 66 && Hex(text[..64]) && text[64] == ' ' && text[65] == ' ' && '\n' !in text[66..]
    then Some(Line(text[..64], text[66..]))
    else None
  }

  function PrintLine(l: Line): string { l.digest + "  " + l.path }

  /** Reading an entry inverts printing it, both ways. */
  lemma LinesRoundTrip(text: string, l: Line)
    ensures ReadLine(text) == Some(l) <==>
            text == PrintLine(l) && HexDigest(l.digest) && l.path != "" && '\n' !in l.path
  {
    if text == PrintLine(l) && |l.digest| == 64 {
      assert text[..64] == l.digest && text[66..] == l.path && text[64] == text[65] == ' ';
    }
    if ReadLine(text) == Some(l) {
      assert text == text[..64] + "  " + text[66..];
    }
  }

  /** The digest map of a list of lines; a malformed line or a second entry for a path spoils it. */
  function DigestMap(lines: seq<string>): Checked<map<string, string>> {
    if lines == [] then Accepted(map[])
    else
      match DigestMap(lines[..|lines| - 1])
      case Refused(why) => Refused(why)
      case Accepted(m) =>
        match ReadLine(lines[|lines| - 1])
        case None => Refused(MalformedLine)
        case Some(l) => if l.path in m then Refused(DuplicateEntry) else Accepted(m[l.path := l.digest])
  }

  function Parsed(data: Blob, py: Python): Checked<map<string, string>> {
    match py.decode(data)
    case None => Refused(NotUtf8)
    case Some(text) => DigestMap(SplitLines(text))
  }

  /** parse_checksums. */
  method ParseChecksums(data: Blob, py: Python) returns (r: Checked<map<string, string>>)
    ensures r == Parsed(data, py)
  {
    var text := py.decode(data);
    if text.None? {
      return Refused(NotUtf8);
    }
    var entries := map[];
    var lines := SplitLines(text.value);
    for i := 0 to |lines|
      invariant DigestMap(lines[..i]) == Accepted(entries)
    {
      hide ReadLine;
      assert lines[..i + 1][..i] == lines[..i];
      var line := ReadLine(lines[i]);
      if line.None? {
        SpoiledStaysSpoiled(lines, i + 1);
        return Refused(MalformedLine);
      }
      if line.value.path in entries {
        SpoiledStaysSpoiled(lines, i + 1);
        return Refused(DuplicateEntry);
      }
      entries := entries[line.value.path := line.value.digest];
    }
    assert lines[..|lines|] == lines;
    return Accepted(entries);
  }

  lemma {:induction false} SpoiledStaysSpoiled(lines: seq<string>, k: nat)
    requires k <= |lines| && DigestMap(lines[..k]).Refused?
    ensures DigestMap(lines) == DigestMap(lines[..k])
  {
    if k == |lines| {
      assert lines[..k] == lines;
    } else {
      assert lines[..|lines| - 1][..k] == lines[..k];
      SpoiledStaysSpoiled(lines[..|lines| - 1], k);
    }
  }

  /** Every line is an entry of the map, and every entry has one line. */
  ghost predicate Lists(m: map<string, string>, lines: seq<string>) {
    && |m| == |lines|
    && (forall i :: 0 <= i < |lines| ==>
          && ReadLine(lines[i]).Some? && ReadLine(lines[i]).value.path in m
          && m[ReadLine(lines[i]).value.path] == ReadLine(lines[i]).value.digest)
    && (forall p <- m :: exists i :: 0 <= i < |lines| && ReadLine(lines[i]) == Some(Line(m[p], p)))
  }

  /** An accepted manifest is exactly its lines. */
  lemma {:induction false} AcceptedManifestIsItsLines(lines: seq<string>)
    requires DigestMap(lines).Accepted?
    ensures Lists(DigestMap(lines).value, lines)
  {
    hide ReadLine, Lists;
    if lines == [] {
      NothingLists();
    } else {
      var init := lines[..|lines| - 1];
      AcceptedManifestIsItsLines(init);
      OneMoreLists(DigestMap(init).value, lines, ReadLine(lines[|lines| - 1]).value);
    }
  }

  lemma NothingLists()
    ensures Lists(map[], [])
  {
  }

  lemma OneMoreLists(m: map<string, string>, lines: seq<string>, l: Line)
    requires lines != [] && Lists(m, lines[..|lines| - 1])
    requires ReadLine(lines[|lines| - 1]) == Some(l) && l.path !in m
    ensures Lists(m[l.path := l.digest], lines)
  {
    hide ReadLine;
    var init, last, m' := lines[..|lines| - 1], |lines| - 1, m[l.path := l.digest];
    assert m'.Keys == m.Keys + {l.path};
    forall i | 0 <= i < |lines|
      ensures && ReadLine(lines[i]).Some? && ReadLine(lines[i]).value.path in m'
              && m'[ReadLine(lines[i]).value.path] == ReadLine(lines[i]).value.digest
    {
      assert i < last ==> lines[i] == init[i] && ReadLine(init[i]).value.path in m;
    }
    forall p | p in m ensures exists i :: 0 <= i < |lines| && ReadLine(lines[i]) == Some(Line(m'[p], p)) {
      var i :| 0 <= i < |init| && ReadLine(init[i]) == Some(Line(m[p], p));
      assert lines[i] == init[i];
    }
    assert ReadLine(lines[last]) == Some(Line(m'[l.path], l.path));
  }

  // ---------------------------------------------------------------- tracked entries

  /** One record of the Git index. */
  datatype Record = Record(mode: string, objectId: string, stage: string, path: string)

  datatype Entry = Entry(permission: nat, objectId: string)

  predicate ObjectIdFormat(s: string) { 40 <= |s| <= 64 && Hex(s) }

  function RecordProblem(r: Record): Option<Refusal> {
    if r.stage != "0" then Some(UnmergedPath)
    else if r.mode != "100644" && r.mode != "100755" then Some(UnsupportedMode)
    else if !ObjectIdFormat(r.objectId) then Some(MalformedObjectId)
    else None
  }

  /** Permissions 0755 and 0644. */
  function EntryOf(r: Record): Entry { Entry(if r.mode == "100755" then 493 else 420, r.objectId) }

  function Tracked(records: seq<Record>): Checked<map<string, Entry>> {
    if records == [] then Accepted(map[])
    else
      match Tracked(records[..|records| - 1])
      case Refused(why) => Refused(why)
      case Accepted(m) =>
        var r := records[|records| - 1];
        match RecordProblem(r)
        case Some(why) => Refused(why)
        case None => Accepted(m[r.path := EntryOf(r)])
  }

  /** tracked_entries. */
  method TrackedEntries(records: seq<Record>) returns (r: Checked<map<string, Entry>>)
    ensures r == Tracked(records)
  {
    hide RecordProblem, EntryOf;
    var result := map[];
    for i := 0 to |records|
      invariant Tracked(records[..i]) == Accepted(result)
    {
      assert records[..i + 1][..i] == records[..i];
      var problem := RecordProblem(records[i]);
      if problem.Some? {
        RefusedStaysRefused(records, i + 1);
        return Refused(problem.value);
      }
      result := result[records[i].path := EntryOf(records[i])];
    }
    assert records[..|records|] == records;
    return Accepted(result);
  }

  lemma {:induction false} RefusedStaysRefused(records: seq<Record>, k: nat)
    requires k <= |records| && Tracked(records[..k]).Refused?
    ensures Tracked(records) == Tracked(records[..k])
  {
    if k == |records| {
      assert records[..k] == records;
    } else {
      assert records[..|records| - 1][..k] == records[..k];
      RefusedStaysRefused(records[..|records| - 1], k);
    }
  }

  ghost predicate DistinctPaths(records: seq<Record>) {
    forall i, j :: 0 <= i < j < |records| ==> records[i].path != records[j].path
  }

  /** The map holds exactly what the records say. */
  ghost predicate Reflects(m: map<string, Entry>, records: seq<Record>) {
    && (forall i :: 0 <= i < |records| ==> records[i].path in m && m[records[i].path] == EntryOf(records[i]))
    && (forall p <- m :: exists i :: 0 <= i < |records| && records[i].path == p)
  }

  /** The tracked map is the graph of the records, all of which are ordinary files. */
  lemma {:induction false} TrackedIsItsRecords(records: seq<Record>)
    requires DistinctPaths(records)
    ensures Tracked(records).Accepted? <==> forall i :: 0 <= i < |records| ==> RecordProblem(records[i]).None?
    ensures Tracked(records).Accepted? ==> Reflects(Tracked(records).value, records)
  {
    hide RecordProblem, EntryOf, Reflects;
    if records == [] {
      NothingReflects();
    } else {
      var init := records[..|records| - 1];
      TrackedIsItsRecords(init);
      if Tracked(init).Accepted? {
        OneMoreReflects(Tracked(init).value, records);
      }
    }
  }

  lemma NothingReflects()
    ensures Reflects(map[], [])
  {
  }

  lemma OneMoreReflects(m: map<string, Entry>, records: seq<Record>)
    requires records != [] && DistinctPaths(records) && Reflects(m, records[..|records| - 1])
    ensures var r := records[|records| - 1]; Reflects(m[r.path := EntryOf(r)], records)
  {
    hide EntryOf;
    var init, last := records[..|records| - 1], |records| - 1;
    forall p | p in m ensures exists i :: 0 <= i < |records| && records[i].path == p {
      var i :| 0 <= i < |init| && init[i].path == p;
      assert records[i].path == p;
    }
    forall i | 0 <= i < last ensures records[i].path in m && m[records[i].path] == EntryOf(records[i]) {
      assert init[i] == records[i];
    }
  }

  lemma ReflectionsAgree(m: map<string, Entry>, n: map<string, Entry>, records: seq<Record>, others: seq<Record>)
    requires Reflects(m, records) && Reflects(n, others)
    requires forall r :: r in records ==> r in others
    ensures forall p :: p in m ==> p in n && n[p] == m[p]
  {
    hide EntryOf;
    forall p | p in m ensures p in n && n[p] == m[p] {
      var i :| 0 <= i < |records| && records[i].path == p;
      assert records[i] in others;
      var j :| 0 <= j < |others| && others[j] == records[i];
    }
  }

  /** The order of the index records does not matter. */
  lemma TrackedIgnoresOrder(records: seq<Record>, others: seq<Record>)
    requires DistinctPaths(records) && DistinctPaths(others)
    requires forall r :: r in records <==> r in others
    requires Tracked(records).Accepted?
    ensures Tracked(others) == Tracked(records)
  {
    hide RecordProblem, EntryOf, Tracked, Reflects;
    TrackedIsItsRecords(records);
    TrackedIsItsRecords(others);
    forall i | 0 <= i < |others| ensures RecordProblem(others[i]).None? {
      assert others[i] in records;
    }
    ReflectionsAgree(Tracked(records).value, Tracked(others).value, records, others);
    ReflectionsAgree(Tracked(others).value, Tracked(records).value, others, records);
    var m, n := Tracked(records).value, Tracked(others).value;
    assert m.Keys == n.Keys;
    assert m == n;
  }

  // ---------------------------------------------------------------- the order of archive entries

  /** The order of Python strings. */
  predicate Less(a: string, b: string) {
    b != "" && (a == "" || a[0] < b[0] || (a[0] == b[0] && Less(a[1..], b[1..])))
  }

  lemma {:induction false} LessIsTotal(a: string, b: string)
    ensures a == b || Less(a, b) || Less(b, a)
    ensures !(Less(a, b) && Less(b, a)) && !Less(a, a)
  {
    if a != "" && b != "" && a[0] == b[0] {
      LessIsTotal(a[1..], b[1..]);
      assert a == [a[0]] + a[1..] && b == [b[0]] + b[1..];
    }
    if a != "" {
      LessIsTotal(a[1..], a[1..]);
    }
  }

  lemma {:induction false} LessIsTransitive(a: string, b: string, c: string)
    requires Less(a, b) && Less(b, c)
    ensures Less(a, c)
  {
    if a != "" && a[0] == b[0] && b[0] == c[0] {
      LessIsTransitive(a[1..], b[1..], c[1..]);
    }
  }

  predicate Ascending(s: seq<string>) {
    forall i, j :: 0 <= i < j < |s| ==> Less(s[i], s[j])
  }

  lemma FirstIsIn(s: seq<string>)
    ensures s == [] || s[0] in s
  {
  }

  /** There is only one ascending list of a set of paths, however the set was built up. */
  lemma {:induction false} AscendingIsUnique(s: seq<string>, t: seq<string>)
    requires Ascending(s) && Ascending(t) && forall p :: p in s <==> p in t
    ensures s == t
  {
    hide Less;
    FirstIsIn(t);
    if s != [] {
      assert s[0] in t;
      var j :| 0 <= j < |t| && t[j] == s[0];
      assert t[0] in s;
      var i :| 0 <= i < |s| && s[i] == t[0];
      LessIsTotal(s[0], t[0]);
      assert s[0] == t[0];
      forall p ensures p in s[1..] <==> p in t[1..] {
        LessIsTotal(s[0], p);
        if p in s[1..] {
          assert p in t && p != t[0];
        }
        if p in t[1..] {
          assert p in s && p != s[0];
        }
      }
      AscendingIsUnique(s[1..], t[1..]);
    }
  }

  /** Puts one more path in its place. */
  method Insert(s: seq<string>, p: string) returns (r: seq<string>)
    requires Ascending(s) && p !in s
    ensures Ascending(r) && forall x :: x in r <==> x in s || x == p
  {
    var i := 0;
    while i < |s| && Less(s[i], p)
      invariant 0 <= i <= |s|
      invariant forall k :: 0 <= k < i ==> Less(s[k], p)
    {
      i := i + 1;
    }
    forall k | i <= k < |s| ensures Less(p, s[k]) {
      LessIsTotal(p, s[i]);
      if k > i {
        LessIsTransitive(p, s[i], s[k]);
      }
    }
    r := s[..i] + [p] + s[i..];
  }

  /** sorted. */
  method Sorted(paths: set<string>) returns (r: seq<string>)
    ensures Ascending(r) && forall x :: x in r <==> x in paths
  {
    r := [];
    var rest := paths;
    while rest != {}
      invariant Ascending(r) && rest <= paths
      invariant forall x :: x in r <==> x in paths && x !in rest
      decreases |rest|
    {
      var p :| p in rest;
      r := Insert(r, p);
      rest := rest - {p};
    }
  }

  // ---------------------------------------------------------------- verify_source

  function TextOf(tracked: map<string, Entry>, blob: string -> Blob, path: string): Blob
    requires path in tracked
  {
    blob(tracked[path].objectId)
  }

  /** Why a source tree is refused, if it is. */
  function Verdict(clean: bool, tracked: map<string, Entry>, blob: string -> Blob, py: Python): Option<Refusal> {
    if !clean then Some(DirtyTree)
    else if CHECKSUM_NAME !in tracked then Some(NoManifest)
    else if exists p <- tracked.Keys :: Forbidden(p, py) then Some(ForbiddenFile)
    else
      match Parsed(TextOf(tracked, blob, CHECKSUM_NAME), py)
      case Refused(why) => Some(why)
      case Accepted(m) =>
        if m.Keys != tracked.Keys - {CHECKSUM_NAME} then Some(WrongPaths)
        else if exists p <- tracked.Keys - {CHECKSUM_NAME} :: StaleAt(p, m, tracked, blob, py) then Some(StaleDigest)
        else None
  }

  predicate StaleAt(p: string, m: map<string, string>, tracked: map<string, Entry>, blob: string -> Blob, py: Python) {
    p in m && p in tracked && py.digest(TextOf(tracked, blob, p)) != m[p]
  }

  /** verify_source: the sorted paths of the archive, or the first complaint. */
  method VerifySource(clean: bool, tracked: map<string, Entry>, blob: string -> Blob,
        py: Python) returns (r: Checked<seq<string>>)
    ensures match Verdict(clean, tracked, blob, py)
            case Some(why) => r == Refused(why)
            case None => r.Accepted? && Ascending(r.value) && forall p :: p in r.value <==> p in tracked
  {
    hide Forbidden, Parsed, StaleAt, Less;
    if !clean {
      return Refused(DirtyTree);
    }
    if CHECKSUM_NAME !in tracked {
      return Refused(NoManifest);
    }
    var paths := Sorted(tracked.Keys);
    for i := 0 to |paths|
      invariant forall k :: 0 <= k < i ==> !Forbidden(paths[k], py)
    {
      assert paths[i] in tracked;
      if Forbidden(paths[i], py) {
        return Refused(ForbiddenFile);
      }
    }
    forall p | p in tracked.Keys ensures !Forbidden(p, py) {
      assert p in paths;
    }
    var manifest := ParseChecksums(TextOf(tracked, blob, CHECKSUM_NAME), py);
    if manifest.Refused? {
      return Refused(manifest.reason);
    }
    if manifest.value.Keys != tracked.Keys - {CHECKSUM_NAME} {
      return Refused(WrongPaths);
    }
    for i := 0 to |paths|
      invariant forall k :: 0 <= k < i && paths[k] != CHECKSUM_NAME ==>
                !StaleAt(paths[k], manifest.value, tracked, blob, py)
    {
      assert paths[i] in tracked;
      if paths[i] != CHECKSUM_NAME && StaleAt(paths[i], manifest.value, tracked, blob, py) {
        assert paths[i] in tracked.Keys - {CHECKSUM_NAME};
        return Refused(StaleDigest);
      }
    }
    forall p | p in tracked.Keys - {CHECKSUM_NAME} ensures !StaleAt(p, manifest.value, tracked, blob, py) {
      assert p in paths;
    }
    return Accepted(paths);
  }

  /** The digest of every tracked file but the manifest. */
  function Digests(tracked: map<string, Entry>, blob: string -> Blob, py: Python): map<string, string> {
    map p | p in tracked && p != CHECKSUM_NAME :: py.digest(TextOf(tracked, blob, p))
  }

  /** A tree is accepted exactly when it is clean, free of forbidden files, and its manifest parses to
      the digest map of its other files. */
  lemma AcceptedMeansExact(clean: bool, tracked: map<string, Entry>, blob: string -> Blob, py: Python)
    ensures Verdict(clean, tracked, blob, py) == None <==>
              && clean && CHECKSUM_NAME in tracked && (forall p <- tracked :: !Forbidden(p, py))
              && Parsed(TextOf(tracked, blob, CHECKSUM_NAME), py) == Accepted(Digests(tracked, blob, py))
  {
    hide Forbidden, Parsed;
    if CHECKSUM_NAME in tracked && Parsed(TextOf(tracked, blob, CHECKSUM_NAME), py).Accepted? {
      var m, d := Parsed(TextOf(tracked, blob, CHECKSUM_NAME), py).value, Digests(tracked, blob, py);
      assert d.Keys == tracked.Keys - {CHECKSUM_NAME};
      if m.Keys == d.Keys && forall p <- d.Keys :: !StaleAt(p, m, tracked, blob, py) {
        assert m == d;
      }
    }
  }

  /** One manifest fits one content only: two accepted trees with the same manifest have the same
      paths and the same digests, so adding or removing a path or changing a digest is noticed. */
  lemma AnyChangeIsNoticed(tracked: map<string, Entry>, blob: string -> Blob, tracked': map<string, Entry>,
        blob': string -> Blob, py: Python)
    requires Verdict(true, tracked, blob, py) == None && CHECKSUM_NAME in tracked && CHECKSUM_NAME in tracked'
    requires TextOf(tracked', blob', CHECKSUM_NAME) == TextOf(tracked, blob, CHECKSUM_NAME)
    requires Digests(tracked', blob', py) != Digests(tracked, blob, py)
    ensures Verdict(true, tracked', blob', py).Some?
  {
    AcceptedMeansExact(true, tracked, blob, py);
    AcceptedMeansExact(true, tracked', blob', py);
    hide Verdict, Parsed, Digests;
  }

  // ---------------------------------------------------------------- the archive

  /** One file of the archive; the name, time and compression are the same for everyone. */
  datatype Member = Member(path: string, permission: nat, data: Blob)

  function PathsOf(members: seq<Member>): seq<string> {
    seq(|members|, i requires 0 <= i < |members| => members[i].path)
  }

  /** The archive of a tree: its files in ascending order of their paths, with permission and content. */
  ghost predicate IsArchive(members: seq<Member>, tracked: map<string, Entry>, blob: string -> Blob) {
    && Ascending(PathsOf(members))
    && (forall p :: p in PathsOf(members) <==> p in tracked)
    && forall i :: 0 <= i < |members| ==>
         && members[i].path in tracked
         && members[i] == Member(members[i].path, tracked[members[i].path].permission,
            TextOf(tracked, blob, members[i].path))
  }

  /** main: from the index records to the members of the archive. */
  method Package(clean: bool, records: seq<Record>, blob: string -> Blob, py: Python) returns (r: Checked<seq<Member>>)
    ensures match Tracked(records)
            case Refused(why) => r == Refused(why)
            case Accepted(tracked) =>
              match Verdict(clean, tracked, blob, py)
              case Some(why) => r == Refused(why)
              case None => r.Accepted? && IsArchive(r.value, tracked, blob)
  {
    hide Tracked, Verdict, Less;
    var tracked := TrackedEntries(records);
    if tracked.Refused? {
      return Refused(tracked.reason);
    }
    var paths := VerifySource(clean, tracked.value, blob, py);
    if paths.Refused? {
      return Refused(paths.reason);
    }
    var members := [];
    for i := 0 to |paths.value|
      invariant |members| == i
      invariant forall k :: 0 <= k < i ==>
                  members[k] == Member(paths.value[k], tracked.value[paths.value[k]].permission,
                                       TextOf(tracked.value, blob, paths.value[k]))
    {
      var path := paths.value[i];
      assert path in tracked.value;
      members := members + [Member(path, tracked.value[path].permission, TextOf(tracked.value, blob, path))];
    }
    assert PathsOf(members) == paths.value;
    return Accepted(members);
  }

  /** The same files give the same archive, whatever the order of the index records. */
  lemma ArchiveIgnoresOrder(records: seq<Record>, others: seq<Record>, blob: string -> Blob, members: seq<Member>,
        members': seq<Member>)
    requires DistinctPaths(records) && DistinctPaths(others)
    requires forall r :: r in records <==> r in others
    requires Tracked(records).Accepted? && IsArchive(members, Tracked(records).value, blob)
    requires Tracked(others).Accepted? && IsArchive(members', Tracked(others).value, blob)
    ensures members == members'
  {
    TrackedIgnoresOrder(records, others);
    hide Tracked, Less;
    AscendingIsUnique(PathsOf(members), PathsOf(members'));
    assert |members| == |PathsOf(members)| == |members'|;
    forall i | 0 <= i < |members| ensures members[i] == members'[i] {
      assert PathsOf(members)[i] == PathsOf(members')[i];
    }
  }

  // ---------------------------------------------------------------- generating the manifest

  /** The lines for the listed files, in the order they are visited. */
  function ListedLines(paths: seq<string>, content: string -> Blob, py: Python): seq<string> {
    if paths == [] then []
    else
      var p := paths[|paths| - 1];
      ListedLines(paths[..|paths| - 1], content, py)
      + (if Included(p) then [PrintLine(Line(py.digest(content(p)), p))] else [])
  }

  /** What generate_checksums.py writes. */
  function Generated(paths: seq<string>, content: string -> Blob, py: Python): string {
    Join(ListedLines(paths, content, py), "\n") + "\n"
  }

  lemma {:induction false} FirstLineEndAt(s: string, i: nat)
    requires i < |s| && OneLine(s[..i]) && LineEnd(s[i])
    ensures FirstLineEnd(s) == i
  {
  }

  /** Printed lines are split again into themselves. */
  lemma {:induction false} SplitOfPrinted(lines: seq<string>)
    requires lines != [] && forall l <- lines :: OneLine(l)
    ensures SplitLines(Join(lines, "\n") + "\n") == lines
  {
    hide OneLine;
    var l := lines[0];
    if |lines| == 1 {
      FirstOfPrinted(l, "");
      assert l + "\n" + "" == l + "\n" && lines == [l];
    } else {
      var rest := Join(lines[1..], "\n") + "\n";
      SplitOfPrinted(lines[1..]);
      FirstOfPrinted(l, rest);
      hide SplitLines;
      assert Join(lines, "\n") + "\n" == l + "\n" + rest;
      assert lines == [l] + lines[1..];
    }
  }

  lemma FirstOfPrinted(l: string, rest: string)
    requires OneLine(l)
    ensures SplitLines(l + "\n" + rest) == [l] + SplitLines(rest)
  {
    hide OneLine;
    var s := l + "\n" + rest;
    assert s[..|l|] == l && s[|l|] == '\n' && s[|l| + 1..] == rest;
    FirstLineEndAt(s, |l|);
  }

  ghost predicate Distinct(paths: seq<string>) {
    forall i, j :: 0 <= i < j < |paths| ==> paths[i] != paths[j]
  }

  function ListedDigests(paths: seq<string>, content: string -> Blob, py: Python): map<string, string> {
    map p | p in paths && Included(p) :: py.digest(content(p))
  }

  lemma {:induction false} LinesOfListed(paths: seq<string>, content: string -> Blob, py: Python)
    requires Sound(py) && Distinct(paths)
    requires forall p <- paths :: Included(p) ==> p != "" && OneLine(p)
    ensures forall l <- ListedLines(paths, content, py) :: OneLine(l)
    ensures DigestMap(ListedLines(paths, content, py)) == Accepted(ListedDigests(paths, content, py))
    ensures ListedLines(paths, content, py) != [] <==> exists p <- paths :: Included(p)
  {
    hide Included, Sound, OneLine;
    if paths == [] {
      assert ListedDigests(paths, content, py) == map[];
    } else {
      var init, p := paths[..|paths| - 1], paths[|paths| - 1];
      var lines, before := ListedLines(paths, content, py), ListedLines(init, content, py);
      assert forall q :: q in paths <==> q in init || q == p;
      LinesOfListed(init, content, py);
      if Included(p) {
        var l := Line(py.digest(content(p)), p);
        PrintedIsRead(l, content(p), py);
        assert lines[..|lines| - 1] == before && lines[|lines| - 1] == PrintLine(l);
        assert p !in init;
        assert ListedDigests(paths, content, py) == ListedDigests(init, content, py)[p := l.digest];
      } else {
        assert lines == before;
        assert ListedDigests(paths, content, py) == ListedDigests(init, content, py);
      }
    }
  }

  lemma PrintedIsRead(l: Line, b: Blob, py: Python)
    requires Sound(py) && l.digest == py.digest(b) && l.path != "" && OneLine(l.path)
    ensures ReadLine(PrintLine(l)) == Some(l) && OneLine(PrintLine(l))
  {
    LinesRoundTrip(PrintLine(l), l);
    assert HexDigest(l.digest);
    assert forall c :: HexChar(c) ==> !LineEnd(c);
  }

  // ---------------------------------------------------------------- the two scripts together

  /** A commit of the files the generator saw, with the manifest it wrote. */
  ghost predicate Committed(paths: seq<string>, content: string -> Blob, tracked: map<string, Entry>,
        blob: string -> Blob, py: Python) {
    && (forall p :: p in tracked <==> p in paths || p == CHECKSUM_NAME)
    && (forall p <- tracked :: p != CHECKSUM_NAME ==> TextOf(tracked, blob, p) == content(p))
    && CHECKSUM_NAME in tracked && TextOf(tracked, blob, CHECKSUM_NAME) == py.encode(Generated(paths, content, py))
  }

  /** A path that can stand in a manifest. */
  predicate Listable(p: string) { p != "" && OneLine(p) && Name(p) != CHECKSUM_NAME }

  lemma ChecksumNameIsNamed(py: Python)
    requires Sound(py)
    ensures Name(CHECKSUM_NAME) == CHECKSUM_NAME && !Included(CHECKSUM_NAME)
  {
    hide Pieces, SomePartIn, Suffix, EnvFile;
    NoSeparatorIsUncut(CHECKSUM_NAME, '/');
    hide Uncut;
    UncutIsOnePiece(CHECKSUM_NAME, '/', false, false);
  }

  lemma EmptyManifestIsMalformed()
    ensures DigestMap(SplitLines("\n")) == Refused(MalformedLine)
  {
  }

  lemma AcceptedPathsAreLines(text: string)
    requires DigestMap(SplitLines(text)).Accepted?
    ensures forall p <- DigestMap(SplitLines(text)).value :: p != "" && OneLine(p)
  {
    var lines := SplitLines(text);
    var m := DigestMap(lines).value;
    LinesAreLines(text);
    AcceptedManifestIsItsLines(lines);
    hide DigestMap, SplitLines;
    forall p | p in m ensures p != "" && OneLine(p) {
      var i :| 0 <= i < |lines| && ReadLine(lines[i]) == Some(Line(m[p], p));
      assert lines[i][66..] == p;
    }
  }

  /** The generated manifest parses to the digests of the listed files. */
  lemma GeneratedIsParsed(paths: seq<string>, content: string -> Blob, py: Python)
    requires Sound(py) && Distinct(paths)
    requires forall p <- paths :: Included(p) ==> p != "" && OneLine(p)
    ensures Parsed(py.encode(Generated(paths, content, py)), py)
              == if exists p <- paths :: Included(p) then Accepted(ListedDigests(paths, content, py))
                 else Refused(MalformedLine)
  {
    LinesOfListed(paths, content, py);
    var lines := ListedLines(paths, content, py);
    hide Included, OneLine, ListedLines, DigestMap, SplitLines;
    if lines != [] {
      SplitOfPrinted(lines);
    } else {
      EmptyManifestIsMalformed();
      assert Join(lines, "\n") + "\n" == "\n";
    }
  }

  /** Generating, committing and packaging a clean tree succeeds exactly when there is some other file,
      nothing is forbidden, no other file is named like the manifest and no path holds a line end. */
  lemma GeneratedIsAccepted(paths: seq<string>, content: string -> Blob, tracked: map<string, Entry>,
        blob: string -> Blob, py: Python)
    requires Sound(py) && Distinct(paths) && Committed(paths, content, tracked, blob, py)
    ensures Verdict(true, tracked, blob, py) == None <==>
              && (exists p <- paths :: p != CHECKSUM_NAME)
              && (forall p <- tracked :: !Forbidden(p, py))
              && (forall p <- paths :: p != CHECKSUM_NAME ==> Listable(p))
  {
    hide Forbidden, Included, Verdict, Parsed, Generated, Name, OneLine, Sound;
    AcceptedMeansExact(true, tracked, blob, py);
    ChecksumNameIsNamed(py);
    var d := Digests(tracked, blob, py);
    if forall p <- tracked :: !Forbidden(p, py) {
      forall p | p in tracked ensures Included(p) <==> Name(p) != CHECKSUM_NAME {
        PackagedIsListed(p, py);
      }
      if forall p <- paths :: p != CHECKSUM_NAME ==> p != "" && OneLine(p) {
        GeneratedIsParsed(paths, content, py);
        ListedAgainstDigests(paths, content, tracked, blob, py);
      }
      if Verdict(true, tracked, blob, py) == None {
        ParsedPathsAreLines(TextOf(tracked, blob, CHECKSUM_NAME), py);
        forall p | p in paths && p != CHECKSUM_NAME ensures p != "" && OneLine(p) {
          assert p in d;
        }
      }
    }
  }

  lemma ParsedPathsAreLines(data: Blob, py: Python)
    requires Parsed(data, py).Accepted?
    ensures forall p <- Parsed(data, py).value :: p != "" && OneLine(p)
  {
    AcceptedPathsAreLines(py.decode(data).value);
  }

  /** The listed digests are all the digests when every other file is listed. */
  lemma ListedAgainstDigests(paths: seq<string>, content: string -> Blob, tracked: map<string, Entry>,
        blob: string -> Blob, py: Python)
    requires Committed(paths, content, tracked, blob, py)
    requires !Included(CHECKSUM_NAME)
    ensures ListedDigests(paths, content, py) == Digests(tracked, blob, py) <==>
              forall p <- paths :: p != CHECKSUM_NAME ==> Included(p)
  {
    hide Included;
    var l, d := ListedDigests(paths, content, py), Digests(tracked, blob, py);
    if forall p <- paths :: p != CHECKSUM_NAME ==> Included(p) {
      assert l.Keys == d.Keys;
      assert l == d;
    }
    if l == d {
      forall p | p in paths && p != CHECKSUM_NAME ensures Included(p) {
        assert p in d;
      }
    }
  }

  // ---------------------------------------------------------------- two trees that are refused

  /** Commits the given files with the manifest the generator writes for them. */
  lemma Commit(paths: seq<string>, content: string -> Blob, py: Python)
    returns (tracked: map<string, Entry>, blob: string -> Blob)
    requires CHECKSUM_NAME !in paths
    ensures Committed(paths, content, tracked, blob, py)
  {
    tracked := map p | p in paths + [CHECKSUM_NAME] :: Entry(420, p);
    blob := id => if id == CHECKSUM_NAME then py.encode(Generated(paths, content, py)) else content(id);
  }

  lemma {:induction false} LastDotAt(s: string, i: int)
    requires -1 <= i < |s| && (i >= 0 ==> s[i] == '.') && forall j :: i < j < |s| ==> s[j] != '.'
    ensures LastDot(s) == i
  {
    if i < |s| - 1 {
      LastDotAt(s[..|s| - 1], i);
    }
  }

  /** A file at the root is allowed when neither its name nor its suffix is banned. */
  lemma Allowed(name: string, py: Python)
    requires Sound(py) && '/' !in name && LowerAscii(Suffix(name)) && Suffix(name) !in FORBIDDEN_SUFFIXES
    requires name !in FORBIDDEN_PARTS + {".DS_Store", "CODEX_PROMPT.md", "id_rsa", "id_ed25519"} && !EnvFile(name)
    ensures Name(name) == name && !Forbidden(name, py)
  {
    hide Pieces, Uncut, Suffix, EnvFile;
    NoSeparatorIsUncut(name, '/');
    UncutIsOnePiece(name, '/', false, false);
    assert Parts(name) == [name];
  }

  lemma ManifestIsAllowed(py: Python)
    requires Sound(py)
    ensures !Forbidden(CHECKSUM_NAME, py)
  {
    LastDotAt(CHECKSUM_NAME, 9);
    assert CHECKSUM_NAME[9..] == ".sha256";
    hide LastDot;
    assert CHECKSUM_NAME[0] == 'C' && ".sha256"[1] == 's';
    Allowed(CHECKSUM_NAME, py);
  }

  /** Finding, at a concrete path: a file whose name holds a line feed is allowed, and the manifest
      the generator writes for it is malformed to its own parser. */
  lemma LineEndCounterexample(content: string -> Blob, py: Python)
    returns (tracked: map<string, Entry>, blob: string -> Blob)
    requires Sound(py)
    ensures Committed(["a\nb"], content, tracked, blob, py) && forall p <- tracked :: !Forbidden(p, py)
    ensures Verdict(true, tracked, blob, py) == Some(MalformedLine)
  {
    tracked, blob := Commit(["a\nb"], content, py);
    LineFeedIsAllowed(py);
    ManifestIsAllowed(py);
    LineFeedIsMalformed(content, py);
    hide Forbidden, Parsed, Generated, Included;
  }

  lemma LineFeedIsAllowed(py: Python)
    requires Sound(py)
    ensures !Forbidden("a\nb", py) && Included("a\nb")
  {
    LastDotAt("a\nb", -1);
    hide LastDot;
    assert "a\nb"[0] == 'a' && "a\nb"[1] == '\n';
    Allowed("a\nb", py);
    PackagedIsListed("a\nb", py);
  }

  lemma LineFeedIsMalformed(content: string -> Blob, py: Python)
    requires Sound(py) && Included("a\nb")
    ensures Parsed(py.encode(Generated(["a\nb"], content, py)), py) == Refused(MalformedLine)
  {
    hide Included, OneLine, ReadLine, SplitLines, HexDigest;
    var path, l := "a\nb", Line(py.digest(content("a\nb")), "a");
    OneLineTexts();
    PrintedIsRead(l, content(path), py);
    FirstOfPrinted(PrintLine(l), "b\n");
    SecondLineIsMalformed(PrintLine(l), "b");
    assert [path][..0] == [];
    assert ListedLines([path], content, py) == [PrintLine(Line(l.digest, path))];
    GeneratedText(l.digest);
    hide DigestMap, ListedLines;
  }

  lemma OneLineTexts()
    ensures OneLine("a") && SplitLines("b\n") == ["b"] && ReadLine("b") == None
  {
    FirstOfPrinted("b", "");
    assert "b" + "\n" + "" == "b\n";
  }

  lemma GeneratedText(digest: string)
    ensures PrintLine(Line(digest, "a\nb")) + "\n" == PrintLine(Line(digest, "a")) + "\n" + "b\n"
  {
    assert "a\nb" == "a" + "\n" + "b" && "b\n" == "b" + "\n";
  }

  lemma SecondLineIsMalformed(first: string, second: string)
    requires ReadLine(first).Some? && ReadLine(second).None?
    ensures DigestMap([first] + [second]) == Refused(MalformedLine)
  {
    hide ReadLine;
    var lines := [first] + [second];
    assert [first][..|[first]| - 1] == [];
    assert DigestMap([first]).Accepted?;
    assert lines[..|lines| - 1] == [first] && lines[|lines| - 1] == second;
  }

  /** Finding: the manifest of a tree with no other file is one blank line, which is malformed. */
  lemma EmptyTreeCounterexample(content: string -> Blob, py: Python)
    returns (tracked: map<string, Entry>, blob: string -> Blob)
    requires Sound(py)
    ensures Committed([], content, tracked, blob, py) && tracked.Keys == {CHECKSUM_NAME}
    ensures Verdict(true, tracked, blob, py) == Some(MalformedLine)
  {
    hide Forbidden, Parsed, Generated;
    tracked, blob := Commit([], content, py);
    GeneratedIsParsed([], content, py);
    ManifestIsAllowed(py);
    assert tracked.Keys == {CHECKSUM_NAME};
  }
}
