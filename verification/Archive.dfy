/** The check of a release's static archive before it is published: the relative paths of its
    entries, normalised, and the limits on what it unpacks to. */
module Archive {
  import opened Octets

  // ---------------------------------------------------------------- paths

  datatype PathError = InvalidCharacters | DotComponent | DrivePrefix

  datatype PathResult = Parts(parts: seq<string>) | Bad(error: PathError)

  /** `str::split('/')`: one piece more than there are slashes. */
  function Split(s: string): (pieces: seq<string>)
    ensures pieces != []
  {
    if s == [] then [""] else
    var rest := Split(s[1..]);
    if s[0] == '/' then [""] + rest else [[s[0]] + rest[0]] + rest[1..]
  }

  function Join(parts: seq<string>): string {
    if parts == [] then ""
    else if |parts| == 1 then parts[0]
    else parts[0] + "/" + Join(parts[1..])
  }

  /** The verdict on one piece. */
  function PieceError(piece: string): Option<PathError> {
    if piece == "." || piece == ".." then Some(DotComponent)
    else if ':' in piece then Some(DrivePrefix)
    else None
  }

  function NonEmpty(pieces: seq<string>): seq<string> {
    if pieces == [] then [] else
    (if pieces[0] == "" then [] else [pieces[0]]) + NonEmpty(pieces[1..])
  }

  function FirstError(pieces: seq<string>): Option<PathError> {
    if pieces == [] then None
    else if PieceError(pieces[0]).Some? then PieceError(pieces[0])
    else FirstError(pieces[1..])
  }

  /** A path is normalised by dropping its empty components; the first bad one refuses it. */
  function PathParts(relative: string): PathResult {
    if '\\' in relative || '\0' in relative then Bad(InvalidCharacters)
    else if FirstError(Split(relative)).Some? then Bad(FirstError(Split(relative)).value)
    else Parts(NonEmpty(Split(relative)))
  }

  /** `zip_path_parts` as the program runs it. */
  method ZipPathParts(relative: string) returns (r: PathResult)
    ensures r == PathParts(relative)
  {
    hide NonEmpty, FirstError, Split;
    if '\\' in relative || '\0' in relative {
      return Bad(InvalidCharacters);
    }
    var pieces := Split(relative);
    var parts: seq<string> := [];
    assert pieces[0..] == pieces && pieces[|pieces|..] == [];
    NoPiece();
    for i := 0 to |pieces|
      invariant parts + NonEmpty(pieces[i..]) == NonEmpty(pieces)
      invariant FirstError(pieces[i..]) == FirstError(pieces)
    {
      var part := pieces[i];
      NextPiece(pieces, i);
      if part == "" {
        continue;
      }
      if part == "." || part == ".." {
        return Bad(DotComponent);
      }
      if ':' in part {
        return Bad(DrivePrefix);
      }
      Associative(parts, [part], NonEmpty(pieces[i + 1..]));
      parts := parts + [part];
    }
    return Parts(parts);
  }

  lemma NoPiece()
    ensures NonEmpty([]) == [] && FirstError([]).None?
  {
  }

  lemma NextPiece(pieces: seq<string>, i: nat)
    requires i < |pieces|
    ensures NonEmpty(pieces[i..]) == (if pieces[i] == "" then [] else [pieces[i]]) + NonEmpty(pieces[i + 1..])
    ensures FirstError(pieces[i..])
            == if PieceError(pieces[i]).Some? then PieceError(pieces[i]) else FirstError(pieces[i + 1..])
  {
    assert pieces[i..][0] == pieces[i] && pieces[i..][1..] == pieces[i + 1..];
  }

  /** A component that names something in its directory and nothing else. */
  predicate Clean(part: string) {
    part != "" && part != "." && part != ".." && '/' !in part && '\\' !in part && '\0' !in part && ':' !in part
  }

  predicate AllClean(parts: seq<string>) {
    forall i :: 0 <= i < |parts| ==> Clean(parts[i])
  }

  lemma {:induction false} SplitPieces(s: string, i: nat)
    requires i < |Split(s)|
    ensures '/' !in Split(s)[i] && forall c :: c in Split(s)[i] ==> c in s
  {
    if s != [] {
      var rest := Split(s[1..]);
      SplitPieces(s[1..], if s[0] == '/' && i > 0 then i - 1 else if s[0] == '/' then 0 else i);
      if s[0] == '/' && i > 0 {
        assert Split(s)[i] == rest[i - 1];
      }
    }
  }

  lemma {:induction false} NonEmptyPieces(pieces: seq<string>)
    requires FirstError(pieces).None?
    ensures forall p :: p in NonEmpty(pieces) ==> p in pieces && p != "" && PieceError(p).None?
  {
    if pieces != [] {
      NonEmptyPieces(pieces[1..]);
    }
  }

  /** Whatever a path looked like, the components it is normalised to are clean. */
  lemma PartsAreClean(relative: string)
    requires PathParts(relative).Parts?
    ensures AllClean(PathParts(relative).parts)
  {
    var pieces, parts := Split(relative), PathParts(relative).parts;
    NonEmptyPieces(pieces);
    forall k | 0 <= k < |parts|
      ensures Clean(parts[k])
    {
      assert parts[k] in NonEmpty(pieces);
      var i :| 0 <= i < |pieces| && pieces[i] == parts[k];
      SplitPieces(relative, i);
    }
  }

  lemma {:induction false} SplitWord(word: string, s: string)
    requires '/' !in word
    ensures Split(word + "/" + s) == [word] + Split(s)
    ensures Split(word) == [word]
  {
    if word == "" {
      assert (word + "/" + s)[1..] == s;
    } else {
      SplitWord(word[1..], s);
      assert (word + "/" + s)[1..] == word[1..] + "/" + s;
      assert [word[0]] + word[1..] == word;
    }
  }

  lemma {:induction false} SplitOfJoin(parts: seq<string>)
    requires AllClean(parts) && parts != []
    ensures Split(Join(parts)) == parts
  {
    SplitWord(parts[0], Join(parts[1..]));
    if |parts| > 1 {
      SplitOfJoin(parts[1..]);
    }
  }

  lemma {:induction false} CleanStays(parts: seq<string>)
    requires AllClean(parts)
    ensures NonEmpty(parts) == parts && FirstError(parts).None?
    ensures '\\' !in Join(parts) && '\0' !in Join(parts)
  {
    if parts != [] {
      assert Clean(parts[0]);
      CleanStays(parts[1..]);
    }
  }

  /** A normalised path is its own normal form, so normalised paths are equal exactly when their
      components are. */
  lemma NormalFormStays(parts: seq<string>)
    requires AllClean(parts)
    ensures PathParts(Join(parts)) == Parts(parts)
  {
    CleanStays(parts);
    if parts != [] {
      SplitOfJoin(parts);
    }
  }

  // ---------------------------------------------------------------- the archive

  /** An entry: `intact` if it opens and, being a file, reads through; `bytes` is what it unpacks
      to, `declared` what its header says. */
  datatype Entry = Entry(name: string, link: bool, mode: Option<nat>, dir: bool, intact: bool,
                         declared: nat, bytes: nat)

  const STATIC: string := "static/"
  const INDEX: seq<string> := ["index.html"]
  const MAX_DECOMPRESSED: nat := 0x4000_0000
  const BUFFER: nat := 0x1_0000
  const U64_MAX: nat := 0xFFFF_FFFF_FFFF_FFFF

  function Saturated(n: nat): nat {
    if n > U64_MAX then U64_MAX else n
  }

  function Limit(compressed: u64): nat {
    var most := Saturated(20 * compressed);
    if most < MAX_DECOMPRESSED then most else MAX_DECOMPRESSED
  }

  /** Devices, pipes and sockets, by the file type bits of a Unix mode. */
  predicate Special(mode: nat) {
    var kind := mode / 0x1000 % 16;
    kind == 1 || kind == 2 || kind == 6 || kind == 12
  }

  /** The limit is twenty times the compressed size, at most one GiB. */
  lemma LimitIs(compressed: u64)
    ensures Limit(compressed) == if 20 * compressed < 0x4000_0000 then 20 * compressed else 0x4000_0000
  {
  }

  /** By the file type bits, whatever the bits above and below: a pipe (0o010000), a character device
      (0o020000), a block device (0o060000) or a socket (0o140000). */
  lemma SpecialExactly(above: nat, kind: nat, permissions: nat)
    requires kind < 0x10 && permissions < 0x1000
    ensures Special(above * 0x1_0000 + kind * 0x1000 + permissions)
            <==> kind == 0x1 || kind == 0x2 || kind == 0x6 || kind == 0xC
  {
    var mode := above * 0x1_0000 + kind * 0x1000 + permissions;
    assert mode / 0x1000 == above * 0x10 + kind;
    assert (above * 0x10 + kind) % 0x10 == kind;
  }

  predicate Named(e: Entry) {
    STATIC <= e.name && PathParts(e.name[|STATIC|..]).Parts?
  }

  function PartsOf(e: Entry): seq<string>
    requires Named(e)
  {
    PathParts(e.name[|STATIC|..]).parts
  }

  /** An entry that may be in the archive, whatever else is. */
  predicate Allowed(e: Entry) {
    && e.intact && !e.link && (e.mode.Some? ==> !Special(e.mode.value))
    && Named(e) && (PartsOf(e) == [] ==> e.dir && e.name == STATIC)
  }

  /** Which entries are refused by themselves. */
  lemma AllowedExactly(e: Entry)
    ensures Allowed(e) <==>
              && e.intact && !e.link && (e.mode.None? || !Special(e.mode.value))
              && "static/" <= e.name
              && var r := PathParts(e.name[7..]);
                 r.Parts? && (r.parts != [] || (e.dir && e.name == "static/"))
  {
  }

  function Unpacked(entries: seq<Entry>): nat {
    if entries == [] then 0 else
    var last := entries[|entries| - 1];
    Unpacked(entries[..|entries| - 1]) + (if last.dir then 0 else last.bytes)
  }

  predicate SizeOk(entries: seq<Entry>, i: nat, limit: nat)
    requires i < |entries|
  {
    entries[i].dir || (entries[i].declared + Unpacked(entries[..i]) <= limit && Unpacked(entries[..i + 1]) <= limit)
  }

  predicate Distinct(entries: seq<Entry>, i: nat, j: nat)
    requires i < j < |entries| && Named(entries[i]) && Named(entries[j])
  {
    PartsOf(entries[i]) == [] || PartsOf(entries[i]) != PartsOf(entries[j])
  }

  predicate IsIndex(e: Entry) {
    Named(e) && PartsOf(e) == INDEX && !e.dir
  }

  /** The first entries of an archive are fine so far. */
  predicate Sound(entries: seq<Entry>, limit: nat) {
    && (forall i :: 0 <= i < |entries| ==> Allowed(entries[i]) && SizeOk(entries, i, limit))
    && (forall i, j :: 0 <= i < j < |entries| ==> Distinct(entries, i, j))
  }

  /** The path of an entry behind its `static/`. */
  function PathOf(e: Entry): PathResult {
    if "static/" <= e.name then PathParts(e.name[7..]) else Bad(InvalidCharacters)
  }

  /** When an archive is sound: each entry may be in it, no two entries with a path have the same one,
      and each file, by its header and by what it unpacks to, fits into what the files before it
      left of the limit. */
  lemma SoundExactly(entries: seq<Entry>, limit: nat)
    ensures Sound(entries, limit) <==>
              && (forall e :: e in entries ==> Allowed(e))
              && (forall i, j :: 0 <= i < j < |entries| && PathOf(entries[i]) == PathOf(entries[j])
                    ==> PathOf(entries[i]) == Parts([]))
              && (forall i :: 0 <= i < |entries| && !entries[i].dir ==>
                    && Unpacked(entries[..i]) + entries[i].declared <= limit
                    && Unpacked(entries[..i]) + entries[i].bytes <= limit)
  {
    hide PathParts, Special, Unpacked;
    forall i | 0 <= i < |entries|
      ensures Unpacked(entries[..i + 1]) == Unpacked(entries[..i]) + (if entries[i].dir then 0 else entries[i].bytes)
    {
      assert entries[..i + 1] == entries[..i] + [entries[i]];
      UnpackedOneMore(entries[..i], entries[i]);
    }
    assert (forall e :: e in entries ==> Allowed(e)) <==> forall i :: 0 <= i < |entries| ==> Allowed(entries[i]);
    if forall i :: 0 <= i < |entries| ==> Allowed(entries[i]) {
      forall i, j | 0 <= i < j < |entries|
        ensures Distinct(entries, i, j)
                <==> PathOf(entries[i]) != PathOf(entries[j]) || PathOf(entries[i]) == Parts([])
      {
        assert Allowed(entries[i]) && Allowed(entries[j]);
      }
    }
  }

  /** What `output_paths` holds. */
  function Paths(entries: seq<Entry>): set<string>
    requires forall e :: e in entries ==> Named(e)
  {
    set e | e in entries && PartsOf(e) != [] :: Join(PartsOf(e))
  }

  lemma {:induction false} PrefixSound(entries: seq<Entry>, n: nat, limit: nat)
    requires n <= |entries| && Sound(entries, limit)
    ensures Sound(entries[..n], limit)
  {
    var first := entries[..n];
    forall i | 0 <= i < n
      ensures Allowed(first[i]) && SizeOk(first, i, limit)
    {
      assert first[..i] == entries[..i] && first[..i + 1] == entries[..i + 1];
      assert SizeOk(entries, i, limit);
    }
    forall i, j | 0 <= i < j < n
      ensures Distinct(first, i, j)
    {
      assert Distinct(entries, i, j);
    }
  }

  /** One entry more: the archive stays fine exactly when the entry is fine, new, and small enough. */
  lemma OneMoreEntry(entries: seq<Entry>, e: Entry, limit: nat)
    requires Sound(entries, limit)
    ensures Sound(entries + [e], limit)
            <==> Allowed(e) && (PartsOf(e) != [] ==> Join(PartsOf(e)) !in Paths(entries))
                 && (e.dir || (e.declared + Unpacked(entries) <= limit && Unpacked(entries) + e.bytes <= limit))
  {
    hide PathParts, Special, Join;
    var all, n := entries + [e], |entries|;
    assert all[..n] == entries && all[..n + 1] == all && all[n] == e;
    assert Unpacked(all) == Unpacked(entries) + (if e.dir then 0 else e.bytes);
    if Allowed(e) {
      forall i | 0 <= i < n
        ensures Distinct(all, i, n) <==> PartsOf(all[i]) == [] || Join(PartsOf(all[i])) != Join(PartsOf(e))
      {
        assert all[i] == entries[i] && Allowed(entries[i]);
        SameJoin(all[i], e);
      }
      if PartsOf(e) == [] {
        forall i | 0 <= i < n
          ensures Distinct(all, i, n)
        {
          assert all[i] == entries[i] && Allowed(entries[i]);
        }
      }
      SoundWith(entries, e, limit);
    } else {
      assert !Allowed(all[n]);
    }
  }

  lemma SameJoin(d: Entry, e: Entry)
    requires Named(d) && Named(e)
    ensures Join(PartsOf(d)) == Join(PartsOf(e)) <==> PartsOf(d) == PartsOf(e)
  {
    PartsAreClean(d.name[|STATIC|..]);
    PartsAreClean(e.name[|STATIC|..]);
    NormalFormStays(PartsOf(d));
    NormalFormStays(PartsOf(e));
  }

  lemma SoundWith(entries: seq<Entry>, e: Entry, limit: nat)
    requires Sound(entries, limit) && Allowed(e)
    ensures var all := entries + [e];
            Sound(all, limit) <==> SizeOk(all, |entries|, limit) && forall i :: 0 <= i < |entries| ==> Distinct(all, i, |entries|)
  {
    hide PathParts, Special, Join, Unpacked;
    var all, n := entries + [e], |entries|;
    forall i | 0 <= i < n
      ensures Allowed(all[i]) && SizeOk(all, i, limit)
    {
      assert all[..i] == entries[..i] && all[..i + 1] == entries[..i + 1] && all[i] == entries[i];
      assert SizeOk(entries, i, limit);
    }
    forall i, j | 0 <= i < j < n
      ensures Distinct(all, i, j)
    {
      assert all[i] == entries[i] && all[j] == entries[j];
      assert Distinct(entries, i, j);
    }
  }

  /** Reading one file through; false when the limit is passed. */
  method ReadThrough(bytes: nat, total0: nat, limit: nat) returns (total: nat, ok: bool)
    requires total0 <= limit <= MAX_DECOMPRESSED
    ensures ok <==> total0 + bytes <= limit
    ensures ok ==> total == total0 + bytes
  {
    total := total0;
    var rest := bytes;
    while rest > 0
      invariant 0 <= rest <= bytes && total == total0 + (bytes - rest) <= limit
    {
      var count: nat :| 0 < count <= rest && count <= BUFFER;
      rest := rest - count;
      total := Saturated(total + count);
      if total > limit {
        return total, false;
      }
    }
    return total, true;
  }

  /** `validate_static_archive`: an archive passes exactly when every entry is allowed by itself, no
      two are normalised to the same path, `index.html` is there as a file, and what the files
      unpack to, each header taken at its word in its turn, stays within the limit. */
  method ValidateStaticArchive(entries: seq<Entry>, compressed: u64) returns (ok: bool)
    ensures ok <==> Sound(entries, Limit(compressed)) && exists e :: e in entries && IsIndex(e)
  {
    hide Sound, PathParts, Join, Special, Unpacked, Paths, IsIndex, Saturated;
    var limit := Limit(compressed);
    var total, hasIndex, paths: set<string> := 0, false, {};
    NothingSound(limit);
    assert entries[..0] == [];
    for i := 0 to |entries|
      invariant Sound(entries[..i], limit) && total == Unpacked(entries[..i]) <= limit
      invariant forall e :: e in entries[..i] ==> Named(e)
      invariant paths == Paths(entries[..i])
      invariant hasIndex <==> exists e :: e in entries[..i] && IsIndex(e)
    {
      var e := entries[i];
      var first := entries[..i + 1];
      assert first == entries[..i] + [e];
      OneMoreEntry(entries[..i], e, limit);
      MustBeSound(entries, i + 1, limit);
      UnpackedOneMore(entries[..i], e);
      if !e.intact || e.link || (e.mode.Some? && Special(e.mode.value)) || !(STATIC <= e.name) {
        return false;
      }
      var r := ZipPathParts(e.name[|STATIC|..]);
      if r.Bad? {
        return false;
      }
      PathsOneMore(entries[..i], e);
      IndexOneMore(entries[..i], e);
      if r.parts == [] {
        if e.dir && e.name == STATIC {
          continue;
        }
        return false;
      }
      var normalized := Join(r.parts);
      if normalized in paths {
        return false;
      }
      paths := paths + {normalized};
      if e.dir {
        continue;
      }
      if normalized == "index.html" {
        hasIndex := true;
      }
      if e.declared > limit - total {
        return false;
      }
      var within;
      total, within := ReadThrough(e.bytes, total, limit);
      if !within {
        return false;
      }
    }
    assert entries[..|entries|] == entries;
    return hasIndex;
  }

  lemma NothingSound(limit: nat)
    ensures Sound([], limit) && Unpacked([]) == 0 && Paths([]) == {}
  {
  }

  lemma MustBeSound(entries: seq<Entry>, n: nat, limit: nat)
    requires n <= |entries|
    ensures Sound(entries, limit) ==> Sound(entries[..n], limit)
  {
    hide Sound;
    if Sound(entries, limit) {
      PrefixSound(entries, n, limit);
    }
  }

  lemma UnpackedOneMore(entries: seq<Entry>, e: Entry)
    ensures Unpacked(entries + [e]) == Unpacked(entries) + (if e.dir then 0 else e.bytes)
  {
    assert (entries + [e])[..|entries|] == entries;
  }

  lemma PathsOneMore(entries: seq<Entry>, e: Entry)
    requires (forall d :: d in entries ==> Named(d)) && Named(e)
    ensures forall d :: d in entries + [e] ==> Named(d)
    ensures Paths(entries + [e]) == if PartsOf(e) == [] then Paths(entries) else Paths(entries) + {Join(PartsOf(e))}
  {
    hide Named, PartsOf, Join;
  }

  lemma IndexOneMore(entries: seq<Entry>, e: Entry)
    requires Named(e)
    ensures IsIndex(e) <==> Join(PartsOf(e)) == "index.html" && !e.dir
    ensures (exists d :: d in entries + [e] && IsIndex(d)) <==> IsIndex(e) || exists d :: d in entries && IsIndex(d)
  {
    hide PathParts;
    PartsAreClean(e.name[|STATIC|..]);
    NormalFormStays(PartsOf(e));
    assert Clean("index.html");
    assert AllClean(INDEX);
    NormalFormStays(INDEX);
    assert Join(INDEX) == "index.html";
    assert e in entries + [e];
  }
}
