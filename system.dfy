/**
 * The name and path helpers of `hoa::System` and its `File` and `Folder`
 * records. Files and folders are values: their constructors normalise the
 * strings once and nothing changes them afterwards.
 */
module FileSystem {
  import opened Wrappers
  import opened Text

  /** The path separator of the POSIX build. */
  const Separator: char := '/'

  // ---------------------------------------------------------------------------
  // formatName
  // ---------------------------------------------------------------------------

  /** The part of `name` before its first '.'. */
  function Stem(name: string): string {
    match Find(name, ".")
    case None => name
    case Some(p) => name[..p]
  }

  /**
   * `System::formatName`: drop everything from the first '.' on, then everything
   * up to and including the last separator.
   */
  function FormatName(name: string): (r: string)
    ensures '.' !in r && Separator !in r
  {
    var stem := Stem(name);
    StemClean(name);
    match FindLast(stem, Separator)
    case None => stem
    case Some(p) => stem[p + 1..]
  }

  lemma {:induction false} StemClean(name: string)
    ensures '.' !in Stem(name)
  {
    match Find(name, ".")
    case None =>
      FindCharNone(name, '.');
    case Some(p) =>
      forall i | 0 <= i < p ensures name[i] != '.' {
        OccursAtChar(name, '.', i);
      }
  }

  /** A name with neither a '.' nor a separator is left as it is. */
  lemma {:induction false} FormatNameKeepsPlainName(name: string)
    requires '.' !in name && Separator !in name
    ensures FormatName(name) == name
  {
    FindCharNone(name, '.');
  }

  /** Formatting a formatted name changes nothing. */
  lemma {:induction false} FormatNameIdempotent(name: string)
    ensures FormatName(FormatName(name)) == FormatName(name)
  {
    FormatNameKeepsPlainName(FormatName(name));
  }

  /** The first '.' of `a + b` is the first of `b` when `a` has none. */
  lemma {:induction false} FindCharAfter(a: string, b: string, c: char)
    requires c !in a
    requires |b| > 0 && b[0] == c
    ensures Find(a + b, [c]) == Some(|a|)
  {
    var s := a + b;
    OccursAtChar(s, c, |a|);
    forall i | 0 <= i < |a| ensures !OccursAt(s, [c], i) {
      OccursAtChar(s, c, i);
      assert s[i] == a[i];
    }
    FindFirst(s, [c], |a|);
  }

  /** The last `c` of `a + b` is the last of `a` when `b` has none. */
  lemma {:induction false} FindLastBefore(a: string, b: string, c: char)
    requires c !in b
    ensures FindLast(a + b, c) == FindLast(a, c)
    decreases |b|
  {
    if b == [] {
      assert a + b == a;
    } else {
      var s := a + b;
      assert s[|s| - 1] == b[|b| - 1];
      assert s[..|s| - 1] == a + b[..|b| - 1];
      FindLastBefore(a, b[..|b| - 1], c);
    }
  }

  /**
   * A path that is empty or ends with a separator, followed by a plain name and
   * an extension, formats to the plain name.
   */
  lemma {:induction false} FormatNameOfPath(dir: string, base: string, ext: string)
    requires '.' !in dir && Separator !in base && '.' !in base
    requires dir == [] || dir[|dir| - 1] == Separator
    requires ext == [] || ext[0] == '.'
    ensures FormatName(dir + base + ext) == base
  {
    var s := dir + base + ext;
    assert '.' !in dir + base;
    if ext == [] {
      assert s == dir + base;
      FindCharNone(s, '.');
      assert Stem(s) == dir + base;
    } else {
      FindCharAfter(dir + base, ext, '.');
      assert Stem(s) == dir + base;
    }
    FindLastBefore(dir, base, Separator);
    if dir == [] {
      assert dir + base == base;
    } else {
      assert FindLast(dir, Separator) == Some(|dir| - 1);
      assert (dir + base)[|dir|..] == base;
    }
  }

  // ---------------------------------------------------------------------------
  // formatType, formatPath
  // ---------------------------------------------------------------------------

  /** `System::formatType`: the suffix that starts at the last '.'; the input when there is none. */
  function FormatType(fileType: string): (r: string)
    ensures '.' !in fileType ==> r == fileType
    ensures '.' in fileType ==> |r| > 0 && r[0] == '.' && Count(r, '.') == 1
    ensures |r| <= |fileType| && r == fileType[|fileType| - |r|..]
  {
    match FindLast(fileType, '.')
    case None => fileType
    case Some(p) =>
      var r := fileType[p..];
      assert r == [r[0]] + r[1..];
      assert '.' !in r[1..];
      r
  }

  /** Formatting a formatted type changes nothing. */
  lemma {:induction false} FormatTypeIdempotent(fileType: string)
    ensures FormatType(FormatType(fileType)) == FormatType(fileType)
  {
    var r := FormatType(fileType);
    if '.' in fileType {
      assert r == [r[0]] + r[1..];
      assert multiset(r)['.'] == 1 + multiset(r[1..])['.'];
      assert '.' !in r[1..];
      assert FindLast(r, '.') == Some(0);
    }
  }

  /** `System::formatPath`: a non-empty path that does not end with the separator gets one. */
  function FormatPath(path: string): (r: string)
    ensures path <= r && |r| <= |path| + 1
    ensures r != [] <==> path != []
    ensures r != [] ==> r[|r| - 1] == Separator
    ensures path != [] && path[|path| - 1] == Separator ==> r == path
  {
    if path != [] && path[|path| - 1] != Separator then path + [Separator] else path
  }

  /** Formatting a formatted path changes nothing. */
  lemma {:induction false} FormatPathIdempotent(path: string)
    ensures FormatPath(FormatPath(path)) == FormatPath(path)
  {
  }

  // ---------------------------------------------------------------------------
  // isType, isFolder
  // ---------------------------------------------------------------------------

  /**
   * `System::isType` as written: `type.compare(|name| - |type|, |type|, name)`
   * compares the tail of `type` with the whole of `name`. None is the case where
   * that offset lies beyond `type`, so that `compare` throws `out_of_range`
   * inside a `noexcept` function and the program terminates.
   */
  function IsType(name: string, fileType: string): Option<bool> {
    if |name| < |fileType| then Some(false)
    else
      var pos := |name| - |fileType|;
      if pos > |fileType| then None
      else Some(fileType[pos..] == name)
  }

  /** As written, `isType` holds only of a name equal to the type, and fails on long names. */
  lemma {:induction false} IsTypeAsWritten(name: string, fileType: string)
    ensures IsType(name, fileType) == Some(true) <==> name == fileType
    ensures IsType(name, fileType).None? <==> |name| > 2 * |fileType|
    ensures |name| < |fileType| ==> IsType(name, fileType) == Some(false)
  {
    if |fileType| <= |name| <= 2 * |fileType| && IsType(name, fileType) == Some(true) {
      assert |fileType[|name| - |fileType|..]| == 2 * |fileType| - |name|;
    }
  }

  /** A wave file name that `isType` rejects, and a longer one on which it terminates. */
  lemma {:induction false} IsTypeCounterexample()
    ensures IsType("a.wav", ".wav") == Some(false) && HasType("a.wav", ".wav")
    ensures IsType("IRC_1002_C_R0195_T180_P060.wav", ".wav").None?
    ensures HasType("IRC_1002_C_R0195_T180_P060.wav", ".wav")
  {
    assert ".wav"[1..] != "a.wav";
    assert "a.wav"[|"a.wav"| - 4..] == ".wav";
    var long := "IRC_1002_C_R0195_T180_P060.wav";
    assert long[|long| - 4..] == ".wav";
  }

  /** The evidently intended test: `name` ends with `fileType`. */
  predicate HasType(name: string, fileType: string) {
    |name| >= |fileType| && name[|name| - |fileType|..] == fileType
  }

  lemma {:induction false} HasTypeIff(name: string, fileType: string)
    ensures HasType(name, fileType) <==> exists stem: string :: name == stem + fileType
  {
    if HasType(name, fileType) {
      var stem := name[..|name| - |fileType|];
      assert name == stem + fileType;
    }
    if exists stem: string :: name == stem + fileType {
      var stem: string :| name == stem + fileType;
      assert name[|name| - |fileType|..] == fileType;
    }
  }

  /** `System::isFolder`: a name without a '.'. */
  function IsFolder(name: string): (r: bool)
    ensures r <==> '.' !in name
  {
    FindCharNone(name, '.');
    Find(name, ".").None?
  }

  // ---------------------------------------------------------------------------
  // File and Folder
  // ---------------------------------------------------------------------------

  datatype File = File(name: string, fileType: string, path: string)

  datatype Folder = Folder(name: string, path: string)

  /** `File(path, name, type)`: every part normalised by its helper. */
  function MakeFile(path: string, name: string, fileType: string): (f: File)
    ensures '.' !in f.name && Separator !in f.name
    ensures f.path == [] || f.path[|f.path| - 1] == Separator
    ensures '.' in fileType ==> |f.fileType| > 0 && f.fileType[0] == '.' && Count(f.fileType, '.') == 1
  {
    File(FormatName(name), FormatType(fileType), FormatPath(path))
  }

  /** `File::getFullName`. */
  function FullName(f: File): string {
    f.path + f.name + f.fileType
  }

  /**
   * `File(File&&)` as written: name and path are swapped out of `other`, but
   * `m_type.swap(m_type)` swaps the new file's own empty type with itself.
   * Returns the new file and what is left in `other`.
   */
  function MoveFile(other: File): (r: (File, File))
    ensures r.0.name == other.name && r.0.path == other.path && r.0.fileType == ""
    ensures r.1 == File("", other.fileType, "")
  {
    (File(other.name, "", other.path), File("", other.fileType, ""))
  }

  /** The moved-to file's full name has lost the type, so it names another file whenever there was one. */
  lemma {:induction false} MovedFileLosesType(other: File)
    ensures FullName(MoveFile(other).0) == other.path + other.name
    ensures other.fileType != "" ==> FullName(MoveFile(other).0) != FullName(other)
  {
    assert |FullName(other)| == |other.path + other.name| + |other.fileType|;
  }

  /** The move evidently intended: all three parts taken from `other`, which is left empty. */
  function MoveFileIntended(other: File): (r: (File, File))
    ensures r.0 == other && r.1 == File("", "", "")
  {
    (File(other.name, other.fileType, other.path), File("", "", ""))
  }

  /** The intended move keeps the full name, and agrees with the written one on name and path. */
  lemma {:induction false} MoveFileIntendedKeepsFullName(other: File)
    ensures FullName(MoveFileIntended(other).0) == FullName(other)
    ensures MoveFileIntended(other).0 == MoveFile(other).0.(fileType := other.fileType)
  {
  }

  /** `Folder(path, name)`. */
  function MakeFolder(path: string, name: string): (d: Folder)
    ensures '.' !in d.name && Separator !in d.name
    ensures d.path == [] || d.path[|d.path| - 1] == Separator
  {
    Folder(FormatName(name), FormatPath(path))
  }

  /** `Folder::getFullName`. */
  function FolderFullName(d: Folder): string {
    d.path + d.name
  }

  /** `Folder(Folder&&)`: both parts are swapped out of `other`. */
  function MoveFolder(other: Folder): (r: (Folder, Folder))
    ensures r.0 == other && r.1 == Folder("", "")
  {
    (Folder(other.name, other.path), Folder("", ""))
  }

  /**
   * The full name of a file splits back into its parts: formatting it as a name
   * gives the file's name, and as a type gives the file's type.
   */
  lemma {:induction false} FullNameRoundTrip(path: string, name: string, fileType: string)
    requires '.' !in FormatPath(path)
    requires '.' in fileType
    ensures FormatName(FullName(MakeFile(path, name, fileType))) == FormatName(name)
    ensures FormatType(FullName(MakeFile(path, name, fileType))) == FormatType(fileType)
  {
    var f := MakeFile(path, name, fileType);
    FormatNameOfPath(f.path, f.name, f.fileType);
    assert FullName(f) == (f.path + f.name) + f.fileType;
    FormatTypeAfter(f.path + f.name, f.fileType);
  }

  /** A type with a single '.', at its head, is what formatType keeps of anything before it without a '.'. */
  lemma {:induction false} FormatTypeAfter(prefix: string, ext: string)
    requires '.' !in prefix
    requires |ext| > 0 && ext[0] == '.' && Count(ext, '.') == 1
    ensures FormatType(prefix + ext) == ext
  {
    assert ext == [ext[0]] + ext[1..];
    assert multiset(ext)['.'] == 1 + multiset(ext[1..])['.'];
    assert '.' !in ext[1..];
    FindLastBefore(prefix + [ext[0]], ext[1..], '.');
    assert prefix + ext == (prefix + [ext[0]]) + ext[1..];
    assert FindLast(prefix + [ext[0]], '.') == Some(|prefix|);
    assert (prefix + ext)[|prefix|..] == ext;
  }

  // ---------------------------------------------------------------------------
  // The selection rule of Folder::getFiles
  // ---------------------------------------------------------------------------

  /**
   * Whether `getFiles(type)` keeps a directory entry: it is not a folder and,
   * when a type is asked for, it has that type (tested as a suffix).
   */
  predicate Selected(entry: string, fileType: string) {
    !IsFolder(entry) && (fileType == "" || HasType(entry, fileType))
  }

  /**
   * The files `Folder::getFiles(type)` returns for the given directory entry
   * names, in listing order.
   */
  function SelectFiles(folder: Folder, entries: seq<string>, fileType: string): (files: seq<File>)
    ensures |files| <= |entries|
  {
    if entries == [] then []
    else
      var n := |entries| - 1;
      SelectFiles(folder, entries[..n], fileType)
        + (if Selected(entries[n], fileType) then [MakeFile(FolderFullName(folder), entries[n], fileType)] else [])
  }

  /** A file is listed exactly when some selected entry gives rise to it. */
  lemma {:induction false} SelectFilesMembers(folder: Folder, entries: seq<string>, fileType: string, f: File)
    ensures f in SelectFiles(folder, entries, fileType) <==>
      exists e :: e in entries && Selected(e, fileType) && f == MakeFile(FolderFullName(folder), e, fileType)
  {
    if entries != [] {
      var n := |entries| - 1;
      SelectFilesMembers(folder, entries[..n], fileType, f);
      assert entries == entries[..n] + [entries[n]];
    }
  }

  /**
   * Every `push_back(File(...))` of `getFiles` moves the new file into the
   * vector. Even with the type test corrected, the move constructor as written
   * then leaves each listed file without its type, so its full name no longer
   * names the file on disk.
   */
  lemma {:induction false} PushedFilesLoseType(folder: Folder, entries: seq<string>, fileType: string)
    requires '.' in fileType
    ensures forall f :: f in SelectFiles(folder, entries, fileType) ==>
      MoveFile(f).0.fileType == "" && FullName(MoveFile(f).0) != FullName(f)
  {
    forall f | f in SelectFiles(folder, entries, fileType)
      ensures MoveFile(f).0.fileType == "" && FullName(MoveFile(f).0) != FullName(f)
    {
      SelectFilesMembers(folder, entries, fileType, f);
      var e :| e in entries && Selected(e, fileType) && f == MakeFile(FolderFullName(folder), e, fileType);
      MovedFileLosesType(f);
    }
  }

  // ---------------------------------------------------------------------------
  // Folder::getFiles as written
  // ---------------------------------------------------------------------------

  /**
   * `getFiles(type)` as written, over the directory entry names in listing
   * order. `isType` is evaluated only for an entry that is not a folder when a
   * type is asked for; None is the case where it throws and the program
   * terminates. Every file reaches the vector through the move constructor.
   */
  function GetFilesAsWritten(folder: Folder, entries: seq<string>, fileType: string): (r: Option<seq<File>>)
    ensures r.Some? ==> |r.value| <= |entries|
  {
    if entries == [] then Some([])
    else
      var n := |entries| - 1;
      var e := entries[n];
      match GetFilesAsWritten(folder, entries[..n], fileType)
      case None => None
      case Some(files) =>
        var pushed := [MoveFile(MakeFile(FolderFullName(folder), e, fileType)).0];
        if fileType == "" && !IsFolder(e) then Some(files + pushed)
        else if IsFolder(e) then Some(files)
        else
          match IsType(e, fileType)
          case None => None
          case Some(matched) => Some(files + (if matched then pushed else []))
  }

  /** As written, no file `getFiles` returns carries a type. */
  lemma {:induction false} GetFilesAsWrittenLosesType(folder: Folder, entries: seq<string>, fileType: string)
    ensures var r := GetFilesAsWritten(folder, entries, fileType);
      r.Some? ==> forall i :: 0 <= i < |r.value| ==> r.value[i].fileType == ""
  {
    if entries != [] {
      GetFilesAsWrittenLosesType(folder, entries[..|entries| - 1], fileType);
    }
  }

  /** As written, a wave entry that the type test rejects is skipped. */
  lemma {:induction false} GetFilesAsWrittenSkips(folder: Folder, entry: string, fileType: string)
    requires fileType != "" && '.' in entry && IsType(entry, fileType) == Some(false)
    ensures GetFilesAsWritten(folder, [entry], fileType) == Some([])
  {
    assert [entry][..0] == [];
  }

  /** As written, an entry on which the type test throws ends the program. */
  lemma {:induction false} GetFilesAsWrittenStops(folder: Folder, entries: seq<string>, entry: string, fileType: string)
    requires fileType != "" && '.' in entry && IsType(entry, fileType).None?
    ensures GetFilesAsWritten(folder, entries + [entry], fileType).None?
  {
    assert (entries + [entry])[..|entries|] == entries;
  }

  /** So `a.wav` is not listed as a wave file. */
  lemma {:induction false} GetFilesAsWrittenSkipsWave(folder: Folder)
    ensures GetFilesAsWritten(folder, ["a.wav"], ".wav") == Some([])
  {
    assert "a.wav"[1] == '.';
    assert |".wav"[1..]| == 3;
    GetFilesAsWrittenSkips(folder, "a.wav", ".wav");
  }

  /** And a wave entry of the length of a Listen name ends the listing. */
  lemma {:induction false} GetFilesAsWrittenStopsOnListenName(folder: Folder)
    ensures GetFilesAsWritten(folder, ["IRC_1002_C_R0195_T180_P060.wav"], ".wav").None?
  {
    var long := "IRC_1002_C_R0195_T180_P060.wav";
    assert |long| == 30 && long[26] == '.';
    GetFilesAsWrittenStops(folder, [], long, ".wav");
    assert [] + [long] == [long];
  }
}
