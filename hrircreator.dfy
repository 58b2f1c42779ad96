/**
 * The earlier generation of the matrix creator (HrirCreator.hpp): a Listen-only
 * `Response` whose name is read with `stol`, and the two `Subject`
 * specialisations with their own scaling, plus the class name mangling of
 * their `writeForCPP`.
 */
module HrirCreator {
  import opened Wrappers
  import opened Text
  import Harmonics
  import opened Samples
  import opened Directions
  import opened FileSystem
  import Configuration
  import Responses
  import opened Aggregation
  import Subjects

  /**
   * The direction fields of this generation's `Response`. The constructor
   * initialises neither `m_azimuth` nor `m_elevation`; a field it does not
   * assign is None here.
   */
  datatype Angles = Angles(azimuth: Option<real>, elevation: Option<real>, valid: bool)

  /**
   * What the constructor leaves in the fields: the whole degrees after the
   * first `_T` followed by a digit, and after the first such `_P` past it.
   * The response is valid exactly when both tags are matched, and the
   * elevation is assigned exactly then.
   */
  function ListenAngles(name: string): (r: Angles)
    ensures r.valid <==> TagsOf(name).BothAt?
    ensures r.elevation.Some? <==> r.valid
    ensures r.azimuth.Some? <==> !TagsOf(name).NoTags?
  {
    match ScanListen(name, Whole)
    case Unmatched => Angles(None, None, false)
    case AzimuthOnly(azimuth) => Angles(Some(azimuth), None, false)
    case Matched(azimuth, elevation) => Angles(Some(azimuth), Some(elevation), true)
  }

  /** What the filter and the accumulation read of the fields; they read the angles of valid responses only. */
  function AsReading(a: Angles): Responses.Reading {
    Responses.Reading(a.azimuth.GetOr(0.0), a.elevation.GetOr(0.0), a.valid)
  }

  /**
   * On a name without a decimal point this parser and the `stod` one of
   * Response.hpp agree on validity, and on both angles of a valid response.
   */
  lemma {:induction false} AnglesAgreeWithParse(name: string)
    requires '.' !in name
    ensures ListenAngles(name).valid == Responses.Parse(name, Configuration.Listen).valid
    ensures ListenAngles(name).valid ==> AsReading(ListenAngles(name)) == Responses.Parse(name, Configuration.Listen)
  {
    ListenConversionsAgree(name);
  }

  /** The example name of Response.hpp, read by this parser. */
  lemma {:induction false} ListenAnglesExample()
    ensures ListenAngles("IRC_1002_C_R0195_T180_P060") == Angles(Some(Harmonics.Radians(180.0)), Some(Harmonics.Radians(60.0)), true)
  {
    ListenExample(Whole);
  }

  /**
   * The parse of the `Response` constructor (also that of Hrir.hpp): `find`
   * the tag, check that a digit follows, `erase` up to it, `stol` the rest.
   */
  method ParseListenName(file: string) returns (azimuth: Option<real>, elevation: Option<real>, valid: bool)
    ensures Angles(azimuth, elevation, valid) == ListenAngles(file)
  {
    azimuth, elevation, valid := None, None, false;
    var name := file;
    var pos := Find(name, "_T");
    if pos.Some? && pos.value < |name| - 2 && IsDigit(name[pos.value + 2]) {
      ghost var a := pos.value + 2;
      Responses.DigitAfterFound(file, "_T");
      name := name[pos.value + 2..];
      azimuth := Some(Harmonics.Radians(Stol(name) as real));
      pos := Find(name, "_P");
      if pos.Some? && pos.value < |name| - 2 && IsDigit(name[pos.value + 2]) {
        ghost var e := pos.value + 2;
        Responses.DigitAfterFound(name, "_P");
        name := name[pos.value + 2..];
        elevation := Some(Harmonics.Radians(Stol(name) as real));
        valid := true;
        ScanListenMatched(file, Whole, a, e);
      } else {
        Responses.DigitAfterFound(name, "_P");
        ScanListenAzimuthOnly(file, Whole, a);
      }
    } else {
      Responses.DigitAfterFound(file, "_T");
      ScanListenUnmatched(file, Whole);
    }
  }

  class Response {
    const file: File
    /** `m_radius`, which nothing assigns. */
    var radius: Option<real>
    var azimuth: Option<real>
    var elevation: Option<real>
    var values: seq<real>
    /** `m_size`, initialised to 0 and never used. */
    var size: nat
    var valid: bool

    function Fields(): Angles
      reads this
    {
      Angles(azimuth, elevation, valid)
    }

    /** `Response(file)`: `m_size(0)`, `m_valid(false)`, then the Listen parse of the name. */
    constructor(file: File)
      ensures this.file == file && values == [] && radius == None && size == 0
      ensures Fields() == ListenAngles(file.name)
    {
      this.file := file;
      radius := None;
      values := [];
      size := 0;
      var a, e, v := ParseListenName(file.name);
      azimuth, elevation, valid := a, e, v;
    }

    /** `read`: the frames decoded from the file, or none (`decoded` is None then). */
    method Read(decoded: Option<seq<real>>)
      modifies this
      ensures values == decoded.GetOr([])
      ensures Fields() == old(Fields()) && radius == old(radius) && size == old(size)
    {
      values := decoded.GetOr([]);
    }

    function NumberOfSamplesPerChannel(): nat
      reads this
    {
      SamplesPerChannel(values)
    }

    function GetSample(channel: nat, index: nat): real
      reads this
    {
      Sample(values, channel, index)
    }

    function Snapshot(): Sampled
      reads this
    {
      Sampled(azimuth.GetOr(0.0), elevation.GetOr(0.0), values)
    }
  }

  /** What the discovery loop learns of each file: its parsed name and, if it were read, its frames. */
  function Candidates(files: seq<File>, decode: File -> Option<seq<real>>): (cs: seq<Subjects.Candidate>)
    ensures |cs| == |files|
  {
    seq(|files|, i requires 0 <= i < |files| => Subjects.Candidate(AsReading(ListenAngles(files[i].name)), decode(files[i]).GetOr([])))
  }

  /**
   * The scaling of each specialisation's `read`: 2D divides each sample by
   * `order + 1` and halves harmonic 0; 3D divides by the number of responses,
   * weights harmonic k by `2l + 1`, times 4 pi when its order is not 0, and
   * steers the encoder by the elevation too.
   */
  function RuleOf(dim: Harmonics.Dimension, order: nat, count: nat): Rule {
    match dim
    case Hoa2d => Rule(DivideBy(order as real + 1.0), HalveZeroth, false)
    case Hoa3d => Rule(DivideBy(count as real), OddDegreeFourPi, true)
  }

  /** The planar scaling is that of Subject.hpp. */
  lemma {:induction false} PlanarRuleUnchanged(rs: seq<Sampled>, channel: nat, j: nat, k: nat, enc: Harmonics.Encoder, order: nat)
    ensures Cell(rs, channel, j, k, enc, RuleOf(Harmonics.Hoa2d, order, |rs|))
         == Cell(rs, channel, j, k, enc, Subjects.RuleOf(Harmonics.Hoa2d, order, |rs|))
  {
  }

  /**
   * A spatial cell is the Subject.hpp one, times 4 pi on every harmonic whose
   * order is not 0.
   */
  lemma {:induction false} SpatialRuleFourPi(rs: seq<Sampled>, channel: nat, j: nat, k: nat, enc: Harmonics.Encoder, order: nat)
    ensures Cell(rs, channel, j, k, enc, RuleOf(Harmonics.Hoa3d, order, |rs|))
         == (if enc.harmonicOrder(k) == 0 then 1.0 else 4.0 * Harmonics.HoaPi)
            * Cell(rs, channel, j, k, enc, Subjects.RuleOf(Harmonics.Hoa3d, order, |rs|))
  {
    CellFourPi(rs, channel, j, k, enc, DivideBy(|rs| as real), true);
  }

  class Subject {
    const order: nat
    const folder: Folder
    const dim: Harmonics.Dimension
    /** The `Encoder<Dim, double>::Basic(order)` that `read` builds, as given by the library. */
    const encoder: Harmonics.Encoder
    var responses: seq<Sampled>
    var size: nat
    var left: array<real>
    var right: array<real>

    /**
     * The encoder is the library's one for this dimension and order; `size` is
     * the longest response; both matrices hold the accumulation of the
     * responses under the scaling of the dimension.
     */
    ghost predicate Valid()
      reads this, left, right
    {
      encoder.dim == dim && encoder.order == order && encoder.WellFormed()
      && size == Longest(responses)
      && left != right
      && left[..] == Matrix(responses, 0, size, NumberOfHarmonics(), encoder, CurrentRule())
      && right[..] == Matrix(responses, 1, size, NumberOfHarmonics(), encoder, CurrentRule())
    }

    function CurrentRule(): Rule
      reads this
    {
      RuleOf(dim, order, |responses|)
    }

    /** The 2D `read` keeps only the responses measured at elevation 0, the 3D one every valid one. */
    function CurrentFilter(): Subjects.Filter {
      match dim
      case Hoa2d => Subjects.LevelOnly
      case Hoa3d => Subjects.EveryValid
    }

    /** `Subject(order, folder)`: no response, `m_size(0)` and empty matrices. */
    constructor(order: nat, folder: Folder, dim: Harmonics.Dimension, encoder: Harmonics.Encoder)
      requires encoder.dim == dim && encoder.order == order && encoder.WellFormed()
      ensures this.order == order && this.folder == folder && this.dim == dim && this.encoder == encoder
      ensures responses == [] && size == 0
      ensures Valid()
    {
      this.order := order;
      this.folder := folder;
      this.dim := dim;
      this.encoder := encoder;
      responses := [];
      size := 0;
      left := new real[0];
      right := new real[0];
    }

    function GetName(): string {
      folder.name
    }

    function NumberOfResponses(): nat
      reads this
    {
      |responses|
    }

    function ResponsesSize(): nat
      reads this
    {
      size
    }

    function NumberOfHarmonics(): (h: nat)
      ensures h > 0
    {
      Harmonics.NumberOfHarmonics(dim, order)
    }

    /** `getMatricesSize`: the length of each matrix. */
    function MatricesSize(): (n: nat)
      reads this, left, right
      ensures Valid() ==> n == left.Length && n == right.Length
    {
      ResponsesSize() * NumberOfHarmonics()
    }

    /**
     * `read`: each `.wav` file of the folder whose response passes the filter
     * is appended, decoded; then both matrices are resized, zero-filled and
     * accumulated from all responses held.
     */
    method Read(files: seq<File>, decode: File -> Option<seq<real>>)
      requires Valid()
      modifies this
      ensures Valid()
      ensures responses == old(responses) + Subjects.Discovered(Candidates(files, decode), CurrentFilter())
      ensures fresh(left) && fresh(right)
    {
      Discover(files, decode);
      Rebuild();
    }

    /** The second half of `read`: `resize`, `fill`, then the loops over responses and samples. */
    method Rebuild()
      requires encoder.dim == dim && encoder.order == order && encoder.WellFormed()
      requires size == Longest(responses)
      modifies this
      ensures responses == old(responses) && size == old(size)
      ensures Valid()
      ensures fresh(left) && fresh(right)
    {
      var H := NumberOfHarmonics();
      left := new real[MatricesSize()](_ => 0.0);
      right := new real[MatricesSize()](_ => 0.0);
      ghost var zerosLeft, zerosRight := left[..], right[..];
      Accumulate(left, right, responses, size, H, encoder, CurrentRule());
      AddedToZeros(zerosLeft, left[..], Matrix(responses, 0, size, H, encoder, CurrentRule()));
      AddedToZeros(zerosRight, right[..], Matrix(responses, 1, size, H, encoder, CurrentRule()));
    }

    /** The loop over the files of `read`. */
    method Discover(files: seq<File>, decode: File -> Option<seq<real>>)
      requires size == Longest(responses)
      modifies this
      ensures left == old(left) && right == old(right)
      ensures responses == old(responses) + Subjects.Discovered(Candidates(files, decode), CurrentFilter())
      ensures size == Longest(responses)
    {
      ghost var cs := Candidates(files, decode);
      var i := 0;
      while i < |files|
        invariant 0 <= i <= |files|
        invariant left == old(left) && right == old(right)
        invariant responses == old(responses) + Subjects.Discovered(cs[..i], CurrentFilter())
        invariant size == Longest(responses)
      {
        Subjects.DiscoveredStep(cs, i, CurrentFilter());
        Subjects.Reassociate(old(responses), Subjects.Discovered(cs[..i], CurrentFilter()), Subjects.Kept(cs[i], CurrentFilter()));
        Take(files[i], decode);
        i := i + 1;
      }
      assert cs[..i] == cs;
    }

    /** One iteration of the loop over the files. */
    method Take(file: File, decode: File -> Option<seq<real>>)
      requires size == Longest(responses)
      modifies this
      ensures left == old(left) && right == old(right)
      ensures responses == old(responses) + Subjects.Kept(Subjects.Candidate(AsReading(ListenAngles(file.name)), decode(file).GetOr([])), CurrentFilter())
      ensures size == Longest(responses)
    {
      var temp := new Response(file);
      if temp.valid && (dim == Harmonics.Hoa2d ==> temp.elevation == Some(0.0)) {
        temp.Read(decode(temp.file));
        LongestSnoc(responses, temp.Snapshot());
        responses := responses + [temp.Snapshot()];
        var samples := temp.NumberOfSamplesPerChannel();
        if size < samples {
          size := samples;
        }
      } else {
        assert responses + [] == responses;
      }
    }

    /** The header `writeForCPP` opens: the folder name, mangled. */
    method HeaderPath() returns (path: string)
      ensures path == OutputPath(GetName(), dim)
    {
      var name := MangleName(GetName());
      path := "../Results/Hrir" + name + Subjects.DimensionText(dim) + ".hpp";
    }
  }

  // ---------------------------------------------------------------------------
  // The class name of writeForCPP
  // ---------------------------------------------------------------------------

  /**
   * What the mangling loop makes of the name from index 1 on: an underscore is
   * erased and the character that moves into its place is passed over as it
   * is; any other character is lowered.
   */
  function MangledTail(t: string): string
    decreases |t|
  {
    if t == [] then []
    else if t[0] == '_' then (if |t| == 1 then [] else [t[1]] + MangledTail(t[2..]))
    else [ToLower(t[0])] + MangledTail(t[1..])
  }

  /** The name with its first character kept as it is. */
  function Mangled(name: string): string {
    if name == [] then [] else [name[0]] + MangledTail(name[1..])
  }

  /** The header path, `../Results/Hrir<mangled>2D.hpp` or `3D.hpp`. */
  function OutputPath(name: string, dim: Harmonics.Dimension): string {
    "../Results/Hrir" + Mangled(name) + Subjects.DimensionText(dim) + ".hpp"
  }

  /**
   * The loop of `writeForCPP`: from index 1, `erase` an underscore (and
   * decrement `size`), otherwise `tolower` the character; `i` advances either way.
   */
  method MangleName(folderName: string) returns (name: string)
    ensures name == Mangled(folderName)
  {
    name := folderName;
    var size := |name|;
    var i := 1;
    while i < size
      invariant size == |name| && 1 <= i
      invariant (i <= |name| && name[..i] + MangledTail(name[i..]) == Mangled(folderName))
             || (i == |name| + 1 && name == Mangled(folderName))
      decreases size - i
    {
      if name[i] == '_' {
        EraseStep(name, i);
        name := name[..i] + name[i + 1..];
        size := size - 1;
      } else {
        LowerStep(name, i);
        name := name[i := ToLower(name[i])];
      }
      i := i + 1;
    }
    if i == |name| {
      assert name[..i] == name;
    }
  }

  /** Erasing the underscore at `i` and passing over the next character keeps the mangled result. */
  lemma {:induction false} EraseStep(name: string, i: nat)
    requires 1 <= i < |name| && name[i] == '_'
    ensures var after := name[..i] + name[i + 1..];
      if i + 1 <= |after| then after[..i + 1] + MangledTail(after[i + 1..]) == name[..i] + MangledTail(name[i..])
      else after == name[..i] + MangledTail(name[i..])
  {
    var after := name[..i] + name[i + 1..];
    var t := name[i..];
    if i + 1 <= |after| {
      assert after[..i + 1] == name[..i] + [t[1]];
      assert after[i + 1..] == t[2..];
      assert MangledTail(t) == [t[1]] + MangledTail(t[2..]);
    } else {
      assert after == name[..i];
      assert MangledTail(t) == [];
    }
  }

  /** Lowering the character at `i` keeps the mangled result. */
  lemma {:induction false} LowerStep(name: string, i: nat)
    requires 1 <= i < |name| && name[i] != '_'
    ensures var after := name[i := ToLower(name[i])];
      after[..i + 1] + MangledTail(after[i + 1..]) == name[..i] + MangledTail(name[i..])
  {
    var after := name[i := ToLower(name[i])];
    var t := name[i..];
    assert after[..i + 1] == name[..i] + [ToLower(t[0])];
    assert after[i + 1..] == t[1..];
    assert MangledTail(t) == [ToLower(t[0])] + MangledTail(t[1..]);
  }

  lemma {:induction false} MangledTailLowered(c: char, t: string)
    requires c != '_'
    ensures MangledTail([c] + t) == [ToLower(c)] + MangledTail(t)
  {
    assert ([c] + t)[1..] == t;
  }

  lemma {:induction false} MangledTailPassed(c: char, t: string)
    ensures MangledTail(['_', c] + t) == [c] + MangledTail(t)
  {
    assert (['_', c] + t)[2..] == t;
  }

  /** The mangled tail is never longer than the tail it comes from. */
  lemma {:induction false} MangledTailShorter(t: string)
    ensures |MangledTail(t)| <= |t|
    ensures '_' !in t ==> |MangledTail(t)| == |t|
    decreases |t|
  {
    if t != [] {
      if t[0] == '_' {
        if |t| > 1 {
          MangledTailShorter(t[2..]);
        }
      } else {
        assert forall c :: c in t[1..] ==> c in t;
        MangledTailShorter(t[1..]);
      }
    }
  }

  /** Without underscores after the first character, the name is only lowered from index 1 on. */
  lemma {:induction false} MangledTailLowers(t: string)
    requires '_' !in t
    ensures MangledTail(t) == seq(|t|, i requires 0 <= i < |t| => ToLower(t[i]))
    decreases |t|
  {
    if t != [] {
      assert forall c :: c in t[1..] ==> c in t;
      MangledTailLowers(t[1..]);
    }
  }

  /** The first character is kept, and the name never grows. */
  lemma {:induction false} MangledKeepsFirst(name: string)
    ensures |Mangled(name)| <= |name|
    ensures name != [] ==> Mangled(name) != [] && Mangled(name)[0] == name[0]
  {
    if name != [] {
      MangledTailShorter(name[1..]);
    }
  }

  /** The header of a Listen subject folder: `../Results/HrirIrc1002` then `2D.hpp`. */
  lemma {:induction false} ListenFolderHeader()
    ensures OutputPath("IRC_1002", Harmonics.Hoa2d) == "../Results/Hrir" + "Irc1002" + "2D.hpp"
  {
    MangledListenFolder();
  }

  /** A Listen subject folder: `IRC_1002` becomes `Irc1002`. */
  lemma {:induction false} MangledListenFolder()
    ensures Mangled("IRC_1002") == "Irc1002"
  {
    MangledTailLowered('2', "");
    MangledTailLowered('0', "2");
    MangledTailLowered('0', "02");
    MangledTailPassed('1', "002");
    MangledTailLowered('C', "_1002");
    MangledTailLowered('R', "C_1002");
  }

  /** Of two underscores in a row the second is passed over and kept. */
  lemma {:induction false} MangledDoubleUnderscore()
    ensures Mangled("A__B") == "A_b"
  {
    MangledTailPassed('_', "B");
    MangledTailLowered('B', "");
    assert "A__B" == ['A'] + "__B";
  }
}
