/**
 * `hoa::hrir_matrix_creator::Subject<Dim>` (Subject.hpp): the responses of one
 * subject, the length of the longest, and the left and right matrices that
 * `read` accumulates from them; plus the name and the data literals of the
 * header that `writeForCPP` generates.
 */
module Subjects {
  import opened Wrappers
  import opened Text
  import Harmonics
  import opened Samples
  import opened Configuration
  import opened FileSystem
  import opened Responses
  import opened Aggregation

  /** Which responses a discovery loop keeps: every valid one, or only the valid ones measured at elevation 0. */
  datatype Filter = EveryValid | LevelOnly

  /** The filter of the discovery loop. */
  predicate Accepts(filter: Filter, r: Reading) {
    r.valid && (filter == LevelOnly ==> r.elevation == 0.0)
  }

  /** No file name makes the parser of `database` throw. */
  predicate AllParsable(files: seq<File>, database: HrirDatabase) {
    forall i :: 0 <= i < |files| ==> Parsable(files[i].name, database)
  }

  /** What the discovery loop learns of one file: its parsed name and, if it were read, its frames. */
  datatype Candidate = Candidate(reading: Reading, frames: seq<real>)

  /** The candidates of `files`; the frames of each are what `decode` gives for its file. */
  function Candidates(files: seq<File>, decode: File -> Option<seq<real>>, database: HrirDatabase): (cs: seq<Candidate>)
    requires AllParsable(files, database)
    ensures |cs| == |files|
  {
    seq(|files|, i requires 0 <= i < |files| && AllParsable(files, database) =>
      Candidate(Parse(files[i].name, database), decode(files[i]).GetOr([])))
  }

  /** The response the loop appends for one candidate: none, unless it passes the filter. */
  function Kept(c: Candidate, filter: Filter): seq<Sampled> {
    if Accepts(filter, c.reading) then [Sampled(c.reading.azimuth, c.reading.elevation, c.frames)] else []
  }

  /** The responses the discovery loop appends for the candidates, in their order. */
  function Discovered(cs: seq<Candidate>, filter: Filter): seq<Sampled> {
    if cs == [] then [] else Discovered(cs[..|cs| - 1], filter) + Kept(cs[|cs| - 1], filter)
  }

  /** At most one response per candidate, and in 2D only responses measured at elevation 0. */
  lemma {:induction false} DiscoveredBounds(cs: seq<Candidate>, filter: Filter)
    ensures |Discovered(cs, filter)| <= |cs|
    ensures filter == LevelOnly ==> forall k :: 0 <= k < |Discovered(cs, filter)| ==> Discovered(cs, filter)[k].elevation == 0.0
    decreases |cs|
  {
    if cs != [] {
      DiscoveredBounds(cs[..|cs| - 1], filter);
    }
  }

  /** One more candidate: its response is appended when it passes the filter. */
  lemma {:induction false} DiscoveredStep(cs: seq<Candidate>, i: nat, filter: Filter)
    requires i < |cs|
    ensures Discovered(cs[..i + 1], filter) == Discovered(cs[..i], filter) + Kept(cs[i], filter)
  {
    assert cs[..i + 1][..i] == cs[..i];
  }

  /** Concatenation is associative; stated once so that the loops need not prove it element by element. */
  lemma {:induction false} Reassociate(a: seq<Sampled>, b: seq<Sampled>, c: seq<Sampled>)
    ensures a + b + c == a + (b + c)
  {
  }

  /** Every candidate gives a response exactly when every candidate passes the filter. */
  lemma {:induction false} DiscoveredAll(cs: seq<Candidate>, filter: Filter)
    ensures |Discovered(cs, filter)| == |cs| <==> forall i :: 0 <= i < |cs| ==> Accepts(filter, cs[i].reading)
  {
    if cs != [] {
      var n := |cs| - 1;
      var prefix := cs[..n];
      DiscoveredAll(prefix, filter);
      DiscoveredBounds(prefix, filter);
      if |Discovered(cs, filter)| == |cs| {
        assert |Discovered(prefix, filter)| == n;
        forall i | 0 <= i < |cs| ensures Accepts(filter, cs[i].reading) {
          if i < n {
            assert prefix[i] == cs[i];
          }
        }
      } else if forall i :: 0 <= i < |cs| ==> Accepts(filter, cs[i].reading) {
        assert false;
      }
    }
  }

  /** Nothing is kept from candidates whose names are all invalid. */
  lemma {:induction false} DiscoveredNone(cs: seq<Candidate>, filter: Filter)
    requires forall i :: 0 <= i < |cs| ==> !cs[i].reading.valid
    ensures Discovered(cs, filter) == []
  {
    if cs != [] {
      var n := |cs| - 1;
      assert forall i :: 0 <= i < n ==> cs[..n][i] == cs[i];
      DiscoveredNone(cs[..n], filter);
    }
  }

  /**
   * How a generation of `read` treats the samples: 2D divides each by
   * `order + 1` and halves harmonic 0; 3D divides each by the number of
   * responses, weights harmonic k by `2l + 1` and steers the encoder by the
   * elevation too.
   */
  function RuleOf(dim: Harmonics.Dimension, order: nat, count: nat): Rule {
    match dim
    case Hoa2d => Rule(DivideBy(order as real + 1.0), HalveZeroth, false)
    case Hoa3d => Rule(DivideBy(count as real), OddDegree, true)
  }

  /** In 2D a cell is the plain sum of encodings divided by `order + 1`, and halved at harmonic 0 only. */
  lemma {:induction false} PlanarCell(rs: seq<Sampled>, channel: nat, j: nat, k: nat, enc: Harmonics.Encoder, order: nat)
    requires enc.Linear()
    ensures Cell(rs, channel, j, k, enc, RuleOf(Harmonics.Hoa2d, order, |rs|))
         == (if k == 0 then 0.5 else 1.0) * (Cell(rs, channel, j, k, enc, Rule(Unscaled, Unweighted, false)) / (order as real + 1.0))
  {
    var d := order as real + 1.0;
    CellWeighted(rs, channel, j, k, enc, DivideBy(d), HalveZeroth, false);
    CellPrescaled(rs, channel, j, k, enc, d, Unweighted, false);
  }

  /** In 3D a cell is the plain sum of steered encodings divided by the number of responses, times `2l + 1`. */
  lemma {:induction false} SpatialCell(rs: seq<Sampled>, channel: nat, j: nat, k: nat, enc: Harmonics.Encoder)
    requires enc.Linear() && rs != []
    ensures Cell(rs, channel, j, k, enc, RuleOf(Harmonics.Hoa3d, enc.order, |rs|))
         == (2.0 * enc.degree(k) as real + 1.0) * (Cell(rs, channel, j, k, enc, Rule(Unscaled, Unweighted, true)) / |rs| as real)
  {
    var d := |rs| as real;
    assert RuleOf(Harmonics.Hoa3d, enc.order, |rs|) == Rule(DivideBy(d), OddDegree, true);
    CellWeighted(rs, channel, j, k, enc, DivideBy(d), OddDegree, true);
    CellPrescaled(rs, channel, j, k, enc, d, Unweighted, true);
  }

  class Subject {
    const config: Config
    const dim: Harmonics.Dimension
    /** The `encoder_t(order)` that `read` builds, as given by the library. */
    const encoder: Harmonics.Encoder
    var responses: seq<Sampled>
    var size: nat
    var left: array<real>
    var right: array<real>

    /**
     * The encoder is the library's one for this dimension and order; `size` is
     * the longest response; both matrices hold the accumulation of the
     * responses under the rule of the dimension.
     */
    ghost predicate Valid()
      reads this, left, right
    {
      encoder.dim == dim && encoder.order == config.order && encoder.WellFormed()
      && size == Longest(responses)
      && left != right
      && left[..] == Matrix(responses, 0, size, NumberOfHarmonics(), encoder, CurrentRule())
      && right[..] == Matrix(responses, 1, size, NumberOfHarmonics(), encoder, CurrentRule())
    }

    function CurrentRule(): Rule
      reads this
    {
      RuleOf(dim, config.order, |responses|)
    }

    /** `Subject(config)`: no response and empty matrices. */
    constructor(config: Config, dim: Harmonics.Dimension, encoder: Harmonics.Encoder)
      requires encoder.dim == dim && encoder.order == config.order && encoder.WellFormed()
      ensures this.config == config && this.dim == dim && this.encoder == encoder
      ensures responses == [] && size == 0
      ensures Valid()
    {
      this.config := config;
      this.dim := dim;
      this.encoder := encoder;
      responses := [];
      size := 0;
      left := new real[0];
      right := new real[0];
    }

    function NumberOfResponses(): nat
      reads this
    {
      |responses|
    }

    function ResponsesSize(): nat
      reads this
    {
      size
    }

    function DecompositionOrder(): nat
      reads this
    {
      config.order
    }

    function NumberOfHarmonics(): (h: nat)
      reads this
      ensures h > 0
    {
      Harmonics.NumberOfHarmonics(dim, config.order)
    }

    /** `getMatricesSize`: the length of each matrix. */
    function MatricesSize(): (n: nat)
      reads this, left, right
      ensures Valid() ==> n == left.Length && n == right.Length
    {
      ResponsesSize() * NumberOfHarmonics()
    }

    /**
     * `read` (`Subject<Hoa2d>::read` and `Subject<Hoa3d>::read`): each file that
     * `getFiles(".wav")` lists whose response passes the filter is appended,
     * decoded; then both matrices are reallocated, zero-filled and accumulated
     * from all responses held, earlier ones included.
     */
    method Read(files: seq<File>, decode: File -> Option<seq<real>>)
      requires Valid()
      requires AllParsable(files, config.databaseType)
      modifies this
      ensures Valid()
      ensures responses == old(responses) + Discovered(Candidates(files, decode, config.databaseType), CurrentFilter())
      ensures fresh(left) && fresh(right)
    {
      Discover(files, decode);
      Rebuild();
    }

    /** The second half of `read`: `resize` and `fill` both matrices, then accumulate every response into them. */
    method Rebuild()
      requires encoder.dim == dim && encoder.order == config.order && encoder.WellFormed()
      requires size == Longest(responses)
      modifies this
      ensures responses == old(responses) && size == old(size)
      ensures Valid()
      ensures fresh(left) && fresh(right)
    {
      var H := NumberOfHarmonics();
      left := new real[MatricesSize()](_ => 0.0);
      right := new real[MatricesSize()](_ => 0.0);
      ghost var zerosLeft, zerosRight := left[..], right[..];
      Accumulate(left, right, responses, size, H, encoder, CurrentRule());
      AddedToZeros(zerosLeft, left[..], Matrix(responses, 0, size, H, encoder, CurrentRule()));
      AddedToZeros(zerosRight, right[..], Matrix(responses, 1, size, H, encoder, CurrentRule()));
    }

    /** The 2D loop keeps only the responses measured at elevation 0, the 3D loop every valid one. */
    function CurrentFilter(): Filter {
      match dim
      case Hoa2d => LevelOnly
      case Hoa3d => EveryValid
    }

    /** The loop over the files of `read`: construct, filter, append, decode, and keep the longest length. */
    method Discover(files: seq<File>, decode: File -> Option<seq<real>>)
      requires size == Longest(responses)
      requires AllParsable(files, config.databaseType)
      modifies this
      ensures left == old(left) && right == old(right)
      ensures responses == old(responses) + Discovered(Candidates(files, decode, config.databaseType), CurrentFilter())
      ensures size == Longest(responses)
    {
      ghost var cs := Candidates(files, decode, config.databaseType);
      var i := 0;
      while i < |files|
        invariant 0 <= i <= |files|
        invariant left == old(left) && right == old(right)
        invariant responses == old(responses) + Discovered(cs[..i], CurrentFilter())
        invariant size == Longest(responses)
      {
        DiscoveredStep(cs, i, CurrentFilter());
        Reassociate(old(responses), Discovered(cs[..i], CurrentFilter()), Kept(cs[i], CurrentFilter()));
        Take(files[i], decode);
        i := i + 1;
      }
      assert cs[..i] == cs;
    }
    /** One iteration of the loop over the files: construct the response, and append and decode it if it passes the filter. */
    method Take(file: File, decode: File -> Option<seq<real>>)
      requires size == Longest(responses)
      requires Parsable(file.name, config.databaseType)
      modifies this
      ensures left == old(left) && right == old(right)
      ensures responses == old(responses) + Kept(Candidate(Parse(file.name, config.databaseType), decode(file).GetOr([])), CurrentFilter())
      ensures size == Longest(responses)
    {
      var temp := new Response(file, config.databaseType);
      if temp.IsValid() && (dim == Harmonics.Hoa2d ==> temp.GetElevation() == 0.0) {
        temp.Read(decode(temp.file));
        LongestSnoc(responses, temp.Snapshot());
        responses := responses + [temp.Snapshot()];
        var samples := temp.NumberOfSamplesPerChannel();
        if size < samples {
          size := samples;
        }
      } else {
        assert responses + [] == responses;
      }
    }
  }

  // ---------------------------------------------------------------------------
  // writeForCPP
  // ---------------------------------------------------------------------------

  function DimensionText(dim: Harmonics.Dimension): string {
    match dim
    case Hoa2d => "2D"
    case Hoa3d => "3D"
  }

  /** The header that `writeForCPP` opens: directory, prefix, class name, `_2D` or `_3D`, extension. */
  function OutputFileName(config: Config, dim: Harmonics.Dimension): string {
    config.outputDirectory + config.filenamePrefix + (config.classname + "_" + DimensionText(dim)) + config.fileExtension
  }

  /** With the default settings the header is `./Hoa_Hrir_<classname>_2D.hpp` or `_3D.hpp`. */
  lemma {:induction false} DefaultOutputFileName(order: nat, folder: Folder, classname: string, dim: Harmonics.Dimension, database: HrirDatabase)
    ensures OutputFileName(DefaultConfig(order, folder, classname, dim, database), dim)
         == "./Hoa_Hrir_" + classname + "_" + DimensionText(dim) + ".hpp"
  {
  }

  /** The 2D and the 3D header of the same settings never have the same name. */
  lemma {:induction false} OutputFileNamesDiffer(config: Config)
    ensures OutputFileName(config, Harmonics.Hoa2d) != OutputFileName(config, Harmonics.Hoa3d)
  {
    var n := |config.outputDirectory + config.filenamePrefix + config.classname + "_"|;
    assert OutputFileName(config, Harmonics.Hoa2d)[n] == '2';
    assert OutputFileName(config, Harmonics.Hoa3d)[n] == '3';
  }

  /**
   * `convertFloatingPointNumberToString`: an exact zero is `0.f` (float) or
   * `0.` (double); any other value is what the stream makes of it, given here
   * as `render`, with an `f` after it for float.
   */
  function Rendered(value: real, isFloat: bool, render: real -> string): string {
    if value == 0.0 then (if isFloat then "0.f" else "0.")
    else render(value) + (if isFloat then "f" else "")
  }

  function RenderedAll(data: seq<real>, isFloat: bool, render: real -> string): (r: seq<string>)
    ensures |r| == |data|
    ensures forall i :: 0 <= i < |data| ==> r[i] == Rendered(data[i], isFloat, render)
  {
    seq(|data|, i requires 0 <= i < |data| => Rendered(data[i], isFloat, render))
  }

  /**
   * The initialiser `writeData` writes for `data[]`: each rendered value
   * followed by `", "`, except the last.
   */
  method DataLiteral(data: seq<real>, isFloat: bool, render: real -> string) returns (text: string)
    ensures text == "{" + Join(RenderedAll(data, isFloat, render), ", ") + "}"
  {
    ghost var parts := RenderedAll(data, isFloat, render);
    text := "{";
    var i := 0;
    while i < |data|
      invariant 0 <= i <= |data|
      invariant text == "{" + Join(parts[..i], ", ") + (if 0 < i < |data| then ", " else "")
    {
      var separator := if i < |data| - 1 then ", " else "";
      text := text + Rendered(data[i], isFloat, render) + separator;
      assert parts[..i + 1] == parts[..i] + [parts[i]];
      JoinSnoc(parts[..i], parts[i], ", ");
      i := i + 1;
    }
    assert parts[..i] == parts;
    text := text + "}";
  }

  /** No data gives `{}`; one value gives it alone, with no separator after it. */
  lemma {:induction false} DataLiteralEnds(isFloat: bool, render: real -> string, x: real)
    ensures Join(RenderedAll([], isFloat, render), ", ") == ""
    ensures Join(RenderedAll([x], isFloat, render), ", ") == Rendered(x, isFloat, render)
  {
  }

  /** A zero matrix is written as zeros separated by `", "`. */
  lemma {:induction false} ZerosLiteral(render: real -> string)
    ensures Join(RenderedAll([0.0, 0.0], true, render), ", ") == "0.f, 0.f"
    ensures Join(RenderedAll([0.0, 0.0], false, render), ", ") == "0., 0."
  {
    var f, d := RenderedAll([0.0, 0.0], true, render), RenderedAll([0.0, 0.0], false, render);
    assert f == ["0.f", "0.f"];
    assert d == ["0.", "0."];
    JoinSnoc(["0.f"], "0.f", ", ");
    JoinSnoc(["0."], "0.", ", ");
  }
}
