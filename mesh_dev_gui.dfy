/**
 * The GUI demo: triangleMeshToOBJ (a coloured OBJ text file), the panel's
 * run request (sigma from the median edge length, one run per selected
 * backend, each writing "<stem>_cpu<ext>" or "<stem>_gpu<ext>"), and the
 * panel's state: three 520-character path fields, the pending dialog
 * purpose, the options and the status line.
 *
 * Files are modelled by their text; `canOpen` says whether an output file
 * can be opened, `fmt` is the stream's default formatting of a float, and
 * the meshes a path loads and the deviations a backend computes are
 * supplied by the caller as `load` and `deviationsOf`.
 */
module MeshDevGuiDemo {
  import opened Numeric
  import opened Wrappers
  import opened MeshTypes
  import opened Paths
  import opened CBuffer
  import opened ColorMaps
  import opened DeviationColor
  import opened TextFields
  import opened MedianEdge
  import GeometryDeviation
  import FileDialogs

  // ----- triangleMeshToOBJ -----

  /** `f.x + 1` on an unsigned int: the 1-based index, wrapping at 2^32. */
  function OneBased(x: uint32): (y: uint32)
    ensures x < UINT32_COUNT - 1 ==> y == x + 1
    ensures x == UINT32_COUNT - 1 ==> y == 0
  {
    (x + 1) % UINT32_COUNT
  }

  /** The fields of "v x y z r g b". */
  function VertexFields(v: Float3, c: Float3, fmt: real -> string): seq<string>
  {
    ["v", fmt(v.x), fmt(v.y), fmt(v.z), fmt(c.x), fmt(c.y), fmt(c.z)]
  }

  /** The fields of "f a+1 b+1 c+1". */
  function FaceFields(f: UInt3): seq<string>
  {
    ["f", NatToString(OneBased(f.x)), NatToString(OneBased(f.y)), NatToString(OneBased(f.z))]
  }

  function VertexLine(v: Float3, c: Float3, fmt: real -> string): string
  {
    Joined(VertexFields(v, c, fmt), ' ')
  }

  function FaceLine(f: UInt3): string
  {
    Joined(FaceFields(f), ' ')
  }

  /** One vertex line per vertex in order, then one face line per face in order. */
  function ObjLines(mesh: TriangleMesh, colors: seq<Float3>, fmt: real -> string): (lines: seq<string>)
    requires |colors| == |mesh.vertex|
    ensures |lines| == |mesh.vertex| + |mesh.index|
    ensures forall i :: 0 <= i < |mesh.vertex| ==> lines[i] == VertexLine(mesh.vertex[i], colors[i], fmt)
    ensures forall j :: 0 <= j < |mesh.index| ==> lines[|mesh.vertex| + j] == FaceLine(mesh.index[j])
  {
    seq(|mesh.vertex|, i requires 0 <= i < |mesh.vertex| => VertexLine(mesh.vertex[i], colors[i], fmt)) +
    seq(|mesh.index|, j requires 0 <= j < |mesh.index| => FaceLine(mesh.index[j]))
  }

  /** The file's text: every line followed by '\n'. */
  function ObjText(mesh: TriangleMesh, colors: seq<Float3>, fmt: real -> string): string
    requires |colors| == |mesh.vertex|
  {
    Terminated(ObjLines(mesh, colors, fmt), '\n')
  }

  /**
   * triangleMeshToOBJ(mesh, colors, filename): `file` is the file's text
   * afterwards, None when it cannot be opened. A colour count different from
   * the vertex count fails after the file was opened, leaving it empty.
   */
  method TriangleMeshToObj(mesh: TriangleMesh, colors: seq<Float3>, canOpen: bool, fmt: real -> string)
    returns (ok: bool, file: Option<string>)
    ensures !canOpen ==> !ok && file == None
    ensures canOpen && |colors| != |mesh.vertex| ==> !ok && file == Some("")
    ensures canOpen && |colors| == |mesh.vertex| ==> ok && file == Some(ObjText(mesh, colors, fmt))
  {
    if !canOpen {
      return false, None;
    }
    if |colors| != |mesh.vertex| {
      return false, Some("");
    }
    var text := WriteLines(ObjLines(mesh, colors, fmt));
    return true, Some(text);
  }

  /** The writing loops: each line followed by "\n". */
  method WriteLines(lines: seq<string>) returns (text: string)
    ensures text == Terminated(lines, '\n')
  {
    text := "";
    for i := 0 to |lines|
      invariant text == Terminated(lines[..i], '\n')
    {
      TerminatedSnoc(lines[..i], lines[i], '\n');
      assert lines[..i + 1] == lines[..i] + [lines[i]];
      text := text + lines[i] + "\n";
    }
    assert lines[..|lines|] == lines;
  }

  /** The formatted numbers hold neither a space nor a line end. */
  ghost predicate PlainNumbers(fmt: real -> string)
  {
    forall x :: Free(fmt(x), ' ') && Free(fmt(x), '\n')
  }

  /**
   * Reading the file back: its lines are the vertex lines, then the face
   * lines; the fields of vertex line i are "v", its position and its colour,
   * and face j's line reads back as "f" and its three indices plus one.
   */
  lemma ObjReadsBack(mesh: TriangleMesh, colors: seq<Float3>, fmt: real -> string)
    requires |colors| == |mesh.vertex| && PlainNumbers(fmt)
    ensures var lines := SplitTerminated(ObjText(mesh, colors, fmt), '\n');
      |lines| == |mesh.vertex| + |mesh.index| &&
      (forall i :: 0 <= i < |mesh.vertex| ==>
        SplitOn(lines[i], ' ') == VertexFields(mesh.vertex[i], colors[i], fmt)) &&
      (forall j :: 0 <= j < |mesh.index| ==>
        SplitOn(lines[|mesh.vertex| + j], ' ') == FaceFields(mesh.index[j]))
  {
    var lines := ObjLines(mesh, colors, fmt);
    forall n | 0 <= n < |lines|
      ensures Free(lines[n], '\n')
    {
      if n < |mesh.vertex| {
        VertexLineReadsBack(mesh.vertex[n], colors[n], fmt);
      } else {
        FaceLineReadsBack(mesh.index[n - |mesh.vertex|]);
      }
    }
    TerminatedRoundTrip(lines, '\n');
    forall i | 0 <= i < |mesh.vertex|
      ensures SplitOn(lines[i], ' ') == VertexFields(mesh.vertex[i], colors[i], fmt)
    {
      VertexLineReadsBack(mesh.vertex[i], colors[i], fmt);
    }
    forall j | 0 <= j < |mesh.index|
      ensures SplitOn(lines[|mesh.vertex| + j], ' ') == FaceFields(mesh.index[j])
    {
      FaceLineReadsBack(mesh.index[j]);
    }
  }

  /** A vertex line holds no line end and splits back into its fields. */
  lemma VertexLineReadsBack(v: Float3, c: Float3, fmt: real -> string)
    requires PlainNumbers(fmt)
    ensures Free(VertexLine(v, c, fmt), '\n')
    ensures SplitOn(VertexLine(v, c, fmt), ' ') == VertexFields(v, c, fmt)
  {
    VertexFieldsPlain(v, c, fmt);
    JoinedFree(VertexFields(v, c, fmt), ' ', '\n');
    JoinedRoundTrip(VertexFields(v, c, fmt), ' ');
  }

  /** A face line holds no line end and splits back into its fields. */
  lemma FaceLineReadsBack(f: UInt3)
    ensures Free(FaceLine(f), '\n')
    ensures SplitOn(FaceLine(f), ' ') == FaceFields(f)
  {
    FaceFieldsPlain(f);
    JoinedFree(FaceFields(f), ' ', '\n');
    JoinedRoundTrip(FaceFields(f), ' ');
  }

  lemma VertexFieldsPlain(v: Float3, c: Float3, fmt: real -> string)
    requires PlainNumbers(fmt)
    ensures AllFree(VertexFields(v, c, fmt), ' ') && AllFree(VertexFields(v, c, fmt), '\n')
  {
    var ws := VertexFields(v, c, fmt);
    assert ws[1] == fmt(v.x) && ws[2] == fmt(v.y) && ws[3] == fmt(v.z);
    assert ws[4] == fmt(c.x) && ws[5] == fmt(c.y) && ws[6] == fmt(c.z);
  }

  lemma FaceFieldsPlain(f: UInt3)
    ensures AllFree(FaceFields(f), ' ') && AllFree(FaceFields(f), '\n')
  {
    var ws := FaceFields(f);
    forall k | 1 <= k < 4
      ensures Free(ws[k], ' ') && Free(ws[k], '\n')
    {
      assert forall j :: 0 <= j < |ws[k]| ==> IsDigit(ws[k][j]);
    }
  }

  /** The face fields are the decimal 1-based indices: a face line names vertices counted from 1. */
  lemma FaceFieldsAreOneBased(f: UInt3)
    ensures var ws := FaceFields(f);
      |ws| == 4 && ws[0] == "f" &&
      (forall k :: 1 <= k < 4 ==> forall j :: 0 <= j < |ws[k]| ==> IsDigit(ws[k][j])) &&
      DigitsValue(ws[1]) == OneBased(f.x) &&
      DigitsValue(ws[2]) == OneBased(f.y) &&
      DigitsValue(ws[3]) == OneBased(f.z)
  {
    NatToStringRoundTrip(OneBased(f.x));
    NatToStringRoundTrip(OneBased(f.y));
    NatToStringRoundTrip(OneBased(f.z));
  }

  lemma {:induction false} JoinedFree(ws: seq<string>, sep: char, c: char)
    requires ws != [] && AllFree(ws, c) && sep != c
    ensures Free(Joined(ws, sep), c)
    decreases |ws|
  {
    if |ws| > 1 {
      JoinedFree(ws[1..], sep, c);
      var w, t := ws[0], Joined(ws[1..], sep);
      assert Free(w, c);
      forall j | 0 <= j < |w + [sep] + t|
        ensures (w + [sep] + t)[j] != c
      {
        if j < |w| {
          assert (w + [sep] + t)[j] == w[j];
        } else if j > |w| {
          assert (w + [sep] + t)[j] == t[j - |w| - 1];
        }
      }
    } else {
      assert Free(ws[0], c);
    }
  }

  // ----- buildOutputPath -----

  /** The base path without its extension, then the suffix, then the extension (".ply" when there is none). */
  function BuildOutputPath(base: Path, suffix: string): (p: Path)
  {
    RemoveExtension(base) + suffix + (if HasExtension(base) then Extension(base) else ".ply")
  }

  /**
   * For a base with a filename, a suffix without '.' or '/', and a proper
   * extension or none: the output keeps the extension (or gets ".ply") and its
   * stem is the base's stem followed by the suffix.
   */
  lemma BuildOutputPathParts(base: Path, suffix: string)
    requires Filename(base) != ""
    requires NoSeparator(suffix) && forall j :: 0 <= j < |suffix| ==> suffix[j] != '.'
    requires !HasExtension(base) || ProperExtension(Extension(base))
    ensures var ext := if HasExtension(base) then Extension(base) else ".ply";
      Extension(BuildOutputPath(base, suffix)) == ext &&
      Stem(BuildOutputPath(base, suffix)) == Stem(base) + suffix
  {
    var ext := if HasExtension(base) then Extension(base) else ".ply";
    if !HasExtension(base) {
      PlyIsProper();
    }
    var d, s := DirectoryPart(base), Stem(base);
    assert s != "" by {
      assert s + Extension(base) == Filename(base);
    }
    StemHasNoSeparator(base);
    NoSeparatorAppend(s, suffix);
    assert RemoveExtension(base) == d + s;
    assert (d + s) + suffix == d + (s + suffix);
    assert BuildOutputPath(base, suffix) == (d + s) + suffix + ext;
    PathFromParts(d, s + suffix, ext);
  }

  /** A directory part, a non-empty name and a proper extension are what Stem and Extension read back. */
  lemma PathFromParts(d: Path, name: Path, ext: Path)
    requires d == "" || d[|d| - 1] == '/'
    requires name != "" && NoSeparator(name) && ProperExtension(ext)
    ensures Extension(d + name + ext) == ext && Stem(d + name + ext) == name
  {
    ProperExtensionHasNoSeparator(ext);
    NoSeparatorAppend(name, ext);
    assert (d + name) + ext == d + (name + ext);
    FilenameAfterSeparator(d, name + ext);
    NameExtensionOfAppend(name, ext);
    assert (name + ext)[..|name|] == name;
  }

  lemma PlyIsProper()
    ensures ProperExtension(".ply")
  {
  }

  /** The HOST and DEVICE runs never write the same file. */
  lemma BackendOutputsDiffer(base: Path)
    ensures BuildOutputPath(base, "_cpu") != BuildOutputPath(base, "_gpu")
  {
    var n := |RemoveExtension(base)|;
    assert BuildOutputPath(base, "_cpu")[n + 1] == 'c';
    assert BuildOutputPath(base, "_gpu")[n + 1] == 'g';
  }

  // ----- the run request -----

  /** Execution mode 0 runs HOST, 1 runs DEVICE, 2 runs HOST then DEVICE; any other value runs nothing. */
  function ModesToRun(mode: int): (tags: seq<GeometryDeviation.ExecTag>)
    ensures GeometryDeviation.Host in tags <==> mode == 0 || mode == 2
    ensures GeometryDeviation.Device in tags <==> mode == 1 || mode == 2
    ensures tags == [] <==> !(0 <= mode <= 2)
    ensures |tags| <= 2 && (|tags| == 2 ==> tags[0] == GeometryDeviation.Host)
  {
    (if mode == 0 || mode == 2 then [GeometryDeviation.Host] else []) +
    (if mode == 1 || mode == 2 then [GeometryDeviation.Device] else [])
  }

  function Label(tag: GeometryDeviation.ExecTag): string
  {
    if tag.Host? then "CPU" else "GPU"
  }

  function Suffix(tag: GeometryDeviation.ExecTag): string
  {
    if tag.Host? then "_cpu" else "_gpu"
  }

  /**
   * `d /= sigma`. Over a zero sigma a positive deviation becomes +inf, which
   * deviation2Color clamps to 1, so 1.0 stands for it; a negative one becomes
   * -inf and takes the negative branch as d itself does. A zero deviation over
   * a zero sigma is NaN, on which deviation2Color's conversion to int is
   * undefined; the model keeps 0.
   */
  function Normalized(d: real, sigma: real): real
  {
    if sigma != 0.0 then d / sigma
    else if 0.0 < d then 1.0
    else d
  }

  /** The colour of every vertex: deviation2Color(d / sigma, 256, colorMap). */
  function RunColors(deviations: seq<real>, sigma: real, colorMap: seq<Float3>): (cs: seq<Float3>)
    ensures |cs| == |deviations|
    ensures forall i :: 0 <= i < |deviations| ==> cs[i] == Deviation2Color(Normalized(deviations[i], sigma), 256, colorMap)
  {
    seq(|deviations|, i requires 0 <= i < |deviations| => Deviation2Color(Normalized(deviations[i], sigma), 256, colorMap))
  }

  /**
   * The messages the status line shows. A successful run leaves it empty,
   * since its timing message is commented out.
   */
  datatype Status =
    | Idle
    | ResetDone
    | MeshEmpty
    | SizeMismatch(runLabel: string)
    | WriteFailed(runLabel: string)
    | RunComplete
    | NoModeSelected

  /** The text of each message. */
  function StatusText(status: Status): string
  {
    match status
    case Idle => "Idle"
    case ResetDone => "Reset to defaults."
    case MeshEmpty => "Error: Source or Target mesh is empty."
    case SizeMismatch(runLabel) => "Deviation size mismatch for " + runLabel
    case WriteFailed(runLabel) => "Failed to write OBJ for " + runLabel
    case RunComplete => ""
    case NoModeSelected => "No execution mode selected."
  }

  /** Different messages read differently, so the status line tells every outcome apart. */
  lemma StatusTextInjective(a: Status, b: Status)
    requires StatusText(a) == StatusText(b)
    ensures a == b
  {
    if a.SizeMismatch? || a.WriteFailed? {
      LabelledTextInjective(a, b);
    } else if b.SizeMismatch? || b.WriteFailed? {
      LabelledTextInjective(b, a);
    }
  }

  /** A message naming a run shares its text with no other message. */
  lemma LabelledTextInjective(a: Status, b: Status)
    requires a.SizeMismatch? || a.WriteFailed?
    requires StatusText(a) == StatusText(b)
    ensures a == b
  {
    var t := StatusText(a);
    var prefix := if a.SizeMismatch? then "Deviation size mismatch for " else "Failed to write OBJ for ";
    assert t == prefix + a.runLabel;
    assert t[0] == prefix[0];
    if b.SizeMismatch? || b.WriteFailed? {
      var prefix' := if b.SizeMismatch? then "Deviation size mismatch for " else "Failed to write OBJ for ";
      assert t == prefix' + b.runLabel;
      assert t[0] == prefix[0] == prefix'[0];
      assert prefix == prefix';
      assert a.runLabel == t[|prefix|..] == b.runLabel;
    }
  }

  /** What one run did: whether it succeeded, the status it set, its output path and the text written there. */
  datatype ModeRun = ModeRun(ok: bool, status: Status, output: Path, file: Option<string>)

  /**
   * runMode(label, tag, outPath): a deviation count different from the
   * target's vertex count aborts before anything is coloured or written;
   * otherwise the colours are written as an OBJ file, and the run fails
   * only when that file cannot be opened.
   */
  function RunModeResult(runLabel: string, deviations: seq<real>, target: TriangleMesh, sigma: real,
                         colorMap: seq<Float3>, outPath: Path, canOpen: Path -> bool, fmt: real -> string): (r: ModeRun)
    ensures r.output == outPath
    ensures r.ok <==> |deviations| == |target.vertex| && canOpen(outPath)
    ensures r.ok <==> r.status == RunComplete
    ensures r.ok <==> r.file.Some?
    ensures |deviations| != |target.vertex| ==> r.status == SizeMismatch(runLabel)
    ensures |deviations| == |target.vertex| && !canOpen(outPath) ==> r.status == WriteFailed(runLabel)
  {
    if |deviations| != |target.vertex| then
      ModeRun(false, SizeMismatch(runLabel), outPath, None)
    else if !canOpen(outPath) then
      ModeRun(false, WriteFailed(runLabel), outPath, None)
    else
      ModeRun(true, RunComplete, outPath, Some(ObjText(target, RunColors(deviations, sigma, colorMap), fmt)))
  }

  /** The body of runMode: the size guard, the normalising and colouring loops, the OBJ write. */
  method RunMode(runLabel: string, deviations: seq<real>, target: TriangleMesh, sigma: real,
                 colorMap: seq<Float3>, outPath: Path, canOpen: Path -> bool, fmt: real -> string)
    returns (r: ModeRun)
    ensures r == RunModeResult(runLabel, deviations, target, sigma, colorMap, outPath, canOpen, fmt)
  {
    if |deviations| != |target.vertex| {
      return ModeRun(false, SizeMismatch(runLabel), outPath, None);
    }
    var normalized := deviations;
    for i := 0 to |normalized|
      invariant |normalized| == |deviations|
      invariant forall k :: 0 <= k < i ==> normalized[k] == Normalized(deviations[k], sigma)
      invariant forall k :: i <= k < |normalized| ==> normalized[k] == deviations[k]
    {
      normalized := normalized[i := Normalized(normalized[i], sigma)];
    }
    var colors := new Float3[|normalized|](_ => Black);
    for i := 0 to |normalized|
      invariant forall k :: 0 <= k < i ==> colors[k] == Deviation2Color(normalized[k], 256, colorMap)
    {
      colors[i] := Deviation2Color(normalized[i], 256, colorMap);
    }
    assert colors[..] == RunColors(deviations, sigma, colorMap);
    var ok, file := TriangleMeshToObj(target, colors[..], canOpen(outPath), fmt);
    if !ok {
      return ModeRun(false, WriteFailed(runLabel), outPath, None);
    }
    return ModeRun(true, RunComplete, outPath, file);
  }

  /** For non-negative deviations and a non-negative sigma every written colour comes from the palette. */
  lemma RunColorsFromPalette(deviations: seq<real>, sigma: real, colorMap: seq<Float3>)
    requires 0.0 <= sigma
    requires forall i :: 0 <= i < |deviations| ==> 0.0 <= deviations[i]
    ensures forall i :: 0 <= i < |deviations| ==> RunColors(deviations, sigma, colorMap)[i] in Palette(colorMap)
  {
    forall i | 0 <= i < |deviations|
      ensures 0.0 <= Normalized(deviations[i], sigma)
    {
      if sigma != 0.0 {
        assert 0.0 <= deviations[i] / sigma;
      }
    }
  }

  /**
   * What the runs of one request share: the backends' results, the target,
   * sigma, the palette, the two output paths and the environment.
   */
  datatype RunSetup = RunSetup(
    deviationsOf: GeometryDeviation.ExecTag -> seq<real>,
    target: TriangleMesh,
    sigma: real,
    colorMap: seq<Float3>,
    cpuOutput: Path,
    gpuOutput: Path,
    canOpen: Path -> bool,
    fmt: real -> string)

  function OutputOf(tag: GeometryDeviation.ExecTag, setup: RunSetup): Path
  {
    if tag.Host? then setup.cpuOutput else setup.gpuOutput
  }

  /** The run of one backend: labelled "CPU" or "GPU", writing to its own output path. */
  function RunOf(tag: GeometryDeviation.ExecTag, setup: RunSetup): ModeRun
  {
    RunModeResult(Label(tag), setup.deviationsOf(tag), setup.target, setup.sigma, setup.colorMap,
                  OutputOf(tag, setup), setup.canOpen, setup.fmt)
  }

  /** The runs for the selected backends, in order. */
  function Runs(tags: seq<GeometryDeviation.ExecTag>, setup: RunSetup): (rs: seq<ModeRun>)
    ensures |rs| == |tags|
    ensures forall k :: 0 <= k < |tags| ==> rs[k] == RunOf(tags[k], setup)
    decreases |tags|
  {
    if tags == [] then [] else [RunOf(tags[0], setup)] + Runs(tags[1..], setup)
  }

  /** The status line as written: the last run's status when some run succeeded, the no-mode message otherwise. */
  function FinalStatusAsWritten(runs: seq<ModeRun>): (status: Status)
  {
    if exists k :: 0 <= k < |runs| && runs[k].ok then runs[|runs| - 1].status else NoModeSelected
  }

  /** The status line as intended: the no-mode message only when no backend was selected, else the last run's status. */
  function FinalStatus(runs: seq<ModeRun>): (status: Status)
    ensures runs == [] ==> status == NoModeSelected
    ensures runs != [] ==> status == runs[|runs| - 1].status
  {
    if runs == [] then NoModeSelected else runs[|runs| - 1].status
  }

  /**
   * As written, mode 0 with a deviation count that does not match the
   * target reports that no execution mode was selected, and the size
   * mismatch message is lost.
   */
  lemma MismatchReportedAsNoMode(setup: RunSetup)
    requires |setup.deviationsOf(GeometryDeviation.Host)| != |setup.target.vertex|
    ensures var runs := Runs(ModesToRun(0), setup);
      ModesToRun(0) != [] &&
      FinalStatusAsWritten(runs) == NoModeSelected &&
      FinalStatus(runs) == SizeMismatch("CPU")
  {
    RunsOfMode(0, setup);
    var r := RunOf(GeometryDeviation.Host, setup);
    assert !r.ok && r.status == SizeMismatch("CPU");
    assert Runs(ModesToRun(0), setup) == [r];
  }

  /**
   * As intended, the status names "no mode" exactly when no backend was
   * selected, and otherwise it is the outcome of the last run: the empty
   * line when it succeeded, its failure message when it failed.
   */
  lemma StatusReportsLastRun(mode: int, setup: RunSetup)
    ensures var runs := Runs(ModesToRun(mode), setup);
      (FinalStatus(runs) == NoModeSelected <==> !(0 <= mode <= 2)) &&
      (runs != [] ==> (runs[|runs| - 1].ok <==> FinalStatus(runs) == RunComplete))
  {
    var tags := ModesToRun(mode);
    if tags != [] {
      LastRunStatus(tags, setup);
    }
  }

  /** The final status of a non-empty list of runs is what its last run reported, never "no mode". */
  lemma LastRunStatus(tags: seq<GeometryDeviation.ExecTag>, setup: RunSetup)
    requires tags != []
    ensures var r := RunOf(tags[|tags| - 1], setup);
      FinalStatus(Runs(tags, setup)) == r.status && r.status != NoModeSelected &&
      (r.ok <==> r.status == RunComplete)
  {
    var runs := Runs(tags, setup);
    assert runs[|runs| - 1] == RunOf(tags[|tags| - 1], setup);
  }

  /** The runs of each execution mode, spelt out. */
  lemma RunsOfMode(mode: int, setup: RunSetup)
    ensures Runs(ModesToRun(mode), setup) ==
      (if mode == 0 || mode == 2 then [RunOf(GeometryDeviation.Host, setup)] else []) +
      (if mode == 1 || mode == 2 then [RunOf(GeometryDeviation.Device, setup)] else [])
  {
    var host, device := GeometryDeviation.Host, GeometryDeviation.Device;
    if mode == 0 {
      assert ModesToRun(mode) == [host];
    } else if mode == 1 {
      assert ModesToRun(mode) == [device];
    } else if mode == 2 {
      assert ModesToRun(mode) == [host, device];
    } else {
      assert ModesToRun(mode) == [];
    }
  }

  /** The run loop of logRunRequest: one run per selected backend, HOST first. */
  method RunSelected(mode: int, setup: RunSetup) returns (runs: seq<ModeRun>)
    ensures runs == Runs(ModesToRun(mode), setup)
  {
    var hostRuns: seq<ModeRun> := [];
    if mode == 0 || mode == 2 {
      var r := RunBackend(GeometryDeviation.Host, setup);
      hostRuns := [r];
    }
    var deviceRuns: seq<ModeRun> := [];
    if mode == 1 || mode == 2 {
      var r := RunBackend(GeometryDeviation.Device, setup);
      deviceRuns := [r];
    }
    runs := hostRuns + deviceRuns;
    RunsOfMode(mode, setup);
  }

  /** runMode(label, tag, outPath) for one backend. */
  method RunBackend(tag: GeometryDeviation.ExecTag, setup: RunSetup) returns (r: ModeRun)
    ensures r == RunOf(tag, setup)
  {
    r := RunMode(Label(tag), setup.deviationsOf(tag), setup.target, setup.sigma, setup.colorMap,
                 OutputOf(tag, setup), setup.canOpen, setup.fmt);
  }


  /** The output base: the output field's path, with ".ply" when it has no extension. */
  function OutputBase(field: Path): (base: Path)
    ensures HasExtension(field) ==> base == field
  {
    if !HasExtension(field) then ReplaceExtension(field, ".ply") else field
  }

  /**
   * The setup of a request: sigma is the source's median edge length times
   * the sigma scale, the palette is the colour-map index's, and the outputs
   * are "_cpu" and "_gpu" beside the output base.
   */
  function RequestSetup(median: real, target: TriangleMesh, sigmaScale: real, colorMapIndex: int,
                        outputField: Path, deviationsOf: GeometryDeviation.ExecTag -> seq<real>,
                        canOpen: Path -> bool, fmt: real -> string): RunSetup
  {
    var base := OutputBase(outputField);
    RunSetup(deviationsOf, target, median * sigmaScale, PanelColorMap(colorMapIndex),
             BuildOutputPath(base, Suffix(GeometryDeviation.Host)), BuildOutputPath(base, Suffix(GeometryDeviation.Device)),
             canOpen, fmt)
  }

  /** The runs of one request once both meshes are loaded. */
  method RunLoaded(source: TriangleMesh, target: TriangleMesh, mode: int, sigmaScale: real, colorMapIndex: int,
                   outputField: Path, deviationsOf: GeometryDeviation.ExecTag -> seq<real>,
                   canOpen: Path -> bool, sqrt: real -> real, fmt: real -> string)
    returns (runs: seq<ModeRun>)
    requires IndicesInRange(source)
    ensures runs == Runs(ModesToRun(mode), RequestSetup(MedianEdgeLength(source, sqrt), target, sigmaScale,
                                                       colorMapIndex, outputField, deviationsOf, canOpen, fmt))
  {
    var median := ComputeMedianEdgeLength(source, sqrt);
    runs := RunSelected(mode, RequestSetup(median, target, sigmaScale, colorMapIndex, outputField, deviationsOf, canOpen, fmt));
  }

  /** buildColorMap: the ramp the colour-map index selects, 256 entries. */
  function PanelColorMap(colorMapIndex: int): (ramp: seq<Float3>)
    ensures |ramp| == 256
  {
    Ramp(ColorMapKindFor(colorMapIndex), 256)
  }

  // ----- the panel -----

  datatype DialogPurpose = NoPurpose | Source | Target | Output | Batch

  const PATH_FIELD_SIZE := 520
  const DEFAULT_SOURCE: Path := "dataset/scan25_cpuCleaned.obj"
  const DEFAULT_TARGET: Path := "dataset/testGPUBinCleaned.obj"
  const DEFAULT_OUTPUT: Path := "dataset/deviation_output.ply"

  /** A path without NUL that is shorter than a field fits it unchanged. */
  lemma FitsField(p: Path)
    requires NoNul(p) && |p| < PATH_FIELD_SIZE
    ensures Truncated(p, PATH_FIELD_SIZE) == p
  {
    CStringOfPlain(p);
  }

  /** setPathBuffer: the path as snprintf leaves it in a 520-character field; a short path without NUL is kept whole. */
  method SetPathBuffer(buffer: array<char>, p: Path)
    requires buffer.Length == PATH_FIELD_SIZE
    modifies buffer
    ensures CString(buffer[..]) == Truncated(p, PATH_FIELD_SIZE)
    ensures NoNul(p) && |p| < PATH_FIELD_SIZE ==> CString(buffer[..]) == p
  {
    CopyTruncated(buffer, p);
    if NoNul(p) && |p| < PATH_FIELD_SIZE {
      FitsField(p);
    }
  }

  /** The default paths are short and hold no NUL. */
  lemma DefaultsFit()
    ensures NoNul(DEFAULT_SOURCE) && |DEFAULT_SOURCE| < PATH_FIELD_SIZE
    ensures NoNul(DEFAULT_TARGET) && |DEFAULT_TARGET| < PATH_FIELD_SIZE
    ensures NoNul(DEFAULT_OUTPUT) && |DEFAULT_OUTPUT| < PATH_FIELD_SIZE
  {
  }

  /** The extension filter a path row's "..." button opens the dialog with. */
  function RowFilter(purpose: DialogPurpose): Path
  {
    if purpose == Output then "" else ".obj"
  }

  class Panel {
    const fileDialog: FileDialogs.FileDialog
    const sourcePath: array<char>
    const targetPath: array<char>
    const outputPath: array<char>
    var pendingPurpose: DialogPurpose
    var computeMode: int
    var sigmaScale: real
    var colorMapIndex: int
    var recentSelection: seq<Path>
    var lastDialogResult: seq<Path>
    var status: Status

    /** The panel's own buffers, apart from the dialog. */
    ghost function Fields(): set<object>
      reads this
    {
      {this, sourcePath, targetPath, outputPath}
    }

    ghost predicate Valid()
      reads this, fileDialog, fileDialog.fileSelect
    {
      sourcePath.Length == PATH_FIELD_SIZE && targetPath.Length == PATH_FIELD_SIZE &&
      outputPath.Length == PATH_FIELD_SIZE &&
      sourcePath != targetPath && sourcePath != outputPath && targetPath != outputPath &&
      fileDialog.Valid() && Fields() !! fileDialog.Repr()
    }

    /** The status line's text. */
    function StatusMessage(): string
      reads this
    {
      StatusText(status)
    }

    /** The text a path field holds. */
    function Text(field: array<char>): string
      reads field
    {
      CString(field[..])
    }

    /** The panel starts with the default paths, status "Idle", mode 2, sigma scale 1 and colour map 0. */
    constructor (cwd: Option<Path>, home: Option<Path>, fs: FileSystem)
      ensures Valid() && fresh(sourcePath) && fresh(targetPath) && fresh(outputPath) && fresh(fileDialog.Repr())
      ensures Text(sourcePath) == DEFAULT_SOURCE && Text(targetPath) == DEFAULT_TARGET
      ensures Text(outputPath) == DEFAULT_OUTPUT
      ensures pendingPurpose == NoPurpose && computeMode == 2 && sigmaScale == 1.0 && colorMapIndex == 0
      ensures recentSelection == [] && lastDialogResult == [] && status == Idle
    {
      sourcePath := new char[PATH_FIELD_SIZE](_ => '\0');
      targetPath := new char[PATH_FIELD_SIZE](_ => '\0');
      outputPath := new char[PATH_FIELD_SIZE](_ => '\0');
      fileDialog := new FileDialogs.FileDialog(cwd, home, fs);
      pendingPurpose := NoPurpose;
      computeMode := 2;
      sigmaScale := 1.0;
      colorMapIndex := 0;
      recentSelection := [];
      lastDialogResult := [];
      status := Idle;
      new;
      ResetPaths();
    }

    /** The three path fields set through setPathBuffer to paths that fit them. */
    method SetPaths(source: Path, target: Path, output: Path)
      requires Valid()
      requires NoNul(source) && |source| < PATH_FIELD_SIZE
      requires NoNul(target) && |target| < PATH_FIELD_SIZE
      requires NoNul(output) && |output| < PATH_FIELD_SIZE
      modifies sourcePath, targetPath, outputPath
      ensures Valid()
      ensures Text(sourcePath) == source && Text(targetPath) == target && Text(outputPath) == output
    {
      SetPathBuffer(sourcePath, source);
      SetPathBuffer(targetPath, target);
      SetPathBuffer(outputPath, output);
    }

    /** resetPaths: the three fields get the default paths and the status becomes "Idle". */
    method ResetPaths()
      requires Valid()
      modifies this, sourcePath, targetPath, outputPath
      ensures Valid()
      ensures Text(sourcePath) == DEFAULT_SOURCE && Text(targetPath) == DEFAULT_TARGET
      ensures Text(outputPath) == DEFAULT_OUTPUT && status == Idle
      ensures pendingPurpose == old(pendingPurpose) && computeMode == old(computeMode)
      ensures sigmaScale == old(sigmaScale) && colorMapIndex == old(colorMapIndex)
      ensures recentSelection == old(recentSelection) && lastDialogResult == old(lastDialogResult)
    {
      DefaultsFit();
      SetPaths(DEFAULT_SOURCE, DEFAULT_TARGET, DEFAULT_OUTPUT);
      status := Idle;
    }

    /** The Reset button: the default paths, no recent batch selection, and status "Reset to defaults.". */
    method Reset()
      requires Valid()
      modifies this, sourcePath, targetPath, outputPath
      ensures Valid()
      ensures Text(sourcePath) == DEFAULT_SOURCE && Text(targetPath) == DEFAULT_TARGET
      ensures Text(outputPath) == DEFAULT_OUTPUT
      ensures recentSelection == [] && status == ResetDone
      ensures pendingPurpose == old(pendingPurpose) && lastDialogResult == old(lastDialogResult)
    {
      ResetPaths();
      recentSelection := [];
      status := ResetDone;
    }

    /**
     * openDialog(purpose, filter, allowMulti): the purpose is remembered and
     * the dialog opens with that extension filter and selection mode.
     */
    method OpenDialog(purpose: DialogPurpose, filter: Path, allowMulti: bool)
      requires Valid()
      modifies this, fileDialog, fileDialog.fileSelect
      ensures Valid()
      ensures pendingPurpose == purpose
      ensures fileDialog.isVisible && fileDialog.multiSelectEnabled == allowMulti
      ensures fileDialog.fileSelect.extensionFilter == filter
      ensures fileDialog.lastConfirmedList == old(fileDialog.lastConfirmedList)
      ensures lastDialogResult == old(lastDialogResult) && recentSelection == old(recentSelection)
      ensures status == old(status)
    {
      fileDialog.SetExtensionFilter(filter);
      fileDialog.EnableMultiSelect(allowMulti);
      fileDialog.SetVisible(true);
      pendingPurpose := purpose;
    }

    /** A path row's "..." button: one file, filtered to ".obj" except for the output row. */
    method BrowseFor(purpose: DialogPurpose)
      requires Valid() && purpose in {Source, Target, Output}
      modifies this, fileDialog, fileDialog.fileSelect
      ensures Valid()
      ensures pendingPurpose == purpose && fileDialog.isVisible && !fileDialog.multiSelectEnabled
      ensures fileDialog.fileSelect.extensionFilter == RowFilter(purpose)
    {
      OpenDialog(purpose, RowFilter(purpose), false);
    }

    /** The batch button: several ".obj" files. */
    method BatchSelect()
      requires Valid()
      modifies this, fileDialog, fileDialog.fileSelect
      ensures Valid()
      ensures pendingPurpose == Batch && fileDialog.isVisible && fileDialog.multiSelectEnabled
      ensures fileDialog.fileSelect.extensionFilter == ".obj"
    {
      OpenDialog(Batch, ".obj", true);
    }

    /**
     * processDialogResult: a result equal to the last one seen changes
     * nothing; a new one is remembered, and when it is not empty its first
     * path goes to the field the pending purpose names (or, for a batch, the
     * whole list becomes the recent selection) and the purpose is reset.
     */
    method ProcessDialogResult()
      requires Valid()
      modifies this, sourcePath, targetPath, outputPath
      ensures Valid()
      ensures var selected := fileDialog.lastConfirmedList;
        if selected == old(lastDialogResult) then
          lastDialogResult == old(lastDialogResult) && pendingPurpose == old(pendingPurpose) &&
          recentSelection == old(recentSelection) && unchanged(sourcePath, targetPath, outputPath)
        else if selected == [] then
          lastDialogResult == [] && pendingPurpose == old(pendingPurpose) &&
          recentSelection == old(recentSelection) && unchanged(sourcePath, targetPath, outputPath)
        else
          lastDialogResult == selected && pendingPurpose == NoPurpose &&
          (old(pendingPurpose) == Source ==> Text(sourcePath) == Truncated(selected[0], PATH_FIELD_SIZE)) &&
          (old(pendingPurpose) != Source ==> unchanged(sourcePath)) &&
          (old(pendingPurpose) == Target ==> Text(targetPath) == Truncated(selected[0], PATH_FIELD_SIZE)) &&
          (old(pendingPurpose) != Target ==> unchanged(targetPath)) &&
          (old(pendingPurpose) == Output ==> Text(outputPath) == Truncated(selected[0], PATH_FIELD_SIZE)) &&
          (old(pendingPurpose) != Output ==> unchanged(outputPath)) &&
          (old(pendingPurpose) == Batch ==> recentSelection == selected) &&
          (old(pendingPurpose) != Batch ==> recentSelection == old(recentSelection))
      ensures computeMode == old(computeMode) && sigmaScale == old(sigmaScale)
      ensures colorMapIndex == old(colorMapIndex) && status == old(status)
    {
      var selected := fileDialog.lastConfirmedList;
      if selected == lastDialogResult {
        return;
      }
      lastDialogResult := selected;
      if selected == [] {
        return;
      }
      var first := selected[0];
      match pendingPurpose {
        case Source => SetPathBuffer(sourcePath, first);
        case Target => SetPathBuffer(targetPath, first);
        case Output => SetPathBuffer(outputPath, first);
        case Batch => recentSelection := selected;
        case NoPurpose =>
      }
      pendingPurpose := NoPurpose;
    }

    /**
     * logRunRequest: the meshes are loaded from the source and target
     * fields; when either file gives no mesh the status reports it and
     * nothing runs. Otherwise sigma is the source's median edge length times
     * the sigma scale, each selected backend writes its OBJ file next to the
     * output base, and the status reports the last run, or that no backend
     * was selected.
     */
    method RunRequest(load: Path -> seq<TriangleMesh>, deviationsOf: GeometryDeviation.ExecTag -> seq<real>,
                      canOpen: Path -> bool, sqrt: real -> real, fmt: real -> string)
      returns (runs: seq<ModeRun>)
      requires Valid()
      requires load(Text(sourcePath)) != [] ==> IndicesInRange(load(Text(sourcePath))[0])
      modifies this
      ensures Valid()
      ensures var sources, targets := load(Text(sourcePath)), load(Text(targetPath));
        if sources == [] || targets == [] then
          status == MeshEmpty && runs == []
        else
          runs == Runs(ModesToRun(computeMode),
                       RequestSetup(MedianEdgeLength(sources[0], sqrt), targets[0], sigmaScale, colorMapIndex,
                                    Text(outputPath), deviationsOf, canOpen, fmt)) &&
          status == FinalStatus(runs)
      ensures pendingPurpose == old(pendingPurpose) && computeMode == old(computeMode)
      ensures sigmaScale == old(sigmaScale) && colorMapIndex == old(colorMapIndex)
      ensures recentSelection == old(recentSelection) && lastDialogResult == old(lastDialogResult)
    {
      var sources, targets := load(Text(sourcePath)), load(Text(targetPath));
      if sources == [] || targets == [] {
        status := MeshEmpty;
        return [];
      }
      runs := RunLoaded(sources[0], targets[0], computeMode, sigmaScale, colorMapIndex, Text(outputPath),
                        deviationsOf, canOpen, sqrt, fmt);
      status := FinalStatus(runs);
    }
  }
}
