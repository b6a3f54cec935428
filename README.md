# MeshDevGUI core, modelled in Dafny

MeshDevGUI measures how far every vertex of a target triangle mesh lies from
a source mesh, turns each deviation into a colour through a palette, and
writes the coloured target as binary PLY or as OBJ. A desktop panel lets the
user pick the meshes through a file dialog, choose the CPU or GPU backend,
a sigma scale and a colour map, and run the comparison.

This project models that core:

- `ColorMaps`, `DeviationColor`: the colour-map ramps (Hot, Cool, Jet,
  Turbo, Viridis, Inferno, Gray) and `deviation2Color`, the quantiser that
  maps a deviation onto a palette entry, with its index bounds.
- `GeometryDeviation`: the host deviation driver. It builds triangles and
  boxes from the source, runs one closest-point query per target vertex and
  stores the square roots. The query is specified as the exact minimum
  squared distance over the source triangles.
- `ObjectLoading`, `ObjLoader`, `PlyReader`, `Quaternion`, `Transforms`: the
  mesh-loading helpers.
  - `ByteSwap`, the index order and `addVertex` deduplication.
  - The texture cache and its row mirror.
  - The OBJ material-id normalisation and per-material mesh split.
  - The extension dispatch.
  - The PLY reader at the byte level, as the istream reads it.
  - `quat2rom` and `getTRS`.
- `DialogHistory`, `DialogLogic`, `FileDialogs`: the file dialog's state
  machine. This covers its history and cursor, navigation and confirmation,
  the one-shot Open/Cancel flags, multi-select toggling, the selection
  label, C-string buffers, tree-root deduplication and the file-size text.
- `Demo`, `MedianEdge`, `MeshDevGuiDemo`, `Logger`: the command-line demo
  and the GUI panel.
  - The binary PLY writer and the OBJ writer.
  - The median edge length and the tolerance comparison.
  - Output-path composition and backend selection.
  - The run's status line and the dispatch of dialog results.
  - The logger's `sep=;` CSV printer.
- `Paths`, `TextFields`, `Numeric`, `CBuffer`, `MeshTypes`, `Wrappers`:
  supporting vocabulary.
  - POSIX `std::filesystem::path` operations.
  - Separator-joined text and its splits.
  - Rounding, clamping and decimal and little-endian encodings.
  - NUL-terminated buffers and the mesh records.

Floating-point values are modelled as `real`. The collaborators the program
only calls are parameters:

- `sqrtf` and the point-triangle distance;
- `exists`, `is_directory` and `lexically_normal`;
- `stbi_load` and `tinyobj::LoadObj`;
- float printing and float bit patterns;
- whether a file can be opened.

Classes are used where the program updates fields in place: the deviation
object, the dialog and its four components, and the panel. Their methods
are proved against the functions that specify them.

## Model

| member | source | states |
|---|---|---|
| ColorMaps.RampSize | libs/geometry/GeometryDeviation.h:17-29 | Jet has exactly divCount entries; every other ramp has max(2, divCount) entries, never fewer than 2 |
| ColorMaps.RampParameter | libs/geometry/GeometryDeviation.h:19-31 | entry i is sampled at i/divCount for Jet (in [0,1)) and at i/(n-1) for the others (in [0,1]) |
| ColorMaps.RampColor | libs/geometry/GeometryDeviation.h:20-99 | the colour of each ramp at t; clamped ramps lie in the unit cube for every t, Cool and Gray for t in [0,1] |
| ColorMaps.Ramp | libs/geometry/GeometryDeviation.h:17-102 | a ramp has RampSize entries |
| ColorMaps.BuildColorMap | libs/geometry/GeometryDeviation.h:17-102 | the fill loop yields exactly the ramp function's entries; Jet with a negative count fails (the vector cannot be allocated) and nothing else does |
| ColorMaps.RampChannelsInUnitRange | libs/geometry/GeometryDeviation.h:20-89 | every channel of every entry of every ramp lies in [0,1] |
| ColorMaps.RampEndpoints | libs/geometry/GeometryDeviation.h:28-31 | the non-Jet ramps start at parameter 0 and end at parameter 1 |
| ColorMaps.GrayRampIncreasing | libs/geometry/GeometryDeviation.h:94-101 | every gray entry has equal channels and the gray level strictly increases with the index |
| ColorMaps.ColorMapKindFor | demo/MeshDevGUIDemo.cpp:363-379 | the panel's colour-map index selects Turbo, Viridis, Hot, Cool, or Gray for any other index |
| DeviationColor.Palette | libs/geometry/GeometryDeviation.h:122-128 | the palette in use is the caller's when non-empty, else the five-entry built-in one |
| DeviationColor.SafeSegments | libs/geometry/GeometryDeviation.h:141-142 | the segment count is divCount when positive, otherwise map size - 1, and never below 1 |
| DeviationColor.SegmentPosition | libs/geometry/GeometryDeviation.h:145-150 | the quantised position is round(nd * S) and lies in [0, S] |
| DeviationColor.SegmentIndex | libs/geometry/GeometryDeviation.h:151-153 | the segment index stays in [0, S-1] |
| DeviationColor.IndexFromSegment | libs/geometry/GeometryDeviation.h:156-160 | a segment boundary maps to a palette index in [0, size-1] |
| DeviationColor.Deviation2Color | libs/geometry/GeometryDeviation.h:119-172 | a negative deviation gives black with the built-in palette; otherwise the result is an entry of the palette in use |
| DeviationColor.QuantizedColor | libs/geometry/GeometryDeviation.h:144-171 | quantise, index and interpolate always yields an entry of the palette |
| DeviationColor.BandWeight | libs/geometry/GeometryDeviation.h:150-154 | the interpolation weight is 0 below the top level and 1 at it |
| DeviationColor.Level | libs/geometry/GeometryDeviation.h:134-147 | the rounded level of the clamped deviation lies in [0, S] |
| DeviationColor.DeviationColorIsBand | libs/geometry/GeometryDeviation.h:134-171 | for d >= 0 and two or more colours the result is exactly the palette entry of the rounded level (banding) |
| DeviationColor.SingleEntryPalette | libs/geometry/GeometryDeviation.h:137-138 | a one-entry palette gives that entry for every d >= 0 |
| DeviationColor.NegativeGivesFirst | libs/geometry/GeometryDeviation.h:130-131 | a negative deviation gives the first entry of a non-empty caller palette |
| DeviationColor.ZeroGivesFirst | libs/geometry/GeometryDeviation.h:134-171 | d = 0 gives the first entry of the palette in use |
| DeviationColor.OneOrMoreGivesLast | libs/geometry/GeometryDeviation.h:134-171 | any d >= 1 gives the last entry of the palette in use |
| DeviationColor.SegmentIndexMonotone | libs/geometry/GeometryDeviation.h:145-153 | for a fixed segment count a larger clamped deviation never gives a smaller segment index |
| DeviationColor.LevelMonotone | libs/geometry/GeometryDeviation.h:146 | rounding to levels is monotone |
| DeviationColor.SegmentIndexOfLevel | libs/geometry/GeometryDeviation.h:151-153 | level k < S is segment k; the top level S belongs to segment S-1 |
| DeviationColor.IndexFromTopSegment | libs/geometry/GeometryDeviation.h:156-163 | the top segment boundary maps to the last palette index |
| DeviationColor.IndexFromBottomSegment | libs/geometry/GeometryDeviation.h:156-162 | the bottom segment boundary maps to palette index 0 |
| GeometryDeviation.Min3 | include/geometry/GeometryDeviationHost.cpp:27 | the smallest of three coordinates: a lower bound that is one of them |
| GeometryDeviation.Max3 | include/geometry/GeometryDeviationHost.cpp:27 | the largest of three coordinates: an upper bound that is one of them |
| GeometryDeviation.Bounds | include/geometry/GeometryDeviationHost.cpp:27 | a triangle's box contains its three corners and lies inside every box that contains them |
| GeometryDeviation.TrianglesOf | include/geometry/GeometryDeviationHost.cpp:16-25 | triangle i is built from vertex[index[i].x], vertex[index[i].y], vertex[index[i].z], one per face |
| GeometryDeviation.ClosestSqrDist | include/geometry/GeometryDeviationHost.cpp:40-41 | the query result is the minimum squared distance over all source triangles: a lower bound that some triangle attains |
| GeometryDeviation.DeviationsOf | include/geometry/GeometryDeviationHost.cpp:33-44 | one deviation per target vertex |
| GeometryDeviation.BuildTriangles | include/geometry/GeometryDeviationHost.cpp:13-28 | the indexed loop fills the triangles of the faces and boxes[i] = the bounds of triangle i |
| GeometryDeviation.QueryAll | include/geometry/GeometryDeviationHost.cpp:33-44 | the query loop pushes sqrt of the closest squared distance for every target vertex, in target order |
| GeometryDeviation.GeometryDeviationHost.constructor | libs/geometry/GeometryDeviation.h:109-118 | the meshes are stored and the deviations start empty |
| GeometryDeviation.GeometryDeviationHost.SetDeviation | libs/geometry/GeometryDeviation.h:174 | the stored deviations are replaced wholesale |
| GeometryDeviation.GeometryDeviationHost.GetDeviations | include/geometry/GeometryDeviationHost.cpp:48-51 | returns the stored deviations |
| GeometryDeviation.GeometryDeviationHost.ComputeDeviation | include/geometry/GeometryDeviationHost.cpp:8-46 | an empty source vertex list, source face list or target vertex list returns early and leaves the stored result unchanged, whatever the faces hold; otherwise (faces indexing the source vertices) it becomes the per-vertex deviations |
| GeometryDeviation.ComputeTwice | include/geometry/GeometryDeviationHost.cpp:8-46 | computing twice on the same object gives the same result, on the early-return path as well |
| GeometryDeviation.DeviationsNonNegative | include/geometry/GeometryDeviationHost.cpp:43 | every deviation is a square root and so is >= 0 |
| GeometryDeviation.DeviationIsMinimum | include/geometry/GeometryDeviationHost.cpp:40-43 | a deviation is no larger than the distance to any source triangle |
| GeometryDeviation.CoincidentVertexHasZeroDeviation | include/geometry/GeometryDeviationHost.cpp:40-43 | a target vertex that is a corner of a source triangle gets deviation 0 |
| GeometryDeviation.SelfDeviationIsZero | include/geometry/GeometryDeviationHost.cpp:8-46 | a mesh compared with itself, every vertex used by a face, has all deviations 0 |
| MeshTypes.SqrLength | demo/demo.cpp:103-128 | a squared length is never negative |
| ObjectLoading.ByteSwap | include/geometry/Object_t.cpp:37-43 | byte swapping keeps the length |
| ObjectLoading.ByteSwapAt | include/geometry/Object_t.cpp:37-43 | byte i of the result is byte n-1-i of the argument: the byte order is reversed |
| ObjectLoading.ByteSwapInvolution | include/geometry/Object_t.cpp:37-43 | swapping twice gives the value back |
| ObjectLoading.IndexLess | include/geometry/Object_t.cpp:47-66 | a < b exactly when (vertex, normal, texcoord) of a is lexicographically smaller |
| ObjectLoading.IndexLessIsStrictTotalOrder | include/geometry/Object_t.cpp:47-66 | the order is irreflexive, transitive, and total on distinct indices |
| ObjectLoading.PadTo | include/geometry/Object_t.cpp:90-96 | the padding loop extends a vector to n entries with one value and keeps its prefix |
| ObjectLoading.Resize | include/geometry/Object_t.cpp:100-104 | resize keeps the first n entries and fills any new ones with the zero value |
| ObjectLoading.FillAttribute | include/geometry/Object_t.cpp:88-104 | after addVertex a normal or texcoord vector is empty or exactly as long as the vertices; a present attribute fills the new slots with its value |
| ObjectLoading.AddVertexSpec | include/geometry/Object_t.cpp:72-107 | a known vertex_index returns the stored id and changes nothing; a new one returns the old vertex count, appends exactly its position and records the id; attributes stay aligned |
| ObjectLoading.AddVertexKeepsConsistent | include/geometry/Object_t.cpp:72-107 | the map keeps pointing each known index at a vertex holding its position; the returned id holds the requested position; old vertices are kept |
| ObjectLoading.Pad | include/geometry/Object_t.cpp:90-96 | the push_back loop computes PadTo |
| ObjectLoading.AddVertex | include/geometry/Object_t.cpp:72-107 | the imperative addVertex computes AddVertexSpec |
| ObjectLoading.FlipRows | include/geometry/Object_t.cpp:144-153 | row y of the mirror is row h-1-y: a vertical flip |
| ObjectLoading.Mirrored | include/geometry/Object_t.cpp:142-153 | mirroring keeps the resolution and a well-formed texture well-formed |
| ObjectLoading.FlipRowsInvolution | include/geometry/Object_t.cpp:144-153 | flipping twice is the identity |
| ObjectLoading.FlipRowsKeepsMiddle | include/geometry/Object_t.cpp:144-153 | the middle row of an odd-height image stays in place |
| ObjectLoading.MirrorRows | include/geometry/Object_t.cpp:144-153 | the in-place swap loop leaves pixel (y, x) equal to the old pixel (h-1-y, x) |
| ObjectLoading.ReadRows | include/geometry/Object_t.cpp:140 | the pixel buffer read as rows of width res.x |
| ObjectLoading.FixSeparators | include/geometry/Object_t.cpp:125-127 | every backslash becomes '/', nothing else changes, and no backslash remains |
| ObjectLoading.LoadTexture | include/geometry/Object_t.cpp:112-164 | an empty name gives -1; a cached name gives its cached id; otherwise the image is decoded, mirrored and appended with id = old count (or -1 when it fails) and the outcome is cached |
| ObjectLoading.LoadPlyModel | include/geometry/Object_t.cpp:470-490 | a PLY model has one mesh (the read one), one default material it points at, no texture |
| ObjectLoading.LoaderFor | include/geometry/Object_t.cpp:493-511 | ".obj" selects the OBJ loader, ".ply" the PLY loader, any other extension is unsupported and reported |
| ObjectLoading.LoaderForReplacedExtension | include/geometry/Object_t.cpp:493-511 | a path given ".ply" or ".obj" selects that loader |
| ObjLoader.WithDefaultMaterial | include/geometry/Object_t.cpp:359-381 | an empty material list gets the default material; a non-empty one is kept |
| ObjLoader.ConvertMaterial | include/geometry/Object_t.cpp:421-436 | colours are copied; a zero shininess, dissolve or illumination model keeps the default |
| ObjLoader.DefaultMaterialConverts | include/geometry/Object_t.cpp:361-436 | the default OBJ material converts to the default material |
| ObjLoader.NormalizeId | include/geometry/Object_t.cpp:394-395 | an id in range is kept; any other becomes 0, so the result is always in range |
| ObjLoader.NormalizeMaterialIds | include/geometry/Object_t.cpp:389-397 | the loop rewrites every face's id through NormalizeId and collects exactly the ids that occur |
| ObjLoader.NormalizedIdsInRange | include/geometry/Object_t.cpp:392-397 | every normalised id indexes the material list |
| ObjLoader.Face | include/geometry/Object_t.cpp:413-415 | ids are stored as unsigned 32-bit values (kept when in range) |
| ObjLoader.FacesWith | include/geometry/Object_t.cpp:405-408 | the faces of one material, in face order |
| ObjLoader.AddThree | include/geometry/Object_t.cpp:409-416 | three addVertex calls keep the map consistent and return ids holding the three corner positions |
| ObjLoader.BuildFacesCorrect | include/geometry/Object_t.cpp:401-417 | with a fresh map per material mesh, face k of the mesh is the k-th face of that material and its corners hold the referenced positions, all indices in range |
| ObjLoader.BuildMesh | include/geometry/Object_t.cpp:403-417 | the face loop with a map of its own builds BuildFaces |
| ObjLoader.ShapeMeshesSharedMap | include/geometry/Object_t.cpp:399-459 | the loop as written, one map shared by all material meshes of a shape: one mesh per material |
| ObjLoader.SharedMapBreaksSecondMesh | include/geometry/Object_t.cpp:399-417 | two materials sharing vertices: the second mesh's face refers to vertices it does not hold |
| ObjLoader.OwnMapBuildsSecondMesh | include/geometry/Object_t.cpp:401-417 | the same input with a map per material gives a well-formed second mesh |
| ObjLoader.AddMaterialMesh | include/geometry/Object_t.cpp:401-459 | one material mesh: the model's meshes (texture ids aside) and materials become MaterialStep of the old ones, earlier meshes and textures are kept, and the model and texture cache stay well formed |
| ObjLoader.UntexturedAll | include/geometry/Object_t.cpp:438-450 | every mesh with its texture id blanked, in order, the part of a mesh that does not depend on the texture cache |
| ObjLoader.MaterialStep | include/geometry/Object_t.cpp:401-459 | one material adds at most one mesh, which has vertices and carries the shape's name, and at most one material; what came before is kept |
| ObjLoader.ShapeLoad | include/geometry/Object_t.cpp:399-460 | the material loop of one shape adds at most one mesh and one material per material id, every added mesh has vertices and the shape's name, earlier ones are kept |
| ObjLoader.Normalized | include/geometry/Object_t.cpp:389-397 | normalising keeps the shape's name, indices and face count, and with a non-empty material list every id indexes it |
| ObjLoader.LoadShapes | include/geometry/Object_t.cpp:385-461 | the meshes of every shape, in shape order; none of them is empty |
| ObjLoader.AddShapeMeshes | include/geometry/Object_t.cpp:387-460 | one shape's pass: the ids are normalised, then the model grows by ShapeLoad of the normalised shape over every material id, staying well formed |
| ObjLoader.LoadShapesStep | include/geometry/Object_t.cpp:385-461 | shape n is valid before and after normalising, and the first n + 1 shapes load as the first n followed by shape n's pass |
| ObjLoader.LoadShapesLoop | include/geometry/Object_t.cpp:385-461 | the shape loop leaves a well-formed model whose meshes (texture ids aside) and materials are LoadShapes of all the shapes |
| ObjLoader.LoadDiffuseTexture | include/geometry/Object_t.cpp:438-442 | a texture name outside 1..999 characters loads nothing and keeps id -1; otherwise the texture cache stays valid and the id indexes the textures |
| ObjLoader.LoadObj | include/geometry/Object_t.cpp:331-468 | a failed read gives no model; otherwise the model is well formed (every mesh's material id is -1 or indexes the tinyobj material list with the default material added, every texture id indexes the textures) and its meshes, texture ids aside, and materials are LoadShapes of the shapes over that list |
| PlyReader.SkipSpace | include/geometry/Object_t.cpp:208 | a formatted extraction first drops the leading white space, leaving a suffix that starts with a non-space |
| PlyReader.ExtractWord | include/geometry/Object_t.cpp:208-218 | `>> string` on a stream that is not good fails and keeps the old value; a success consumes a non-empty word; a failure keeps the target |
| PlyReader.ExtractUnsigned | include/geometry/Object_t.cpp:221-288 | `>> size_t` / `>> unsigned` never grows the input, fails without reading on a bad stream, and yields either a value within range or the old value |
| PlyReader.ExtractByte | include/geometry/Object_t.cpp:275-276 | `>> unsigned char` reads the first non-space character itself, not a number |
| PlyReader.ExtractFloat | include/geometry/Object_t.cpp:240-242 | `>> float` fails without reading on a bad stream and consumes input when it succeeds |
| PlyReader.ReadBytes | include/geometry/Object_t.cpp:249-307 | read(n) copies the next n bytes when there are n, and fails on a stream that is not good |
| PlyReader.EncodingOf | include/geometry/Object_t.cpp:237-290 | the body is ASCII exactly for "ascii" and binary exactly for "binary_little_endian" |
| PlyReader.ReadHeader | include/geometry/Object_t.cpp:205-228 | the header scan consumes input at every token and stops right after `end_header` |
| PlyReader.ScanHeader | include/geometry/Object_t.cpp:205-228 | the token loop computes ReadHeader |
| PlyReader.VertexStep | include/geometry/Object_t.cpp:235-269 | one vertex iteration changes only vertex i and never rewinds the stream |
| PlyReader.AsciiVertex | include/geometry/Object_t.cpp:237-245 | an ASCII vertex reads three floats into vertex i and touches nothing else |
| PlyReader.BinaryVertex | include/geometry/Object_t.cpp:246-268 | a binary vertex reads 12 bytes into vertex i, stops the loop when the stream is not good, and touches nothing else |
| PlyReader.FillVertices | include/geometry/Object_t.cpp:230-235 | the vertex array keeps the size the header gave it |
| PlyReader.ReadVertex | include/geometry/Object_t.cpp:235-269 | the imperative iteration computes VertexStep |
| PlyReader.ReadVertices | include/geometry/Object_t.cpp:235-269 | the vertex loop computes FillVertices |
| PlyReader.FaceStep | include/geometry/Object_t.cpp:271-320 | one face iteration changes only face i and never rewinds the stream |
| PlyReader.AsciiFace | include/geometry/Object_t.cpp:273-289 | an ASCII face reads its count as a character, stops at a count >= 4, and otherwise reads three indices into face i |
| PlyReader.BinaryFace | include/geometry/Object_t.cpp:290-319 | a binary face reads a count byte (a second one when >= 64), stops at a count >= 4, and reads three 4-byte indices into face i |
| PlyReader.FillFaces | include/geometry/Object_t.cpp:231-271 | the index array keeps the size the header gave it |
| PlyReader.ReadFace | include/geometry/Object_t.cpp:271-320 | the imperative iteration computes FaceStep |
| PlyReader.ReadFaces | include/geometry/Object_t.cpp:271-320 | the face loop computes FillFaces |
| PlyReader.ReadPly | include/geometry/Object_t.cpp:183-328 | the reader computes ReadPlySpec: an empty mesh when the file cannot be opened, nothing when the header never ends, otherwise the filled arrays |
| PlyReader.HeaderSizesArrays | include/geometry/Object_t.cpp:202-231 | "element vertex N" and "element face M" size the arrays to N and M; the mesh is named after the file's stem and has material and texture id -1 (lines 322-323) |
| PlyReader.NoEndHeaderNeverFinishes | include/geometry/Object_t.cpp:206-228 | a header without `end_header` gives no mesh |
| PlyReader.AsciiTriangleCountStops | include/geometry/Object_t.cpp:275-282 | the count character '3' (byte 51) already stops the ASCII face loop, so every face stays (0, 0, 0) |
| PlyReader.BinaryVerticesSwapped | include/geometry/Object_t.cpp:246-262 | in a binary body with enough data, vertex i is the byte-swapped floats of bytes 12i..12i+11 |
| Quaternion.RotMat | libs/geometry/quaternion.h:10-20 | the row-built matrix has three rows |
| Quaternion.Rom | libs/geometry/quaternion.h:22-26 | the output has exactly nine entries |
| Quaternion.Quat2Rom | libs/geometry/quaternion.h:9-29 | the first nine entries of the output array become Rom(q); the rest of the array is untouched |
| Quaternion.RomIsTranspose | libs/geometry/quaternion.h:22-26 | rom[3j+i] is component j of row i of the row-built matrix: the output is its transpose |
| Quaternion.IdentityQuaternion | libs/geometry/quaternion.h:12-26 | (0,0,0,1) gives the identity matrix |
| Quaternion.NegatedQuaternionSameMatrix | libs/geometry/quaternion.h:12-20 | q and -q give the same matrix |
| Quaternion.NegatedQuaternionSameProducts | libs/geometry/quaternion.h:12-20 | every entry depends on q only through pairwise products, which negation keeps |
| Quaternion.RomDiagonal | libs/geometry/quaternion.h:12-20 | the diagonal is 1-2(y²+z²), 1-2(x²+z²), 1-2(x²+y²) |
| Transforms.Trs | include/geometry/Object_t.cpp:514-536 | the TRS matrix has twelve entries |
| Transforms.TrsOf | include/geometry/Object_t.cpp:530-533 | a 3x4 matrix assembled from nine rotation entries, the scale and the position |
| Transforms.GetTRS | include/geometry/Object_t.cpp:514-536 | the first twelve entries of the output array become Trs(t); the rest is untouched |
| Transforms.TrsLayout | include/geometry/Object_t.cpp:520-533 | trs[3], trs[7], trs[11] are the position, and entry (r,c) of the 3x3 block is rom[3r+c] * scale[c] |
| Transforms.TrsOfLayout | include/geometry/Object_t.cpp:520-533 | the same layout for any nine rotation entries |
| Transforms.DefaultTransformIsIdentity | libs/geometry/Object_t.h:9-11 | a default transform (origin, identity rotation, unit scale) gives the identity 3x4 matrix |
| Logger.Keys | libs/3rdParty/Logger.h:23-25 | the header cells are the keys in map order |
| Logger.Row | libs/3rdParty/Logger.h:29-31 | row i holds the i-th value of every column, in key order |
| Logger.CsvLines | libs/3rdParty/Logger.h:20-33 | the output has two lines more than the first column has values |
| Logger.WriteCsv | libs/3rdParty/Logger.h:19-36 | the nested loops write exactly the "sep=;" text Csv describes |
| Logger.WriteTerminated | libs/3rdParty/Logger.h:23-31 | the loop writes every cell followed by the separator |
| Logger.CsvReadsBack | libs/3rdParty/Logger.h:20-33 | splitting the output gives "sep=;", then the keys in order, then one line per row of the first column's length, each cell followed by ';' |
| Logger.LinesArePlain | libs/3rdParty/Logger.h:22-32 | no line holds a line break when no key or cell does |
| TextFields.IndexOf | libs/3rdParty/Logger.h:24 | the first occurrence of a separator, or the length when there is none |
| TextFields.TerminatedRoundTrip | libs/3rdParty/Logger.h:23-25 | splitting words each followed by a separator gives the words back |
| TextFields.JoinedRoundTrip | demo/MeshDevGUIDemo.cpp:53-63 | splitting words joined by a separator gives the words back |
| TextFields.TerminatedAppend | libs/3rdParty/Logger.h:23-25 | terminating a concatenation is concatenating the terminated parts |
| TextFields.TerminatedFree | libs/3rdParty/Logger.h:23-32 | terminated words hold a character only if a word or the separator does |
| Demo.ToUChar | demo/demo.cpp:67-72 | inputs at or below 0 give 0, at or above 1 give 255, otherwise the whole part of x * 255 |
| Demo.DeviationColorOf | demo/demo.cpp:30-32 | a deviation is clamped to [0,1] and coloured with the built-in palette, so its colour is one of the five built-in entries |
| Demo.Colors | demo/demo.cpp:28-33 | one colour per deviation, in order |
| Demo.VertexRecord | demo/demo.cpp:57-81 | a vertex record is 15 bytes |
| Demo.FaceRecord | demo/demo.cpp:84-98 | a face record is 13 bytes |
| Demo.Colored | demo/demo.cpp:57-59 | vertex i is paired with colour i |
| Demo.WriteDeviationPly | demo/demo.cpp:10-101 | a file is written exactly when the mesh has vertices and faces, the deviation count equals the vertex count and the file opens; it then holds the header and the vertex and face records |
| Demo.ComputeColors | demo/demo.cpp:28-33 | the colour loop computes Colors |
| Demo.WriteVertexRecords | demo/demo.cpp:57-81 | the vertex loop appends one record per vertex |
| Demo.WriteFaceRecords | demo/demo.cpp:84-98 | the face loop appends one record per face |
| Demo.PlyBodyLength | demo/demo.cpp:57-98 | the body is 15 bytes per vertex and 13 bytes per face |
| Demo.VertexInPly | demo/demo.cpp:57-81 | bytes 15i..15i+14 of the body are vertex i's record |
| Demo.FaceInPly | demo/demo.cpp:84-98 | bytes 15V+13j..15V+13j+12 of the body are face j's record |
| Demo.FaceRecordReadsBack | demo/demo.cpp:88-97 | a face record is the byte 3 followed by the three 0-based indices as little-endian int32 |
| Demo.VertexRecordReadsBack | demo/demo.cpp:62-80 | a vertex record is the three float bit patterns as little-endian words followed by the three colour bytes |
| Demo.CompareTwoVector | demo/demo.cpp:130-140 | true exactly when the sizes agree and every \|a[i]-b[i]\| <= tol |
| Demo.ToleranceReflexive | demo/demo.cpp:130-140 | a vector matches itself for any tol >= 0 |
| Demo.ToleranceSymmetric | demo/demo.cpp:130-140 | the comparison is symmetric |
| Demo.ToleranceWidens | demo/demo.cpp:130-140 | a match stays a match under a wider tolerance |
| Demo.OutputPlyPath | demo/demo.cpp:167-169 | a path with an extension is kept as it is |
| Demo.PlyPathExtension | demo/demo.cpp:167-169 | a path without extension gets ".ply", one with an extension keeps it, and the stem is unchanged |
| Demo.OutputPathsShareStem | demo/demo.cpp:167-171 | the OBJ path has extension ".obj" and the same stem and base as the PLY path |
| Demo.ReplacedByObj | demo/demo.cpp:170-171 | replacing the extension with ".obj" keeps the rest of the path |
| MedianEdge.FaceEdges | demo/demo.cpp:110-116 | three edge lengths per face: v1-v0, v2-v1, v0-v2 |
| MedianEdge.EdgeLengths | demo/demo.cpp:108-121 | 3k edge lengths for the first k faces |
| MedianEdge.CollectEdges | demo/demo.cpp:105-121 | the push_back loop collects EdgeLengths in face order |
| MedianEdge.Insert | demo/demo.cpp:126 | inserting into a sorted list keeps it sorted and adds exactly that value |
| MedianEdge.SortReals | demo/demo.cpp:126 | the sort yields a sorted permutation |
| MedianEdge.SortedPermutationUnique | demo/demo.cpp:126 | any two sorted permutations of the same values are equal, so the choice of sort does not matter |
| MedianEdge.MedianEdgeLength | demo/demo.cpp:103-128 | a mesh without faces gives 1.0; otherwise the result is one of the edge lengths |
| MedianEdge.MedianIsOrderStatistic | demo/demo.cpp:123-127 | for F > 0 faces the result is element floor(3F/2) of the 3F edge lengths in sorted order |
| MedianEdge.ComputeMedianEdgeLength | demo/MeshDevGUIDemo.cpp:69-94 | the GUI's copy (identical to demo/demo.cpp:103-128) computes MedianEdgeLength |
| Numeric.Clamp | demo/demo.cpp:31 | std::clamp: the result lies in [lo, hi], equals v inside, lo below and hi above |
| Numeric.ClampInt | libs/geometry/GeometryDeviation.h:159 | the same for integers |
| Numeric.Trunc | demo/demo.cpp:71 | a cast to an integer truncates toward zero |
| Numeric.Round | libs/geometry/GeometryDeviation.h:146-158 | roundf / lround round half away from zero |
| Numeric.RoundMonotone | libs/geometry/GeometryDeviation.h:146 | rounding is monotone on non-negative values |
| Numeric.NatToString | demo/MeshDevGUIDemo.cpp:62 | `<<` of an unsigned value prints its decimal digits without leading zeros |
| Numeric.NatToStringRoundTrip | demo/MeshDevGUIDemo.cpp:62 | the printed digits read back to the value |
| Numeric.IntToString | libs/3rdParty/Logger.h:30 | `<<` of an int prints a minus sign exactly for a negative value |
| Numeric.LE32 | demo/demo.cpp:92-97 | an int32 is written as four bytes |
| Numeric.LE32RoundTrip | demo/demo.cpp:92-97 | the four little-endian bytes decode back to the value |
| Numeric.Ascii | demo/demo.cpp:43-54 | a text written to the binary file keeps one byte per character |
| Numeric.TextOfAscii | demo/demo.cpp:43-54 | those bytes read back as the text |
| CBuffer.CString | libs/Visualizer/UI/FileDialog.cpp:569-577 | the C string of a buffer is its prefix before the first NUL |
| CBuffer.Truncated | libs/Visualizer/UI/FileDialog.cpp:569-577 | a string copied into a buffer of n chars keeps at most n-1 characters: all of it when it fits, exactly n-1 otherwise |
| CBuffer.CopyTruncated | libs/Visualizer/UI/FileDialog.cpp:569-577 | the buffer holds the truncated string followed by NUL, and reads back as it |
| CBuffer.CStringOfPlain | demo/MeshDevGUIDemo.cpp:345-353 | a string without NUL is its own C string |
| Paths.Filename | libs/Visualizer/UI/FileDialog.cpp:964-969 | path::filename: the part after the last '/', which holds no separator |
| Paths.DirectoryPart | libs/Visualizer/UI/FileDialog.cpp:866-872 | a path is its directory part (empty or ending in '/') followed by its filename |
| Paths.Extension | libs/Visualizer/UI/FileDialog.cpp:349 | path::extension is empty or starts with '.' |
| Paths.Stem | demo/MeshDevGUIDemo.cpp:270-272 | path::stem followed by path::extension is the filename, and a non-empty extension has a non-empty stem (".obj" is a stem, not an extension) |
| Paths.RemoveExtension | demo/MeshDevGUIDemo.cpp:270-271 | replace_extension() drops exactly the extension: what remains followed by the extension is the path |
| Paths.DottedExtension | demo/demo.cpp:169-171 | the replacement is empty exactly when r is, and otherwise starts with '.' |
| Paths.ReplaceExtensionResult | demo/demo.cpp:167-171 | after replace_extension(e) the extension is e and the stem is unchanged |
| Paths.FilenameOfReplaced | demo/demo.cpp:170-171 | after replace_extension(e) the filename is the old stem followed by e |
| Paths.Join | libs/Visualizer/UI/FileDialog.cpp:952-955 | operator/: an absolute right side replaces the left, otherwise the two are joined by one '/' (none after a trailing one) |
| Paths.RootPath | libs/Visualizer/UI/FileDialog.cpp:240-243 | root_path is "/" for an absolute path and empty otherwise |
| Paths.ParentPath | libs/Visualizer/UI/FileDialog.cpp:866-872 | parent_path is a prefix of the path, and a path without relative part is its own parent |
| Paths.ParentShortens | libs/Visualizer/UI/FileDialog.cpp:866-872 | the parent of a path with a relative part is strictly shorter and absolute exactly when the path is, so going up ends at the root |
| Paths.RootIsItsOwnParent | libs/Visualizer/UI/FileDialog.cpp:866-872 | "/" has a parent path, and it is "/" itself |
| Paths.SingleElementHasNoParent | libs/Visualizer/UI/FileDialog.cpp:866-872 | a relative name of one element has no parent path, so Up does nothing |
| DialogHistory.Push | libs/Visualizer/UI/FileDialog.cpp:832-841 | a visit keeps the entries up to the cursor, appends the path and points the cursor at it |
| DialogHistory.Back | libs/Visualizer/UI/FileDialog.cpp:848-855 | back moves the cursor one step down when it is above 0 and changes nothing otherwise; the list is kept |
| DialogHistory.Forward | libs/Visualizer/UI/FileDialog.cpp:857-864 | forward moves the cursor one step up when an entry lies ahead and changes nothing otherwise; the list is kept |
| DialogHistory.PushClearsForward | libs/Visualizer/UI/FileDialog.cpp:832-841 | after a visit nothing lies ahead, so forward does nothing |
| DialogHistory.BackAfterPush | libs/Visualizer/UI/FileDialog.cpp:832-855 | back after a visit returns to the previous cursor with the earlier entries intact |
| DialogHistory.ForwardUndoesBack | libs/Visualizer/UI/FileDialog.cpp:848-864 | forward undoes back |
| DialogHistory.BackUndoesForward | libs/Visualizer/UI/FileDialog.cpp:848-864 | back undoes forward |
| DialogHistory.PushOntoCleared | libs/Visualizer/UI/FileDialog.cpp:700-704 | setRootDirectory clears the history, so its first visit gives the one-entry history at cursor 0 |
| DialogHistory.PushesKeepPrefix | libs/Visualizer/UI/FileDialog.cpp:832-841 | a run of visits keeps the entries up to the cursor and follows them with the visited paths in order |
| DialogLogic.IndexOf | libs/Visualizer/UI/FileDialog.cpp:432 | std::find gives the first position holding the path, or none when it is absent |
| DialogLogic.Cut | libs/Visualizer/UI/FileDialog.cpp:435 | erase at i drops exactly element i and keeps the order of the rest |
| DialogLogic.Remove | libs/Visualizer/UI/FileDialog.cpp:432-436 | erasing a found path shortens the list by one; an absent path leaves it as it is |
| DialogLogic.ClickSelection | libs/Visualizer/UI/FileDialog.cpp:426-443 | a plain click selects exactly the clicked file |
| DialogLogic.ClickToggles | libs/Visualizer/UI/FileDialog.cpp:426-443 | a Ctrl/Shift click toggles the clicked file, leaves every other file as it was and keeps the selection free of duplicates |
| DialogLogic.AdditiveClickTwice | libs/Visualizer/UI/FileDialog.cpp:426-443 | two Ctrl clicks on a file that was not selected restore the selection |
| DialogLogic.QuotedListFront | libs/Visualizer/UI/FileDialog.cpp:605-614 | the joined label is the first quoted filename, ", " and the quoted rest |
| DialogLogic.SelectionLabel | libs/Visualizer/UI/FileDialog.cpp:599-615 | one selected file shows its filename; several show their quoted filenames joined by ", " |
| DialogLogic.Absolute | libs/Visualizer/UI/FileDialog.cpp:951-955 | an absolute path is kept as it is |
| DialogLogic.Resolve | libs/Visualizer/UI/FileDialog.cpp:944-959 | empty paths are skipped, so the result is no longer than the input and is empty exactly when every input path is empty |
| DialogLogic.ResolveAppend | libs/Visualizer/UI/FileDialog.cpp:944-959 | resolving works path by path: resolving a concatenation concatenates the results |
| DialogLogic.ResolveFirst | libs/Visualizer/UI/FileDialog.cpp:944-966 | the confirmed path is the first non-empty input, made absolute against the current directory and normalised |
| DialogLogic.ResolveLast | libs/Visualizer/UI/FileDialog.cpp:944-967 | the new selected file is the last non-empty input, resolved the same way |
| DialogLogic.ResolveAbsoluteIgnoresCurrent | libs/Visualizer/UI/FileDialog.cpp:951-955 | absolute inputs resolve the same whatever the current directory is |
| DialogLogic.Selections | libs/Visualizer/UI/FileDialog.cpp:771-795 | the paths the Open button confirms are never an empty list |
| DialogLogic.TypedNameWinsInSingleSelect | libs/Visualizer/UI/FileDialog.cpp:775-783 | without multi-select a typed name is confirmed on its own |
| DialogLogic.RootCandidate | libs/Visualizer/UI/FileDialog.cpp:239-243 | an absolute path contributes its root "/", a relative one itself |
| DialogLogic.WithRoot | libs/Visualizer/UI/FileDialog.cpp:232-259 | the tree roots gain at most one entry, at the end, and only the candidate of a non-empty path that exists |
| DialogLogic.WithRootKeepsDistinct | libs/Visualizer/UI/FileDialog.cpp:244-258 | no two tree roots normalise to the same path, before and after |
| DialogLogic.WithRootIdempotent | libs/Visualizer/UI/FileDialog.cpp:244-258 | ensuring the same root twice adds it at most once |
| DialogLogic.SystemRoots | libs/Visualizer/UI/FileDialog.cpp:87-127 | refreshSystemRoots starts the list with "/" and ends with one to three roots |
| DialogLogic.AbsoluteRootsCollapse | libs/Visualizer/UI/FileDialog.cpp:87-127 | an absolute HOME and user root both collapse onto "/", leaving the single root "/" |
| DialogLogic.SystemRootsDistinct | libs/Visualizer/UI/FileDialog.cpp:87-127 | the refreshed roots are distinct after normalisation |
| DialogLogic.UnitIndex | libs/Visualizer/UI/FileDialog.cpp:50-57 | the unit chosen is the largest k < 5 with 1024^k <= size |
| DialogLogic.UnitIndexUnique | libs/Visualizer/UI/FileDialog.cpp:50-57 | that unit is the only one satisfying those bounds |
| DialogLogic.ScaledDownCompare | libs/Visualizer/UI/FileDialog.cpp:53-56 | after k divisions by 1024 the value is at least c exactly when size is at least c * 1024^k |
| DialogLogic.PowMonotone | libs/Visualizer/UI/FileDialog.cpp:53-56 | the unit thresholds grow with k |
| DialogLogic.FormatFileSize | libs/Visualizer/UI/FileDialog.cpp:48-62 | the division loop stops at UnitIndex; the text is the scaled value with no decimals for bytes and one otherwise, a space and the unit name |
| FileDialogs.HierarchyView.constructor | libs/Visualizer/UI/FileDialog.h:20-33 | the tree starts without roots, user root or selection |
| FileDialogs.HierarchyView.EnsureRootEntry | libs/Visualizer/UI/FileDialog.cpp:232-259 | the roots become WithRoot of the old roots; nothing else changes |
| FileDialogs.HierarchyView.RefreshSystemRoots | libs/Visualizer/UI/FileDialog.cpp:87-127 | the roots become SystemRoots for HOME and the user root |
| FileDialogs.HierarchyView.SetRoot | libs/Visualizer/UI/FileDialog.cpp:129-134 | the user root and the selection become the path, and its root is ensured |
| FileDialogs.HierarchyView.SetSelectedDirectory | libs/Visualizer/UI/FileDialog.cpp:136-144 | an empty path changes nothing; otherwise its root is ensured and it becomes the selection |
| FileDialogs.HierarchyView.ClickNode | libs/Visualizer/UI/FileDialog.cpp:205-213 | clicking a node selects it and changes nothing else |
| FileDialogs.Listing | libs/Visualizer/UI/FileDialog.cpp:341-354 | the listing keeps entries in order and never adds one |
| FileDialogs.ListingMembership | libs/Visualizer/UI/FileDialog.cpp:344-353 | an entry is listed exactly when it is in the directory and is not a regular file with another extension |
| FileDialogs.EmptyFilterListsAll | libs/Visualizer/UI/FileDialog.cpp:344 | with no filter every entry is listed |
| FileDialogs.FileSelectView.constructor | libs/Visualizer/UI/FileDialog.h:47-72 | the view starts single-select with no directory, filter or selection |
| FileDialogs.FileSelectView.SetCurrentDirectory | libs/Visualizer/UI/FileDialog.cpp:262-267 | changing directory clears both selections |
| FileDialogs.FileSelectView.SetExtensionFilter | libs/Visualizer/UI/FileDialog.cpp:274-279 | changing the filter clears both selections |
| FileDialogs.FileSelectView.SetMultiSelectable | libs/Visualizer/UI/FileDialog.cpp:286-293 | turning multi-select off clears the multiple selection; turning it on keeps it |
| FileDialogs.FileSelectView.ListEntries | libs/Visualizer/UI/FileDialog.cpp:341-354 | the enumeration loop computes Listing with the current filter |
| FileDialogs.FileSelectView.Click | libs/Visualizer/UI/FileDialog.cpp:416-447 | a folder click clears the selection; a file click selects the file, updates the multiple selection by ClickSelection when multi-select is on, and reports the file |
| FileDialogs.IndexOfIsFirst | libs/Visualizer/UI/FileDialog.cpp:432 | the first position holding the path is what std::find returns |
| FileDialogs.JoinQuoted | libs/Visualizer/UI/FileDialog.cpp:605-614 | the ostringstream loop produces the quoted list |
| FileDialogs.ResolvePaths | libs/Visualizer/UI/FileDialog.cpp:944-959 | the confirm loop computes Resolve |
| FileDialogs.Topbar.constructor | libs/Visualizer/UI/FileDialog.h:85-98 | the path bar starts empty with a 512-char buffer |
| FileDialogs.Topbar.SetCurrentPath | libs/Visualizer/UI/FileDialog.cpp:511-515 | the path bar shows the path, cut to what the buffer holds |
| FileDialogs.Topbar.Type | libs/Visualizer/UI/FileDialog.cpp:558-565 | typed text is held as far as the buffer allows |
| FileDialogs.Bottombar.constructor | libs/Visualizer/UI/FileDialog.h:112-128 | the bar starts empty, neither confirmed nor cancelled, with a 260-char buffer |
| FileDialogs.Bottombar.SetDirectory | libs/Visualizer/UI/FileDialog.cpp:580-583 | only the directory changes |
| FileDialogs.Bottombar.SetFilename | libs/Visualizer/UI/FileDialog.cpp:585-589 | the name is stored whole and the field shows it cut to the buffer |
| FileDialogs.Bottombar.SetSelection | libs/Visualizer/UI/FileDialog.cpp:591-617 | the selection is stored; an empty one leaves the name and field alone, otherwise they show SelectionLabel |
| FileDialogs.Bottombar.ConsumeConfirmed | libs/Visualizer/UI/FileDialog.cpp:619-628 | reports and clears the Open flag, handing out the typed name only when it was set |
| FileDialogs.Bottombar.ConsumeCancelled | libs/Visualizer/UI/FileDialog.cpp:630-638 | reports and clears the Cancel flag |
| FileDialogs.Bottombar.PressOpen | libs/Visualizer/UI/FileDialog.cpp:651-654 | the Open button sets the confirmed flag |
| FileDialogs.Bottombar.PressCancel | libs/Visualizer/UI/FileDialog.cpp:656-659 | the Cancel button sets the cancelled flag |
| FileDialogs.Bottombar.Type | libs/Visualizer/UI/FileDialog.cpp:645-648 | the typed name is what the buffer holds |
| FileDialogs.ConsumeConfirmedIsOneShot | libs/Visualizer/UI/FileDialog.cpp:619-628 | a second consume right after the first reports false |
| FileDialogs.ConsumeCancelledIsOneShot | libs/Visualizer/UI/FileDialog.cpp:630-638 | the same for the Cancel flag |
| FileDialogs.FileDialog.constructor | libs/Visualizer/UI/FileDialog.cpp:678-705 | the root is the working directory or "."; when it is a directory the history is just it and the tree holds the system roots plus its root; the dialog starts hidden, single-select, with nothing confirmed |
| FileDialogs.FileDialog.SetCurrentDirectory | libs/Visualizer/UI/FileDialog.cpp:823-846 | a path that is not an existing directory changes nothing; otherwise history is pushed when asked and all four components move to the path, with nothing else changed |
| FileDialogs.FileDialog.PushHistory | libs/Visualizer/UI/FileDialog.cpp:832-841 | the history step is DialogHistory.Push |
| FileDialogs.FileDialog.MoveComponents | libs/Visualizer/UI/FileDialog.cpp:843-846 | tree, list, path bar and bottom bar are moved to the path |
| FileDialogs.FileDialog.SetRootDirectory | libs/Visualizer/UI/FileDialog.cpp:692-705 | an existing directory becomes root and the only history entry, and every component moves to it; anything else changes nothing |
| FileDialogs.FileDialog.NavigateBack | libs/Visualizer/UI/FileDialog.cpp:848-855 | the cursor moves as DialogHistory.Back; the directory follows when the target still exists |
| FileDialogs.FileDialog.NavigateForward | libs/Visualizer/UI/FileDialog.cpp:857-864 | the cursor moves as DialogHistory.Forward; the directory follows when the target still exists |
| FileDialogs.FileDialog.NavigateUp | libs/Visualizer/UI/FileDialog.cpp:866-872 | moves to and pushes the parent directory when there is one and it exists, and changes nothing otherwise |
| FileDialogs.FileDialog.Refresh | libs/Visualizer/UI/FileDialog.cpp:874-877 | history and directory are kept; the file selection is cleared |
| FileDialogs.FileDialog.SelectTreeNode | libs/Visualizer/UI/FileDialog.cpp:205-213 | a tree click selects the node and visits it when it is an existing directory |
| FileDialogs.FileDialog.CommitPath | libs/Visualizer/UI/FileDialog.cpp:558-565 | Enter in the path bar visits the typed directory when it exists and changes nothing otherwise |
| FileDialogs.FileDialog.OnFileSelected | libs/Visualizer/UI/FileDialog.cpp:889-899 | a file click becomes the selected file; the name field shows the selection label in multi-select and the filename otherwise |
| FileDialogs.FileDialog.ClickEntry | libs/Visualizer/UI/FileDialog.cpp:416-447 | a click in the list combines FileSelectView.Click with the selection callback |
| FileDialogs.FileDialog.ConfirmSelection | libs/Visualizer/UI/FileDialog.cpp:936-970 | an empty list changes nothing; otherwise the confirmed list becomes Resolve of it and, when not empty, the first entry is the result, the last the selected file, and the dialog hides |
| FileDialogs.FileDialog.AcceptConfirmed | libs/Visualizer/UI/FileDialog.cpp:961-969 | the tail of confirmSelection once the list is known to be non-empty |
| FileDialogs.FileDialog.ConfirmPath | libs/Visualizer/UI/FileDialog.cpp:926-934 | an empty path changes nothing; otherwise its resolved form becomes the only confirmed path |
| FileDialogs.FileDialog.ActivateFile | libs/Visualizer/UI/FileDialog.cpp:901-913 | a double click has the whole outcome of confirmSelection (confirmed list, result path, selected file, visibility) on the multiple selection when there is one in multi-select, else on the file itself |
| FileDialogs.FileDialog.DoubleClickEntry | libs/Visualizer/UI/FileDialog.cpp:449-462 | a double-clicked existing folder is visited; one that is not a usable folder changes nothing; a file does not change the directory and has the whole outcome of activating it |
| FileDialogs.FileDialog.Draw | libs/Visualizer/UI/FileDialog.cpp:733-811 | a hidden dialog does nothing; an open one consumes both flags, has the whole outcome of confirming Selections after Open (hidden as well when its close box was clicked), clears the results and hides after Cancel, and otherwise keeps its results and hides only when its close box was clicked |
| FileDialogs.FileDialog.HandleOpenPress | libs/Visualizer/UI/FileDialog.cpp:770-796 | after Open the outcome is that of confirmSelection on Selections; without a pending Open the results are unchanged |
| FileDialogs.FileDialog.HandleCancelPress | libs/Visualizer/UI/FileDialog.cpp:798-803 | after Cancel the results are cleared and the dialog hides; without a pending Cancel the results are unchanged |
| FileDialogs.ConfirmOutcomeEnds | libs/Visualizer/UI/FileDialog.cpp:936-970 | when the first and last non-empty paths are at i and j, confirming hides the dialog, the result is the resolved path i, the selected file the resolved path j and the list Resolve of all |
| FileDialogs.FileDialog.SetExtensionFilter | libs/Visualizer/UI/FileDialog.cpp:707-710 | the list's filter becomes ext and its selection is cleared |
| FileDialogs.FileDialog.EnableMultiSelect | libs/Visualizer/UI/FileDialog.cpp:712-716 | dialog and list agree on multi-select; turning it off clears the selection |
| FileDialogs.FileDialog.SetVisible | libs/Visualizer/UI/FileDialog.cpp:718-726 | only the visibility changes |
| MeshDevGuiDemo.OneBased | demo/MeshDevGUIDemo.cpp:63 | f.x + 1 on a uint32 index: one more, wrapping the largest index to 0 |
| MeshDevGuiDemo.ObjLines | demo/MeshDevGUIDemo.cpp:51-64 | one "v" line per vertex with its colour, in order, then one "f" line per face |
| MeshDevGuiDemo.TriangleMeshToObj | demo/MeshDevGUIDemo.cpp:35-67 | a file that cannot be opened gives false and no file; a colour count other than the vertex count gives false and an empty file; otherwise true and the OBJ text |
| MeshDevGuiDemo.WriteLines | demo/MeshDevGUIDemo.cpp:51-64 | the stream writes each line followed by "\n" |
| MeshDevGuiDemo.ObjReadsBack | demo/MeshDevGUIDemo.cpp:51-64 | split at newlines and spaces, the file gives back each vertex's six numbers and each face's three indices, one line each |
| MeshDevGuiDemo.VertexLineReadsBack | demo/MeshDevGUIDemo.cpp:55-56 | a vertex line holds no newline and splits at spaces into "v" and the six numbers |
| MeshDevGuiDemo.FaceLineReadsBack | demo/MeshDevGUIDemo.cpp:63 | a face line holds no newline and splits at spaces into "f" and the three indices |
| MeshDevGuiDemo.VertexFieldsPlain | demo/MeshDevGUIDemo.cpp:55-56 | no vertex field holds a space or a newline |
| MeshDevGuiDemo.FaceFieldsPlain | demo/MeshDevGUIDemo.cpp:63 | no face field holds a space or a newline |
| MeshDevGuiDemo.FaceFieldsAreOneBased | demo/MeshDevGUIDemo.cpp:62-63 | the three index fields are decimal digits whose values are the 1-based indices |
| MeshDevGuiDemo.BuildOutputPathParts | demo/MeshDevGUIDemo.cpp:269-281 | the composed path keeps the base's extension, or ".ply" when it has none, and its stem is the base's stem followed by the suffix |
| MeshDevGuiDemo.BackendOutputsDiffer | demo/MeshDevGUIDemo.cpp:327-335 | the CPU and GPU runs never write the same file |
| MeshDevGuiDemo.ModesToRun | demo/MeshDevGUIDemo.cpp:324-336 | mode 0 runs CPU, 1 runs GPU, 2 runs CPU then GPU, and any other value runs nothing |
| MeshDevGuiDemo.RunColors | demo/MeshDevGUIDemo.cpp:298-308 | colour i is deviation i divided by sigma and coloured with 256 levels of the map |
| MeshDevGuiDemo.RunColorsFromPalette | demo/MeshDevGUIDemo.cpp:298-308 | for sigma >= 0 (a zero sigma read as the source's +inf, see Left out) and non-negative deviations every colour is one of the map's entries |
| MeshDevGuiDemo.StatusTextInjective | demo/MeshDevGUIDemo.cpp:253-360 | no two outcomes show the same status text |
| MeshDevGuiDemo.LabelledTextInjective | demo/MeshDevGUIDemo.cpp:293-312 | a labelled failure message determines the outcome and the backend it names |
| MeshDevGuiDemo.RunModeResult | demo/MeshDevGUIDemo.cpp:283-322 | a run succeeds exactly when the deviation count matches the target's vertex count and the file opens; it then writes a file and clears the status, otherwise it reports the size mismatch or the failed write for its label |
| MeshDevGuiDemo.RunMode | demo/MeshDevGUIDemo.cpp:283-322 | the run lambda, loops included, computes RunModeResult |
| MeshDevGuiDemo.Runs | demo/MeshDevGUIDemo.cpp:324-336 | one run per selected backend, in order |
| MeshDevGuiDemo.FinalStatus | demo/MeshDevGUIDemo.cpp:324-342 | the status is the no-mode message when nothing ran and the last run's message otherwise |
| MeshDevGuiDemo.MismatchReportedAsNoMode | demo/MeshDevGUIDemo.cpp:324-342 | as written, CPU mode with a mismatching deviation count reports "No execution mode selected." instead of the mismatch |
| MeshDevGuiDemo.StatusReportsLastRun | demo/MeshDevGUIDemo.cpp:324-342 | corrected, the no-mode message appears exactly for an out-of-range mode, and the status is the success message exactly when the last run succeeded |
| MeshDevGuiDemo.LastRunStatus | demo/MeshDevGUIDemo.cpp:324-342 | the status is the last backend's, which is never the no-mode message |
| MeshDevGuiDemo.RunsOfMode | demo/MeshDevGUIDemo.cpp:324-336 | the runs are the CPU run when mode is 0 or 2 followed by the GPU run when mode is 1 or 2 |
| MeshDevGuiDemo.RunSelected | demo/MeshDevGUIDemo.cpp:324-336 | the two guarded calls compute Runs of ModesToRun |
| MeshDevGuiDemo.RunBackend | demo/MeshDevGUIDemo.cpp:327-335 | one guarded call runs its backend on its own output path |
| MeshDevGuiDemo.OutputBase | demo/MeshDevGUIDemo.cpp:262-266 | an output field with an extension is used as it is |
| MeshDevGuiDemo.RunLoaded | demo/MeshDevGUIDemo.cpp:258-342 | with both meshes loaded, sigma is the source's median edge length times the scale and the runs are those of the selected mode |
| MeshDevGuiDemo.PanelColorMap | demo/MeshDevGUIDemo.cpp:363-379 | every colour-map choice, including out-of-range ones, gives a 256-entry map |
| MeshDevGuiDemo.FitsField | demo/MeshDevGUIDemo.cpp:345-353 | a path shorter than the 520-char field is copied whole |
| MeshDevGuiDemo.SetPathBuffer | demo/MeshDevGUIDemo.cpp:345-353 | the field reads back as the path cut to 519 characters, and as the path itself when it fits |
| MeshDevGuiDemo.DefaultsFit | demo/MeshDevGUIDemo.cpp:355-359 | the three default paths fit their fields |
| MeshDevGuiDemo.Panel.constructor | demo/MeshDevGUIDemo.cpp:381-391 | the panel starts with the default paths (its constructor at lines 100-104 calls resetPaths), status "Idle", mode 2, sigma scale 1 and colour map 0 |
| MeshDevGuiDemo.Panel.SetPaths | demo/MeshDevGUIDemo.cpp:185 | typing into the three fields sets their text |
| MeshDevGuiDemo.Panel.ResetPaths | demo/MeshDevGUIDemo.cpp:355-361 | the three fields hold the defaults and the status is "Idle"; nothing else changes |
| MeshDevGuiDemo.Panel.Reset | demo/MeshDevGUIDemo.cpp:152-157 | the Reset button restores the defaults, clears the batch selection and reports "Reset to defaults." |
| MeshDevGuiDemo.Panel.OpenDialog | demo/MeshDevGUIDemo.cpp:195-208 | remembers the purpose and shows the dialog with the given filter and multi-select setting |
| MeshDevGuiDemo.Panel.BrowseFor | demo/MeshDevGUIDemo.cpp:115-193 | a row's "..." button opens a single-select dialog, filtered to ".obj" except for the output row |
| MeshDevGuiDemo.Panel.BatchSelect | demo/MeshDevGUIDemo.cpp:119-122 | the batch button opens a multi-select dialog filtered to ".obj" |
| MeshDevGuiDemo.Panel.ProcessDialogResult | demo/MeshDevGUIDemo.cpp:210-243 | an unchanged result does nothing; an empty new one is only remembered; otherwise the first path goes to the pending row (or the whole list to the batch) and the purpose is reset |
| MeshDevGuiDemo.Panel.RunRequest | demo/MeshDevGUIDemo.cpp:244-343 | an empty source or target reports the empty-mesh error and runs nothing; otherwise the runs are those of the selected mode with the first meshes and the status is the last run's |

## Left out

- Rendering and windowing: every ImGui call, the tree and table drawing, the stage and the application shell. Only the state updates they trigger are methods (clicks, typing, the Open and Cancel buttons, the window's close box).
- The real filesystem and environment: `exists`, `is_directory`, `lexically_normal`, `current_path`, `getenv("HOME")` and `directory_iterator` are inputs (a `FileSystem` value, an optional working directory and home, a list of directory entries).
- Windows branches (drive letters, `USERPROFILE`, `strncpy_s`, `u8string`): paths are POSIX generic-format strings.
- `FormatTime` in the file dialog: it depends on the clock and the locale.
- `FormatFileSize` and the OBJ and PLY writers take float printing as a parameter (`fixed`, `fmt`). The digits iostream prints are not modelled.
- Floating point is modelled as exact reals, and rounding error is not modelled. A sigma of zero (a degenerate source whose median edge length is 0) divides by zero in the source. `MeshDevGuiDemo.Normalized` gives what follows: a positive deviation becomes +inf, which deviation2Color clamps to the last entry, so the model uses 1.0. A negative one becomes -inf, which takes the negative branch as the deviation itself does. A zero deviation becomes NaN, and the conversion of NaN to int in deviation2Color is undefined behaviour. The model keeps 0, the first entry.
- The cuBQL BVH build and closest-point query are not part of this model. The query result is specified as the exact minimum over the source triangles of a point-triangle squared distance, which is a parameter, as is `sqrt`.
- The DEVICE (GPU) backend: its CUDA body is not part of this model. A run's deviations come from a parameter per backend. Only the mode selection and the size guard are modelled.
- Timing (`TimeChecker`, CUDA events) and console logging (`std::cout`, `std::cerr`).
- `Object_t` construction in the panel's run is a `load` parameter that returns the meshes of a path. The loaders themselves are modelled separately (`ObjectLoading`, `ObjLoader`, `PlyReader`).
- `tinyobj::LoadObj` and `stbi_load` are parameters. Only the logic around them is modelled.
- Heap ownership (`new` and `delete`) in `Model` and `Texture`: meshes, materials and textures are values.
- Integer widths: sizes, counts and cursors are unbounded integers. `size_t` and `int` overflow is not modelled, except where 32-bit wrap-around changes a result (`OneBased`, ids stored as `uint32`).
- PlyReader.ReadPly: a header without `end_header` makes the source loop forever on the failed stream. The model returns `None` for it instead of not terminating.
- PlyReader.ExtractUnsigned: only decimal digits are read, so a leading '+' or '-' fails the read and stores 0. The negation and wrap-around iostream applies to "-1" is not modelled.
- ObjLoader.AddMaterialMesh: C++ leaves unspecified the order of the three `addVertex` calls in one argument list. The model takes them left to right.
- ObjLoader.AddMaterialMesh: each material mesh gets a vertex map of its own, the corrected rule (see Findings). The as-written loop, with one map shared by all material meshes of a shape, is `ObjLoader.ShapeMeshesSharedMap`.
- ObjLoader.LoadObj: it follows the same corrected rule, a vertex map per material mesh, through `AddMaterialMesh`. The as-written shared map is `ObjLoader.ShapeMeshesSharedMap`, and `ObjLoader.SharedMapBreaksSecondMesh` shows where the two differ.
- ObjLoader.LoadObj: texture ids are left out of `Outline`, the state it is proved against, because they depend on `stbi_load` and the texture cache. They are only shown to index the model's textures.
- Demo.WriteDeviationPly: `main`'s argument handling, its default dataset paths and its OBJ write of the same mesh are not modelled. The writer, the path logic and the comparison are.
- MedianEdge.ComputeMedianEdgeLength: `std::sort` is modelled by an insertion sort proved to give a sorted permutation. `SortedPermutationUnique` shows that every correct sort gives the same median.
- MeshDevGuiDemo.Panel.RunRequest: the status line is a `Status` value rendered by `StatusText`, and it follows the corrected rule (`FinalStatus`, see Findings). The as-written rule is `FinalStatusAsWritten`.
- MeshDevGuiDemo.RunLoaded: both output paths are computed before the runs (in `RequestSetup`), where the source builds each just before its run. Nothing between the two depends on the order.
- Logger.WriteCsv: the program assumes, without checking, a non-empty map whose columns are as long as the first. The model requires a non-empty map whose every column is at least as long as the first, which is what the row loop reads.

## Findings

| source | as written | input that shows it | evidently intended | confidence | as-written member | corrected member |
|---|---|---|---|---|---|---|
| include/geometry/Object_t.cpp:399-417 | one `knownVertices` map is shared by every material mesh of a shape, so a vertex already added to the first mesh is reused by id in the second | a shape with two materials whose faces share a vertex: the second mesh's face indexes a vertex that mesh does not hold | each material mesh deduplicates its own vertices, so its faces index its own vertex list | not executed | ObjLoader.SharedMapBreaksSecondMesh | ObjLoader.BuildFacesCorrect |
| demo/MeshDevGUIDemo.cpp:324-342 | "No execution mode selected." is shown whenever no run succeeded, overwriting the run's own error message | mode 0, a source with vertices but no faces (the host returns early and leaves no deviations) and a target with vertices: the status says no mode was selected instead of "Deviation size mismatch for CPU" | the no-mode message only when the mode selects no backend; otherwise the last run's message | not executed | MeshDevGuiDemo.MismatchReportedAsNoMode | MeshDevGuiDemo.StatusReportsLastRun |
