# Mesh measurement, pricing and page state of a 3D-printing website

This project models the computational core of a 3D-printing service's web
front end. It covers the following parts:

- **Measurement.** Three model viewers (`ModelViewer`, `ModelViewer3D` and
  the react-three-fiber `R3FModelViewer`) turn an uploaded STL or OBJ mesh
  into a triangle position buffer. From it they compute the model's
  statistics: volume from the signed tetrahedron volumes, surface area,
  polygon count, bounding-box dimensions and bounding-box volume.
- **Geometry helpers.** The three.js operations the viewers rely on are
  modelled on values: non-indexed expansion, `applyMatrix4`, `translate`,
  `center`, the bounding box and `mergeGeometries`.
- **Pricing.** The upload page (`Upload.tsx`) corrects the volume for a
  hollow, open-topped shell. It converts volume to weight through a density
  table and weight to a price through a price-per-gram table.
- **Page state.**
  - The gallery page: image numbering and sort, paging, lightbox, zoom and
    navigation.
  - The quote form: required-field validation, error flags and the reset
    after success.
  - The front-page carousel.
  - The day/night theme toggle with its manual override.

## Structure

One Dafny module per source file, plus three shared modules:

- `Wrappers`: `Option`.
- `Geometry`: vectors, cross and dot products, and the per-triangle area and
  signed-volume terms.
- `MeshStats`: the triangle buffer and its decoding into triangles; the sums
  over triangles; the `ModelInfo` record. It holds the one statistics
  function the three viewers share, and the running-sum loop proved to
  compute it.
- `Three`: the three.js `BufferGeometry` operations the viewers call.
- `FileNames`: lower-casing, the last "."-segment and the extension gates.
- `ModelViewer`, `ModelViewer3D`, `ModelViewerR3F`, `Upload`, `GalleryPage`,
  `Quote`, `Gallery`, `ThemeToggle`: one module per component or page.

How the source is modelled:

- State that a component updates in place is a `class`. Its methods carry
  `modifies` clauses and state the whole new state.
- Loops in the source (the statistics loop, `mergeGeoms`'s push loop, the
  OBJ fold in `ModelViewer3D`, the `traverse` accumulation in `ObjModel`,
  the quote form's validation) are methods with loop invariants. Each is
  proved to compute a function that defines its result.
- `Math.sqrt` is a parameter `sqrt: real -> real`. Lemmas that need it to be
  a square root require `IsSqrt(sqrt)`.
- Coordinates are `real`.
- Loader output (`STLLoader`/`OBJLoader`) is an input.
- Notices (toasts) are returned outcome values.

Two details of the upload page that the model keeps as the code has them:

- `MATERIAL_DENSITY` gives "pla-petg" the density 1.255 g/cm³
  (`src/pages/Upload.tsx:25`). The value 1.24 is only the `|| 1.24`
  fallback for a material missing from the table (lines 91 and 121).
- `processFile` (`src/pages/Upload.tsx:85-88`) only stores the file. The
  previous `modelInfo` therefore stays until the viewer reports the new
  model's statistics.

## Model

| member | source | states |
|---|---|---|
| Geometry.NormSqNonNegative | src/components/ModelViewer.tsx:228 | the squared cross-product norm under the square root is never negative |
| Geometry.SqrtZero | src/components/ModelViewer.tsx:228 | a square root maps 0 to 0 |
| Geometry.TriAreaNonNegative | src/components/ModelViewer.tsx:223-229 | each triangle's area term 0.5·sqrt(‖(B−A)×(C−A)‖²) is non-negative |
| Geometry.DegenerateTriArea | src/components/ModelViewer.tsx:223-229 | a triangle whose edge cross product is zero (three coincident or collinear vertices) has area term 0 |
| Geometry.SignedVolIsTripleProduct | src/components/ModelViewer.tsx:232 | the expanded signed-volume expression is A·(B×C)/6 |
| Geometry.SwapNegatesSignedVol | src/components/ModelViewer.tsx:232 | swapping two vertices of a triangle negates its signed volume |
| Geometry.SwapNegatesEdgeCross | src/components/ModelViewer.tsx:223-227 | swapping two vertices negates the edge cross product (B−A)×(C−A) |
| Geometry.SwapKeepsTriArea | src/components/ModelViewer.tsx:223-229 | swapping two vertices leaves the area term unchanged |
| Geometry.TranslateKeepsTriArea | src/components/ModelViewer.tsx:223-229 | translating the three vertices by one vector leaves the edge cross product and the area term unchanged |
| Geometry.EdgeCrossExpanded | src/components/ModelViewer.tsx:223-227 | the edge cross product equals B×C + A×B + C×A (the triangle's vector area, doubled) |
| Geometry.TranslateSignedVol | src/components/ModelViewer.tsx:232 | translating a triangle by d adds d·((B−A)×(C−A))/6 to its signed volume |
| MeshStats.Triangles | src/components/ModelViewer.tsx:217-220 | decoding a buffer of 9 numbers per triangle yields length/9 triangles |
| MeshStats.Encode | src/components/ModelViewer.tsx:217-220 | encoding n triangles yields 9·n numbers |
| MeshStats.DecodeEncode | src/components/ModelViewer.tsx:217-220 | decoding an encoded triangle list gives the list back |
| MeshStats.EncodeDecode | src/components/ModelViewer.tsx:217-220 | encoding a decoded buffer gives the buffer back |
| MeshStats.TrianglesAppend | src/components/ModelViewer.tsx:217-220 | decoding a concatenation of buffers concatenates their triangle lists |
| MeshStats.SumAppend | src/components/ModelViewer.tsx:217-234 | a sum of per-triangle terms over a concatenation is the sum of the parts' sums |
| MeshStats.SumPermutation | src/components/ModelViewer.tsx:217-234 | a sum of per-triangle terms is the same for any permutation of the triangles |
| MeshStats.SumNonNegative | src/components/ModelViewer.tsx:217-234 | a sum of non-negative terms is non-negative |
| MeshStats.SurfaceAreaNonNegative | src/components/ModelViewer.tsx:229 | the accumulated area is non-negative |
| MeshStats.ReorderInvariant | src/components/ModelViewer.tsx:217-234 | permuting whole triangles leaves the volume and area sums unchanged |
| MeshStats.MeasuresAppend | src/components/ModelViewer.tsx:217-234 | the volume and area sums of two triangle lists together are the sums of each |
| MeshStats.ReversedWinding | src/components/ModelViewer.tsx:223-233 | reversing the winding of every triangle negates the volume sum and keeps the area sum |
| MeshStats.TranslateKeepsArea | src/components/ModelViewer.tsx:223-229 | translating every triangle by one vector keeps the area sum |
| MeshStats.TranslateSignedVolume | src/components/ModelViewer.tsx:232-233 | translating by d adds d·(vector area)/6 to the volume sum |
| MeshStats.ClosedVolumeOriginInvariant | src/components/ModelViewer.tsx:232-233 | for a closed surface (vector area 0) the volume sum does not depend on where the origin is |
| MeshStats.Stats | src/components/ModelViewer.tsx:236-242 | volumeCm3 = the absolute signed sum/1000 and is ≥ 0; surfaceAreaCm2 = area/100; polygons = length/9; dimensionsCm = size/10; bboxVolumeCm3 = x·y·z/1000 |
| MeshStats.StatsNonNegative | src/components/ModelViewer.tsx:236-242 | volume, area and bounding-box volume are non-negative for a non-negative box size, and so are the dimensions |
| MeshStats.EmptyStats | src/components/ModelViewer.tsx:213-242 | an empty buffer gives volume 0, area 0 and 0 polygons |
| MeshStats.SingleTriangle | src/components/ModelViewer.tsx:217-234 | one triangle's sums are its own signed volume and area terms |
| MeshStats.StatsDependOnSums | src/components/ModelViewer.tsx:236-242 | two buffers with equal length, volume sum and area sum report equal statistics |
| MeshStats.StatsReorderInvariant | src/components/ModelViewer.tsx:217-242 | permuting the triangle blocks of a buffer leaves every statistic unchanged |
| MeshStats.TriangleTerms | src/components/ModelViewer.tsx:218-232 | the loop body's area and signed-volume values are the terms of the triangle at offset i |
| MeshStats.Accumulate | src/components/ModelViewer.tsx:217-234 | the `i += 9` loop adds exactly the volume sum and the area sum of the buffer's triangles to its accumulators |
| MeshStats.ComputeStats | src/components/ModelViewer.tsx:213-243 | `computeStats` returns the statistics function of the buffer and box size |
| Three.Flatten | src/components/ModelViewer.tsx:135 | a position attribute of n vertices is 3·n numbers |
| Three.FlattenAppend | src/components/ModelViewer.tsx:251 | flattening a concatenation of vertex lists concatenates the buffers |
| Three.TrianglesOfFlatten | src/components/ModelViewer.tsx:217-220 | triangle k of the flattened buffer is vertices 3k, 3k+1 and 3k+2 |
| Three.Gather | src/components/ModelViewer3D.tsx:226-228 | gathering vertices by an index list yields one vertex per index |
| Three.NonIndexedVertices | src/components/ModelViewer3D.tsx:226-228 | the non-indexed vertices number as many as the index entries, or the position entries without an index, a multiple of 3 |
| Three.NonIndexed | src/components/ModelViewer.tsx:134-135 | the non-indexed position buffer has three numbers per non-indexed vertex |
| Three.TransformVertices | src/components/ModelViewer3D.tsx:208 | transforming a vertex list keeps its length |
| Three.ApplyMatrix4 | src/components/ModelViewer3D.tsx:208 | `applyMatrix4` keeps the index and attribute set and transforms every position |
| Three.ApplyMatrix4CommutesWithNonIndexed | src/components/ModelViewerR3F.tsx:73-81 | transforming a geometry and then expanding it equals expanding it and then transforming the vertices |
| Three.TranslationMovesTriangles | src/components/ModelViewer.tsx:141 | a translation by d moves every decoded triangle by d |
| Three.IdentityTransform | src/components/ModelViewer.tsx:188-190 | the identity matrix leaves every vertex where it is |
| Three.Translate | src/components/ModelViewer.tsx:141 | `translate` keeps the index and the number of positions |
| Three.OffsetIndex | src/components/ModelViewer3D.tsx:220 | offsetting the second geometry's index keeps its length |
| Three.MergeGeometries | src/components/ModelViewer3D.tsx:220 | `mergeGeometries` returns a geometry exactly when both have an index or neither does and their attribute sets agree; the result is of the same kind again |
| Three.MergeGeometriesNonIndexed | src/components/ModelViewer3D.tsx:220 | a successful merge's non-indexed vertices are the first's followed by the second's |
| Three.BoundingBoxOrdered | src/components/ModelViewer.tsx:128-131 | the bounding box has min ≤ max on every axis and a non-negative size |
| Three.CenterGeometry | src/components/ModelViewer3D.tsx:271 | `center()` keeps the index and the number of positions |
| Three.BoundingBoxTranslate | src/components/ModelViewer.tsx:139-141 | the bounding box of translated vertices is the translated bounding box |
| Three.CenterGeometryBox | src/components/ModelViewer3D.tsx:271 | after `center()` the box centre is the origin and the box size is unchanged |
| Three.CenterGeometryTriangles | src/components/ModelViewer3D.tsx:271 | `center()` moves every triangle by minus the old box centre |
| Three.VertexTriangles | src/components/ModelViewerR3F.tsx:88-104 | a vertex list is read as one triangle per three vertices |
| Three.TrianglesOfConcat | src/components/ModelViewer.tsx:245-256 | the triangles of concatenated vertex lists are the concatenation of their triangles |
| Three.MeshGeometries | src/components/ModelViewer.tsx:188-192 | `traverse` collects the geometries of the mesh children only, unchanged |
| Three.WorldGeometries | src/components/ModelViewer3D.tsx:203-211 | `traverse` collects each mesh child's geometry transformed by its world matrix |
| Three.Concatenated | src/components/ModelViewer.tsx:247-252 | the in-order concatenation of non-indexed vertices is a whole number of triangles |
| Three.ConcatenatedCons | src/components/ModelViewer.tsx:247-252 | concatenation takes the first geometry's vertices and then the rest's |
| Three.VertexTrianglesAppend | src/components/ModelViewerR3F.tsx:88-104 | volume and area sums over two vertex lists together are the sums over each |
| Three.ConcatenatedSignedVolume | src/components/ModelViewer.tsx:245-256 | the volume sum of the concatenated meshes is the sum of the meshes' own volume sums |
| Three.ToNonIndexed | src/components/ModelViewer3D.tsx:226-228 | `toNonIndexed` drops the index and keeps the non-indexed vertices and the attributes |
| FileNames.ToLower | src/components/ModelViewer.tsx:120 | lower-casing of ASCII letters, one character for one |
| FileNames.LastSegment | src/components/ModelViewer.tsx:120 | `split(".").pop()` is the longest dot-free suffix, preceded by a dot when shorter than the name |
| FileNames.LastSegmentAfterDot | src/components/ModelViewer.tsx:120 | the segment after the last dot of t.u with dot-free u is u |
| FileNames.LastSegmentNoDot | src/components/ModelViewer.tsx:120 | a name without a dot is its own last segment |
| FileNames.ViewerFormat | src/components/ModelViewer.tsx:120-124 | the viewer accepts a file exactly when the lowercased last segment is "stl" or "obj" |
| FileNames.ViewerFormatSound | src/components/ModelViewer3D.tsx:181-185 | an accepted name is the bare extension or ends in "." plus the extension, after lower-casing |
| FileNames.ViewerFormatComplete | src/components/ModelViewer3D.tsx:181-185 | every lowercased name ending in ".stl" or ".obj" is accepted with that format |
| FileNames.ViewerFormatIff | src/components/ModelViewer3D.tsx:181-185 | both directions: accepted with format f if and only if the lowercased name is f or ends in "." + f |
| FileNames.DropAcceptedIsViewable | src/pages/Upload.tsx:71-75 | every name the drop filter accepts (".stl"/".obj", case-sensitive) is one the viewers accept |
| FileNames.UpperCaseExtension | src/pages/Upload.tsx:71-75 | "MODEL.STL" is refused by the case-sensitive drop filter but accepted by the viewers |
| ModelViewer.PushAll | src/components/ModelViewer.tsx:251 | the inner push loop appends the geometry's numbers to `arrays` in order |
| ModelViewer.MergeGeoms | src/components/ModelViewer.tsx:245-256 | `mergeGeoms` returns an unindexed geometry whose positions are the in-order concatenation of every input's non-indexed positions, with no world matrix applied |
| ModelViewer.MergedSignedVolume | src/components/ModelViewer.tsx:245-256 | the merged geometry's volume sum is the sum of the inputs' volume sums |
| ModelViewer.SourceGeometry | src/components/ModelViewer.tsx:171-194 | the geometry given to `processGeometry` is the STL's, or the merge of the OBJ's meshes, or none when parsing fails or there is no mesh |
| ModelViewer.Viewer.constructor | src/components/ModelViewer.tsx:109-110 | the viewer starts with no mesh and nothing reported |
| ModelViewer.Viewer.ProcessGeometry | src/components/ModelViewer.tsx:126-169 | the reported statistics are those of the geometry before centring; the mesh shown is the centred geometry; the statistics are reported once |
| ModelViewer.Viewer.Load | src/components/ModelViewer.tsx:109-202 | the old mesh is cleared first; a refused extension or a failed parse reports nothing and shows no mesh; otherwise the statistics of the loaded geometry are reported once and the centred geometry is shown |
| ModelViewer.ClosedStatsIgnoreCentring | src/components/ModelViewer.tsx:133-141 | for a closed surface, statistics of the centred geometry equal those of the geometry as loaded |
| ModelViewer.CornerBox | src/components/ModelViewer.tsx:128-131 | the bounding box of the corner triangle is the unit cube's |
| ModelViewer.CornerTriangles | src/components/ModelViewer.tsx:139-141 | centring moves the corner triangle by (−½, −½, −½) |
| ModelViewer.CornerSignedVolumes | src/components/ModelViewer.tsx:133-141 | for an open surface the order matters: the corner triangle's signed volume is 1/6 before centring and −1/12 after |
| ModelViewer3D.FoldMergeKind | src/components/ModelViewer3D.tsx:216-221 | the fold's accumulated geometry stays of the first geometry's kind (index presence and attributes) |
| ModelViewer3D.FoldMergeKeeps | src/components/ModelViewer3D.tsx:216-221 | the fold's vertices are the first geometry's followed by those of every later geometry the merge accepted; a refused merge drops that geometry |
| ModelViewer3D.KeptAllWhenMergeable | src/components/ModelViewer3D.tsx:216-221 | when every geometry can be merged with the first, none is dropped |
| ModelViewer3D.FoldMergeUniform | src/components/ModelViewer3D.tsx:216-221 | with uniform geometries the fold's vertices are the in-order concatenation of all of them |
| ModelViewer3D.MergeAll | src/components/ModelViewer3D.tsx:216-221 | the merge loop computes the left-to-right fold |
| ModelViewer3D.Measured | src/components/ModelViewer3D.tsx:226-228 | the measured geometry is non-indexed |
| ModelViewer3D.SourceOf | src/components/ModelViewer3D.tsx:195-215 | the geometry source is the STL's, or the fold of the OBJ's transformed meshes, or a parse error, or "no meshes" |
| ModelViewer3D.BuildSource | src/components/ModelViewer3D.tsx:195-222 | the traverse-and-merge code builds that source |
| ModelViewer3D.Measure | src/components/ModelViewer3D.tsx:226-271 | the emitted statistics are those of the non-indexed geometry before `center()`; the geometry shown is the centred one |
| ModelViewer3D.RunLoad | src/components/ModelViewer3D.tsx:181-338 | a refused extension gives the unsupported notice; an unread file ends silently; otherwise a parse error, "no geometry" or the loaded statistics, and a mesh exactly when loaded |
| ModelViewer3D.Viewer3D.constructor | src/components/ModelViewer3D.tsx:34 | no mesh, not loaded, nothing emitted, no success notice |
| ModelViewer3D.Viewer3D.LoadModel | src/components/ModelViewer3D.tsx:168-342 | the old mesh is removed before the gate; at most one report and one success notice per load, exactly when loaded; a mesh and `modelLoaded` exactly when loaded |
| ModelViewer3D.Viewer3D.Show | src/components/ModelViewer3D.tsx:268-334 | reports and shows the outcome's model and raises the success notice only for a loaded model |
| ModelViewerR3F.WorldVertices | src/components/ModelViewerR3F.tsx:70-81 | the collected world-space vertices form whole triangles |
| ModelViewerR3F.WorldVerticesConcatenated | src/components/ModelViewerR3F.tsx:70-81 | the vertices are the concatenation of the world-transformed mesh geometries, in traverse order |
| ModelViewerR3F.WorldVerticesStep | src/components/ModelViewerR3F.tsx:70-81 | one child adds its transformed non-indexed vertices when it is a mesh and nothing otherwise |
| ModelViewerR3F.ObjSums | src/components/ModelViewerR3F.tsx:67-106 | the traverse loop leaves `totalPositions` at the number of world positions and one volume and one area sum over all meshes |
| ModelViewerR3F.ObjModelStats | src/components/ModelViewerR3F.tsx:58-115 | `ObjModel` reports the shared statistics of all meshes' world positions, with the absolute value taken once |
| ModelViewerR3F.ObjSignedVolumeIsSumOfParts | src/components/ModelViewerR3F.tsx:102-103 | the accumulated signed volume is the sum of the meshes' own signed volumes |
| ModelViewerR3F.OppositeWindingsCancel | src/components/ModelViewerR3F.tsx:102-109 | two copies of a mesh with opposite winding report volume 0 |
| ModelViewerR3F.ObjViewersAgree | src/components/ModelViewerR3F.tsx:70-106 | for uniform meshes, `ModelViewer3D`'s merge fold and `ObjModel`'s traversal see the same vertices |
| ModelViewerR3F.StlModelStats | src/components/ModelViewerR3F.tsx:134-147 | `StlModel` expands an indexed geometry and reports the shared statistics |
| ModelViewerR3F.UrlState.AtMostOneLive | src/components/ModelViewerR3F.tsx:174-180 | at most one object URL is live at any time |
| ModelViewerR3F.UrlState.constructor | src/components/ModelViewerR3F.tsx:157-158 | url and ext start null; no object URL exists |
| ModelViewerR3F.UrlState.Cleanup | src/components/ModelViewerR3F.tsx:178-180 | the cleanup revokes the URL the last run created and changes nothing else |
| ModelViewerR3F.UrlState.FileChanged | src/components/ModelViewerR3F.tsx:160-181 | no file clears url and ext; a refused extension creates nothing and keeps url and ext, though the previous run's cleanup has already revoked that URL; an accepted one creates a fresh URL and sets url and ext to it; the previous URL is always revoked |
| ModelViewerR3F.UrlState.Unmount | src/components/ModelViewerR3F.tsx:178-180 | unmounting revokes every live URL |
| Upload.Density | src/pages/Upload.tsx:24-29 | the table's density for a known material, 1.24 for any other; always positive |
| Upload.InnerMm | src/pages/Upload.tsx:107-113 | the cavity is max(lx−2w,0) × max(ly−2w,0) × max(lz−b,0), with l the dimensions in mm |
| Upload.EffectiveVolume | src/pages/Upload.tsx:105-116 | with the correction off, the volume is `volumeCm3` exactly; with it on, max(outer − inner, 0)/1000, which is ≥ 0 |
| Upload.BoxVolumeNonNegative | src/pages/Upload.tsx:110-112 | a box of non-negative extents has non-negative volume |
| Upload.ShellAtMostBox | src/pages/Upload.tsx:110-115 | with the correction on, 0 ≤ volume ≤ the outer box volume/1000 |
| Upload.ZeroThicknessIsEmpty | src/pages/Upload.tsx:111-115 | zero wall and bottom thickness on non-negative dimensions gives volume 0 |
| Upload.ThickWallsAreSolid | src/pages/Upload.tsx:111-115 | walls at least as thick as the model leave no cavity: the volume is the whole box |
| Upload.CubeShellExample | src/pages/Upload.tsx:105-116 | a 10 cm (100 mm) cube with 2 mm walls and bottom has volume 96.832 cm³ |
| Upload.WeightCases | src/pages/Upload.tsx:91-93 | without correction, weight = volume × density; with correction and a non-negative density, weight ≥ 0 |
| Upload.ComputeWeight | src/pages/Upload.tsx:91-93 | `handleModelParsed` computes weight from the effective volume and the material's density |
| Upload.WeightAtMostSolidBox | src/pages/Upload.tsx:91-93 | with the correction on, the weight is at most the box volume's weight |
| Upload.PricePerGram | src/pages/Upload.tsx:16-21 | a price per gram exists exactly for a listed material and quality, and it is positive |
| Upload.EveryChoicePriced | src/pages/Upload.tsx:227-247 | every material and quality the selects offer has a price |
| Upload.CalculatePrice | src/pages/Upload.tsx:128-134 | 0 without a model; otherwise weight × price per gram, non-negative for a non-negative weight |
| Upload.PlaExample | src/pages/Upload.tsx:128-134 | 10 cm³ of "pla-petg" at "standard" weighs 12.55 g and costs 6.9025 |
| Upload.ThicknessInput | src/pages/Upload.tsx:267-273 | an empty or invalid thickness input is read as 0 |
| Upload.UploadPage.constructor | src/pages/Upload.tsx:41-48 | no file and no model; "pla-petg", "standard", open shell on, 2.2 mm walls, 2.4 mm bottom |
| Upload.UploadPage.ProcessFile | src/pages/Upload.tsx:85-88 | only the file changes; the previous model info stays |
| Upload.UploadPage.HandleDrop | src/pages/Upload.tsx:67-76 | a dropped file is taken exactly when its name ends in ".stl" or ".obj"; otherwise nothing changes |
| Upload.UploadPage.HandleFileChange | src/pages/Upload.tsx:78-83 | a chosen file is processed; an empty choice changes nothing |
| Upload.UploadPage.HandleModelParsed | src/pages/Upload.tsx:90-102 | the five statistics are stored unchanged with a weight consistent with the current settings |
| Upload.UploadPage.RecomputeWeight | src/pages/Upload.tsx:119-126 | the effect replaces only the weight, recomputed from the settings |
| Upload.UploadPage.SetMaterial | src/pages/Upload.tsx:227 | the material changes and the weight follows it; nothing else changes |
| Upload.UploadPage.SetQuality | src/pages/Upload.tsx:247 | only the quality changes; the weight does not depend on it |
| Upload.UploadPage.SetUseOpenShell | src/pages/Upload.tsx:261 | the switch changes the correction flag and the weight follows it |
| Upload.UploadPage.SetWallThickness | src/pages/Upload.tsx:267-268 | the wall thickness changes to the input read as a number, or 0; the weight follows it |
| Upload.UploadPage.SetBottomThickness | src/pages/Upload.tsx:272-273 | the bottom thickness changes to the input read as a number, or 0; the weight follows it |
| Upload.UploadPage.Remove | src/pages/Upload.tsx:205-209 | Remove clears the file and the model info, so the price is 0; the selection is kept |
| GalleryPage.Decimal | src/pages/GalleryPage.tsx:21-27 | a number's decimal spelling is a non-empty digit string |
| GalleryPage.DecimalValue | src/pages/GalleryPage.tsx:21-27 | reading a number's decimal spelling gives the number back |
| GalleryPage.DigitRunEnd | src/pages/GalleryPage.tsx:21 | `\d+` is greedy: it takes the longest run of digits |
| GalleryPage.Captured | src/pages/GalleryPage.tsx:21 | the captured group is all digits |
| GalleryPage.MatchAtSound | src/pages/GalleryPage.tsx:21-22 | a match found at a position spells `gallery-`, the captured digits and `.jpg` there |
| GalleryPage.MatchAtComplete | src/pages/GalleryPage.tsx:21-22 | every occurrence of `gallery-<digits>.jpg` at a position is found there, with those digits |
| GalleryPage.FirstMatchLeftmost | src/pages/GalleryPage.tsx:21-22 | the search returns the leftmost match |
| GalleryPage.FirstMatchNone | src/pages/GalleryPage.tsx:21-22 | without any match the search finds nothing |
| GalleryPage.ImageNumberOfMatch | src/pages/GalleryPage.tsx:21-22 | the image number is the value of the leftmost match's digits |
| GalleryPage.ImageNumberWithoutMatch | src/pages/GalleryPage.tsx:22 | a path without a match has number 0 |
| GalleryPage.ImageNumberOfName | src/pages/GalleryPage.tsx:21-22 | a path ending in gallery-n.jpg, where no match of the pattern starts earlier, has number n |
| GalleryPage.NoMatchInDashFreeDir | src/pages/GalleryPage.tsx:21 | in a directory whose path contains no '-', no match of the pattern can start inside the directory |
| GalleryPage.GalleryTwentyEight | src/pages/GalleryPage.tsx:21-22 | "/src/assets/gallery/gallery-28.jpg" has number 28 |
| GalleryPage.Entry | src/pages/GalleryPage.tsx:20-28 | each entry keeps its path, its number and the alt text "3D Printed Project n" |
| GalleryPage.Entries | src/pages/GalleryPage.tsx:19-29 | one entry per path, in order |
| GalleryPage.Insert | src/pages/GalleryPage.tsx:30 | inserting into a sorted list adds exactly that element |
| GalleryPage.InsertKeepsSorted | src/pages/GalleryPage.tsx:30 | inserting keeps the list sorted by number |
| GalleryPage.SortByNumber | src/pages/GalleryPage.tsx:30 | the sort returns a permutation of its input in non-decreasing order of number |
| GalleryPage.AllImagePaths | src/pages/GalleryPage.tsx:18-30 | `allImagePaths` is a permutation of the entries, sorted by number |
| GalleryPage.InsertWithNumber | src/pages/GalleryPage.tsx:30 | inserting puts the new element after every element with the same number |
| GalleryPage.SortIsStable | src/pages/GalleryPage.tsx:30 | the sort is stable: images with equal numbers keep their input order |
| GalleryPage.NextCount | src/pages/GalleryPage.tsx:127-139 | loading more raises the count by at most 9, capped at the total; at the total it changes nothing |
| GalleryPage.CountAfterLoads | src/pages/GalleryPage.tsx:127-139 | after n loads the count is max(9, min(9·(n+1), total)) |
| GalleryPage.AllShownEventually | src/pages/GalleryPage.tsx:127-139 | after enough loads all images are shown and further loads change nothing |
| GalleryPage.ZoomedIn | src/pages/GalleryPage.tsx:59-61 | `zoomIn` adds 0.25, capped at 3; it stays on the quarter grid and within [0.5, 3] |
| GalleryPage.ZoomedOut | src/pages/GalleryPage.tsx:63-65 | `zoomOut` subtracts 0.25, floored at 0.5; it stays on the quarter grid and within [0.5, 3] |
| GalleryPage.Page.constructor | src/pages/GalleryPage.tsx:36-42 | 9 displayed, more exactly when there are more than 9 images, nothing selected, lightbox closed, zoom 1 |
| GalleryPage.Page.DisplayedImages | src/pages/GalleryPage.tsx:46 | the displayed images are the first `displayedCount` images |
| GalleryPage.Page.LoadMore | src/pages/GalleryPage.tsx:127-139 | the count moves to the next page capped at the total, and grows while images remain; `hasMore` is false once all are shown |
| GalleryPage.Page.Open | src/pages/GalleryPage.tsx:48-51 | the index is selected and the lightbox opens; zoom is left as it was |
| GalleryPage.Page.Close | src/pages/GalleryPage.tsx:53-57 | the lightbox closes, the selection is cleared and zoom is reset to 1 |
| GalleryPage.Page.SetLightboxOpen | src/pages/GalleryPage.tsx:229 | the dialog's own close changes only the open flag, keeping selection and zoom |
| GalleryPage.Page.ZoomIn | src/pages/GalleryPage.tsx:59-61 | only the zoom changes, to the zoomed-in level |
| GalleryPage.Page.ZoomOut | src/pages/GalleryPage.tsx:63-65 | only the zoom changes, to the zoomed-out level |
| GalleryPage.Page.ResetZoom | src/pages/GalleryPage.tsx:67-69 | only the zoom changes, to 1 |
| GalleryPage.Page.GoToPrevious | src/pages/GalleryPage.tsx:71-76 | moves to the previous image and resets zoom; at the first image or with no selection it changes nothing |
| GalleryPage.Page.GoToNext | src/pages/GalleryPage.tsx:78-88 | moves to the next image and resets zoom; at the last image or with no selection it changes nothing |
| GalleryPage.Page.HandleKey | src/pages/GalleryPage.tsx:90-101 | keys act only while the lightbox is open: Escape closes it; each arrow keeps it open and moves the selection with the zoom reset to 1, or changes nothing at that end of the list or with no selection; other keys do nothing |
| Quote.Missing | src/pages/Quote.tsx:39-49 | the error map flags exactly the empty ones among the eight required fields, each with `true` |
| Quote.Validate | src/pages/Quote.tsx:39-49 | the `forEach` loop builds exactly that error map |
| Quote.MissingIffEmptyField | src/pages/Quote.tsx:51-55 | a submission is refused if and only if some required field is empty |
| Quote.EmptyForm | src/pages/Quote.tsx:14-25 | the initial form has every field empty |
| Quote.EmptyFormFlagsAll | src/pages/Quote.tsx:40-49 | submitting the empty form flags every required field, and the comment never |
| Quote.QuoteForm.constructor | src/pages/Quote.tsx:14-27 | the form starts empty, with no attachment and no error |
| Quote.QuoteForm.HandleSubmit | src/pages/Quote.tsx:35-102 | errors are stored and nothing is sent when a required field is empty; otherwise the errors are cleared and the request is sent; success resets the form and the attachment; failure keeps them |
| Quote.QuoteForm.SetField | src/pages/Quote.tsx:136-138 | editing a field stores its value and clears only its own error flag; the comment has no flag |
| Quote.QuoteForm.HandleFileChange | src/pages/Quote.tsx:104-108 | a chosen file replaces the attachment; an empty choice keeps it |
| Gallery.Advance | src/components/Gallery.tsx:22 | the next index is index+1, wrapping to 0 after the last, always in range |
| Gallery.AfterTicksIsModular | src/components/Gallery.tsx:20-25 | after n ticks the index is (start + n) mod the number of images |
| Gallery.FullCycle | src/components/Gallery.tsx:22 | after as many ticks as there are images the index is back at its start |
| Gallery.Carousel.constructor | src/components/Gallery.tsx:10-18 | the carousel shows the four images and starts at index 0 |
| Gallery.Carousel.Shown | src/components/Gallery.tsx:34-35 | the image shown is one of the images |
| Gallery.Carousel.Tick | src/components/Gallery.tsx:20-25 | each tick advances the index with wrap-around |
| Gallery.Carousel.SelectDot | src/components/Gallery.tsx:46-58 | clicking dot k shows image k, and dot k is the only active dot |
| ThemeToggle.ThemeByTime | src/components/ThemeToggle.tsx:8-11 | "light" if and only if 7 ≤ hour < 19, otherwise "dark" |
| ThemeToggle.SavedTheme | src/components/ThemeToggle.tsx:23 | the stored theme when present and non-empty, otherwise "dark" |
| ThemeToggle.Toggled | src/components/ThemeToggle.tsx:44 | toggling gives "light" or "dark", different from a light or dark input |
| ThemeToggle.ToggleTwice | src/components/ThemeToggle.tsx:44 | toggling twice restores a light or dark theme; any other stored value toggles to "light" |
| ThemeToggle.Toggle.constructor | src/components/ThemeToggle.tsx:6-29 | on mount the override flag selects the stored theme; without it the clock rule applies |
| ThemeToggle.Toggle.Apply | src/components/ThemeToggle.tsx:13-16 | the theme is set and the dark class is present exactly for "dark" |
| ThemeToggle.Toggle.MinuteTick | src/components/ThemeToggle.tsx:32-38 | the tick changes the theme only without an override, and then to the clock's theme |
| ThemeToggle.Toggle.ToggleTheme | src/components/ThemeToggle.tsx:43-49 | the theme flips, is stored, and the override flag is set |
| ThemeToggle.ChoiceSurvivesReload | src/components/ThemeToggle.tsx:20-47 | after a toggle, mounting again at any hour restores the toggled theme |
| ThemeToggle.ClockRulesWithoutOverride | src/components/ThemeToggle.tsx:20-29 | without the override flag, mounting uses the clock rule |

## Left out

- Decoding of STL and OBJ bytes by three-stdlib's `STLLoader` and `OBJLoader` is foreign code. Its result (a geometry, a mesh group, or a failure) is an input `Parsed`.
- `FileReader`, `arrayBuffer()` and the read callbacks are asynchronous I/O. Whether the reader produced data is the parameter `read` of `ModelViewer3D.RunLoad`.
- The fetch POST of the quote form is network I/O. The server's answer is the parameter `responseOk`, and a network error counts as a failed answer.
- Toast notifications are returned as outcome values.
- `console.error` calls are left out.
- Math.sqrt, float32 positions and float64 arithmetic are modelled on exact reals. `sqrt` is a parameter, and rounding is not modelled.
- The clock is the parameter `hour`, and `setInterval` timing is not modelled: each tick or minute is one method call.
- `computeVertexNormals` and `computeBoundingSphere` are left out. They feed only shading, the grid and camera framing, never the statistics.
- Rendering is left out:
  - the WebGL renderer, scene, lights and materials;
  - OrbitControls and the animation and resize loops;
  - the mesh scale (`80 / maxDim`), the camera placement and clipping planes;
  - the grid and axes sizing with log2/pow, and the wireframe, grid and axes toggles;
  - all JSX layout.
- `R3FModelViewer` and `ObjModel` are modelled only for the URL lifecycle and the statistics they compute. `useLoader`'s suspense and fetching are left out.
- `ModelViewerR3F.ObjModelStats`: `Box3.setFromObject(object)` is not modelled; its size is an input of the statistics.
- The asynchronous `loadImage` with its dynamic `import()` and the preloading are left out.
- The IntersectionObserver that triggers `loadMoreImages` is left out; the model calls `LoadMore` directly.
- The initial-load effect only starts `loadImage` for the displayed images, so it is left out with it.
- The gallery page's `document.title` update is left out.
- React effect scheduling and stale closures are left out: each handler and effect runs atomically on the current state. `Upload`'s `handleModelParsed` runs with the current settings.
- The dragOver and dragLeave highlight state of the upload page is presentation only and is left out.
- The static content pages and sections (pricing, technology, ordering, services, about, contact, index, header, footer, hero) only render copy and links. They are left out.
- `ModelViewerR3F.ObjViewersAgree`: stated only for meshes that are uniform (all indexed or all non-indexed, with the same attribute set). When `mergeGeometries` refuses a mesh, `ModelViewer3D` drops it (`ModelViewer3D.FoldMergeKeeps`) while `ObjModel` still counts it.
- `ModelViewer3D.RunLoad`: the exception path of the try block is modelled only for a failed parse. Other three.js failures are not modelled.
- `ThemeToggle.SavedTheme`: the stored theme is used as stored, unvalidated, as in the code. A stored value other than "light" or "dark" is applied as is, and toggling it gives "light".
- FileNames.ToLower: lower-cases ASCII letters only and keeps the length. JavaScript's `toLowerCase` applies full Unicode case mapping, which changes other characters and can change the length ("İ" becomes two code units). The gate's verdict is not affected, because no non-ASCII character lower-cases to '.' or to a letter of "stl" or "obj".
- Upload.CalculatePrice: a material missing from `PRICING` (a TypeError in the code) and a quality missing for a listed material (NaN in the code) both give `None`. The selects offer neither, as `Upload.EveryChoicePriced` states.
