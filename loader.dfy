/**
 * CPU-side flattening of a glTF 2.0 document (src/graphics/loader.rs):
 * the material list, the scene -> root node -> primitive walk, vertex and index
 * assembly, the running bounding box, and RGB -> RGBA pixel widening.
 *
 * The document is what `gltf::import` returns, reduced to what the loader reads.
 * GPU uploads are represented by the data uploaded.
 */
module Loader {
  import opened Wrappers
  import opened Model

  // ---------------------------------------------------------------------------
  // The imported document
  // ---------------------------------------------------------------------------

  /** `gltf::mesh::Mode` */
  datatype Mode = Points | Lines | LineLoop | LineStrip | Triangles | TriangleStrip | TriangleFan

  /** `gltf::image::Format` */
  datatype ImageFormat =
    | R8 | R8G8 | R8G8B8 | R8G8B8A8
    | R16 | R16G16 | R16G16B16 | R16G16B16A16
    | R32G32B32FLOAT | R32G32B32A32FLOAT

  /** `gltf::image::Data`: decoded pixels of one image of the document. */
  datatype ImageData = ImageData(pixels: seq<byte>, format: ImageFormat, width: u32, height: u32)

  /** A document material: the image index of its base-colour texture, if it has one. */
  datatype DocMaterial = DocMaterial(baseColorSource: Option<nat>)

  /** A mesh primitive: its topology, the attribute streams the reader can produce
      (absent when the attribute is missing) and its material index. Indices are
      already widened to u32 (`into_u32`), texture coordinates to f32 (`into_f32`). */
  datatype Primitive = Primitive(
    mode: Mode,
    positions: Option<seq<Vec3>>,
    normals: Option<seq<Vec3>>,
    texCoords: Option<seq<Vec2>>,
    indices: Option<seq<u32>>,
    material: Option<nat>)

  datatype Mesh = Mesh(primitives: seq<Primitive>)

  datatype Node = Node(mesh: Option<Mesh>, children: seq<Node>)

  /** A scene lists its root nodes. */
  datatype Scene = Scene(nodes: seq<Node>)

  /** The document together with the decoded images `gltf::import` returns beside it. */
  datatype Document = Document(materials: seq<DocMaterial>, scenes: seq<Scene>, images: seq<ImageData>)

  /** The two aborts of the load: the `assert!` on the topology and the `expect` on POSITION. */
  datatype LoadError = NotTriangles | PositionMissing

  // ---------------------------------------------------------------------------
  // Materials and textures
  // ---------------------------------------------------------------------------

  const WHITE_PIXEL: seq<byte> := [255, 255, 255, 255]

  /** `RgbaImage::from_pixel(1, 1, Rgba([255, 255, 255, 255]))` */
  function WhiteImage(): RgbaImage { RgbaImage(1, 1, WHITE_PIXEL) }

  /** The white fallback material used when the document defines no material. */
  function WhiteMaterial(): Material { Material(WhiteImage()) }

  /** `make_texture_material_impl` as the code has it: the texture is created with
      `create_texture` at the size of the given image (white 1x1 when none is given), and
      nothing is ever written into it (its queue parameter is unused), so it keeps the
      all-zero contents WebGPU gives a new texture. */
  function MaterialImplAsWritten(rgba: Option<RgbaImage>): Material {
    var img := rgba.GetOr(WhiteImage());
    Material(RgbaImage(img.width, img.height, seq(img.width * img.height * 4, _ => 0 as byte)))
  }

  /** The texture `make_texture_material_impl` creates has the given image's size but
      holds only zero bytes, so any image with a non-zero byte is never what it shows. */
  lemma ImplNeverUploads(rgba: RgbaImage)
    ensures MaterialImplAsWritten(Some(rgba)).texture.width == rgba.width
    ensures MaterialImplAsWritten(Some(rgba)).texture.height == rgba.height
    ensures forall k :: 0 <= k < |MaterialImplAsWritten(Some(rgba)).texture.data| ==>
      MaterialImplAsWritten(Some(rgba)).texture.data[k] == 0
    ensures (exists k :: 0 <= k < |rgba.data| && rgba.data[k] != 0) ==>
      MaterialImplAsWritten(Some(rgba)) != Material(rgba)
  {
    if exists k :: 0 <= k < |rgba.data| && rgba.data[k] != 0 {
      var k :| 0 <= k < |rgba.data| && rgba.data[k] != 0;
      var shown := MaterialImplAsWritten(Some(rgba)).texture.data;
      if |shown| == |rgba.data| {
        assert shown[k] != rgba.data[k];
      }
    }
  }

  /** `make_white_material` as the code has it: the white image goes through
      `make_texture_material_impl`. */
  function WhiteMaterialAsWritten(): Material { MaterialImplAsWritten(Some(WhiteImage())) }

  /** The fallback material as written is a 1x1 transparent-black texture, not the opaque
      white `make_white_material` builds on the CPU and that `WhiteMaterial` models. */
  lemma WhiteFallbackNotUploaded()
    ensures WhiteMaterialAsWritten() != WhiteMaterial()
    ensures WhiteMaterialAsWritten().texture == RgbaImage(1, 1, [0, 0, 0, 0])
    ensures WhiteMaterial().texture == RgbaImage(1, 1, [255, 255, 255, 255])
  {
    ImplNeverUploads(WhiteImage());
    assert WhiteImage().data[0] != 0;
    var t := WhiteMaterialAsWritten().texture;
    assert |t.data| == 4 && t.data[0] == 0 && t.data[1] == 0 && t.data[2] == 0 && t.data[3] == 0;
  }

  /** `RgbaImage::from_raw(w, h, buf)`: accepted when the buffer holds at least
      w * h * 4 bytes, and then it keeps the whole buffer. */
  function FromRaw(w: nat, h: nat, buf: seq<byte>): Option<RgbaImage> {
    if w * h * 4 <= |buf| then Some(RgbaImage(w, h, buf)) else None
  }

  /** `chunks_exact(3)` each extended with an opaque alpha byte; a trailing partial chunk is dropped. */
  function Widened(pixels: seq<byte>): seq<byte>
    decreases |pixels|
  {
    if |pixels| < 3 then []
    else [pixels[0], pixels[1], pixels[2], 255] + Widened(pixels[3..])
  }

  /** The inverse of `Widened`: keep the first three bytes of every four. */
  function Narrowed(rgba: seq<byte>): seq<byte>
    decreases |rgba|
  {
    if |rgba| < 4 then []
    else rgba[..3] + Narrowed(rgba[4..])
  }

  /** Widening gives 4 * floor(len / 3) bytes: byte 4k + c is colour byte c of
      chunk k for c < 3, and byte 4k + 3 is 255. */
  lemma {:induction false} WidenedShape(pixels: seq<byte>)
    ensures |Widened(pixels)| == 4 * (|pixels| / 3)
    ensures forall j :: 0 <= j < |Widened(pixels)| ==>
      Widened(pixels)[j] == if j % 4 == 3 then 255 else pixels[j / 4 * 3 + j % 4]
  {
    if |pixels| >= 3 {
      var rest := pixels[3..];
      WidenedShape(rest);
      assert |rest| / 3 == |pixels| / 3 - 1;
      forall j | 4 <= j < |Widened(pixels)|
        ensures Widened(pixels)[j] == if j % 4 == 3 then 255 else pixels[j / 4 * 3 + j % 4]
      {
        assert Widened(pixels)[j] == Widened(rest)[j - 4];
        assert (j - 4) % 4 == j % 4 && (j - 4) / 4 == j / 4 - 1;
        if j % 4 != 3 {
          assert rest[(j - 4) / 4 * 3 + (j - 4) % 4] == pixels[j / 4 * 3 + j % 4];
        }
      }
    }
  }

  /** Dropping the alpha bytes of a widened buffer gives back every complete RGB chunk. */
  lemma {:induction false} WidenRoundTrip(pixels: seq<byte>)
    ensures Narrowed(Widened(pixels)) == pixels[..3 * (|pixels| / 3)]
  {
    if |pixels| >= 3 {
      var rest := pixels[3..];
      WidenRoundTrip(rest);
      var w := Widened(pixels);
      assert w[..3] == pixels[..3];
      assert w[4..] == Widened(rest);
      assert |rest| / 3 == |pixels| / 3 - 1;
      calc {
        Narrowed(w);
        w[..3] + Narrowed(w[4..]);
        pixels[..3] + rest[..3 * (|rest| / 3)];
        { assert pixels[..3 * (|pixels| / 3)] == pixels[..3] + rest[..3 * (|rest| / 3)]; }
        pixels[..3 * (|pixels| / 3)];
      }
    }
  }

  /** The loop of the R8G8B8 branch of `make_texture_material`. */
  method WidenRgb(pixels: seq<byte>) returns (out: seq<byte>)
    ensures out == Widened(pixels)
  {
    out := [];
    var i := 0;
    while i + 3 <= |pixels|
      invariant 0 <= i <= |pixels| && i % 3 == 0
      invariant out + Widened(pixels[i..]) == Widened(pixels)
      decreases |pixels| - i
    {
      assert pixels[i..][3..] == pixels[i + 3..];
      out := out + [pixels[i], pixels[i + 1], pixels[i + 2], 255];
      i := i + 3;
    }
  }

  /** The image a document material's base-colour texture refers to
      (`images.get(index)`: none when the index is out of range). */
  function BaseColorImage(doc: Document, m: DocMaterial): Option<ImageData> {
    match m.baseColorSource
    case Some(ix) => if ix < |doc.images| then Some(doc.images[ix]) else None
    case None => None
  }

  /** The RGBA image `make_texture_material` uploads for an optional source image. */
  function TextureImage(img: Option<ImageData>): RgbaImage {
    match img
    case None => WhiteImage()
    case Some(g) =>
      match g.format
      case R8G8B8A8 => FromRaw(g.width, g.height, g.pixels).GetOr(WhiteImage())
      case R8G8B8 => FromRaw(g.width, g.height, Widened(g.pixels)).GetOr(WhiteImage())
      case _ => WhiteImage()
  }

  /** The texture is the 1x1 opaque white image exactly in the three fallback cases
      (no image, a format other than RGB8/RGBA8, too few bytes for w * h * 4);
      otherwise it is the image with its pixels as given (RGBA8) or widened (RGB8). */
  lemma TextureFallback(img: Option<ImageData>)
    ensures img.None? ==> TextureImage(img) == WhiteImage()
    ensures img.Some? && img.value.format !in {R8G8B8, R8G8B8A8} ==> TextureImage(img) == WhiteImage()
    ensures img.Some? && img.value.format == R8G8B8A8 ==>
      var g := img.value;
      TextureImage(img) == if g.width * g.height * 4 <= |g.pixels| then RgbaImage(g.width, g.height, g.pixels) else WhiteImage()
    ensures img.Some? && img.value.format == R8G8B8 ==>
      var g := img.value;
      TextureImage(img) ==
        if g.width * g.height * 4 <= 4 * (|g.pixels| / 3) then RgbaImage(g.width, g.height, Widened(g.pixels)) else WhiteImage()
  {
    if img.Some? && img.value.format == R8G8B8 {
      WidenedShape(img.value.pixels);
    }
  }

  /** A well-formed decoded image never falls back to white: RGBA8 pixels of exactly
      4 * w * h bytes are kept as they are, and RGB8 pixels of exactly 3 * w * h bytes
      are kept widened to 4 * w * h bytes. */
  lemma WellSizedImageKept(g: ImageData)
    ensures g.format == R8G8B8A8 && |g.pixels| == 4 * g.width * g.height ==>
      TextureImage(Some(g)) == RgbaImage(g.width, g.height, g.pixels)
    ensures g.format == R8G8B8 && |g.pixels| == 3 * g.width * g.height ==>
      TextureImage(Some(g)) == RgbaImage(g.width, g.height, Widened(g.pixels)) &&
      |TextureImage(Some(g)).data| == 4 * g.width * g.height
  {
    if g.format == R8G8B8 && |g.pixels| == 3 * g.width * g.height {
      WidenedShape(g.pixels);
      assert |g.pixels| / 3 == g.width * g.height;
    }
  }

  /** `make_texture_material`: the pixel conversion and fallbacks; the texture and
      sampler creation are GPU calls. */
  method MakeTextureMaterial(img: Option<ImageData>) returns (m: Material)
    ensures m == Material(TextureImage(img))
  {
    var rgba := WhiteImage();
    if img.Some? {
      var g := img.value;
      match g.format {
        case R8G8B8A8 =>
          rgba := FromRaw(g.width, g.height, g.pixels).GetOr(WhiteImage());
        case R8G8B8 =>
          var out := WidenRgb(g.pixels);
          rgba := FromRaw(g.width, g.height, out).GetOr(WhiteImage());
        case _ =>
      }
    }
    m := Material(rgba);
  }

  /** The material list: one white material for a document without materials,
      otherwise one material per document material. */
  function MaterialList(doc: Document): seq<Material> {
    if |doc.materials| == 0 then [WhiteMaterial()]
    else
      seq(|doc.materials|, i requires 0 <= i < |doc.materials| =>
        Material(TextureImage(BaseColorImage(doc, doc.materials[i]))))
  }

  lemma MaterialListShape(doc: Document)
    ensures |MaterialList(doc)| >= 1
    ensures |doc.materials| == 0 ==> MaterialList(doc) == [WhiteMaterial()]
    ensures |doc.materials| > 0 ==> |MaterialList(doc)| == |doc.materials|
    ensures |doc.materials| > 0 ==> forall i :: 0 <= i < |doc.materials| ==>
      MaterialList(doc)[i] == Material(TextureImage(BaseColorImage(doc, doc.materials[i])))
  {
  }

  /** The first loop of `load_gltf_model`. */
  method BuildMaterials(doc: Document) returns (materials: seq<Material>)
    ensures materials == MaterialList(doc)
  {
    materials := [];
    if |doc.materials| == 0 {
      materials := materials + [WhiteMaterial()];
    } else {
      var i := 0;
      while i < |doc.materials|
        invariant 0 <= i <= |doc.materials|
        invariant materials == MaterialList(doc)[..i]
      {
        var m := MakeTextureMaterial(BaseColorImage(doc, doc.materials[i]));
        materials := materials + [m];
        i := i + 1;
      }
    }
  }

  // ---------------------------------------------------------------------------
  // Vertices, indices, bounds
  // ---------------------------------------------------------------------------

  /** Default normal when the primitive has none (glTF would compute flat normals). */
  const DEFAULT_NORMAL: Vec3 := Vec3(0.0, 1.0, 0.0)
  const DEFAULT_UV: Vec2 := Vec2(0.0, 0.0)

  function Min(a: nat, b: nat): nat { if a <= b then a else b }

  /** How many vertices the zipped streams yield: `zip` stops at the shortest present stream. */
  function ZipCount(positions: seq<Vec3>, normals: Option<seq<Vec3>>, uvs: Option<seq<Vec2>>): nat {
    match (normals, uvs)
    case (Some(ns), Some(ts)) => Min(Min(|positions|, |ns|), |ts|)
    case (Some(ns), None) => Min(|positions|, |ns|)
    case (None, Some(ts)) => Min(|positions|, |ts|)
    case (None, None) => |positions|
  }

  /** Vertex `i` of the zipped streams, with the defaults for absent streams. */
  function VertexAt(positions: seq<Vec3>, normals: Option<seq<Vec3>>, uvs: Option<seq<Vec2>>, i: nat): Vertex
    requires i < ZipCount(positions, normals, uvs)
  {
    Vertex(
      positions[i],
      match normals case Some(ns) => ns[i] case None => DEFAULT_NORMAL,
      match uvs case Some(ts) => ts[i] case None => DEFAULT_UV)
  }

  function Vertices(positions: seq<Vec3>, normals: Option<seq<Vec3>>, uvs: Option<seq<Vec2>>): seq<Vertex> {
    seq(ZipCount(positions, normals, uvs), i requires 0 <= i < ZipCount(positions, normals, uvs) =>
      VertexAt(positions, normals, uvs, i))
  }

  /** The vertex count is the length of the shortest present stream; vertex i keeps
      position i, takes normal i or (0, 1, 0), and uv i or (0, 0). */
  lemma VerticesFaithful(positions: seq<Vec3>, normals: Option<seq<Vec3>>, uvs: Option<seq<Vec2>>)
    ensures var n := |Vertices(positions, normals, uvs)|;
      n <= |positions| &&
      (normals.Some? ==> n <= |normals.value|) &&
      (uvs.Some? ==> n <= |uvs.value|) &&
      (n == |positions| || (normals.Some? && n == |normals.value|) || (uvs.Some? && n == |uvs.value|))
    ensures forall i :: 0 <= i < |Vertices(positions, normals, uvs)| ==>
      var v := Vertices(positions, normals, uvs)[i];
      v.pos == positions[i] &&
      v.nrm == (if normals.Some? then normals.value[i] else DEFAULT_NORMAL) &&
      v.uv == (if uvs.Some? then uvs.value[i] else DEFAULT_UV)
  {
  }

  function MinR(a: real, b: real): real { if a <= b then a else b }
  function MaxR(a: real, b: real): real { if a >= b then a else b }

  /** `min_v = min_v.min(p); max_v = max_v.max(p)` */
  function Include(b: Aabb, p: Vec3): Aabb {
    match b
    case Empty => Box(p, p)
    case Box(lo, hi) =>
      Box(Vec3(MinR(lo.x, p.x), MinR(lo.y, p.y), MinR(lo.z, p.z)),
          Vec3(MaxR(hi.x, p.x), MaxR(hi.y, p.y), MaxR(hi.z, p.z)))
  }

  /** The box after including `ps` in order. */
  function IncludeAll(b: Aabb, ps: seq<Vec3>): Aabb
    decreases |ps|
  {
    if ps == [] then b else Include(IncludeAll(b, ps[..|ps| - 1]), ps[|ps| - 1])
  }

  /** `min_v <= p <= max_v` componentwise. */
  predicate Contains(b: Aabb, p: Vec3) {
    b.Box? &&
    b.lo.x <= p.x <= b.hi.x && b.lo.y <= p.y <= b.hi.y && b.lo.z <= p.z <= b.hi.z
  }

  /** Including points never loses a point already inside, and every included point is inside. */
  lemma {:induction false} IncludeAllContains(b: Aabb, ps: seq<Vec3>)
    ensures forall q :: Contains(b, q) ==> Contains(IncludeAll(b, ps), q)
    ensures forall i :: 0 <= i < |ps| ==> Contains(IncludeAll(b, ps), ps[i])
    ensures ps != [] ==> IncludeAll(b, ps).Box?
    decreases |ps|
  {
    if ps != [] {
      var init := ps[..|ps| - 1];
      IncludeAllContains(b, init);
      forall i | 0 <= i < |ps| - 1
        ensures Contains(IncludeAll(b, init), ps[i])
      {
        assert ps[i] == init[i];
      }
    }
  }

  /** The index list when the primitive has none: `(0..verts.len() as u32).collect()`.
      The count is cast to u32 first, so it wraps for 2^32 vertices or more. */
  function SynthesizedIndices(vertexCount: nat): seq<u32> {
    seq(vertexCount % U32_MODULUS, i requires 0 <= i < vertexCount % U32_MODULUS => i)
  }

  /** Vertex assembly of one primitive, also growing the bounding box by every position used. */
  method AssembleVertices(positions: seq<Vec3>, normals: Option<seq<Vec3>>, uvs: Option<seq<Vec2>>, bounds: Aabb)
    returns (verts: seq<Vertex>, newBounds: Aabb)
    ensures verts == Vertices(positions, normals, uvs)
    ensures newBounds == IncludeAll(bounds, positions[..|verts|])
  {
    var count := ZipCount(positions, normals, uvs);
    verts, newBounds := [], bounds;
    var i := 0;
    while i < count
      invariant 0 <= i <= count
      invariant verts == Vertices(positions, normals, uvs)[..i]
      invariant newBounds == IncludeAll(bounds, positions[..i])
    {
      var p := positions[i];
      assert positions[..i + 1][..i] == positions[..i];
      newBounds := Include(newBounds, p);
      var v;
      match (normals, uvs) {
        case (Some(ns), Some(ts)) => v := Vertex(p, ns[i], ts[i]);
        case (Some(ns), None) => v := Vertex(p, ns[i], DEFAULT_UV);
        case (None, Some(ts)) => v := Vertex(p, DEFAULT_NORMAL, ts[i]);
        case (None, None) => v := Vertex(p, DEFAULT_NORMAL, DEFAULT_UV);
      }
      verts := verts + [v];
      i := i + 1;
    }
  }

  // ---------------------------------------------------------------------------
  // One primitive -> one mesh record
  // ---------------------------------------------------------------------------

  /** Why the load aborts at this primitive, if it does: the topology is checked first. */
  function PrimitiveError(p: Primitive): Option<LoadError> {
    if p.mode != Triangles then Some(NotTriangles)
    else if p.positions.None? then Some(PositionMissing)
    else None
  }

  function PrimitiveVertices(p: Primitive): seq<Vertex> {
    Vertices(p.positions.GetOr([]), p.normals, p.texCoords)
  }

  /** The positions the loader reads from the primitive (those that make it into a vertex). */
  function SeenPositions(p: Primitive): seq<Vec3> {
    p.positions.GetOr([])[..ZipCount(p.positions.GetOr([]), p.normals, p.texCoords)]
  }

  /** The mesh record `load_gltf_model` pushes for a primitive. */
  function MeshOf(p: Primitive): GpuMesh {
    var verts := PrimitiveVertices(p);
    var indices := match p.indices case Some(ix) => ix case None => SynthesizedIndices(|verts|);
    GpuMesh(verts, indices, |indices| % U32_MODULUS, p.material.GetOr(0))
  }

  /** Index list, index count and material of a mesh record: the primitive's own indices
      or 0, 1, ..., n-1 for its n vertices; the count is the list's length (as u32); the
      material is the primitive's, or 0 when it names none. */
  lemma MeshOfFaithful(p: Primitive)
    ensures MeshOf(p).vertices == PrimitiveVertices(p)
    ensures p.indices.Some? ==> MeshOf(p).indices == p.indices.value
    ensures p.indices.None? && |MeshOf(p).vertices| < U32_MODULUS ==>
      |MeshOf(p).indices| == |MeshOf(p).vertices| &&
      forall i :: 0 <= i < |MeshOf(p).indices| ==> MeshOf(p).indices[i] == i
    ensures |MeshOf(p).indices| < U32_MODULUS ==> MeshOf(p).indexCount == |MeshOf(p).indices|
    ensures MeshOf(p).materialId == if p.material.Some? then p.material.value else 0
  {
  }

  /** The work of one iteration of the innermost loop of `load_gltf_model`. */
  method LoadPrimitive(p: Primitive, bounds: Aabb) returns (r: Result<(GpuMesh, Aabb), LoadError>)
    ensures PrimitiveError(p).Some? ==> r == Failure(PrimitiveError(p).value)
    ensures PrimitiveError(p).None? ==> r == Success((MeshOf(p), IncludeAll(bounds, SeenPositions(p))))
  {
    if p.mode != Triangles {
      return Failure(NotTriangles);
    }
    if p.positions.None? {
      return Failure(PositionMissing);
    }
    var verts, newBounds := AssembleVertices(p.positions.value, p.normals, p.texCoords, bounds);
    var indices := match p.indices case Some(ix) => ix case None => SynthesizedIndices(|verts|);
    var matIx := p.material.GetOr(0);
    var mesh := GpuMesh(verts, indices, |indices| % U32_MODULUS, matIx);
    r := Success((mesh, newBounds));
  }

  // ---------------------------------------------------------------------------
  // The traversal and the whole load
  // ---------------------------------------------------------------------------

  function NodePrimitives(n: Node): seq<Primitive> {
    match n.mesh
    case Some(m) => m.primitives
    case None => []
  }

  /** The primitives of the given nodes' own meshes, in order; children are not visited. */
  function NodesPrimitives(nodes: seq<Node>): seq<Primitive> {
    if nodes == [] then [] else NodePrimitives(nodes[0]) + NodesPrimitives(nodes[1..])
  }

  function ScenesPrimitives(scenes: seq<Scene>): seq<Primitive> {
    if scenes == [] then [] else NodesPrimitives(scenes[0].nodes) + ScenesPrimitives(scenes[1..])
  }

  /** Every primitive the loader visits, in traversal order. */
  function Primitives(doc: Document): seq<Primitive> { ScenesPrimitives(doc.scenes) }

  /** The abort of the first offending primitive, if any. */
  function FirstError(ps: seq<Primitive>): Option<LoadError>
    decreases |ps|
  {
    if ps == [] then None
    else if FirstError(ps[..|ps| - 1]).Some? then FirstError(ps[..|ps| - 1])
    else PrimitiveError(ps[|ps| - 1])
  }

  function MeshesOf(ps: seq<Primitive>): seq<GpuMesh> {
    seq(|ps|, i requires 0 <= i < |ps| => MeshOf(ps[i]))
  }

  /** The running bounding box after the given primitives. */
  function BoundsOf(ps: seq<Primitive>): Aabb
    decreases |ps|
  {
    if ps == [] then Empty else IncludeAll(BoundsOf(ps[..|ps| - 1]), SeenPositions(ps[|ps| - 1]))
  }

  /** What `load_gltf_model` returns for a document (after `gltf::import` succeeded). */
  function Load(doc: Document): Result<Model, LoadError> {
    var prims := Primitives(doc);
    match FirstError(prims)
    case Some(e) => Failure(e)
    case None => Success(Model(MeshesOf(prims), MaterialList(doc), BoundsOf(prims)))
  }

  /** An error in a prefix is the first error of the whole sequence. */
  lemma {:induction false} FirstErrorExtend(a: seq<Primitive>, b: seq<Primitive>)
    requires FirstError(a).Some?
    ensures FirstError(a + b) == FirstError(a)
    decreases |b|
  {
    if b != [] {
      var b' := b[..|b| - 1];
      FirstErrorExtend(a, b');
      assert (a + b)[..|a + b| - 1] == a + b';
      assert FirstError(a + b) == FirstError(a + b');
    } else {
      assert a + b == a;
    }
  }

  /** The load aborts exactly when some visited primitive is not a triangle list or has no
      POSITION, and then with that primitive's reason when it is the first such one. */
  lemma {:induction false} FirstErrorIsFirstBad(ps: seq<Primitive>)
    ensures FirstError(ps).None? <==> forall i :: 0 <= i < |ps| ==> PrimitiveError(ps[i]).None?
    ensures FirstError(ps).Some? ==>
      exists i :: (0 <= i < |ps| &&
        FirstError(ps) == PrimitiveError(ps[i]) &&
        forall j :: 0 <= j < i ==> PrimitiveError(ps[j]).None?)
    decreases |ps|
  {
    if ps != [] {
      var init := ps[..|ps| - 1];
      FirstErrorIsFirstBad(init);
      assert forall i :: 0 <= i < |init| ==> init[i] == ps[i];
      if FirstError(init).None? {
        if FirstError(ps).Some? {
          var k := |ps| - 1;
          assert FirstError(ps) == PrimitiveError(ps[k]);
        }
      }
    }
  }

  /** Every position of every loaded vertex lies inside the final bounding box. */
  lemma {:induction false} BoundsCoverMeshes(ps: seq<Primitive>)
    ensures forall i, j :: 0 <= i < |ps| && 0 <= j < |MeshOf(ps[i]).vertices| ==>
      Contains(BoundsOf(ps), MeshOf(ps[i]).vertices[j].pos)
    decreases |ps|
  {
    if ps != [] {
      var init := ps[..|ps| - 1];
      var last := ps[|ps| - 1];
      BoundsCoverMeshes(init);
      IncludeAllContains(BoundsOf(init), SeenPositions(last));
      forall i, j | 0 <= i < |ps| && 0 <= j < |MeshOf(ps[i]).vertices|
        ensures Contains(BoundsOf(ps), MeshOf(ps[i]).vertices[j].pos)
      {
        if i < |ps| - 1 {
          assert ps[i] == init[i];
        } else {
          assert MeshOf(last).vertices[j].pos == SeenPositions(last)[j];
        }
      }
    }
  }

  /** The outcome of visiting `ps` after the primitives `done` were visited without error:
      the abort of the first offending primitive, or the mesh list and box so far. */
  function Extend(done: seq<Primitive>, ps: seq<Primitive>): Result<(seq<GpuMesh>, Aabb), LoadError> {
    match FirstError(done + ps)
    case Some(e) => Failure(e)
    case None => Success((MeshesOf(done + ps), BoundsOf(done + ps)))
  }

  /** The loop state after visiting `done` without error. */
  ghost predicate Visited(done: seq<Primitive>, meshes: seq<GpuMesh>, bounds: Aabb) {
    FirstError(done).None? && meshes == MeshesOf(done) && bounds == BoundsOf(done)
  }

  /** `for prim in mesh.primitives() { ... }` */
  method LoadMeshPrimitives(prims: seq<Primitive>, ghost done: seq<Primitive>, meshes: seq<GpuMesh>, bounds: Aabb)
    returns (r: Result<(seq<GpuMesh>, Aabb), LoadError>)
    requires Visited(done, meshes, bounds)
    ensures r == Extend(done, prims)
  {
    var ms, bs := meshes, bounds;
    var k := 0;
    assert done + prims[..0] == done;
    while k < |prims|
      invariant 0 <= k <= |prims|
      invariant Visited(done + prims[..k], ms, bs)
    {
      var p := prims[k];
      ghost var before := done + prims[..k];
      assert done + prims[..k + 1] == before + [p];
      assert (before + [p])[..|before|] == before;
      var res := LoadPrimitive(p, bs);
      if res.Failure? {
        assert done + prims == before + [p] + prims[k + 1..];
        FirstErrorExtend(before + [p], prims[k + 1..]);
        return Failure(res.error);
      }
      ms := ms + [res.value.0];
      bs := res.value.1;
      k := k + 1;
    }
    assert prims[..k] == prims;
    r := Success((ms, bs));
  }

  /** `for node in scene.nodes() { if let Some(mesh) = node.mesh() { ... } }` */
  method LoadNodes(nodes: seq<Node>, ghost done: seq<Primitive>, meshes: seq<GpuMesh>, bounds: Aabb)
    returns (r: Result<(seq<GpuMesh>, Aabb), LoadError>)
    requires Visited(done, meshes, bounds)
    ensures r == Extend(done, NodesPrimitives(nodes))
  {
    var ms, bs := meshes, bounds;
    ghost var seen := done;
    var n := 0;
    while n < |nodes|
      invariant 0 <= n <= |nodes|
      invariant seen + NodesPrimitives(nodes[n..]) == done + NodesPrimitives(nodes)
      invariant Visited(seen, ms, bs)
    {
      ghost var here := NodePrimitives(nodes[n]);
      ghost var later := NodesPrimitives(nodes[n + 1..]);
      assert nodes[n..][1..] == nodes[n + 1..];
      assert NodesPrimitives(nodes[n..]) == here + later;
      assert done + NodesPrimitives(nodes) == (seen + here) + later;
      var res;
      if nodes[n].mesh.Some? {
        res := LoadMeshPrimitives(nodes[n].mesh.value.primitives, seen, ms, bs);
      } else {
        assert seen + here == seen;
        res := Success((ms, bs));
      }
      assert res == Extend(seen, here);
      if res.Failure? {
        FirstErrorExtend(seen + here, later);
        return Failure(res.error);
      }
      seen := seen + here;
      ms, bs := res.value.0, res.value.1;
      n := n + 1;
    }
    assert nodes[n..] == [];
    assert seen == done + NodesPrimitives(nodes);
    r := Success((ms, bs));
  }

  /** `for scene in doc.scenes() { ... }` */
  method LoadScenes(scenes: seq<Scene>) returns (r: Result<(seq<GpuMesh>, Aabb), LoadError>)
    ensures r == Extend([], ScenesPrimitives(scenes))
  {
    var ms: seq<GpuMesh>, bs := [], Empty;
    ghost var seen: seq<Primitive> := [];
    var s := 0;
    while s < |scenes|
      invariant 0 <= s <= |scenes|
      invariant seen + ScenesPrimitives(scenes[s..]) == ScenesPrimitives(scenes)
      invariant Visited(seen, ms, bs)
    {
      ghost var here := NodesPrimitives(scenes[s].nodes);
      ghost var later := ScenesPrimitives(scenes[s + 1..]);
      assert scenes[s..][1..] == scenes[s + 1..];
      assert ScenesPrimitives(scenes[s..]) == here + later;
      assert [] + ScenesPrimitives(scenes) == (seen + here) + later;
      var res := LoadNodes(scenes[s].nodes, seen, ms, bs);
      if res.Failure? {
        FirstErrorExtend(seen + here, later);
        return Failure(res.error);
      }
      seen := seen + here;
      ms, bs := res.value.0, res.value.1;
      s := s + 1;
    }
    assert [] + ScenesPrimitives(scenes) == seen;
    r := Success((ms, bs));
  }

  /** `load_gltf_model` from the imported document on: materials first, then the walk. */
  method LoadModel(doc: Document) returns (r: Result<Model, LoadError>)
    ensures r == Load(doc)
  {
    var materials := BuildMaterials(doc);
    var walked := LoadScenes(doc.scenes);
    assert [] + Primitives(doc) == Primitives(doc);
    match walked {
      case Failure(e) => r := Failure(e);
      case Success((meshes, bounds)) => r := Success(Model(meshes, materials, bounds));
    }
  }

  // ---------------------------------------------------------------------------
  // Properties of a whole load
  // ---------------------------------------------------------------------------

  /** A successful load has at least one material, one mesh per visited primitive in
      traversal order, each with its own index count and material, and a bounding box
      containing every vertex position. */
  lemma LoadSucceeds(doc: Document)
    requires Load(doc).Success?
    ensures var m := Load(doc).value;
      |m.materials| >= 1 &&
      |m.meshes| == |Primitives(doc)| &&
      (forall i :: 0 <= i < |m.meshes| ==> m.meshes[i] == MeshOf(Primitives(doc)[i])) &&
      (forall i, j :: 0 <= i < |m.meshes| && 0 <= j < |m.meshes[i].vertices| ==> Contains(m.bounds, m.meshes[i].vertices[j].pos))
  {
    MaterialListShape(doc);
    BoundsCoverMeshes(Primitives(doc));
  }

  /** The load fails exactly when a visited primitive is not a triangle list or has no POSITION. */
  lemma LoadFailsIff(doc: Document)
    ensures Load(doc).Failure? <==> exists i :: 0 <= i < |Primitives(doc)| && PrimitiveError(Primitives(doc)[i]).Some?
  {
    FirstErrorIsFirstBad(Primitives(doc));
  }

  function StripNode(n: Node): Node { Node(n.mesh, []) }

  function StripNodes(nodes: seq<Node>): seq<Node> {
    seq(|nodes|, i requires 0 <= i < |nodes| => StripNode(nodes[i]))
  }

  function StripScenes(scenes: seq<Scene>): seq<Scene> {
    seq(|scenes|, i requires 0 <= i < |scenes| => Scene(StripNodes(scenes[i].nodes)))
  }

  /** The document with every root node's children removed. */
  function StripChildren(doc: Document): Document {
    doc.(scenes := StripScenes(doc.scenes))
  }

  lemma {:induction false} StripNodesSame(nodes: seq<Node>)
    ensures NodesPrimitives(StripNodes(nodes)) == NodesPrimitives(nodes)
    decreases |nodes|
  {
    if nodes != [] {
      StripNodesSame(nodes[1..]);
      assert StripNodes(nodes)[1..] == StripNodes(nodes[1..]);
      assert StripNodes(nodes)[0] == StripNode(nodes[0]);
    }
  }

  lemma {:induction false} StripScenesSame(scenes: seq<Scene>)
    ensures ScenesPrimitives(StripScenes(scenes)) == ScenesPrimitives(scenes)
    decreases |scenes|
  {
    if scenes != [] {
      StripScenesSame(scenes[1..]);
      StripNodesSame(scenes[0].nodes);
      assert StripScenes(scenes)[1..] == StripScenes(scenes[1..]);
      assert StripScenes(scenes)[0].nodes == StripNodes(scenes[0].nodes);
    }
  }

  /** Child nodes are never visited: removing them does not change the load. */
  lemma ChildrenIgnored(doc: Document)
    ensures Load(StripChildren(doc)) == Load(doc)
  {
    StripScenesSame(doc.scenes);
    assert Primitives(StripChildren(doc)) == Primitives(doc);
    assert MaterialList(StripChildren(doc)) == MaterialList(doc);
  }

  // ---------------------------------------------------------------------------
  // The recommended transform's scalar parts
  // ---------------------------------------------------------------------------

  const MIN_EXTENT: real := 0.00001

  function MaxOf3(a: real, b: real, c: real): real { MaxR(MaxR(a, b), c) }

  /** `extent.max_element().max(1e-5)`. An empty box has extent -inf, so it gives 1e-5. */
  function MaxDim(b: Aabb): (d: real)
    ensures d >= MIN_EXTENT
    ensures b.Box? ==> d >= b.hi.x - b.lo.x && d >= b.hi.y - b.lo.y && d >= b.hi.z - b.lo.z
  {
    match b
    case Empty => MIN_EXTENT
    case Box(lo, hi) => MaxR(MaxOf3(hi.x - lo.x, hi.y - lo.y, hi.z - lo.z), MIN_EXTENT)
  }

  /** `(min_v + max_v) * 0.5`; for an empty box this is NaN, which the model leaves undefined. */
  function Center(b: Aabb): Vec3
    requires b.Box?
  {
    Vec3((b.lo.x + b.hi.x) / 2.0, (b.lo.y + b.hi.y) / 2.0, (b.lo.z + b.hi.z) / 2.0)
  }

  /** The uniform scale factor of the transform: `scale * 2.0` with `scale = 1.0 / max_dim`. */
  function ScaleFactor(b: Aabb): (f: real)
    ensures f > 0.0
  {
    2.0 / MaxDim(b)
  }

  /** One coordinate under the transform: translate by -center, then scale. */
  function Normalised(x: real, c: real, f: real): real { (x - c) * f }

  lemma NormalisedCoordinate(x: real, lo: real, hi: real, d: real)
    requires lo <= x <= hi && d >= hi - lo && d > 0.0
    ensures -1.0 <= Normalised(x, (lo + hi) / 2.0, 2.0 / d) <= 1.0
  {
    var c := (lo + hi) / 2.0;
    assert -d <= 2.0 * (x - c) <= d;
    assert Normalised(x, c, 2.0 / d) == 2.0 * (x - c) / d;
  }

  /** Over the reals, the recommended transform maps every point of the box into
      the cube [-1, 1]^3, so the model fits a view of diameter 2. */
  lemma TransformFitsUnitCube(b: Aabb, p: Vec3)
    requires Contains(b, p)
    ensures -1.0 <= Normalised(p.x, Center(b).x, ScaleFactor(b)) <= 1.0
    ensures -1.0 <= Normalised(p.y, Center(b).y, ScaleFactor(b)) <= 1.0
    ensures -1.0 <= Normalised(p.z, Center(b).z, ScaleFactor(b)) <= 1.0
  {
    NormalisedCoordinate(p.x, b.lo.x, b.hi.x, MaxDim(b));
    NormalisedCoordinate(p.y, b.lo.y, b.hi.y, MaxDim(b));
    NormalisedCoordinate(p.z, b.lo.z, b.hi.z, MaxDim(b));
  }
}
