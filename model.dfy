/**
 * The record types shared by the loader and the renderer (src/graphics/model.rs):
 * the vertex record and its vertex-buffer layout descriptor, the per-primitive
 * mesh record, the material, the loaded model, and the per-model uniform payload.
 *
 * `f32` values are modelled as `real`; GPU buffers are modelled by the contents
 * that were uploaded into them, and a material by the texture image it binds.
 */
module Model {

  newtype byte = x: int | 0 <= x < 256

  const U32_MODULUS: int := 0x1_0000_0000
  type u32 = x: int | 0 <= x < 0x1_0000_0000

  /** `std::mem::size_of::<f32>()` */
  const F32_SIZE: nat := 4

  datatype Vec2 = Vec2(x: real, y: real)
  datatype Vec3 = Vec3(x: real, y: real, z: real)
  datatype Vec4 = Vec4(x: real, y: real, z: real, w: real)

  /** A 4x4 matrix stored as four columns, as glam's `Mat4` is. */
  datatype Mat4 = Mat4(xAxis: Vec4, yAxis: Vec4, zAxis: Vec4, wAxis: Vec4)

  /** `Vertex { pos: [f32; 3], nrm: [f32; 3], uv: [f32; 2] }` with `#[repr(C)]`. */
  datatype Vertex = Vertex(pos: Vec3, nrm: Vec3, uv: Vec2)

  /** The f32 components of field `k` of a vertex (0 = pos, 1 = nrm, 2 = uv). */
  function FieldComponents(v: Vertex, k: nat): (c: seq<real>)
    requires k < 3
    ensures |c| == VERTEX_FIELDS[k].len
  {
    if k == 0 then [v.pos.x, v.pos.y, v.pos.z]
    else if k == 1 then [v.nrm.x, v.nrm.y, v.nrm.z]
    else [v.uv.x, v.uv.y]
  }

  /** The vertex as it lies in memory: its fields' components back to back, in declaration order. */
  function Components(v: Vertex): seq<real> {
    FieldComponents(v, 0) + FieldComponents(v, 1) + FieldComponents(v, 2)
  }

  // ---------------------------------------------------------------------------
  // `#[repr(C)]` layout of a record whose fields are f32 arrays
  // ---------------------------------------------------------------------------

  /** A field type `[f32; len]`. */
  datatype FieldType = F32Array(len: nat)

  function FieldSize(t: FieldType): nat { F32_SIZE * t.len }

  /** The alignment of `f32`, and so of every field and of the whole record here. */
  const F32_ALIGN: nat := 4

  /** The declared fields of `Vertex`, in order. */
  const VERTEX_FIELDS: seq<FieldType> := [F32Array(3), F32Array(3), F32Array(2)]

  /** The least multiple of the f32 alignment that is at least `n`. */
  function AlignUp(n: nat): (r: nat)
    ensures n <= r < n + F32_ALIGN && r % F32_ALIGN == 0
  {
    if n % F32_ALIGN == 0 then n else n + (F32_ALIGN - n % F32_ALIGN)
  }

  /** The offsets `#[repr(C)]` gives the fields when the record's first byte is at `start`:
      each field at the first suitably aligned offset after the previous one. */
  function ReprCOffsets(fields: seq<FieldType>, start: nat): seq<nat>
  {
    if fields == [] then []
    else
      var at := AlignUp(start);
      [at] + ReprCOffsets(fields[1..], at + FieldSize(fields[0]))
  }

  /** The offset just past the last field. */
  function ReprCEnd(fields: seq<FieldType>, start: nat): nat
  {
    if fields == [] then start
    else ReprCEnd(fields[1..], AlignUp(start) + FieldSize(fields[0]))
  }

  /** `size_of` a `#[repr(C)]` record: the end of its last field rounded up to its alignment. */
  function SizeOf(fields: seq<FieldType>): nat {
    AlignUp(ReprCEnd(fields, 0))
  }

  /** `std::mem::size_of::<Vertex>()` */
  function VertexSize(): nat { SizeOf(VERTEX_FIELDS) }

  /** For a record made only of f32 arrays no padding is inserted: every field
      starts where the previous one ends, and the record ends where its last field does. */
  lemma {:induction false} ReprCPacked(fields: seq<FieldType>, start: nat)
    requires start % F32_SIZE == 0
    ensures |ReprCOffsets(fields, start)| == |fields|
    ensures |fields| > 0 ==> ReprCOffsets(fields, start)[0] == start
    ensures forall k :: 0 <= k < |fields| - 1 ==>
      ReprCOffsets(fields, start)[k + 1] == ReprCOffsets(fields, start)[k] + FieldSize(fields[k])
    ensures |fields| > 0 ==>
      ReprCEnd(fields, start) == ReprCOffsets(fields, start)[|fields| - 1] + FieldSize(fields[|fields| - 1])
    ensures ReprCEnd(fields, start) % F32_SIZE == 0
  {
    if fields != [] {
      var next := start + FieldSize(fields[0]);
      assert AlignUp(start) == start;
      assert next % F32_SIZE == 0;
      ReprCPacked(fields[1..], next);
      var tail := ReprCOffsets(fields[1..], next);
      assert ReprCOffsets(fields, start) == [start] + tail;
      forall k | 0 <= k < |fields| - 1
        ensures ReprCOffsets(fields, start)[k + 1] == ReprCOffsets(fields, start)[k] + FieldSize(fields[k])
      {
        if k > 0 {
          assert fields[1..][k - 1] == fields[k];
        }
      }
    }
  }

  // ---------------------------------------------------------------------------
  // `Vertex::layout`: the vertex-buffer layout descriptor
  // ---------------------------------------------------------------------------

  datatype VertexFormat = Float32 | Float32x2 | Float32x3 | Float32x4

  function FormatComponents(f: VertexFormat): nat {
    match f
    case Float32 => 1
    case Float32x2 => 2
    case Float32x3 => 3
    case Float32x4 => 4
  }

  function FormatSize(f: VertexFormat): nat { F32_SIZE * FormatComponents(f) }

  datatype VertexAttribute = VertexAttribute(format: VertexFormat, offset: nat, shaderLocation: nat)

  datatype VertexStepMode = StepVertex | StepInstance

  datatype VertexBufferLayout = VertexBufferLayout(arrayStride: nat, stepMode: VertexStepMode, attributes: seq<VertexAttribute>)

  /** `wgpu::vertex_attr_array![loc => format, ...]`: attributes packed back to back from `offset`. */
  function AttrArray(entries: seq<(nat, VertexFormat)>, offset: nat): seq<VertexAttribute>
  {
    if entries == [] then []
    else [VertexAttribute(entries[0].1, offset, entries[0].0)] + AttrArray(entries[1..], offset + FormatSize(entries[0].1))
  }

  /** The attribute list of `Vertex::layout`: pos, nrm and uv at shader locations 0, 1, 2. */
  const VERTEX_ATTRS: seq<(nat, VertexFormat)> := [(0, Float32x3), (1, Float32x3), (2, Float32x2)]

  function Layout(): VertexBufferLayout {
    VertexBufferLayout(VertexSize(), StepVertex, AttrArray(VERTEX_ATTRS, 0))
  }

  /** `vertex_attr_array!` keeps the listed locations and formats in order and packs
      the attributes: the first starts at `offset`, each next one where the previous ends. */
  lemma {:induction false} AttrArrayPacked(entries: seq<(nat, VertexFormat)>, offset: nat)
    ensures |AttrArray(entries, offset)| == |entries|
    ensures |entries| > 0 ==> AttrArray(entries, offset)[0].offset == offset
    ensures forall k :: 0 <= k < |entries| ==>
      AttrArray(entries, offset)[k].shaderLocation == entries[k].0 &&
      AttrArray(entries, offset)[k].format == entries[k].1
    ensures forall k :: 0 <= k < |entries| - 1 ==>
      AttrArray(entries, offset)[k + 1].offset == AttrArray(entries, offset)[k].offset + FormatSize(entries[k].1)
  {
    if entries != [] {
      var next := offset + FormatSize(entries[0].1);
      AttrArrayPacked(entries[1..], next);
      var tail := AttrArray(entries[1..], next);
      assert AttrArray(entries, offset) == [VertexAttribute(entries[0].1, offset, entries[0].0)] + tail;
      forall k | 0 < k < |entries|
        ensures AttrArray(entries, offset)[k].shaderLocation == entries[k].0
        ensures AttrArray(entries, offset)[k].format == entries[k].1
      {
        assert entries[1..][k - 1] == entries[k];
      }
      forall k | 0 <= k < |entries| - 1
        ensures AttrArray(entries, offset)[k + 1].offset == AttrArray(entries, offset)[k].offset + FormatSize(entries[k].1)
      {
        if k > 0 {
          assert entries[1..][k - 1] == entries[k];
        }
      }
    }
  }

  /** The layout agrees with the record: stride = size_of::<Vertex>() = 8 f32s = 32 bytes,
      per-vertex stepping, and attribute k reads exactly field k — same offset as `#[repr(C)]`
      gives the field, same number of components — with the last attribute ending at the stride. */
  lemma LayoutMatchesVertex()
    ensures Layout().arrayStride == VertexSize() == 8 * F32_SIZE == 32
    ensures Layout().stepMode == StepVertex
    ensures |Layout().attributes| == |VERTEX_FIELDS| == |ReprCOffsets(VERTEX_FIELDS, 0)| == 3
    ensures forall k :: 0 <= k < 3 ==>
      Layout().attributes[k].shaderLocation == k &&
      Layout().attributes[k].offset == ReprCOffsets(VERTEX_FIELDS, 0)[k] &&
      FormatComponents(Layout().attributes[k].format) == VERTEX_FIELDS[k].len
    ensures Layout().attributes[0].offset == 0
    ensures Layout().attributes[1].offset == 12
    ensures Layout().attributes[2].offset == 24
    ensures Layout().attributes[2].offset + FormatSize(Layout().attributes[2].format) == Layout().arrayStride
  {
    ReprCPacked(VERTEX_FIELDS, 0);
    AttrArrayPacked(VERTEX_ATTRS, 0);
  }

  /** Reading attribute k of a vertex from its in-memory components yields field k. */
  lemma AttributeReadsField(v: Vertex, k: nat, j: nat)
    requires k < 3 && j < VERTEX_FIELDS[k].len
    ensures |Layout().attributes| == 3 && |Components(v)| == 8
    ensures Layout().attributes[k].offset % F32_SIZE == 0
    ensures Layout().attributes[k].offset / F32_SIZE + j < 8
    ensures Components(v)[Layout().attributes[k].offset / F32_SIZE + j] == FieldComponents(v, k)[j]
  {
    LayoutMatchesVertex();
  }

  // ---------------------------------------------------------------------------
  // Mesh, material, model
  // ---------------------------------------------------------------------------

  /** An RGBA8 image: `width` x `height` pixels, four bytes each, in `data`. */
  datatype RgbaImage = RgbaImage(width: nat, height: nat, data: seq<byte>)

  /** A material is its base-colour texture (the sampler and bind group are GPU handles). */
  datatype Material = Material(texture: RgbaImage)

  /** `GpuMesh`: the vertex and index buffers are represented by their uploaded contents. */
  datatype GpuMesh = GpuMesh(vertices: seq<Vertex>, indices: seq<u32>, indexCount: u32, materialId: nat)

  /** The union bounding box of the positions seen so far. `Empty` stands for the
      initial corners `min = (+inf, +inf, +inf)`, `max = (-inf, -inf, -inf)`. */
  datatype Aabb = Empty | Box(lo: Vec3, hi: Vec3)

  /** `Model`: the recommended transform is represented by the bounding box it is computed from. */
  datatype Model = Model(meshes: seq<GpuMesh>, materials: seq<Material>, bounds: Aabb)

  // ---------------------------------------------------------------------------
  // `create_model_ubo`: the uniform payload
  // ---------------------------------------------------------------------------

  function Column(m: Mat4, c: nat): Vec4
    requires c < 4
  {
    if c == 0 then m.xAxis else if c == 1 then m.yAxis else if c == 2 then m.zAxis else m.wAxis
  }

  function Vec4Components(v: Vec4): seq<real> { [v.x, v.y, v.z, v.w] }

  /** `Mat4::to_cols_array`, the contents of the model uniform buffer. */
  function ToColsArray(m: Mat4): seq<real> {
    Vec4Components(m.xAxis) + Vec4Components(m.yAxis) + Vec4Components(m.zAxis) + Vec4Components(m.wAxis)
  }

  /** Size in bytes of the uniform payload written for a matrix. */
  function UboPayloadSize(m: Mat4): nat { |ToColsArray(m)| * F32_SIZE }

  /** The payload is 16 floats, 64 bytes, column after column. */
  lemma UboPayloadColumnMajor(m: Mat4, c: nat, r: nat)
    requires c < 4 && r < 4
    ensures |ToColsArray(m)| == 16 && UboPayloadSize(m) == 64
    ensures ToColsArray(m)[4 * c + r] == Vec4Components(Column(m, c))[r]
  {
  }
}
