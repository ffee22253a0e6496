/**
 * The protobuf codec of Arrow data types, fields and boolean buffers
 * (src/persist-types/src/arrow.rs:86-212). `into_proto` is `Encode*`,
 * `from_proto` is `Decode*`.
 */
module ArrowProto {
  import opened Wrappers

  /** The Arrow data types; `Other` stands for every type the codec does not support. */
  datatype DataType =
    | Null | Boolean
    | UInt8 | UInt16 | UInt32 | UInt64
    | Int8 | Int16 | Int32 | Int64
    | Float32 | Float64
    | Utf8 | Binary
    | FixedSizeBinary(size: int)
    | List(item: Field)
    | Map(entries: Field, sorted: bool)
    | Struct(children: seq<Field>)
    | Other(name: string)

  /**
   * A field: besides its name, nullability and type, an Arrow field holds a
   * metadata map and dictionary settings, none of which the codec sends.
   */
  datatype Field = Field(name: string, nullable: bool, dataType: DataType,
                         metadata: map<string, string>, dictId: int, dictIsOrdered: bool)

  /** `Field::new(name, data_type, nullable)`: no metadata, dictionary id 0, unordered. */
  function NewField(name: string, dataType: DataType, nullable: bool): Field
  {
    Field(name, nullable, dataType, map[], 0, false)
  }

  /** A field whose metadata and dictionary settings are `Field::new`'s defaults, at every level. */
  predicate PlainField(f: Field)
  {
    && f.metadata == map[] && f.dictId == 0 && !f.dictIsOrdered
    && PlainType(f.dataType)
  }

  predicate PlainType(t: DataType)
  {
    match t
    case List(item) => PlainField(item)
    case Map(entries, _) => PlainField(entries)
    case Struct(children) => forall i :: 0 <= i < |children| ==> PlainField(children[i])
    case _ => true
  }

  /** The type with every nested field's metadata and dictionary settings reset to their defaults. */
  function Plain(t: DataType): DataType
  {
    match t
    case List(item) => List(PlainOf(item))
    case Map(entries, sorted) => Map(PlainOf(entries), sorted)
    case Struct(children) => Struct(PlainAll(children))
    case _ => t
  }

  function PlainOf(f: Field): Field
  {
    NewField(f.name, Plain(f.dataType), f.nullable)
  }

  function PlainAll(fs: seq<Field>): (r: seq<Field>)
    ensures |r| == |fs|
  {
    if fs == [] then [] else [PlainOf(fs[0])] + PlainAll(fs[1..])
  }

  /** The protobuf messages: every message-typed field is optional on the wire. */
  datatype ProtoKind =
    | KNull | KBoolean
    | KUint8 | KUint16 | KUint32 | KUint64
    | KInt8 | KInt16 | KInt32 | KInt64
    | KFloat32 | KFloat64
    | KString | KBinary
    | KFixedBinary(fixedSize: int)
    | KList(listItem: ProtoField)
    | KMap(mapMessage: ProtoMap)
    | KStruct(structChildren: seq<ProtoField>)

  datatype ProtoMap = ProtoMap(value: Option<ProtoField>, mapSorted: bool)

  datatype ProtoDataType = ProtoDataType(kind: Option<ProtoKind>)

  datatype ProtoField = ProtoField(fieldName: string, fieldNullable: bool, fieldType: Option<ProtoDataType>)

  datatype ProtoError =
    | MissingField(field: string)
      /** `BooleanBuffer::new` asserts that the buffer holds at least `length` bits. */
    | BufferTooShort

  /** The types `into_proto` accepts; any other type is `unimplemented!`. */
  predicate Supported(t: DataType)
  {
    match t
    case Other(_) => false
    case List(item) => SupportedField(item)
    case Map(entries, _) => SupportedField(entries)
    case Struct(children) => SupportedFields(children)
    case _ => true
  }

  predicate SupportedField(f: Field)
  {
    Supported(f.dataType)
  }

  predicate SupportedFields(fs: seq<Field>)
  {
    forall i :: 0 <= i < |fs| ==> SupportedField(fs[i])
  }

  function EncodeType(t: DataType): (r: ProtoDataType)
    requires Supported(t)
    ensures r.kind.Some?
    ensures t.FixedSizeBinary? ==> r.kind.value == KFixedBinary(t.size)
    ensures t.List? ==> r.kind.value.KList?
    ensures t.Map? ==> r.kind.value.KMap? && r.kind.value.mapMessage.value.Some? && r.kind.value.mapMessage.mapSorted == t.sorted
    ensures t.Struct? ==> r.kind.value.KStruct? && |r.kind.value.structChildren| == |t.children|
  {
    var kind := match t
      case Null => KNull
      case Boolean => KBoolean
      case UInt8 => KUint8
      case UInt16 => KUint16
      case UInt32 => KUint32
      case UInt64 => KUint64
      case Int8 => KInt8
      case Int16 => KInt16
      case Int32 => KInt32
      case Int64 => KInt64
      case Float32 => KFloat32
      case Float64 => KFloat64
      case Utf8 => KString
      case Binary => KBinary
      case FixedSizeBinary(size) => KFixedBinary(size)
      case List(item) => KList(EncodeField(item))
      case Map(entries, sorted) => KMap(ProtoMap(Some(EncodeField(entries)), sorted))
      case Struct(children) => KStruct(EncodeFields(children));
    ProtoDataType(Some(kind))
  }

  function EncodeField(f: Field): (r: ProtoField)
    requires SupportedField(f)
    ensures r.fieldName == f.name && r.fieldNullable == f.nullable && r.fieldType.Some?
  {
    ProtoField(f.name, f.nullable, Some(EncodeType(f.dataType)))
  }

  function EncodeFields(fs: seq<Field>): (r: seq<ProtoField>)
    requires SupportedFields(fs)
    ensures |r| == |fs|
  {
    if fs == [] then [] else [EncodeField(fs[0])] + EncodeFields(fs[1..])
  }

  function DecodeType(p: ProtoDataType): (r: Result<DataType, ProtoError>)
    ensures p.kind.None? ==> r == Err(MissingField("kind"))
    ensures r.Ok? ==> Supported(r.value) && PlainType(r.value)
  {
    match p.kind
    case None => Err(MissingField("kind"))
    case Some(kind) =>
      match kind
      case KNull => Ok(Null)
      case KBoolean => Ok(Boolean)
      case KUint8 => Ok(UInt8)
      case KUint16 => Ok(UInt16)
      case KUint32 => Ok(UInt32)
      case KUint64 => Ok(UInt64)
      case KInt8 => Ok(Int8)
      case KInt16 => Ok(Int16)
      case KInt32 => Ok(Int32)
      case KInt64 => Ok(Int64)
      case KFloat32 => Ok(Float32)
      case KFloat64 => Ok(Float64)
      case KString => Ok(Utf8)
      case KBinary => Ok(Binary)
      case KFixedBinary(size) => Ok(FixedSizeBinary(size))
      case KList(inner) =>
        (match DecodeField(inner)
         case Ok(f) => Ok(List(f))
         case Err(e) => Err(e))
      case KMap(m) =>
        (match m.value
         case None => Err(MissingField("map.value"))
         case Some(v) =>
           match DecodeField(v)
           case Ok(f) => Ok(Map(f, m.mapSorted))
           case Err(e) => Err(e))
      case KStruct(children) =>
        (match DecodeFields(children)
         case Ok(fs) => Ok(Struct(fs))
         case Err(e) => Err(e))
  }

  function DecodeField(p: ProtoField): (r: Result<Field, ProtoError>)
    ensures p.fieldType.None? ==> r == Err(MissingField("field.data_type"))
    ensures r.Ok? ==> && SupportedField(r.value) && PlainField(r.value)
                      && r.value.name == p.fieldName && r.value.nullable == p.fieldNullable
  {
    match p.fieldType
    case None => Err(MissingField("field.data_type"))
    case Some(t) =>
      match DecodeType(t)
      case Ok(dt) => Ok(NewField(p.fieldName, dt, p.fieldNullable))
      case Err(e) => Err(e)
  }

  /** `collect::<Result<Vec<_>, _>>()`: the first failing child's error, or every child decoded. */
  function DecodeFields(ps: seq<ProtoField>): (r: Result<seq<Field>, ProtoError>)
    ensures r.Ok? ==> && |r.value| == |ps| && SupportedFields(r.value)
                      && forall i :: 0 <= i < |r.value| ==> PlainField(r.value[i])
  {
    if ps == [] then Ok([])
    else
      match DecodeField(ps[0])
      case Err(e) => Err(e)
      case Ok(f) =>
        match DecodeFields(ps[1..])
        case Err(e) => Err(e)
        case Ok(fs) => Ok([f] + fs)
  }

  /** A Map message without its value is rejected, whatever else it holds. */
  lemma MapWithoutValueIsRejected(sorted: bool)
    ensures DecodeType(ProtoDataType(Some(KMap(ProtoMap(None, sorted))))) == Err(MissingField("map.value"))
  {
  }

  /**
   * Decoding inverts encoding on every supported type, nested lists, maps
   * and structs included, up to the field metadata and dictionary settings
   * the encoding drops: those come back as `Field::new`'s defaults.
   */
  lemma {:induction false} DecodeEncodeType(t: DataType)
    requires Supported(t)
    ensures DecodeType(EncodeType(t)) == Ok(Plain(t))
  {
    match t
    case List(item) => DecodeEncodeField(item);
    case Map(entries, sorted) => DecodeEncodeField(entries);
    case Struct(children) => DecodeEncodeFields(children);
    case _ => DecodeEncodeScalarType(t);
  }

  lemma DecodeEncodeScalarType(t: DataType)
    requires Supported(t) && !t.List? && !t.Map? && !t.Struct?
    ensures DecodeType(EncodeType(t)) == Ok(t)
  {
  }

  lemma {:induction false} DecodeEncodeField(f: Field)
    requires SupportedField(f)
    ensures DecodeField(EncodeField(f)) == Ok(PlainOf(f))
  {
    DecodeEncodeType(f.dataType);
  }

  lemma {:induction false} DecodeEncodeFields(fs: seq<Field>)
    requires SupportedFields(fs)
    ensures DecodeFields(EncodeFields(fs)) == Ok(PlainAll(fs))
  {
    if fs != [] {
      DecodeEncodeField(fs[0]);
      DecodeEncodeFields(fs[1..]);
      assert EncodeFields(fs)[1..] == EncodeFields(fs[1..]);
    }
  }

  /** Resetting the metadata changes nothing exactly when every nested field already has the defaults. */
  lemma {:induction false} PlainFixesPlainTypes(t: DataType)
    ensures Plain(t) == t <==> PlainType(t)
  {
    match t
    case List(item) => PlainFixesPlainFields(item);
    case Map(entries, _) => PlainFixesPlainFields(entries);
    case Struct(children) => PlainAllFixesPlainFields(children);
    case _ =>
  }

  lemma {:induction false} PlainFixesPlainFields(f: Field)
    ensures PlainOf(f) == f <==> PlainField(f)
  {
    PlainFixesPlainTypes(f.dataType);
  }

  lemma {:induction false} PlainAllFixesPlainFields(fs: seq<Field>)
    ensures PlainAll(fs) == fs <==> forall i :: 0 <= i < |fs| ==> PlainField(fs[i])
  {
    if fs != [] {
      PlainFixesPlainFields(fs[0]);
      PlainAllFixesPlainFields(fs[1..]);
      if forall i :: 0 <= i < |fs| ==> PlainField(fs[i]) {
        assert forall i :: 0 <= i < |fs| - 1 ==> PlainField(fs[1..][i]);
        assert [fs[0]] + fs[1..] == fs;
      }
      if PlainAll(fs) == fs {
        forall i | 0 <= i < |fs| ensures PlainField(fs[i]) {
          if i > 0 {
            assert fs[i] == fs[1..][i - 1] && PlainAll(fs)[i] == PlainAll(fs[1..])[i - 1];
          }
        }
      }
    }
  }

  /** So a supported field round-trips exactly when it carries no metadata and default dictionary settings. */
  lemma FieldRoundTripIsExact(f: Field)
    requires SupportedField(f)
    ensures DecodeField(EncodeField(f)) == Ok(f) <==> PlainField(f)
  {
    DecodeEncodeField(f);
    PlainFixesPlainFields(f);
  }

  /**
   * Conversely, a message that decodes is exactly the encoding of what it
   * decodes to: the codec loses nothing in either direction.
   */
  lemma {:induction false} EncodeDecodeType(p: ProtoDataType)
    requires DecodeType(p).Ok?
    ensures EncodeType(DecodeType(p).value) == p
  {
    match p.kind.value
    case KList(inner) => EncodeDecodeField(inner);
    case KMap(m) => EncodeDecodeField(m.value.value);
    case KStruct(children) => EncodeDecodeFields(children);
    case _ =>
  }

  lemma {:induction false} EncodeDecodeField(p: ProtoField)
    requires DecodeField(p).Ok?
    ensures EncodeField(DecodeField(p).value) == p
  {
    EncodeDecodeType(p.fieldType.value);
  }

  lemma {:induction false} EncodeDecodeFields(ps: seq<ProtoField>)
    requires DecodeFields(ps).Ok?
    ensures EncodeFields(DecodeFields(ps).value) == ps
  {
    if ps != [] {
      EncodeDecodeField(ps[0]);
      EncodeDecodeFields(ps[1..]);
      var fs := DecodeFields(ps).value;
      assert fs[1..] == DecodeFields(ps[1..]).value;
      assert [ps[0]] + ps[1..] == ps;
    }
  }

  // ---------------------------------------------------------------------
  // Boolean buffers
  // ---------------------------------------------------------------------

  /** A bit buffer viewed from bit `offset` for `len` bits. */
  datatype BooleanBuffer = BooleanBuffer(bits: seq<bool>, offset: nat, len: nat)

  predicate WellFormed(b: BooleanBuffer)
  {
    b.offset + b.len <= |b.bits|
  }

  function Values(b: BooleanBuffer): seq<bool>
    requires WellFormed(b)
  {
    b.bits[b.offset..b.offset + b.len]
  }

  datatype ProtoBooleanBuffer = ProtoBooleanBuffer(buffer: Option<seq<bool>>, length: nat)

  /** `into_proto`: the viewed bits only (`sliced`), and their count. */
  function EncodeBooleanBuffer(b: BooleanBuffer): (p: ProtoBooleanBuffer)
    requires WellFormed(b)
    ensures p.buffer.Some? && p.length == b.len == |p.buffer.value|
  {
    ProtoBooleanBuffer(Some(Values(b)), b.len)
  }

  /** `from_proto`: a view of the whole buffer from bit 0 for the encoded length. */
  function DecodeBooleanBuffer(p: ProtoBooleanBuffer): (r: Result<BooleanBuffer, ProtoError>)
    ensures p.buffer.None? ==> r == Err(MissingField("buffer"))
    ensures p.buffer.Some? && p.length > |p.buffer.value| ==> r == Err(BufferTooShort)
    ensures r.Ok? ==> WellFormed(r.value) && r.value.offset == 0 && r.value.len == p.length
  {
    match p.buffer
    case None => Err(MissingField("buffer"))
    case Some(bits) =>
      if p.length <= |bits| then Ok(BooleanBuffer(bits, 0, p.length)) else Err(BufferTooShort)
  }

  /** A round trip keeps every viewed bit and rebases the view at offset 0. */
  lemma BooleanBufferRoundTrip(b: BooleanBuffer)
    requires WellFormed(b)
    ensures var r := DecodeBooleanBuffer(EncodeBooleanBuffer(b));
            r.Ok? && r.value.offset == 0 && r.value.len == b.len && Values(r.value) == Values(b)
  {
  }
}
