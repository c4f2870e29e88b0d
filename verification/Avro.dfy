/** Schema-directed conversion of JSON records to Avro values, and the Confluent wire header. */
module Avro {
  import opened Ids
  import opened Json

  /** `Other` stands for the schema kinds the conversion does not treat specially. */
  datatype Schema =
    | NullSchema
    | BooleanSchema
    | IntSchema
    | LongSchema
    | FloatSchema
    | DoubleSchema
    | StringSchema
    | UnionSchema(variants: seq<Schema>)
    | RecordSchema(fields: seq<Field>)
    | OtherSchema(kind: string)

  datatype Field = Field(name: string, schema: Schema)

  datatype AvroValue =
    | NullValue
    | BooleanValue(b: bool)
    | IntValue(i: int)
    | LongValue(i: int)
    | FloatValue(r: real)
    | DoubleValue(r: real)
    | StringValue(s: string)
    | UnionValue(index: nat, value: AvroValue)
    | RecordValue(entries: seq<(string, AvroValue)>)

  datatype AvroError = ConversionError(message: string) | EncodingError(message: string)

  const TWO_32 := 0x1_0000_0000
  const TWO_31 := 0x8000_0000
  const TWO_63 := 0x8000_0000_0000_0000

  predicate IsI32(i: int) { -TWO_31 <= i < TWO_31 }
  predicate IsI64(i: int) { -TWO_63 <= i < TWO_63 }

  /** The `as i32` cast: the representative modulo 2^32 in the 32-bit range. */
  function WrapI32(i: int): (r: int)
    ensures IsI32(r) && (r - i) % TWO_32 == 0
    ensures IsI32(i) ==> r == i
  {
    (i + TWO_31) % TWO_32 - TWO_31
  }

  // -- Numbers ------------------------------------------------------------------------

  /** `as_i64`: only integers in the 64-bit range. */
  function AsI64(n: Number): Option<int> {
    if n.Integer? && IsI64(n.i) then Some(n.i) else None
  }

  predicate AllDigits(s: string) {
    s != [] && forall i :: 0 <= i < |s| ==> '0' <= s[i] <= '9'
  }

  function DigitsValue(s: string): nat
    requires forall i :: 0 <= i < |s| ==> '0' <= s[i] <= '9'
  {
    if s == [] then 0 else DigitsValue(s[..|s| - 1]) * 10 + (s[|s| - 1] - '0') as nat
  }

  /** Decimal parsing: an optional sign and at least one digit. */
  function ParseInteger(s: string): Option<int> {
    if s != [] && (s[0] == '-' || s[0] == '+') then
      if AllDigits(s[1..]) then Some(if s[0] == '-' then -(DigitsValue(s[1..]) as int) else DigitsValue(s[1..]))
      else None
    else if AllDigits(s) then Some(DigitsValue(s))
    else None
  }

  function ParseI32(s: string): int {
    var i := ParseInteger(s);
    if i.Some? && IsI32(i.value) then i.value else 0
  }

  function ParseI64(s: string): int {
    var i := ParseInteger(s);
    if i.Some? && IsI64(i.value) then i.value else 0
  }

  // -- Conversion -----------------------------------------------------------------------

  predicate IsNullOrMissing(value: Option<Value>) {
    value.None? || value.value.Null?
  }

  /** The first variant from `k` on that is null (or, with `wanted` false, that is not). */
  function FindVariant(variants: seq<Schema>, k: nat, wanted: bool): (r: Option<nat>)
    requires k <= |variants|
    ensures r.Some? ==> k <= r.value < |variants| && variants[r.value].NullSchema? == wanted
                        && forall i :: k <= i < r.value ==> variants[i].NullSchema? != wanted
    ensures r.None? ==> forall i :: k <= i < |variants| ==> variants[i].NullSchema? != wanted
    decreases |variants| - k
  {
    if k == |variants| then None
    else if variants[k].NullSchema? == wanted then Some(k)
    else FindVariant(variants, k + 1, wanted)
  }

  /**
   * What the conversion borrows: the JSON text of a value, the rounding of a number to single precision, and that of an
   * integer to double precision.
   */
  datatype Env = Env(render: Value -> string, toF32: real -> real, toF64: int -> real)

  /** `as_f64`: a float as it is, an integer rounded. */
  function AsF64(n: Number, env: Env): real {
    if n.Integer? then env.toF64(n.i) else n.r
  }

  function Convert(value: Option<Value>, schema: Schema, env: Env): Result<AvroValue, AvroError>
    decreases schema
  {
    match schema
    case NullSchema => Ok(NullValue)
    case BooleanSchema =>
      Ok(BooleanValue(value.Some? && value.value.Bool? && value.value.b))
    case IntSchema =>
      if value.Some? && value.value.Num? then
        var i := AsI64(value.value.n);
        Ok(IntValue(WrapI32(if i.Some? then i.value else 0)))
      else if value.Some? && value.value.Str? then Ok(IntValue(ParseI32(value.value.s)))
      else Ok(IntValue(0))
    case LongSchema =>
      if value.Some? && value.value.Num? then
        var i := AsI64(value.value.n);
        Ok(LongValue(if i.Some? then i.value else 0))
      else if value.Some? && value.value.Str? then Ok(LongValue(ParseI64(value.value.s)))
      else Ok(LongValue(0))
    case FloatSchema =>
      Ok(FloatValue(if value.Some? && value.value.Num? then env.toF32(AsF64(value.value.n, env)) else 0.0))
    case DoubleSchema =>
      Ok(DoubleValue(if value.Some? && value.value.Num? then AsF64(value.value.n, env) else 0.0))
    case StringSchema =>
      if value.None? then Ok(StringValue(""))
      else if value.value.Str? then Ok(StringValue(value.value.s))
      else Ok(StringValue(env.render(value.value)))
    case UnionSchema(variants) =>
      if IsNullOrMissing(value) then
        var i := FindVariant(variants, 0, true);
        if i.Some? then Ok(UnionValue(i.value, NullValue)) else Err(ConversionError("union does not contain null"))
      else
        var i := FindVariant(variants, 0, false);
        if i.None? then Err(ConversionError("no matching union variant"))
        else
          var converted := Convert(value, variants[i.value], env);
          if converted.Err? then converted else Ok(UnionValue(i.value, converted.value))
    case _ =>
      if value.Some? then Ok(StringValue(env.render(value.value))) else Ok(NullValue)
  }

  /** The value is one the schema describes. */
  predicate Conforms(value: AvroValue, schema: Schema)
    decreases schema
  {
    match schema
    case NullSchema => value.NullValue?
    case BooleanSchema => value.BooleanValue?
    case IntSchema => value.IntValue? && IsI32(value.i)
    case LongSchema => value.LongValue? && IsI64(value.i)
    case FloatSchema => value.FloatValue?
    case DoubleSchema => value.DoubleValue?
    case StringSchema => value.StringValue?
    case UnionSchema(variants) =>
      value.UnionValue? && value.index < |variants| && Conforms(value.value, variants[value.index])
    case RecordSchema(fields) =>
      && value.RecordValue? && |value.entries| == |fields|
      && forall i :: 0 <= i < |fields| ==>
           value.entries[i].0 == fields[i].name && Conforms(value.entries[i].1, fields[i].schema)
    case OtherSchema(_) => false
  }

  /** A scalar kind of schema the conversion handles by name. */
  predicate Scalar(schema: Schema) {
    !schema.UnionSchema? && !schema.RecordSchema? && !schema.OtherSchema?
  }

  /** The schema a value is converted to: a union stands for its null, or for its first variant that is not null. */
  function Chosen(value: Option<Value>, schema: Schema): Schema
    decreases schema
  {
    if schema.UnionSchema? then
      var i := FindVariant(schema.variants, 0, IsNullOrMissing(value));
      if i.Some? then Chosen(value, schema.variants[i.value]) else schema
    else schema
  }

  lemma ScalarConverts(value: Option<Value>, schema: Schema, env: Env)
    requires Scalar(schema)
    ensures Convert(value, schema, env).Ok? && Conforms(Convert(value, schema, env).value, schema)
  {
  }

  /** The value meets a union that has no room for it: one without null, or with nothing but null. */
  predicate Unmatched(value: Option<Value>, schema: Schema)
    decreases schema
  {
    && schema.UnionSchema?
    && if forall i :: 0 <= i < |schema.variants| ==> schema.variants[i].NullSchema? != IsNullOrMissing(value) then true
       else
         var i := FindVariant(schema.variants, 0, IsNullOrMissing(value));
         i.Some? && Unmatched(value, schema.variants[i.value])
  }

  /**
   * Conversion fails exactly on an unmatched union, and says which variant is missing. Otherwise, when the chosen
   * schema is a scalar, the value conforms; a record schema inside a record never gets a record.
   */
  lemma {:induction false} ConversionIsTyped(value: Option<Value>, schema: Schema, env: Env)
    ensures var r := Convert(value, schema, env);
            && (r.Err? <==> Unmatched(value, schema))
            && (r.Err? ==> r.error == ConversionError(if IsNullOrMissing(value) then "union does not contain null"
                                                      else "no matching union variant"))
            && (r.Ok? && Scalar(Chosen(value, schema)) ==> Conforms(r.value, schema))
            && (r.Ok? && Chosen(value, schema).RecordSchema? ==> !Conforms(r.value, schema))
    decreases schema
  {
    if schema.UnionSchema? {
      var i := FindVariant(schema.variants, 0, IsNullOrMissing(value));
      if i.Some? {
        ConversionIsTyped(value, schema.variants[i.value], env);
      }
    } else if Scalar(schema) {
      ScalarConverts(value, schema, env);
    }
  }

  /**
   * What an integer becomes under an int schema: congruent modulo 2^32 exactly when it fits 64 signed bits or is itself
   * a multiple of 2^32, and itself exactly when it fits 32.
   */
  lemma IntsWrapIff(i: int, env: Env)
    ensures var r := Convert(Some(Num(Integer(i))), IntSchema, env);
            && r.Ok? && r.value.IntValue? && IsI32(r.value.i)
            && ((r.value.i - i) % 4294967296 == 0 <==>
                -9223372036854775808 <= i <= 9223372036854775807 || i % 4294967296 == 0)
            && (r.value.i == i <==> -2147483648 <= i <= 2147483647)
  {
  }

  function FieldValue(record: Record, name: string): Option<Value> {
    if name in record then Some(record[name]) else None
  }

  /** `v` is the record's conversion: one entry per schema field, in order. */
  ghost predicate Converts(record: Record, schema: Schema, env: Env, v: AvroValue) {
    && schema.RecordSchema? && v.RecordValue? && |v.entries| == |schema.fields|
    && forall i :: 0 <= i < |schema.fields| ==>
         v.entries[i].0 == schema.fields[i].name
         && Convert(FieldValue(record, schema.fields[i].name), schema.fields[i].schema, env) == Ok(v.entries[i].1)
  }

  /** Some field cannot be converted. */
  ghost predicate HasBadField(record: Record, schema: Schema, env: Env)
    requires schema.RecordSchema?
  {
    exists i :: 0 <= i < |schema.fields| && BadField(record, schema.fields[i], env)
  }

  predicate BadField(record: Record, field: Field, env: Env) {
    Convert(FieldValue(record, field.name), field.schema, env).Err?
  }

  /** Converts field by field in schema order; the first field that fails ends the conversion. */
  method ConvertRecord(record: Record, schema: Schema, env: Env) returns (r: Result<AvroValue, AvroError>)
    ensures r.Ok? ==> Converts(record, schema, env, r.value)
    ensures r.Err? <==> !schema.RecordSchema? || HasBadField(record, schema, env)
  {
    if !schema.RecordSchema? {
      return Err(ConversionError("top-level schema must be a record"));
    }
    var entries: seq<(string, AvroValue)> := [];
    for k := 0 to |schema.fields|
      invariant |entries| == k
      invariant forall i :: 0 <= i < k ==>
        entries[i].0 == schema.fields[i].name
        && Convert(FieldValue(record, schema.fields[i].name), schema.fields[i].schema, env) == Ok(entries[i].1)
    {
      var field := schema.fields[k];
      var converted := Convert(FieldValue(record, field.name), field.schema, env);
      if converted.Err? {
        assert BadField(record, schema.fields[k], env);
        return Err(converted.error);
      }
      entries := entries + [(field.name, converted.value)];
    }
    return Ok(RecordValue(entries));
  }

  /**
   * A record converts unless some field meets an unmatched union, and conforms when every field's schema is a scalar.
   */
  lemma RecordsAreTyped(record: Record, schema: Schema, env: Env)
    requires schema.RecordSchema?
    ensures HasBadField(record, schema, env) <==>
            exists i :: 0 <= i < |schema.fields|
              && Unmatched(FieldValue(record, schema.fields[i].name), schema.fields[i].schema)
    ensures forall v :: Converts(record, schema, env, v) && AllScalar(record, schema) ==> Conforms(v, schema)
  {
    forall i | 0 <= i < |schema.fields|
      ensures BadField(record, schema.fields[i], env) <==>
              Unmatched(FieldValue(record, schema.fields[i].name), schema.fields[i].schema)
    {
      ConversionIsTyped(FieldValue(record, schema.fields[i].name), schema.fields[i].schema, env);
    }
    forall v | Converts(record, schema, env, v) && AllScalar(record, schema) ensures Conforms(v, schema) {
      forall i | 0 <= i < |schema.fields| ensures Conforms(v.entries[i].1, schema.fields[i].schema) {
        ConversionIsTyped(FieldValue(record, schema.fields[i].name), schema.fields[i].schema, env);
      }
    }
  }

  /** Each field is converted to a scalar schema. */
  predicate AllScalar(record: Record, schema: Schema)
    requires schema.RecordSchema?
  {
    forall i :: 0 <= i < |schema.fields| ==>
      Scalar(Chosen(FieldValue(record, schema.fields[i].name), schema.fields[i].schema))
  }

  lemma OneConversion(record: Record, schema: Schema, env: Env, v: AvroValue)
    requires Converts(record, schema, env, v)
    ensures forall w :: Converts(record, schema, env, w) ==> w == v
  {
    forall w | Converts(record, schema, env, w) ensures w == v {
      forall i | 0 <= i < |schema.fields| ensures w.entries[i] == v.entries[i] {
        assert Convert(FieldValue(record, schema.fields[i].name), schema.fields[i].schema, env) == Ok(v.entries[i].1);
      }
    }
  }

  // -- The wire format ---------------------------------------------------------------------

  type Byte = b: int | 0 <= b < 256

  /** Big-endian two's complement. */
  function ToBeBytes(i: int): (bytes: seq<Byte>)
    requires IsI32(i)
    ensures |bytes| == 4
  {
    var u := i % TWO_32;
    var u1 := u / 256;
    var u2 := u1 / 256;
    var u3 := u2 / 256;
    [u3, u2 % 256, u1 % 256, u % 256]
  }

  function FromBeBytes(bytes: seq<Byte>): int
    requires |bytes| == 4
  {
    var u := ((bytes[0] as int * 256 + bytes[1] as int) * 256 + bytes[2] as int) * 256 + bytes[3] as int;
    if u < TWO_31 then u else u - TWO_32
  }

  lemma BytesRoundTrip(i: int)
    requires IsI32(i)
    ensures FromBeBytes(ToBeBytes(i)) == i
  {
    var u := i % TWO_32;
    assert u == if i < 0 then i + TWO_32 else i;
    var u1, u2 := u / 256, u / 256 / 256;
    assert u == u1 * 256 + u % 256 && u1 == u2 * 256 + u1 % 256 && u2 == u2 / 256 * 256 + u2 % 256;
  }

  /** Splits a message into schema id and datum; a reader's view of the format. */
  function ReadMessage(buf: seq<Byte>): Option<(int, seq<Byte>)> {
    if |buf| < 5 || buf[0] != 0 then None else Some((FromBeBytes(buf[1..5]), buf[5..]))
  }

  /** The message carries the schema id and the encoding of `v`. */
  predicate Encodes(encode: (Schema, AvroValue) -> Result<seq<Byte>, AvroError>, schema: Schema, v: AvroValue,
                    schemaId: int, buf: seq<Byte>)
  {
    encode(schema, v).Ok? && ReadMessage(buf) == Some((schemaId, encode(schema, v).value))
  }

  /** `encode` is the Avro datum encoding. A reader gets back the schema id and the datum, for every id. */
  method SerializeRecord(record: Record, schema: Schema, schemaId: int, env: Env,
                         encode: (Schema, AvroValue) -> Result<seq<Byte>, AvroError>)
    returns (r: Result<seq<Byte>, AvroError>)
    requires IsI32(schemaId)
    ensures r.Ok? ==> exists v :: Converts(record, schema, env, v) && Encodes(encode, schema, v, schemaId, r.value)
    ensures r.Err? <==>
            || !schema.RecordSchema? || HasBadField(record, schema, env)
            || exists v :: Converts(record, schema, env, v) && encode(schema, v).Err?
  {
    var converted := ConvertRecord(record, schema, env);
    if converted.Err? {
      return Err(converted.error);
    }
    OneConversion(record, schema, env, converted.value);
    var datum := encode(schema, converted.value);
    if datum.Err? {
      return Err(datum.error);
    }
    BytesRoundTrip(schemaId);
    var buf: seq<Byte> := [0];
    buf := buf + ToBeBytes(schemaId);
    buf := buf + datum.value;
    assert buf[1..5] == ToBeBytes(schemaId) && buf[5..] == datum.value;
    return Ok(buf);
  }
}
