/** When the conversion loses nothing. */
module AvroProperties {
  import opened Seqs
  import opened Ids
  import opened Json
  import opened Avro

  /** The JSON value a scalar or union datum stands for. */
  function ReadBack(v: AvroValue): Value {
    match v
    case BooleanValue(b) => Bool(b)
    case IntValue(i) => Num(Integer(i))
    case LongValue(i) => Num(Integer(i))
    case FloatValue(r) => Num(Float(r))
    case DoubleValue(r) => Num(Float(r))
    case StringValue(s) => Str(s)
    case UnionValue(_, inner) => ReadBack(inner)
    case _ => Null
  }

  /**
   * The schema has room for exactly this value. A float schema has when rounding to single precision leaves the number
   * alone; a union offers its null and its first other variant; the kinds without a conversion of their own take text.
   */
  predicate Represents(schema: Schema, value: Value, env: Env)
    decreases schema
  {
    match schema
    case NullSchema => value.Null?
    case BooleanSchema => value.Bool?
    case IntSchema => value.Num? && value.n.Integer? && IsI32(value.n.i)
    case LongSchema => value.Num? && value.n.Integer? && IsI64(value.n.i)
    case FloatSchema => value.Num? && value.n.Float? && env.toF32(value.n.r) == value.n.r
    case DoubleSchema => value.Num? && value.n.Float?
    case StringSchema => value.Str?
    case UnionSchema(variants) =>
      var i := FindVariant(variants, 0, value.Null?);
      i.Some? && Represents(variants[i.value], value, env)
    case _ => value.Str? && env.render(value) == value.s
  }

  /** Conversion keeps a value exactly when the schema represents it; everything else is replaced or refused. */
  lemma {:induction false} KeptIffRepresented(value: Value, schema: Schema, env: Env)
    ensures var r := Convert(Some(value), schema, env);
            r.Ok? && ReadBack(r.value) == value <==> Represents(schema, value, env)
    decreases schema
  {
    if schema.UnionSchema? {
      var i := FindVariant(schema.variants, 0, value.Null?);
      if i.Some? {
        KeptIffRepresented(value, schema.variants[i.value], env);
      }
    }
  }

  /** What a schema without the value gets: its null, false, zero or nothing. */
  ghost predicate IsBlank(v: AvroValue, schema: Schema) {
    match schema
    case BooleanSchema => v == BooleanValue(false)
    case IntSchema => v == IntValue(0)
    case LongSchema => v == LongValue(0)
    case FloatSchema => v == FloatValue(0.0)
    case DoubleSchema => v == DoubleValue(0.0)
    case StringSchema => v == StringValue("")
    case UnionSchema(variants) =>
      && v.UnionValue? && v.value.NullValue? && v.index < |variants| && variants[v.index].NullSchema?
      && forall i :: 0 <= i < v.index ==> !variants[i].NullSchema?
    case _ => v == NullValue
  }

  /** Values of the wrong kind become blank, or text where text is expected or nothing else is known. */
  lemma MistypedBecomes(value: Value, schema: Schema, env: Env)
    requires !schema.UnionSchema? && !schema.NullSchema?
    ensures var r := Convert(Some(value), schema, env);
            r.Ok?
            && match schema
               case BooleanSchema => !value.Bool? ==> IsBlank(r.value, schema)
               case IntSchema =>
                 (!value.Num? && !value.Str?) || (value.Num? && value.n.Float?) ==> IsBlank(r.value, schema)
               case LongSchema =>
                 (!value.Num? && !value.Str?) || (value.Num? && (value.n.Float? || !IsI64(value.n.i))) ==>
                   IsBlank(r.value, schema)
               case FloatSchema => !value.Num? ==> IsBlank(r.value, schema)
               case DoubleSchema => !value.Num? ==> IsBlank(r.value, schema)
               case _ =>
                 (value.Str? && schema.StringSchema?) || r.value == StringValue(env.render(value))
  {
  }

  /** An integer under a floating-point schema is rounded to double precision, and for a float schema to single. */
  lemma IntegersBecomeDoubles(i: int, env: Env)
    ensures Convert(Some(Num(Integer(i))), DoubleSchema, env) == Ok(DoubleValue(env.toF64(i)))
    ensures Convert(Some(Num(Integer(i))), FloatSchema, env) == Ok(FloatValue(env.toF32(env.toF64(i))))
  {
  }

  /** An entry of a converted record holds the record's value exactly when its field represents it; blank if missing. */
  lemma EntriesAreFields(record: Record, schema: Schema, env: Env, v: AvroValue, i: nat)
    requires Converts(record, schema, env, v) && i < |schema.fields|
    ensures var name, entry := schema.fields[i].name, v.entries[i];
            && entry.0 == name
            && if name in record then
                 ReadBack(entry.1) == record[name] <==> Represents(schema.fields[i].schema, record[name], env)
               else IsBlank(entry.1, schema.fields[i].schema)
  {
    var field := schema.fields[i];
    assert Convert(FieldValue(record, field.name), field.schema, env) == Ok(v.entries[i].1);
    if field.name in record {
      KeptIffRepresented(record[field.name], field.schema, env);
    }
  }

  // -- Numbers written as text --------------------------------------------------------------

  lemma {:induction false} DecimalParses(n: nat)
    ensures AllDigits(Decimal(n)) && DigitsValue(Decimal(n)) == n
  {
    if n < 10 {
      assert Decimal(n)[..0] == [];
    } else {
      DecimalParses(n / 10);
      var s := Decimal(n);
      assert s[..|s| - 1] == Decimal(n / 10);
    }
  }

  predicate IsSign(sign: string) {
    sign == "" || sign == "+" || sign == "-"
  }

  predicate AllZeros(s: string) {
    forall i :: 0 <= i < |s| ==> s[i] == '0'
  }

  /** The text is the integer, in decimal, perhaps with a sign and with leading zeros. */
  ghost predicate IsTextOf(s: string, sign: string, zeros: string, n: nat) {
    IsSign(sign) && AllZeros(zeros) && s == sign + (zeros + Decimal(n))
  }

  lemma {:induction false} LeadingZeros(zeros: string, digits: string)
    requires AllDigits(digits) && AllZeros(zeros)
    ensures AllDigits(zeros + digits) && DigitsValue(zeros + digits) == DigitsValue(digits)
    decreases |digits|
  {
    var s := zeros + digits;
    assert s[..|s| - 1] == zeros + digits[..|digits| - 1];
    if |digits| == 1 {
      assert s[..|s| - 1] == zeros && digits[..0] == [];
      ZerosAreZero(zeros);
    } else {
      LeadingZeros(zeros, digits[..|digits| - 1]);
    }
  }

  lemma {:induction false} ZerosAreZero(zeros: string)
    requires AllZeros(zeros)
    ensures DigitsValue(zeros) == 0
  {
    if zeros != [] {
      ZerosAreZero(zeros[..|zeros| - 1]);
    }
  }

  function Signed(sign: string, n: int): int {
    if sign == "-" then -n else n
  }

  lemma SignParses(sign: string, digits: string)
    requires IsSign(sign) && AllDigits(digits)
    ensures ParseInteger(sign + digits) == Some(Signed(sign, DigitsValue(digits)))
  {
    var s := sign + digits;
    if sign == "" {
      assert s == digits && '0' <= s[0] <= '9';
    } else {
      assert s[0] == sign[0] && s[1..] == digits;
    }
  }

  lemma TextParses(s: string, sign: string, zeros: string, n: nat)
    requires IsTextOf(s, sign, zeros, n)
    ensures ParseInteger(s) == Some(Signed(sign, n))
  {
    DecimalParses(n);
    LeadingZeros(zeros, Decimal(n));
    SignParses(sign, zeros + Decimal(n));
  }

  /** Digits are the decimal text of a number after leading zeros. */
  lemma {:induction false} DigitsAreDecimal(digits: string) returns (zeros: string, n: nat)
    requires AllDigits(digits)
    ensures AllZeros(zeros) && digits == zeros + Decimal(n)
  {
    var last := |digits| - 1;
    var d: nat := (digits[last] - '0') as nat;
    assert digits == digits[..last] + [digits[last]];
    if last == 0 {
      zeros, n := "", d;
      assert Decimal(d) == [digits[last]];
    } else {
      zeros, n := DigitsAreDecimal(digits[..last]);
      if n == 0 {
        assert Decimal(0) == "0" && Decimal(d) == [digits[last]];
        zeros, n := zeros + "0", d;
      } else {
        assert Decimal(10 * n + d) == Decimal(n) + [digits[last]];
        n := 10 * n + d;
      }
    }
  }

  lemma OnlyIntegersParse(s: string) returns (sign: string, zeros: string, n: nat)
    requires ParseInteger(s).Some?
    ensures IsTextOf(s, sign, zeros, n)
  {
    var digits := s;
    sign := "";
    if s[0] == '-' || s[0] == '+' {
      sign, digits := [s[0]], s[1..];
    }
    zeros, n := DigitsAreDecimal(digits);
    assert s == sign + digits;
  }

  /**
   * Text converts to the integer it is the text of when that fits, and to 0 when it does not or when it is not the text
   * of an integer.
   */
  lemma TextConverts(s: string, env: Env)
    ensures forall sign, zeros, n: nat :: IsTextOf(s, sign, zeros, n) ==>
              var i := Signed(sign, n);
              && Convert(Some(Str(s)), IntSchema, env) == Ok(IntValue(if IsI32(i) then i else 0))
              && Convert(Some(Str(s)), LongSchema, env) == Ok(LongValue(if IsI64(i) then i else 0))
    ensures (forall sign, zeros, n: nat :: !IsTextOf(s, sign, zeros, n)) ==>
              && Convert(Some(Str(s)), IntSchema, env) == Ok(IntValue(0))
              && Convert(Some(Str(s)), LongSchema, env) == Ok(LongValue(0))
  {
    forall sign, zeros, n: nat | IsTextOf(s, sign, zeros, n)
      ensures ParseInteger(s) == Some(Signed(sign, n))
    {
      TextParses(s, sign, zeros, n);
    }
    if ParseInteger(s).Some? {
      var sign, zeros, n := OnlyIntegersParse(s);
    }
  }
}
