// src/postgres/value.rs and the binding types of src/postgres/compiler.rs, together
// with the server's values: what a column stores and what an SQL expression yields.

module Values {
  import opened Results
  import opened Mapping
  import opened Decimals

  type i64 = x: int | -0x8000_0000_0000_0000 <= x < 0x8000_0000_0000_0000
  type u64 = x: int | 0 <= x < 0x1_0000_0000_0000_0000
  type byte = x: int | 0 <= x < 256

  const MAX_BIGINT: int := 0x7FFF_FFFF_FFFF_FFFF

  /** A finite `f64` is known by the decimal text Rust displays for it. */
  datatype Float = Finite(text: string) | NonFinite

  /** Portable operand of a query condition. */
  datatype ScalarValue =
    | Null
    | Bool(b: bool)
    | I64(i: i64)
    | U64(u: u64)
    | F64(f: Float)
    | String(s: string)
    | Bytes(bytes: seq<byte>)
    | List(values: seq<ScalarValue>)

  /**
   * Persistence value produced by a codec. A native value is known by its place in the
   * server's order on its type.
   */
  datatype PgValue =
    | Bool(b: bool)
    | I64(i: i64)
    | U64(u: u64)
    | F64(f: Float)
    | Text(s: string)
    | Bytes(bytes: seq<byte>)
    | Uuid(rank: real)
    | Json(rank: real)
    | Decimal(amount: real)
    | Date(rank: real)
    | Time(rank: real)
    | Timestamp(rank: real)
    | TimestampTz(rank: real)
    | Null
    | Default

  datatype PgBindValue =
    | Bool(b: bool)
    | Numeric(text: string)
    | Text(s: string)
    | Bytes(bytes: seq<byte>)
    | Uuid(rank: real)
    | Json(rank: real)
    | Decimal(amount: real)
    | Date(rank: real)
    | Time(rank: real)
    | Timestamp(rank: real)
    | TimestampTz(rank: real)
    | I64(i: i64)
    | Null(kind: PgScalarKind)

  function ValidatePgValue(value: PgValue): Result<()> {
    if value.F64? && value.f.NonFinite? then Err(Validation) else Ok(())
  }

  function ValidateScalar(value: ScalarValue): Result<()> {
    if value.F64? && value.f.NonFinite? then Err(Validation) else Ok(())
  }

  /** `TryFrom<ScalarValue> for PgValue`. */
  function FromScalar(value: ScalarValue): Result<PgValue> {
    var _ :- ValidateScalar(value);
    match value
    case Null => Ok(PgValue.Null)
    case Bool(b) => Ok(PgValue.Bool(b))
    case I64(i) => Ok(PgValue.I64(i))
    case U64(u) => Ok(PgValue.U64(u))
    case F64(f) => Ok(PgValue.F64(f))
    case String(s) => Ok(PgValue.Text(s))
    case Bytes(bytes) => Ok(PgValue.Bytes(bytes))
    case List(_) => Err(Validation)
  }

  // ----- Values on the server -----

  datatype Value =
    | VNull
    | VBool(b: bool)
    | VNumeric(r: real)
    | VText(s: string)
    | VBytes(bytes: seq<byte>)
    | VBigint(i: int)
    | VNative(kind: PgScalarKind, rank: real)

  /**
   * What the model leaves abstract about the server: where the value a text denotes lies
   * in the order of a type, and how the database's default collation orders texts.
   */
  datatype Server = Server(
    cast: (PgScalarKind, string) -> real,
    defaultTextLess: (string, string) -> bool)

  predicate NativeKind(kind: PgScalarKind) {
    kind.Uuid? || kind.Json? || kind.Date? || kind.Time? || kind.Timestamp? || kind.TimestampTz?
  }

  predicate HasKind(v: Value, kind: PgScalarKind) {
    match v
    case VNull => true
    case VBool(_) => kind.Bool?
    case VNumeric(_) => kind.Numeric?
    case VText(_) => kind.Text?
    case VBytes(_) => kind.Bytes?
    case VBigint(_) => false
    case VNative(k, _) => k == kind && NativeKind(k)
  }

  /** Decimal text as a number: integers exactly, other numeric text by the server. */
  function NumericOf(server: Server, text: string): real {
    match IntValue(text)
    case Some(i) => i as real
    case None => server.cast(PgScalarKind.Numeric, text)
  }

  // ----- Order -----

  /** Code point order on texts, which is what collation "C" means for UTF-8. */
  predicate TextLess(s: string, t: string) {
    t != "" && (s == "" || s[0] < t[0] || (s[0] == t[0] && TextLess(s[1..], t[1..])))
  }

  predicate BytesLess(s: seq<byte>, t: seq<byte>) {
    t != [] && (s == [] || s[0] < t[0] || (s[0] == t[0] && BytesLess(s[1..], t[1..])))
  }

  predicate SameType(v: Value, w: Value) {
    match v
    case VNull => w.VNull?
    case VBool(_) => w.VBool?
    case VNumeric(_) => w.VNumeric?
    case VText(_) => w.VText?
    case VBytes(_) => w.VBytes?
    case VBigint(_) => w.VBigint?
    case VNative(k, _) => w.VNative? && w.kind == k
  }

  /** Strict order on the non-null values of one type. */
  predicate ValueLess(v: Value, w: Value) {
    match (v, w)
    case (VBool(x), VBool(y)) => !x && y
    case (VNumeric(x), VNumeric(y)) => x < y
    case (VText(x), VText(y)) => TextLess(x, y)
    case (VBytes(x), VBytes(y)) => BytesLess(x, y)
    case (VBigint(x), VBigint(y)) => x < y
    case (VNative(_, x), VNative(_, y)) => x < y
    case _ => false
  }

  lemma {:induction false} TextLessTotal(s: string, t: string)
    ensures TextLess(s, t) || s == t || TextLess(t, s)
    ensures !(TextLess(s, t) && TextLess(t, s)) && !TextLess(s, s)
  {
    if s != "" {
      TextLessTotal(s[1..], s[1..]);
      if t != "" && s[0] == t[0] {
        TextLessTotal(s[1..], t[1..]);
        if s[1..] == t[1..] {
          assert s == [s[0]] + s[1..] == t;
        }
      }
    }
  }

  /** One text is less than another where they first differ, or where it ends first. */
  lemma {:induction false} TextLessExactlyWhen(s: string, t: string)
    ensures TextLess(s, t)
       <==> exists k | 0 <= k <= |s| && k < |t| :: s[..k] == t[..k] && (k == |s| || s[k] < t[k])
  {
    if s != "" && t != "" && s[0] == t[0] {
      TextLessExactlyWhen(s[1..], t[1..]);
      if k :| 0 <= k <= |s[1..]| && k < |t[1..]| && s[1..][..k] == t[1..][..k] && (k == |s[1..]| || s[1..][k] < t[1..][k]) {
        assert s[..k + 1] == [s[0]] + s[1..][..k] == t[..k + 1];
      }
      forall k | 0 <= k <= |s| && k < |t| && s[..k] == t[..k] && (k == |s| || s[k] < t[k])
        ensures TextLess(s[1..], t[1..])
      {
        assert k > 0;
        assert s[1..][..k - 1] == s[..k][1..] == t[..k][1..] == t[1..][..k - 1];
      }
    } else if t != "" {
      assert s[..0] == t[..0];
      forall k | 0 < k <= |s| && k < |t| ensures s[..k] != t[..k] {
        assert s[..k][0] == s[0] && t[..k][0] == t[0];
      }
    }
  }

  lemma {:induction false} TextLessTransitive(s: string, t: string, u: string)
    requires TextLess(s, t) && TextLess(t, u)
    ensures TextLess(s, u)
  {
    if s != "" && s[0] == t[0] && t[0] == u[0] {
      TextLessTransitive(s[1..], t[1..], u[1..]);
    }
  }

  lemma {:induction false} BytesLessTotal(s: seq<byte>, t: seq<byte>)
    ensures BytesLess(s, t) || s == t || BytesLess(t, s)
    ensures !(BytesLess(s, t) && BytesLess(t, s)) && !BytesLess(s, s)
  {
    if s != [] {
      BytesLessTotal(s[1..], s[1..]);
      if t != [] && s[0] == t[0] {
        BytesLessTotal(s[1..], t[1..]);
        if s[1..] == t[1..] {
          assert s == [s[0]] + s[1..] == t;
        }
      }
    }
  }

  /** The same for byte strings. */
  lemma {:induction false} BytesLessExactlyWhen(s: seq<byte>, t: seq<byte>)
    ensures BytesLess(s, t)
       <==> exists k | 0 <= k <= |s| && k < |t| :: s[..k] == t[..k] && (k == |s| || s[k] < t[k])
  {
    if s != [] && t != [] && s[0] == t[0] {
      BytesLessExactlyWhen(s[1..], t[1..]);
      if k :| 0 <= k <= |s[1..]| && k < |t[1..]| && s[1..][..k] == t[1..][..k] && (k == |s[1..]| || s[1..][k] < t[1..][k]) {
        assert s[..k + 1] == [s[0]] + s[1..][..k] == t[..k + 1];
      }
      forall k | 0 <= k <= |s| && k < |t| && s[..k] == t[..k] && (k == |s| || s[k] < t[k])
        ensures BytesLess(s[1..], t[1..])
      {
        assert k > 0;
        assert s[1..][..k - 1] == s[..k][1..] == t[..k][1..] == t[1..][..k - 1];
      }
    } else if t != [] {
      assert s[..0] == t[..0];
      forall k | 0 < k <= |s| && k < |t| ensures s[..k] != t[..k] {
        assert s[..k][0] == s[0] && t[..k][0] == t[0];
      }
    }
  }

  lemma {:induction false} BytesLessTransitive(s: seq<byte>, t: seq<byte>, u: seq<byte>)
    requires BytesLess(s, t) && BytesLess(t, u)
    ensures BytesLess(s, u)
  {
    if s != [] && s[0] == t[0] && t[0] == u[0] {
      BytesLessTransitive(s[1..], t[1..], u[1..]);
    }
  }

  /** On the values of one kind the order is strict and total. */
  lemma {:induction false} ValueLessTotal(v: Value, w: Value)
    requires SameType(v, w)
    ensures ValueLess(v, w) || v == w || ValueLess(w, v)
    ensures !(ValueLess(v, w) && ValueLess(w, v)) && !ValueLess(v, v)
  {
    match v
    case VText(x) =>
      TextLessTotal(x, w.s);
      TextLessTotal(x, x);
    case VBytes(x) =>
      BytesLessTotal(x, w.bytes);
      BytesLessTotal(x, x);
    case _ =>
  }

  lemma {:induction false} ValueLessTransitive(v: Value, w: Value, x: Value)
    requires ValueLess(v, w) && ValueLess(w, x)
    requires SameType(v, w) && SameType(w, x)
    ensures ValueLess(v, x)
  {
    match v
    case VText(s) => TextLessTransitive(s, w.s, x.s);
    case VBytes(s) => BytesLessTransitive(s, w.bytes, x.bytes);
    case _ =>
  }

  /** False before true, and each other type in its own order. */
  lemma {:induction false} ValueOrder(v: Value, w: Value)
    requires SameType(v, w)
    ensures v.VBool? ==> (ValueLess(v, w) <==> !v.b && w.b)
    ensures v.VNumeric? ==> (ValueLess(v, w) <==> v.r < w.r)
    ensures v.VText? ==>
              (ValueLess(v, w)
               <==> exists k | 0 <= k <= |v.s| && k < |w.s| :: v.s[..k] == w.s[..k] && (k == |v.s| || v.s[k] < w.s[k]))
    ensures v.VBytes? ==>
              (ValueLess(v, w)
               <==> exists k | 0 <= k <= |v.bytes| && k < |w.bytes| ::
                      v.bytes[..k] == w.bytes[..k] && (k == |v.bytes| || v.bytes[k] < w.bytes[k]))
    ensures v.VNative? ==> (ValueLess(v, w) <==> v.rank < w.rank)
  {
    match v
    case VText(s) => TextLessExactlyWhen(s, w.s);
    case VBytes(s) => BytesLessExactlyWhen(s, w.bytes);
    case _ =>
  }

  lemma {:induction false} OneKindOneType(v: Value, w: Value, kind: PgScalarKind)
    requires HasKind(v, kind) && HasKind(w, kind) && !v.VNull? && !w.VNull?
    ensures SameType(v, w)
  {
  }
}
