/** The JSON values the gateway reads, and the typed decoding its structs ask for. */
module Json {
  import opened Sums

  newtype Byte = b: int | 0 <= b < 256

  type Bytes = seq<Byte>

  /** An integer literal is kept apart from other numbers, which stay text: only the former decodes into an
      int field. */
  datatype Value =
    | Null
    | Bool(b: bool)
    | Int(n: int)
    | Fraction(literal: string)
    | Str(s: string)
    | Arr(items: seq<Value>)
    | Obj(members: map<string, Value>)

  /** The JSON library: parsing may fail. */
  datatype Codec = Codec(parse: Bytes -> Option<Value>, render: Value -> Bytes)

  /** What is rendered parses back to the same value. */
  ghost predicate Faithful(c: Codec) {
    forall v :: c.parse(c.render(v)) == Some(v)
  }

  /** A typed decoding step: a value, or a type mismatch somewhere in the document. */
  datatype Decoded<+T> = Ok(value: T) | Mismatch {
    predicate IsFailure() {
      Mismatch?
    }

    function PropagateFailure<U>(): Decoded<U>
      requires Mismatch?
    {
      Mismatch
    }

    function Extract(): T
      requires Ok?
    {
      value
    }
  }

  function Field(o: map<string, Value>, name: string): Value {
    if name in o then o[name] else Null
  }

  predicate InInt64(n: int) {
    -0x8000_0000_0000_0000 <= n < 0x8000_0000_0000_0000
  }

  /** A string field: absent and null leave it empty. */
  function StringField(o: map<string, Value>, name: string): Decoded<string> {
    match Field(o, name)
    case Null => Ok("")
    case Str(s) => Ok(s)
    case _ => Mismatch
  }

  /** An int field: absent and null leave it 0, a literal that does not fit is a mismatch. */
  function IntField(o: map<string, Value>, name: string): Decoded<int> {
    match Field(o, name)
    case Null => Ok(0)
    case Int(n) => if InInt64(n) then Ok(n) else Mismatch
    case _ => Mismatch
  }

  /** A pointer-to-struct field: absent and null leave it nil. */
  function ObjectField(o: map<string, Value>, name: string): Decoded<Option<map<string, Value>>> {
    match Field(o, name)
    case Null => Ok(None)
    case Obj(m) => Ok(Some(m))
    case _ => Mismatch
  }

  /** What decodes, and as what; an absent member is as good as null. */
  lemma FieldsDecode(o: map<string, Value>, name: string)
    ensures var v := if name in o then o[name] else Null;
      && StringField(o, name) == (if v.Str? then Ok(v.s) else if v.Null? then Ok("") else Mismatch)
      && ObjectField(o, name) == (if v.Obj? then Ok(Some(v.members)) else if v.Null? then Ok(None) else Mismatch)
      && IntField(o, name) ==
           (if v.Int? && -9223372036854775808 <= v.n <= 9223372036854775807 then Ok(v.n)
            else if v.Null? then Ok(0) else Mismatch)
  {
  }

  /** A document decoded into a struct: null leaves every field at its default. */
  function Root(v: Value): Decoded<map<string, Value>> {
    match v
    case Null => Ok(map[])
    case Obj(m) => Ok(m)
    case _ => Mismatch
  }
}
