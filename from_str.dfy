/** A concrete `FromStr` for the two target types whose parsing is fixed by
    Rust's standard library without any numeric grammar: `String` and `bool`. */
module FromStr {
  import opened Wrappers

  /** The target types of this parser. */
  datatype Ty = StringTy | BoolTy

  /** A parsed member value. */
  datatype Value = Text(s: string) | Flag(b: bool)

  function TypeOf(v: Value): Ty {
    match v
    case Text(_) => StringTy
    case Flag(_) => BoolTy
  }

  /** `String::from_str` never fails and keeps the text unchanged;
      `bool::from_str` accepts exactly "true" and "false", case-sensitively. */
  function Parse(ty: Ty, raw: string): (r: Option<Value>)
    ensures r.Some? ==> TypeOf(r.value) == ty
    ensures ty == StringTy ==> r == Some(Text(raw))
    ensures ty == BoolTy ==> (r == Some(Flag(true)) <==> raw == "true")
    ensures ty == BoolTy ==> (r == Some(Flag(false)) <==> raw == "false")
    ensures ty == BoolTy ==> (r.None? <==> raw != "true" && raw != "false")
  {
    match ty
    case StringTy => Some(Text(raw))
    case BoolTy =>
      if raw == "true" then Some(Flag(true))
      else if raw == "false" then Some(Flag(false))
      else None
  }

  /** `to_string`: the text each value displays as. */
  function Render(v: Value): string {
    match v
    case Text(s) => s
    case Flag(b) => if b then "true" else "false"
  }

  /** Parsing the displayed text of a value under its own type gives the value back. */
  lemma ParseInvertsRender(v: Value)
    ensures Parse(TypeOf(v), Render(v)) == Some(v)
  {
  }

  /** Every text the parser accepts is the displayed form of what it yields. */
  lemma RenderInvertsParse(ty: Ty, raw: string)
    requires Parse(ty, raw).Some?
    ensures Render(Parse(ty, raw).value) == raw
  {
  }
}
