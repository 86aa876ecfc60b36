/** The values documents hold. Numbers are integers here; an absent key reads as Undefined. */
module Json {
  datatype Value =
    | Undefined
    | Null
    | Bool(b: bool)
    | Num(n: int)
    | Str(s: string)
    | Arr(elems: seq<Value>)
    | Obj(fields: map<string, Value>)

  /** String(n) for an integer */
  function Decimal(n: int): string { if n < 0 then "-" + Digits(-n) else Digits(n) }

  function Digits(n: nat): string {
    (if n < 10 then "" else Digits(n / 10)) + [('0' as int + n % 10) as char]
  }

  predicate AllDigits(s: string) { s != "" && forall i | 0 <= i < |s| :: '0' <= s[i] <= '9' }

  /** String(v) */
  function Text(v: Value): string {
    match v
    case Undefined => "undefined"
    case Null => "null"
    case Bool(b) => if b then "true" else "false"
    case Num(n) => Decimal(n)
    case Str(s) => s
    case Arr(elems) => CommaJoined(elems)
    case Obj(_) => "[object Object]"
  }

  function CommaJoined(elems: seq<Value>): string {
    if elems == [] then ""
    else
      var first := if elems[0].Null? || elems[0].Undefined? then "" else Text(elems[0]);
      if |elems| == 1 then first else first + "," + CommaJoined(elems[1..])
  }
}
