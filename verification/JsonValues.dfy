/** Parsed JSON values, as `json.loads` returns them. */
module JsonValues {
  import opened Results

  datatype Json =
    | JNull
    | JBool(flag: bool)
    | JInt(number: int)
    | JReal(value: real)
    | JString(text: string)
    | JArray(items: seq<Json>)
    | JObject(fields: map<string, Json>)

  /** How `str` shows a value that is not a string. */
  type Renderer = Json -> string

  function Text(render: Renderer, j: Json): string {
    if j.JString? then j.text else render(j)
  }

  /** `str(obj.get(key, ""))`. */
  function FieldText(render: Renderer, fields: map<string, Json>, key: string): string {
    if key in fields then Text(render, fields[key]) else ""
  }

  /** `isinstance(value, int)`: a truth value is an integer too. */
  function AsInt(j: Json): Option<int> {
    match j
    case JInt(n) => Some(n)
    case JBool(b) => Some(if b then 1 else 0)
    case _ => None
  }

  function Digit(n: nat): char
    requires n < 10
  {
    "0123456789"[n]
  }

  function Decimal(n: nat): string {
    if n < 10 then [Digit(n)] else Decimal(n / 10) + [Digit(n % 10)]
  }

  /** The format `{n:03d}`. */
  function ThreeDigits(n: nat): string {
    if n < 10 then "00" + Decimal(n) else if n < 100 then "0" + Decimal(n) else Decimal(n)
  }

  lemma {:induction false} DecimalDigits(n: nat)
    ensures Decimal(n) != "" && forall i :: 0 <= i < |Decimal(n)| ==> '0' <= Decimal(n)[i] <= '9'
  {
    assert forall d: nat :: d < 10 ==> '0' <= Digit(d) <= '9';
    if n >= 10 {
      DecimalDigits(n / 10);
    }
  }
}
