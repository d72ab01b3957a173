/**
  JSON values as the server sees them after `res.json()`, together with the three
  JavaScript operations the core applies to them: truthiness, property reads and
  the conversion to text that a template literal performs.
*/
module Json {
  import opened Wrappers

  /** A parsed JSON value. Numbers are integers in this model. */
  datatype Value =
    | Null
    | Bool(b: bool)
    | Num(n: int)
    | Str(s: string)
    | Arr(elems: seq<Value>)
    | Obj(fields: map<string, Value>)

  /** JavaScript truthiness of a value read from a property; `None` is `undefined`. */
  predicate Truthy(v: Option<Value>) {
    match v
    case None => false
    case Some(Null) => false
    case Some(Bool(b)) => b
    case Some(Num(n)) => n != 0
    case Some(Str(s)) => s != ""
    case Some(_) => true
  }

  /**
    `v?.key`: the own property of an object. Arrays, strings, numbers and booleans
    have none of the keys the server reads, and `?.` on `null` gives `undefined`.
  */
  function Prop(v: Value, key: string): Option<Value> {
    if v.Obj? && key in v.fields then Some(v.fields[key]) else None
  }

  /** The character of a decimal digit. */
  function DigitChar(d: nat): (c: char)
    requires d < 10
    ensures '0' <= c <= '9'
  {
    ('0' as int + d) as char
  }

  predicate IsDigits(s: string) {
    forall i :: 0 <= i < |s| ==> '0' <= s[i] <= '9'
  }

  /** Decimal notation of a natural number, as `String(n)` writes it. */
  function NatText(n: nat): (r: string)
    ensures |r| >= 1 && IsDigits(r)
  {
    if n < 10 then [DigitChar(n)] else NatText(n / 10) + [DigitChar(n % 10)]
  }

  /** The number a string of decimal digits denotes: the partner of `NatText`. */
  function DigitsValue(s: string): nat
    requires IsDigits(s)
  {
    if s == [] then 0
    else DigitsValue(s[..|s| - 1]) * 10 + (s[|s| - 1] as int - '0' as int)
  }

  /** Reading back the decimal text of `n` gives `n`. */
  lemma {:induction false} NatTextRoundTrip(n: nat)
    ensures DigitsValue(NatText(n)) == n
  {
    if n >= 10 {
      var t := NatText(n);
      assert t[..|t| - 1] == NatText(n / 10);
      NatTextRoundTrip(n / 10);
    }
  }

  /** Distinct natural numbers have distinct decimal texts. */
  lemma NatTextInjective(a: nat, b: nat)
    requires NatText(a) == NatText(b)
    ensures a == b
  {
    NatTextRoundTrip(a);
    NatTextRoundTrip(b);
  }

  /** `String(n)` for an integer. */
  function IntText(n: int): string {
    if n < 0 then "-" + NatText(-n) else NatText(n)
  }

  lemma NegativeText(n: int)
    requires n < 0
    ensures IntText(n)[0] == '-' && IntText(n)[1..] == NatText(-n)
  {
  }

  /** Distinct integers have distinct texts. */
  lemma IntTextInjective(a: int, b: int)
    requires IntText(a) == IntText(b)
    ensures a == b
  {
    if a < 0 {
      NegativeText(a);
      if b < 0 {
        NegativeText(b);
        NatTextInjective(-a, -b);
      } else {
        assert false;
      }
    } else if b < 0 {
      NegativeText(b);
      assert false;
    } else {
      NatTextInjective(a, b);
    }
  }

  /**
    `String(v)` for a value that is present, as a template literal converts it.
    An object with its own `toString` key throws: that property is not callable,
    and `valueOf` returns the object itself, so no primitive is found.
    `Array.prototype.join` writes `null` elements as "" and converts the others,
    so an array throws when one of its elements does.
  */
  function ValueText(v: Value): (r: Result<string>)
    ensures v.Obj? ==> (r.Err? <==> "toString" in v.fields)
    ensures !v.Arr? && !v.Obj? ==> r.Ok?
  {
    match v
    case Null => Ok("null")
    case Bool(b) => Ok(if b then "true" else "false")
    case Num(n) => Ok(IntText(n))
    case Str(s) => Ok(s)
    case Arr(xs) => ElemsText(xs)
    case Obj(fields) => if "toString" in fields then Err else Ok("[object Object]")
  }

  /** The elements of an array written out and separated by commas. */
  function ElemsText(xs: seq<Value>): Result<string> {
    if xs == [] then Ok("")
    else
      var head := if xs[0].Null? then Ok("") else ValueText(xs[0]);
      if head.Err? then Err
      else if |xs| == 1 then head
      else match ElemsText(xs[1..])
        case Err => Err
        case Ok(tail) => Ok(head.value + "," + tail)
  }

  /** Writing out an array throws exactly when writing out one of its elements does. */
  lemma {:induction false} ElemsTextFails(xs: seq<Value>)
    ensures ElemsText(xs).Err? <==> exists i :: 0 <= i < |xs| && ValueText(xs[i]).Err?
  {
    if xs != [] && |xs| > 1 {
      ElemsTextFails(xs[1..]);
      if ElemsText(xs[1..]).Err? {
        var i :| 0 <= i < |xs[1..]| && ValueText(xs[1..][i]).Err?;
        assert ValueText(xs[i + 1]).Err?;
      }
      if exists i :: 0 <= i < |xs| && ValueText(xs[i]).Err? {
        var i :| 0 <= i < |xs| && ValueText(xs[i]).Err?;
        if i > 0 {
          assert ValueText(xs[1..][i - 1]).Err?;
        }
      }
    }
  }

  /** What `${v}` inserts for a property read: `undefined` when the property is missing. */
  function ToText(v: Option<Value>): (r: Result<string>)
    ensures v.None? ==> r == Ok("undefined")
  {
    match v
    case None => Ok("undefined")
    case Some(x) => ValueText(x)
  }
}
