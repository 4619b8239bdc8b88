/**
 JSON values as the pipe sees them once Python's `json` module has decoded
 them: `dict`, `list`, `str`, numbers, booleans and `None`, together with the
 three Python operations the pipe applies to them: truthiness (`if x`,
 `x or y`), `len(x)` and subscripting (`x["key"]`, `x[0]`).
 */
module Json {

  /** A decoded JSON value; numbers are kept as reals (floating point is not modelled). */
  datatype Json =
    | Null
    | Bool(b: bool)
    | Num(r: real)
    | Str(s: string)
    | Arr(items: seq<Json>)
    | Obj(fields: map<string, Json>)

  /** Python's `bool(x)`: `None`, `False`, zero and empty containers are false. */
  predicate Truthy(j: Json) {
    match j
    case Null => false
    case Bool(b) => b
    case Num(r) => r != 0.0
    case Str(s) => s != []
    case Arr(xs) => xs != []
    case Obj(m) => m != map[]
  }

  /** The values `len()` accepts; on any other value it raises `TypeError`. */
  predicate Sized(j: Json) {
    j.Str? || j.Arr? || j.Obj?
  }

  /** Python's `len(x)`; for a sized value it is zero exactly when the value is falsy. */
  function Len(j: Json): (n: nat)
    requires Sized(j)
    ensures n == 0 <==> !Truthy(j)
  {
    match j
    case Str(s) => |s|
    case Arr(xs) => |xs|
    case Obj(m) =>
      assert m != map[] ==> (exists k :: k in m) && |m| > 0 by {
        if m != map[] {
          var k :| k in m;
          assert k in m.Keys;
        }
      }
      |m|
  }

  /** Python's `d.get(key, default)` on a dictionary. */
  function Get(fields: map<string, Json>, key: string, default: Json): (j: Json)
    ensures key in fields ==> j == fields[key]
    ensures key !in fields ==> j == default
  {
    if key in fields then fields[key] else default
  }

  /** A subscript the pipe uses: `x["name"]` or `x[0]`. */
  datatype Key = Name(name: string) | First

  /** What a failed subscript raises and the pipe catches: `KeyError` or `IndexError`. */
  datatype Fault =
    | MissingKey(key: Key)
    | OutOfRange(container: string)

  /**
   The outcome of a subscript: the value found, a caught fault, or a
   `TypeError` (subscripting a value that does not support that key), which
   the pipe does not catch.
   */
  datatype Step = Found(value: Json) | Fault(fault: Fault) | TypeFault

  /**
   Python's `x[k]` on a decoded JSON value. A dictionary looked up with the
   integer 0 raises `KeyError(0)`, because decoded JSON object keys are strings;
   a string subscripted with 0 yields its first character.
   */
  function Subscript(j: Json, k: Key): (r: Step)
    ensures r.Found? ==> j.Obj? || j.Arr? || j.Str?
    ensures r.TypeFault? <==> !(j.Obj? || (k.First? && (j.Arr? || j.Str?)))
  {
    match k
    case Name(n) =>
      (match j
       case Obj(m) => if n in m then Found(m[n]) else Fault(MissingKey(k))
       case _ => TypeFault)
    case First =>
      (match j
       case Arr(xs) => if xs != [] then Found(xs[0]) else Fault(OutOfRange("list"))
       case Str(s) => if s != [] then Found(Str([s[0]])) else Fault(OutOfRange("string"))
       case Obj(_) => Fault(MissingKey(k))
       case _ => TypeFault)
  }

  /** The next subscript of a chain `x[k0][k1]...`, taken only if the chain so far found a value. */
  function Then(step: Step, k: Key): Step {
    if step.Found? then Subscript(step.value, k) else step
  }

  /**
   `str(e)` for the faults above, as CPython renders them: a `KeyError` shows
   the repr of its key, an `IndexError` names the container.
   */
  function Describe(f: Fault): string {
    match f
    case MissingKey(Name(n)) => "'" + n + "'"
    case MissingKey(First) => "0"
    case OutOfRange(container) => container + " index out of range"
  }
}
