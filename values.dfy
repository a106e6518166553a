/** Ruby values as the controller sees them: request parameters and their
    `present?` test. */
module RubyValues {

  datatype Option<+T> = None | Some(value: T)

  /** A request parameter value: Ruby's nil, a string, or a boolean written
      back into the parameters by the controller. */
  datatype Value = Nil | Str(s: string) | Bool(b: bool)

  /** The request parameters, keyed by name; an absent key reads as nil. */
  type Params = map<string, Value>

  function Get(params: Params, key: string): Value
  {
    if key in params then params[key] else Nil
  }

  /** The characters matched by `[[:space:]]` in the ASCII range. */
  predicate IsSpace(c: char)
  {
    c == ' ' || c == '\t' || c == '\n' || c == '\r' || c == '\U{000C}' || c == '\U{000B}'
  }

  /** ActiveSupport's `present?`: nil and false are blank, a string is blank
      when it holds nothing but white space. */
  predicate Present(v: Value): (p: bool)
    ensures v == Nil || v == Bool(false) || v == Str("") ==> !p
    ensures v.Bool? ==> (p <==> v.b)
    ensures v.Str? ==> (!p <==> forall i :: 0 <= i < |v.s| ==> IsSpace(v.s[i]))
  {
    match v
    case Nil => false
    case Bool(b) => b
    case Str(s) => exists i :: 0 <= i < |s| && !IsSpace(s[i])
  }
}
