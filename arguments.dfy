/** How the factories read an input array: `$data[$key] ?? $default`, handed
    either to a typed parameter (under strict typing, a value of another type
    is a TypeError) or through a cast. */
module Arguments {
  import opened Wrappers
  import opened Values
  import Failures

  type Error = Failures.Failure

  /** `$data[$key] ?? $default` handed to a `string` parameter: under strict
      typing anything but a string is a TypeError. */
  function StringArg(data: PhpArray, key: string, default: string): (r: Result<string, Error>)
    ensures IsSet(data, key) && Find(data, key).value.Str? ==> r == Success(Find(data, key).value.s)
    ensures IsSet(data, key) && !Find(data, key).value.Str? ==> r == Failure(Failures.TypeError(key))
    ensures !IsSet(data, key) ==> r == Success(default)
  {
    match Coalesce(data, key, Str(default))
    case Str(s) => Success(s)
    case _ => Failure(Failures.TypeError(key))
  }

  /** `(int) ($data[$key] ?? $default)`. */
  function IntArg(data: PhpArray, key: string, default: int): (r: int)
    ensures IsSet(data, key) ==> r == ToInt(Find(data, key).value)
    ensures !IsSet(data, key) ==> r == default
  {
    ToInt(Coalesce(data, key, Int(default)))
  }

  /** The value under key, if set, is a string. */
  predicate StringTyped(data: PhpArray, key: string) {
    IsSet(data, key) ==> Find(data, key).value.Str?
  }

  /** `$data[$key] ?? $default` handed to an `array` parameter. */
  function ArrayArg(data: PhpArray, key: string, default: PhpArray): (r: Result<PhpArray, Error>)
    ensures IsSet(data, key) && Find(data, key).value.Arr? ==> r == Success(Find(data, key).value.entries)
    ensures IsSet(data, key) && !Find(data, key).value.Arr? ==> r == Failure(Failures.TypeError(key))
    ensures !IsSet(data, key) ==> r == Success(default)
  {
    match Coalesce(data, key, Arr(default))
    case Arr(es) => Success(es)
    case _ => Failure(Failures.TypeError(key))
  }

  /** `(string) ($data[$key] ?? $default)`. */
  function StrCastArg(data: PhpArray, key: string, default: string): (r: string)
    ensures IsSet(data, key) ==> r == ToStr(Find(data, key).value)
    ensures !IsSet(data, key) ==> r == default
  {
    ToStr(Coalesce(data, key, Str(default)))
  }

  /** `(float) ($data[$key] ?? $default)`. */
  function FloatArg(data: PhpArray, key: string, default: real): (r: real)
    ensures IsSet(data, key) ==> r == ToFloat(Find(data, key).value)
    ensures !IsSet(data, key) ==> r == default
  {
    ToFloat(Coalesce(data, key, Float(default)))
  }

  // The values toArray() writes are read back unchanged.

  lemma StringArgOfString(data: PhpArray, key: string, default: string, s: string)
    requires Find(data, key) == Some(Str(s))
    ensures StringArg(data, key, default) == Success(s)
    ensures StrCastArg(data, key, default) == s
  {
  }

  lemma IntArgOfInt(data: PhpArray, key: string, default: int, i: int)
    requires Find(data, key) == Some(Int(i))
    ensures IntArg(data, key, default) == i
  {
  }

  lemma FloatArgOfFloat(data: PhpArray, key: string, default: real, x: real)
    requires Find(data, key) == Some(Float(x))
    ensures FloatArg(data, key, default) == x
  {
  }
}
