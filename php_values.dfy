/** PHP scalar values as the plugin reads them from the options store and the
    request, with the two PHP conversions the plugin relies on: `empty()` on a
    string and string conversion for concatenation with `.`. */
module PhpValues {

  /** An argument that may be left out, or an array entry that may be unset. */
  datatype Option<T> = None | Some(value: T)

  /** An option value as `get_site_option` may return it. */
  datatype PhpValue = Null | Bool(b: bool) | Str(s: string)

  /** PHP `empty()` on a string: true for "" and for "0", false for every other string. */
  predicate EmptyString(s: string)
  {
    s == "" || s == "0"
  }

  /** PHP `empty($arr[$key])` on a string-valued array: an absent key is empty too. */
  predicate EmptyAt(m: map<string, string>, key: string)
  {
    key !in m || EmptyString(m[key])
  }

  /** PHP string conversion, as `.` performs it on its operands. */
  function ToPhpString(v: PhpValue): (r: string)
    ensures v.Str? ==> r == v.s
    ensures !v.Str? ==> (r == "1" <==> v == Bool(true))
    ensures !v.Str? ==> (r == "" <==> v != Bool(true))
  {
    match v
    case Null => ""
    case Bool(b) => if b then "1" else ""
    case Str(s) => s
  }

  /** Strings whose characters are all single bytes: PHP strings are byte strings. */
  predicate IsBytes(s: string)
  {
    forall i | 0 <= i < |s| :: s[i] as int < 256
  }

  type ByteString = s: string | IsBytes(s)
}
