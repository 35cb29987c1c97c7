/**
 * Values as they arrive in a request body or a JSON row: a named field is
 * either missing (JavaScript `undefined`), `null`, or a string.  Truthiness
 * follows JavaScript: only a non-empty string is truthy.
 */
module JsValues {

  datatype Option<+T> = None | Some(value: T)

  datatype Result<+T, +E> = Ok(value: T) | Err(error: E)

  /** A string-valued property of a request body or of a fetched row. */
  datatype Field = Absent | Null | Text(s: string)

  /** JavaScript truthiness of a field: `undefined`, `null` and `''` are falsy. */
  predicate Truthy(f: Field) {
    f.Text? && f.s != ""
  }

  /** `f || fallback` for a string-valued field. */
  function OrElse(f: Field, fallback: string): string
  {
    if Truthy(f) then f.s else fallback
  }

  /** Property access `obj.name` on a record held as a map from column to value. */
  function Get(fields: map<string, Field>, name: string): Field
  {
    if name in fields then fields[name] else Absent
  }
}
