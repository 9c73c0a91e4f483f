/** The part of the Jacob COM bridge the plugin touches: variants and their conversions. */
module Jacob {
  import opened Wrappers

  newtype byte = x: int | 0 <= x < 256

  /** A COM variant, reduced to the kinds the plugin exchanges with the engine. */
  datatype Variant =
    | Empty             // VT_EMPTY: a fresh Variant, or an unset SafeArray slot
    | Null              // VT_NULL
    | Byte(b: byte)     // VT_UI1, written by putByte
    | Int(n: int)       // VT_I4
    | Float(bits: bv32) // VT_R4, carried as its IEEE 754 bits (floating point is not modelled)
    | Str(s: string)    // VT_BSTR

  /** The target types the plugin passes to `changeType`. */
  datatype VariantType = VariantInt | VariantFloat | VariantString

  /** `v.changeType(t).toString()`: the COM conversion followed by the text of the converted value.
      The conversion rules belong to COM and are a parameter of the model. */
  type Coercion = (Variant, VariantType) -> string

  /** `v.toString()`, which Jacob computes by converting to a string variant. */
  function ToText(coerce: Coercion, v: Variant): string {
    coerce(v, VariantString)
  }

  /** `v.isNull()`. */
  predicate IsNull(v: Variant) {
    v.Empty? || v.Null?
  }

  /** `v.getInt()`: the integer of an integer variant; for any other kind Jacob throws. */
  function GetInt(v: Variant): (r: Option<int>)
    ensures r.Some? <==> v.Int?
  {
    if v.Int? then Some(v.n) else None
  }

  /** A conversion that leaves strings as they are, as COM does for string-to-string. */
  ghost predicate KeepsStrings(coerce: Coercion) {
    forall s :: coerce(Str(s), VariantString) == s
  }
}
