/** What the core gets from modules this model does not contain: the `helpers` conversions, the
    `answers` choice codec, and the `Display` of `f64`. Their bodies are not part of this model, so
    they are parameters: the model holds for every behaviour they might have, and a lemma that needs
    one of them to behave in a certain way says so in its requires. */
module Collaborators {
  import opened Wrappers

  /** Rust's `u64`. */
  type u64 = x: int | 0 <= x < 0x1_0000_0000_0000_0000

  /** `answers::Choices`: the four answer letters. */
  datatype Choice = A | B | C | D

  /** An `f64` held as its bit pattern; the model never does arithmetic with it. */
  datatype F64 = F64(bits: bv64)

  datatype Env = Env(
    /** `helpers::convert_to_integer`; `None` is its `Err(ParseIntError)`. */
    toInteger: string -> Option<u64>,
    /** `helpers::convert_to_float`. */
    toFloat: string -> Option<F64>,
    /** `helpers::split_str_to_vec`. */
    splitToVec: (string, char) -> seq<string>,
    /** `answers::to_choices_enum`. */
    toChoice: string -> Option<Choice>,
    /** what `format!("{}", x)` writes for an `f64`. */
    formatFloat: F64 -> string
  )
}
