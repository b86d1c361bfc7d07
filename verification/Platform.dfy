/** What the operators take from their platform: number formatting, hashing, text and float functions. */
module Platform {
  import opened Prelude
  import opened Values

  /** What `compute_bucket` feeds to the hasher. */
  datatype HashInput = Text(s: string) | Flag(b: bool) | Zero

  /** Arbitrary functions: every theorem holds for all of them unless it says otherwise. */
  datatype Runtime = Runtime(
    numText: Number -> string,
    hash: HashInput -> nat,
    asReal: Number -> real,
    fromReal: real -> Number,
    add: (real, real) -> real,
    min: (real, real) -> real,
    max: (real, real) -> real)
}
