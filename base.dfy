/** Shared vocabulary: optional values and the fixed-width unsigned integers
    that the Rust structs use for ids, orders and counts. */
module Base {

  /** Rust's `Option<T>`. */
  datatype Option<+T> = None | Some(value: T)

  /** Rust's `u8`: ids, display orders, step orders, iteration counts. */
  type U8 = x: int | 0 <= x < 0x100

  /** Rust's `u32`: the provider exercise source id. */
  type U32 = x: int | 0 <= x < 0x1_0000_0000

  /** Rust's `u64`: step ids. */
  type U64 = x: int | 0 <= x < 0x1_0000_0000_0000_0000
}
