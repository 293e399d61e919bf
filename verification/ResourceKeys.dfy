/** Resource type keys: the grammar both decoders and the host catalog check. */
module ResourceKeys {
  import opened Bytes

  const DOT: u8 := 46

  predicate KeyChar(b: u8) {
    97 <= b <= 122 || 48 <= b <= 57 || b == 95 || b == 45
  }

  /** Non-empty runs of key characters joined by single dots, at most 128 bytes in all. */
  predicate KeyOk(key: Str) {
    && 0 < |key| <= MAX_NAME
    && (forall b <- key :: KeyChar(b) || b == DOT)
    && key[0] != DOT && key[|key| - 1] != DOT
    && forall i | 0 <= i < |key| - 1 :: key[i] != DOT || key[i + 1] != DOT
  }
}
