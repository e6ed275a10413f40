/** What several modules share: a missing value, octets, column shapes, and the judge's limits. */
module Values {
  datatype Option<+T> = None | Some(value: T)

  newtype Octet = x: int | 0 <= x < 256
  type Octets = seq<Octet>

  /** The largest revision, epoch or size a column takes. */
  const MAX_REVISION := 9007199254740991

  /** One to 96 letters, digits, underscores or hyphens. */
  predicate IsName(s: string) {
    && 1 <= |s| <= 96
    && forall i :: 0 <= i < |s| ==>
         'a' <= s[i] <= 'z' || 'A' <= s[i] <= 'Z' || '0' <= s[i] <= '9' || s[i] == '_' || s[i] == '-'
  }

  /** Something is left once the spaces are trimmed. */
  predicate NotBlank(s: string) {
    exists i :: 0 <= i < |s| && s[i] != ' '
  }

  function Max(a: nat, b: nat): nat {
    if a < b then b else a
  }

  // ---------------------------------------------------------------- limits of the credential judge

  const MAX_SCAN_DEPTH: nat := 64
  const MAX_SCAN_NODES: nat := 10_000
  const MAX_STRING_CHARS: nat := 1_000_000
  const MAX_TOTAL_CHARS: nat := 8_000_000
  const MAX_SERIALIZED_JSON_CHARS: nat := 256_000

  /** A mapping key: text, or an object of another type. */
  datatype Key = TextKey(name: string) | OtherKey
}
