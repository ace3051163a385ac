/** The optional values and the identifiers that the broker's parts share. */
module Options {
  datatype Option<+T> = None | Some(value: T)
}

/** Byte lengths and identifiers of the wire's text. Lone surrogates do not occur in decoded UTF-8. */
module Text {
  const SAFE_IDENTIFIER_MAX_BYTES := 512

  /** The UTF-8 length of one code point. */
  function CharBytes(c: char): (n: nat)
    ensures 1 <= n <= 4
  {
    if c < '\U{80}' then 1 else if c < '\U{800}' then 2 else if c < '\U{10000}' then 3 else 4
  }

  /** The UTF-8 length of a decoded string. */
  function ByteLength(s: string): (n: nat)
    ensures n >= |s|
  {
    if s == "" then 0 else CharBytes(s[0]) + ByteLength(s[1..])
  }

  predicate IsControl(c: char) { c <= '\U{1F}' || c == '\U{7F}' }

  predicate SafeIdentifier(s: string) {
    s != "" && ByteLength(s) <= SAFE_IDENTIFIER_MAX_BYTES && forall i :: 0 <= i < |s| ==> !IsControl(s[i])
  }

  lemma {:induction false} ByteLengthConcat(a: string, b: string)
    ensures ByteLength(a + b) == ByteLength(a) + ByteLength(b)
  {
    if a == "" {
      assert a + b == b;
    } else {
      ByteLengthConcat(a[1..], b);
      assert (a + b)[1..] == a[1..] + b;
    }
  }
}
