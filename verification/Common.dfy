/** Values shared by every part of the model: results, byte strings, digests, text
    lengths and the saturating arithmetic of a 64-bit `usize`. */
module Common {

  datatype Option<+T> = None | Some(value: T)

  datatype Result<+T, +E> = Ok(value: T) | Err(error: E)

  type byte = x: int | 0 <= x < 256

  type Bytes = seq<byte>

  /** An ideal digest: `Sha256` is injective by construction. A caller may also
      hand in a text that is the digest of nothing, which is `Unrelated`. */
  datatype Digest = Sha256(preimage: Bytes) | Unrelated(text: string)

  const MAX_USIZE: nat := 0xFFFF_FFFF_FFFF_FFFF

  function Min(a: nat, b: nat): nat {
    if a <= b then a else b
  }

  predicate Alphanumeric(c: char) {
    '0' <= c <= '9' || 'a' <= c <= 'z' || 'A' <= c <= 'Z'
  }

  /** Bytes of a character in UTF-8. */
  function Utf8(c: char): (n: nat)
    ensures 1 <= n <= 4
  {
    if c as int < 0x80 then 1
    else if c as int < 0x800 then 2
    else if c as int < 0x10000 then 3
    else 4
  }

  function Utf8Len(s: string): nat {
    if s == "" then 0 else Utf8(s[0]) + Utf8Len(s[1..])
  }

  lemma {:induction false} Utf8AtMost(s: string)
    ensures Utf8Len(s) <= 4 * |s|
  {
    if s != "" {
      Utf8AtMost(s[1..]);
    }
  }

  /** Position of the first slash, or the length. */
  function Slash(path: string): (i: nat)
    ensures i <= |path| && '/' !in path[..i] && (i < |path| ==> path[i] == '/')
  {
    if path == "" || path[0] == '/' then 0
    else
      assert path[..1 + Slash(path[1..])] == [path[0]] + path[1..][..Slash(path[1..])];
      1 + Slash(path[1..])
  }

  lemma SlashAfterName(name: string, rest: string)
    requires '/' !in name
    ensures Slash(name + "/" + rest) == |name| && Slash(name) == |name|
  {
    var path := name + "/" + rest;
    assert path[|name|] == '/';
    assert forall k :: 0 <= k < |name| ==> path[k] == name[k] && name[k] in name;
  }

  lemma HeadOfConcat<T>(a: seq<T>, b: seq<T>)
    requires a != []
    ensures (a + b)[1..] == a[1..] + b && (a + b)[0] == a[0]
  {}

  lemma LastOfConcat<T>(a: seq<T>, b: seq<T>)
    requires b != []
    ensures (a + b)[..|a + b| - 1] == a + b[..|b| - 1] && (a + b)[|a + b| - 1] == b[|b| - 1]
  {}

  /** Clamp to the largest `usize`. */
  function Sat(n: nat): nat {
    Min(n, MAX_USIZE)
  }

  function SatAdd(a: nat, b: nat): nat {
    Sat(a + b)
  }

  function SatSub(a: nat, b: nat): nat {
    if a <= b then 0 else a - b
  }

  /** `usize::div_ceil`. */
  function CeilDiv(a: nat, d: nat): nat
    requires d > 0
  {
    (a + d - 1) / d
  }

  lemma DivMonotone(x: nat, y: nat, d: nat)
    requires d > 0 && x <= y
    ensures x / d <= y / d
  {
    var p, q := x / d, y / d;
    assert x == p * d + x % d && y == q * d + y % d;
    if q + 1 <= p {
      MulMonotone(q + 1, p, d);
    }
  }

  lemma MulMonotone(a: nat, b: nat, d: nat)
    requires a <= b
    ensures a * d <= b * d
  {}

  lemma CeilDivMonotone(a: nat, b: nat, d: nat)
    requires d > 0 && a <= b
    ensures CeilDiv(a, d) <= CeilDiv(b, d)
  {
    DivMonotone(a + d - 1, b + d - 1, d);
  }

  lemma SatAssociates(a: nat, b: nat, c: nat)
    ensures SatAdd(SatAdd(a, b), c) == SatAdd(a, SatAdd(b, c))
  {}

  lemma SatTwo(a: nat, b: nat)
    ensures SatAdd(Sat(b), Sat(a)) == Sat(a + b)
  {}

  lemma SatThree(a: nat, b: nat, c: nat)
    ensures SatAdd(Sat(c), SatAdd(Sat(a), Sat(b))) == Sat(a + b + c)
  {}
}
