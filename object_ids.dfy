/** MongoDB ObjectIds: 12-byte identifiers whose `toString()` is 24 lower-case
    hexadecimal digits, and the cast Mongoose applies to a string before a
    lookup by `_id`. The handlers compare ids through `toString()`, which is
    sound only because the hexadecimal form determines the id. */
module ObjectIds {
  import opened Common

  const HEX_DIGITS: string := "0123456789abcdef"
  const OBJECT_ID_HEX_LENGTH: nat := 24

  function Pow16(k: nat): (p: nat)
    ensures p > 0
  {
    if k == 0 then 1 else 16 * Pow16(k - 1)
  }

  /** A 12-byte ObjectId, as the number it spells. */
  type ObjectId = n: nat | n < Pow16(OBJECT_ID_HEX_LENGTH)

  predicate IsLowerHexDigit(c: char) {
    '0' <= c <= '9' || 'a' <= c <= 'f'
  }

  /** The `width` low-order hexadecimal digits of `n`, most significant first. */
  function Hex(n: nat, width: nat): (s: string)
    ensures |s| == width
    ensures forall i :: 0 <= i < |s| ==> IsLowerHexDigit(s[i])
  {
    if width == 0 then "" else Hex(n / 16, width - 1) + [HEX_DIGITS[n % 16]]
  }

  /** The value of one hexadecimal digit of either case. */
  function HexValue(c: char): (r: Option<nat>)
    ensures r.Some? ==> r.value < 16
  {
    if '0' <= c <= '9' then Some(c as nat - '0' as nat)
    else if 'a' <= c <= 'f' then Some(c as nat - 'a' as nat + 10)
    else if 'A' <= c <= 'F' then Some(c as nat - 'A' as nat + 10)
    else None
  }

  /** The number a string of hexadecimal digits spells, or None if some character is not one. */
  function ParseHex(s: string): (r: Option<nat>)
    ensures r.Some? ==> r.value < Pow16(|s|)
  {
    if s == [] then Some(0)
    else
      match (ParseHex(s[..|s| - 1]), HexValue(s[|s| - 1]))
      case (Some(high), Some(low)) => Some(high * 16 + low)
      case _ => None
  }

  /** `oid.toString()`. */
  function ToHexString(oid: ObjectId): (s: string)
    ensures |s| == OBJECT_ID_HEX_LENGTH
  {
    Hex(oid, OBJECT_ID_HEX_LENGTH)
  }

  /** Mongoose's cast of a string to an ObjectId: 24 hexadecimal digits, else a cast error (None). */
  function CastObjectId(s: string): (r: Option<ObjectId>)
    ensures r.Some? ==> |s| == OBJECT_ID_HEX_LENGTH
  {
    if |s| != OBJECT_ID_HEX_LENGTH then None
    else match ParseHex(s)
      case Some(n) => Some(n)
      case None => None
  }

  lemma HexDigitValue(d: nat)
    requires d < 16
    ensures HexValue(HEX_DIGITS[d]) == Some(d)
  {
  }

  lemma Pow16Step(n: nat, k: nat)
    requires n < Pow16(k + 1)
    ensures n / 16 < Pow16(k)
  {
  }

  lemma DivMod16(n: nat)
    ensures (n / 16) * 16 + n % 16 == n
  {
  }

  lemma HexUnfold(n: nat, width: nat)
    requires width > 0
    ensures Hex(n, width) == Hex(n / 16, width - 1) + [HEX_DIGITS[n % 16]]
  {
  }

  lemma ParseHexAppend(prefix: string, c: char, high: nat, low: nat)
    requires ParseHex(prefix) == Some(high) && HexValue(c) == Some(low)
    ensures ParseHex(prefix + [c]) == Some(high * 16 + low)
  {
    var s := prefix + [c];
    assert s[..|s| - 1] == prefix;
  }

  /** One more digit: if the digits of n / 16 read back, so do those of n. */
  lemma ParseHexStep(n: nat, width: nat)
    requires width > 0
    requires ParseHex(Hex(n / 16, width - 1)) == Some(n / 16)
    ensures ParseHex(Hex(n, width)) == Some(n)
  {
    var high, low := n / 16, n % 16;
    HexUnfold(n, width);
    HexDigitValue(low);
    ParseHexAppend(Hex(high, width - 1), HEX_DIGITS[low], high, low);
    DivMod16(n);
  }

  /** Reading back the digits `Hex` writes gives the number again. */
  lemma {:induction false} ParseHexRoundTrip(n: nat, width: nat)
    requires n < Pow16(width)
    ensures ParseHex(Hex(n, width)) == Some(n)
  {
    if width > 0 {
      Pow16Step(n, width - 1);
      ParseHexRoundTrip(n / 16, width - 1);
      ParseHexStep(n, width);
    }
  }

  /** Every ObjectId's string form casts back to that ObjectId. */
  lemma CastToHexStringRoundTrip(oid: ObjectId)
    ensures CastObjectId(ToHexString(oid)) == Some(oid)
  {
    ParseHexRoundTrip(oid, OBJECT_ID_HEX_LENGTH);
  }

  /** Comparing string forms compares ids: `a.toString() === b.toString()` exactly when a and b are the same id. */
  lemma ToHexStringInjective(a: ObjectId, b: ObjectId)
    ensures ToHexString(a) == ToHexString(b) <==> a == b
  {
    CastToHexStringRoundTrip(a);
    CastToHexStringRoundTrip(b);
  }
}
