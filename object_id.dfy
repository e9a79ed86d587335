/**
 * Store identifiers: a 12-byte ObjectId, its 24-digit lower-case hex string (`_id.toString()`), and the
 * cast from a request path parameter back to an ObjectId, whose failure is the store's CastError.
 */
module ObjectIds {
  import opened Options

  newtype byte = x: int | 0 <= x < 256

  type ObjectId = s: seq<byte> | |s| == 12 witness [0, 0, 0, 0, 0, 0, 0, 0, 0, 0, 0, 0]

  /** The lower-case hex digit for `n`. */
  function HexDigit(n: int): char
    requires 0 <= n < 16
  {
    if n < 10 then (48 + n) as char else (87 + n) as char
  }

  /** The value of a hex digit of either case, or None for any other character. */
  function HexValue(c: char): (r: Option<int>)
    ensures r.Some? ==> 0 <= r.value < 16
  {
    if '0' <= c <= '9' then Some(c as int - 48)
    else if 'a' <= c <= 'f' then Some(c as int - 87)
    else if 'A' <= c <= 'F' then Some(c as int - 55)
    else None
  }

  predicate IsHexDigit(c: char) {
    HexValue(c).Some?
  }

  /** Two lower-case hex digits per byte, high nibble first. */
  function ToHex(b: seq<byte>): (s: string)
    ensures |s| == 2 * |b|
    ensures forall i :: 0 <= i < |s| ==> IsHexDigit(s[i])
  {
    if b == [] then ""
    else [HexDigit(b[0] as int / 16), HexDigit(b[0] as int % 16)] + ToHex(b[1..])
  }

  /** Reads pairs of hex digits back into bytes; None as soon as one character is not a hex digit. */
  function ParseHex(s: string): (r: Option<seq<byte>>)
    requires |s| % 2 == 0
    ensures r.Some? <==> forall i :: 0 <= i < |s| ==> IsHexDigit(s[i])
    ensures r.Some? ==> 2 * |r.value| == |s|
    decreases |s|
  {
    if s == [] then Some([])
    else
      var rest := ParseHex(s[2..]);
      assert forall i :: 2 <= i < |s| ==> s[i] == s[2..][i - 2];
      if HexValue(s[0]).Some? && HexValue(s[1]).Some? && rest.Some? then
        Some([(HexValue(s[0]).value * 16 + HexValue(s[1]).value) as byte] + rest.value)
      else None
  }

  /** `_id.toString()`. */
  function IdToString(id: ObjectId): string {
    ToHex(id)
  }

  /** A string the store accepts as an ObjectId: exactly 24 hex digits. */
  predicate IsValidId(s: string) {
    |s| == 24 && forall i :: 0 <= i < |s| ==> IsHexDigit(s[i])
  }

  /** Casting a path parameter to an ObjectId; None is the store's CastError. */
  function CastId(s: string): (r: Option<ObjectId>)
    ensures r.Some? <==> IsValidId(s)
  {
    if |s| != 24 then None
    else
      match ParseHex(s)
      case Some(b) => Some(b)
      case None => None
  }

  lemma HexDigitValue(n: int)
    requires 0 <= n < 16
    ensures HexValue(HexDigit(n)) == Some(n)
  {
  }

  lemma {:induction false} ParseToHex(b: seq<byte>)
    ensures ParseHex(ToHex(b)) == Some(b)
  {
    if b != [] {
      var s := ToHex(b);
      var hi, lo := b[0] as int / 16, b[0] as int % 16;
      HexDigitValue(hi);
      HexDigitValue(lo);
      assert s[2..] == ToHex(b[1..]);
      ParseToHex(b[1..]);
      assert b == [(hi * 16 + lo) as byte] + b[1..];
    }
  }

  /** The string form of an id, used as a path parameter, casts back to the same id. */
  lemma CastIdToString(id: ObjectId)
    ensures CastId(IdToString(id)) == Some(id)
  {
    ParseToHex(id);
  }

  /** Distinct ids have distinct string forms, so the client may compare ids as strings. */
  lemma IdToStringInjective(a: ObjectId, b: ObjectId)
    ensures IdToString(a) == IdToString(b) <==> a == b
  {
    if IdToString(a) == IdToString(b) {
      CastIdToString(a);
      CastIdToString(b);
    }
  }
}
