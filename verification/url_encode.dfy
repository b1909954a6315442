/**
 * `urlencode` and `http_build_query` as PHP defines them for flat arrays:
 * letters, digits, '-', '_' and '.' stay, a space becomes '+', and every
 * other character becomes '%XX' for each byte of its UTF-8 encoding.
 */
module UrlEncode {
  import opened PhpString
  import opened PhpArray

  /** Characters `urlencode` leaves unchanged. */
  predicate Unreserved(c: char) {
    ('a' <= c <= 'z') || ('A' <= c <= 'Z') || ('0' <= c <= '9') || c == '-' || c == '_' || c == '.'
  }

  /** Characters `urlencode` can produce. */
  predicate EncodedChar(c: char) {
    Unreserved(c) || c == '+' || c == '%'
  }

  /** The UTF-8 bytes of one character. */
  function Utf8(c: char): (bytes: seq<nat>)
    ensures 1 <= |bytes| <= 4
    ensures forall i :: 0 <= i < |bytes| ==> bytes[i] < 256
  {
    var cp := c as int;
    if cp < 0x80 then [cp]
    else if cp < 0x800 then [0xC0 + cp / 0x40, 0x80 + cp % 0x40]
    else if cp < 0x1_0000 then [0xE0 + cp / 0x1000, 0x80 + (cp / 0x40) % 0x40, 0x80 + cp % 0x40]
    else [0xF0 + (cp / 0x4_0000) % 8, 0x80 + (cp / 0x1000) % 0x40, 0x80 + (cp / 0x40) % 0x40, 0x80 + cp % 0x40]
  }

  function HexDigit(d: nat): (c: char)
    requires d < 16
    ensures Unreserved(c)
  {
    "0123456789ABCDEF"[d]
  }

  function PercentBytes(bytes: seq<nat>): (r: string)
    requires forall i :: 0 <= i < |bytes| ==> bytes[i] < 256
    ensures |r| == 3 * |bytes|
    ensures forall i :: 0 <= i < |r| ==> EncodedChar(r[i])
  {
    if |bytes| == 0 then ""
    else ['%', HexDigit(bytes[0] / 16), HexDigit(bytes[0] % 16)] + PercentBytes(bytes[1..])
  }

  function EncodeChar(c: char): (r: string)
    ensures forall i :: 0 <= i < |r| ==> EncodedChar(r[i])
    ensures Unreserved(c) ==> r == [c]
  {
    if Unreserved(c) then [c]
    else if c == ' ' then "+"
    else PercentBytes(Utf8(c))
  }

  /** `urlencode($s)`. */
  function Encode(s: string): (r: string)
    ensures forall i :: 0 <= i < |r| ==> EncodedChar(r[i])
  {
    if |s| == 0 then "" else EncodeChar(s[0]) + Encode(s[1..])
  }

  /** A text made only of unreserved characters is its own encoding. */
  lemma {:induction false} EncodeUnreserved(s: string)
    requires forall i :: 0 <= i < |s| ==> Unreserved(s[i])
    ensures Encode(s) == s
  {
    if |s| > 0 {
      EncodeUnreserved(s[1..]);
      assert s == [s[0]] + s[1..];
    }
  }

  /** One `key=value` piece of a query string. */
  function QueryPiece(e: (Key, string)): string {
    Encode(KeyString(e.0)) + "=" + Encode(e.1)
  }

  function QueryPieces(a: Arr<string>): (r: seq<string>)
    ensures |r| == |a|
    ensures forall i :: 0 <= i < |a| ==> r[i] == QueryPiece(a[i])
  {
    seq(|a|, i requires 0 <= i < |a| => QueryPiece(a[i]))
  }

  /** `http_build_query($a)` for a flat array of scalars. */
  function BuildQuery(a: Arr<string>): string {
    Join(QueryPieces(a), "&")
  }

  lemma EncodedFreeOf(s: string, chars: string)
    requires forall i :: 0 <= i < |chars| ==> !EncodedChar(chars[i])
    ensures FreeOf(Encode(s), chars)
  {
    var r := Encode(s);
    forall i | 0 <= i < |r| ensures r[i] !in chars {
      assert EncodedChar(r[i]);
    }
  }

  /**
   * A query string is read back unambiguously: splitting on '&' yields one
   * piece per entry, and splitting each piece on '=' yields the encoded key
   * and the encoded value.
   */
  lemma QueryStringSplits(a: Arr<string>)
    requires |a| >= 1
    ensures Split("&", BuildQuery(a)) == QueryPieces(a)
    ensures forall i :: 0 <= i < |a| ==>
              Split("=", QueryPieces(a)[i]) == [Encode(KeyString(a[i].0)), Encode(a[i].1)]
  {
    var ps := QueryPieces(a);
    forall i | 0 <= i < |a|
      ensures FreeOf(ps[i], "&")
      ensures Split("=", ps[i]) == [Encode(KeyString(a[i].0)), Encode(a[i].1)]
    {
      var k, v := Encode(KeyString(a[i].0)), Encode(a[i].1);
      EncodedFreeOf(KeyString(a[i].0), "&=");
      EncodedFreeOf(a[i].1, "&=");
      assert FreeOf(ps[i], "&") by {
        forall j | 0 <= j < |ps[i]| ensures ps[i][j] !in "&" {
          if j < |k| {
            assert ps[i][j] == k[j];
          } else if j > |k| {
            assert ps[i][j] == v[j - |k| - 1];
          }
        }
      }
      assert FreeOf(k, "=") && FreeOf(v, "=");
      SplitJoin([k, v], "=");
    }
    SplitJoin(ps, "&");
  }
}
