/** String handling the core relies on: `String.prototype.split` with a
    one-character separator (used on the Authorization header and on the
    dot-separated token), and the lower-case hexadecimal text that the
    token model is written in. */
module Text {
  import opened Base

  /** `s.split(sep)`: the pieces between separators, in order; an empty
      string gives one empty piece, a separator at either end an empty
      piece there. */
  function Split(s: string, sep: char): (r: seq<string>)
    ensures |r| >= 1
    ensures forall k :: 0 <= k < |r| ==> sep !in r[k]
    decreases |s|
  {
    if s == "" then [""]
    else
      var rest := Split(s[1..], sep);
      if s[0] == sep then [""] + rest
      else [[s[0]] + rest[0]] + rest[1..]
  }

  /** `parts.join(sep)`, the inverse of Split. */
  function Join(parts: seq<string>, sep: char): (s: string)
    requires |parts| >= 1
  {
    if |parts| == 1 then parts[0] else parts[0] + [sep] + Join(parts[1..], sep)
  }

  /** Joining the pieces of a split gives back the string. */
  lemma {:induction false} JoinSplit(s: string, sep: char)
    ensures Join(Split(s, sep), sep) == s
    decreases |s|
  {
    if s != "" {
      var rest := Split(s[1..], sep);
      JoinSplit(s[1..], sep);
      if s[0] == sep {
        assert Split(s, sep)[1..] == rest;
      } else if |rest| > 1 {
        var parts := Split(s, sep);
        assert parts[1..] == rest[1..];
        assert Join(rest, sep) == rest[0] + [sep] + Join(rest[1..], sep);
        assert s == [s[0]] + s[1..];
      } else {
        assert s == [s[0]] + s[1..];
      }
    }
  }

  /** A string without the separator splits into itself alone. */
  lemma {:induction false} SplitWithoutSeparator(a: string, sep: char)
    requires sep !in a
    ensures Split(a, sep) == [a]
    decreases |a|
  {
    if a != "" {
      assert a[0] in a;
      assert forall c :: c in a[1..] ==> c in a;
      SplitWithoutSeparator(a[1..], sep);
      assert a == [a[0]] + a[1..];
    }
  }

  /** A leading piece without the separator comes off first. */
  lemma {:induction false} SplitAfterPiece(a: string, sep: char, b: string)
    requires sep !in a
    ensures Split(a + [sep] + b, sep) == [a] + Split(b, sep)
    decreases |a|
  {
    var s := a + [sep] + b;
    if a == "" {
      assert s[1..] == b;
    } else {
      assert a[0] in a;
      assert forall c :: c in a[1..] ==> c in a;
      assert s[1..] == a[1..] + [sep] + b;
      SplitAfterPiece(a[1..], sep, b);
      assert a == [a[0]] + a[1..];
    }
  }

  /** Splitting a join of separator-free pieces gives back the pieces. */
  lemma {:induction false} SplitJoin(parts: seq<string>, sep: char)
    requires |parts| >= 1
    requires forall k :: 0 <= k < |parts| ==> sep !in parts[k]
    ensures Split(Join(parts, sep), sep) == parts
    decreases |parts|
  {
    if |parts| == 1 {
      SplitWithoutSeparator(parts[0], sep);
    } else {
      SplitJoin(parts[1..], sep);
      SplitAfterPiece(parts[0], sep, Join(parts[1..], sep));
    }
  }

  // Lower-case hexadecimal

  predicate IsHexDigit(c: char) {
    '0' <= c <= '9' || 'a' <= c <= 'f'
  }

  predicate AllHex(s: string) {
    forall k :: 0 <= k < |s| ==> IsHexDigit(s[k])
  }

  function HexDigit(d: nat): (c: char)
    requires d < 16
    ensures IsHexDigit(c)
  {
    if d < 10 then ('0' as int + d) as char else ('a' as int + d - 10) as char
  }

  function DigitValue(c: char): (r: Option<nat>)
    ensures r.Some? <==> IsHexDigit(c)
    ensures r.Some? ==> r.value < 16 && HexDigit(r.value) == c
  {
    if '0' <= c <= '9' then Some(c as int - '0' as int)
    else if 'a' <= c <= 'f' then Some(c as int - 'a' as int + 10)
    else None
  }

  function Pow16(w: nat): (p: nat)
    ensures p >= 1
  {
    if w == 0 then 1 else 16 * Pow16(w - 1)
  }

  /** The value of a string of hex digits, most significant first; None
      when some character is not a hex digit. */
  function ParseHex(s: string): (r: Option<nat>)
    ensures r.Some? <==> AllHex(s)
    decreases |s|
  {
    if s == "" then Some(0)
    else
      var high := ParseHex(s[..|s| - 1]);
      var low := DigitValue(s[|s| - 1]);
      assert AllHex(s) <==> AllHex(s[..|s| - 1]) && IsHexDigit(s[|s| - 1]) by {
        if AllHex(s[..|s| - 1]) && IsHexDigit(s[|s| - 1]) {
          assert forall k :: 0 <= k < |s| - 1 ==> s[k] == s[..|s| - 1][k];
        }
      }
      if high.Some? && low.Some? then Some(16 * high.value + low.value) else None
  }

  /** `n` written with exactly `width` hex digits (high digits dropped). */
  function FixedHex(n: nat, width: nat): (r: string)
    ensures |r| == width && AllHex(r)
  {
    if width == 0 then "" else FixedHex(n / 16, width - 1) + [HexDigit(n % 16)]
  }

  /** `n` in hex with no leading zeros. */
  function NatHex(n: nat): (r: string)
    ensures |r| >= 1 && AllHex(r)
  {
    if n < 16 then [HexDigit(n)] else NatHex(n / 16) + [HexDigit(n % 16)]
  }

  lemma {:induction false} ParseFixedHex(n: nat, width: nat)
    requires n < Pow16(width)
    ensures ParseHex(FixedHex(n, width)) == Some(n)
  {
    if width > 0 {
      var s := FixedHex(n, width);
      assert n / 16 < Pow16(width - 1);
      ParseFixedHex(n / 16, width - 1);
      assert s[..|s| - 1] == FixedHex(n / 16, width - 1);
      assert DigitValue(s[|s| - 1]) == Some(n % 16);
    }
  }

  lemma {:induction false} ParseNatHex(n: nat)
    ensures ParseHex(NatHex(n)) == Some(n)
  {
    var s := NatHex(n);
    if n < 16 {
      assert s[..|s| - 1] == "";
      assert DigitValue(s[0]) == Some(n);
    } else {
      ParseNatHex(n / 16);
      assert s[..|s| - 1] == NatHex(n / 16);
      assert DigitValue(s[|s| - 1]) == Some(n % 16);
    }
  }

  // Text as hex: six digits per character (every code point is below 16^6)

  const CharWidth: nat := 6

  predicate IsScalar(v: nat) {
    v < 0xD800 || 0xE000 <= v < 0x11_0000
  }

  function EncodeText(s: string): (r: string)
    ensures |r| == CharWidth * |s| && AllHex(r)
  {
    if s == "" then "" else FixedHex(s[0] as int, CharWidth) + EncodeText(s[1..])
  }

  function DecodeText(s: string): (r: Option<string>)
    decreases |s|
  {
    if s == "" then Some("")
    else if |s| < CharWidth then None
    else match (ParseHex(s[..CharWidth]), DecodeText(s[CharWidth..]))
      case (Some(v), Some(rest)) => if IsScalar(v) then Some([v as char] + rest) else None
      case _ => None
  }

  /** Decoding inverts encoding. */
  lemma {:induction false} DecodeEncode(s: string)
    ensures DecodeText(EncodeText(s)) == Some(s)
  {
    if s != "" {
      var c := s[0];
      var e := EncodeText(s);
      assert Pow16(CharWidth) == 0x100_0000;
      ParseFixedHex(c as int, CharWidth);
      assert e[..CharWidth] == FixedHex(c as int, CharWidth);
      assert e[CharWidth..] == EncodeText(s[1..]);
      DecodeEncode(s[1..]);
      assert s == [c] + s[1..];
    }
  }
}
