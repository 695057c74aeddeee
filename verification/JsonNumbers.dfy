/** Numbers that a configuration document gives as texts. */
module JsonNumbers {
  import opened Common
  import opened ConfigJson

  const LOWER: string := "0123456789abcdef"
  const UPPER: string := "0123456789ABCDEF"

  function Quotient(n: nat, base: nat): (q: nat)
    requires base == 10 || base == 16
    ensures n >= base ==> q < n
  {
    if base == 10 then n / 10 else n / 16
  }

  function Remainder(n: nat, base: nat): (r: nat)
    requires base == 10 || base == 16
    ensures r < base && n == Quotient(n, base) * base + r
  {
    if base == 10 then n % 10 else n % 16
  }

  /** The digits of a number, with small or capital letters. */
  function Text(n: nat, base: nat, alphabet: string): (s: string)
    requires (base == 10 || base == 16) && |alphabet| == 16
    ensures |s| >= 1
    decreases n
  {
    if n < base then [alphabet[n]] else Text(Quotient(n, base), base, alphabet) + [alphabet[Remainder(n, base)]]
  }

  predicate IsDigit(c: char, base: nat) {
    '0' <= c <= '9' || (base == 16 && ('a' <= c <= 'f' || 'A' <= c <= 'F'))
  }

  lemma DigitIs(d: nat, base: nat, alphabet: string)
    requires d < base && (base == 10 || base == 16) && (alphabet == LOWER || alphabet == UPPER)
    ensures |alphabet| == 16 && HexDigit(alphabet[d]) == Some(d) && IsDigit(alphabet[d], base)
  {
  }

  lemma DigitIff(c: char, base: nat)
    requires base == 10 || base == 16
    ensures IsDigit(c, base) <==> HexDigit(c).Some? && HexDigit(c).value < base
  {
  }

  ghost predicate AllDigits(s: string, base: nat) {
    forall i :: 0 <= i < |s| ==> IsDigit(s[i], base)
  }

  /** Reading stops at the first character that is no digit. */
  lemma {:induction false} DigitsEnd(s: string, rest: string, base: nat, acc: nat)
    requires (base == 10 || base == 16) && AllDigits(s, base)
    requires rest == [] || !IsDigit(rest[0], base)
    ensures Digits(s + rest, base, acc) == (Digits(s, base, acc).0, |s|)
    ensures Digits(s, base, acc).1 == |s|
  {
    if s == [] {
      assert s + rest == rest;
      if rest != [] {
        DigitIff(rest[0], base);
      }
    } else {
      DigitIff(s[0], base);
      assert (s + rest)[1..] == s[1..] + rest;
      DigitsEnd(s[1..], rest, base, acc * base + HexDigit(s[0]).value);
    }
  }

  lemma {:induction false} DigitsSnoc(s: string, c: char, base: nat, acc: nat)
    requires (base == 10 || base == 16) && AllDigits(s, base) && IsDigit(c, base)
    ensures HexDigit(c).Some? && Digits(s + [c], base, acc).0 == Digits(s, base, acc).0 * base + HexDigit(c).value
  {
    DigitIff(c, base);
    if s == [] {
      assert s + [c] == [c];
      assert Digits([c][1..], base, acc * base + HexDigit(c).value) == (acc * base + HexDigit(c).value, 0);
    } else {
      DigitIff(s[0], base);
      assert (s + [c])[1..] == s[1..] + [c];
      DigitsSnoc(s[1..], c, base, acc * base + HexDigit(s[0]).value);
    }
  }

  /** The digits of a number denote it. */
  lemma {:induction false} TextDenotes(n: nat, base: nat, alphabet: string)
    requires (base == 10 || base == 16) && (alphabet == LOWER || alphabet == UPPER) && |alphabet| == 16
    ensures AllDigits(Text(n, base, alphabet), base)
    ensures Digits(Text(n, base, alphabet), base, 0).0 == n
    decreases n
  {
    if n < base {
      DigitIs(n, base, alphabet);
      DigitsSnoc([], alphabet[n], base, 0);
      assert [] + [alphabet[n]] == Text(n, base, alphabet);
    } else {
      var q, r := Quotient(n, base), Remainder(n, base);
      TextDenotes(q, base, alphabet);
      DigitIs(r, base, alphabet);
      DigitsSnoc(Text(q, base, alphabet), alphabet[r], base, 0);
    }
  }

  function Saturated(n: nat): u32 {
    if n < 0x1_0000_0000 then n else 0xFFFF_FFFF
  }

  lemma DecimalHasNoPrefix(s: string)
    requires AllDigits(s, 10)
    ensures !HasHexPrefix(s)
  {
    if |s| >= 2 {
      assert IsDigit(s[1], 10);
    }
  }

  lemma DecimalReadBack(n: nat, alphabet: string)
    requires |alphabet| == 16 && (alphabet == LOWER || alphabet == UPPER)
    ensures TextU32(Text(n, 10, alphabet)) == Some(Saturated(n))
  {
    var s := Text(n, 10, alphabet);
    TextDenotes(n, 10, alphabet);
    DigitsEnd(s, [], 10, 0);
    DecimalHasNoPrefix(s);
  }

  lemma PrefixIs(s: string)
    ensures HasHexPrefix("0x" + s) && ("0x" + s)[2..] == s
  {
  }

  lemma HexReadBack(n: nat, alphabet: string)
    requires |alphabet| == 16 && (alphabet == LOWER || alphabet == UPPER)
    ensures TextU32("0x" + Text(n, 16, alphabet)) == Some(Saturated(n))
  {
    var s := Text(n, 16, alphabet);
    TextDenotes(n, 16, alphabet);
    DigitsEnd(s, [], 16, 0);
    PrefixIs(s);
  }

  /** MAIN RESULT. A number that a document gives as a text is read as what its digits denote,
      decimal, or hexadecimal with small or capital letters behind 0x, and limited to 32 bits;
      unlike a number, it is not narrowed to 16 bits. */
  lemma TextsReadBack(j: Json, k: Key, n: nat, alphabet: string, was: u32)
    requires |alphabet| == 16 && (alphabet == LOWER || alphabet == UPPER)
    ensures GetU32(j[k := JStr(Text(n, 10, alphabet))], k, was) == Saturated(n)
    ensures GetU32(j[k := JStr("0x" + Text(n, 16, alphabet))], k, was) == Saturated(n)
  {
    DecimalReadBack(n, alphabet);
    HexReadBack(n, alphabet);
  }

  lemma {:induction false} DigitsAll(s: string, base: nat, acc: nat)
    requires base == 10 || base == 16
    ensures Digits(s, base, acc).1 == |s| <==> AllDigits(s, base)
    ensures Digits(s, base, acc).1 <= |s|
  {
    if s != [] {
      DigitIff(s[0], base);
      if IsDigit(s[0], base) {
        DigitsAll(s[1..], base, acc * base + HexDigit(s[0]).value);
        assert AllDigits(s, base) <==> AllDigits(s[1..], base) by {
          assert forall i :: 1 <= i < |s| ==> s[i] == s[1..][i - 1];
        }
      }
    }
  }

  /** MAIN RESULT. A text is taken exactly when it consists of decimal digits, or of hexadecimal
      ones behind 0x, of which there must be one; any other text leaves the value as it was. */
  lemma TextTakenIff(j: Json, k: Key, s: string, was: u32, other: u32)
    requires was != other
    ensures var taken := if "0x" <= s then |s| > 2 && AllDigits(s[2..], 16) else AllDigits(s, 10);
            var r, r' := GetU32(j[k := JStr(s)], k, was), GetU32(j[k := JStr(s)], k, other);
            if taken then r == r' else r == was && r' == other
  {
    DigitsAll(s, 10, 0);
    if |s| >= 2 {
      DigitsAll(s[2..], 16, 0);
    }
  }

  /** A smaller number is only taken from a hexadecimal text, when it is in range; what follows
      the digits is ignored. */
  lemma SmallTexts(j: Json, k: Key, lo: int, hi: nat, was: int, n: nat, alphabet: string, rest: string)
    requires lo <= was <= hi && lo <= 0
    requires |alphabet| == 16 && (alphabet == LOWER || alphabet == UPPER)
    requires rest == [] || !IsDigit(rest[0], 16)
    ensures GetSmall(j[k := JStr("0x" + Text(n, 16, alphabet) + rest)], k, lo, hi, was) == if n <= hi then n else was
    ensures forall s: string :: !("0x" <= s) ==> GetSmall(j[k := JStr(s)], k, lo, hi, was) == was
  {
    var h := Text(n, 16, alphabet);
    TextDenotes(n, 16, alphabet);
    DigitsEnd(h, rest, 16, 0);
    PrefixIs(h + rest);
    assert "0x" + h + rest == "0x" + (h + rest);
    forall s: string | !("0x" <= s) ensures !HasHexPrefix(s) {
    }
  }
}
