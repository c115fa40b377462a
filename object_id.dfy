/** The BSON-style object id of a generated record: eight hex digits of the
    Unix time in seconds, then sixteen hex digits of a random fraction, each
    part padded on the left with `0`. */
module ObjectId {

  /** A lower-case hexadecimal digit, as `Number.prototype.toString(16)` writes them. */
  predicate IsHexDigit(c: char) {
    '0' <= c <= '9' || 'a' <= c <= 'f'
  }

  predicate IsHex(s: string) {
    forall i | 0 <= i < |s| :: IsHexDigit(s[i])
  }

  /** The character for the digit `d`, 0 to 15. */
  function HexDigit(d: nat): (c: char)
    requires d < 16
    ensures IsHexDigit(c)
  {
    if d < 10 then ('0' as int + d) as char else ('a' as int + d - 10) as char
  }

  /** The digit `c` stands for: the inverse of `HexDigit`. */
  function DigitValue(c: char): (d: nat)
    requires IsHexDigit(c)
    ensures d < 16 && HexDigit(d) == c
  {
    if c <= '9' then (c - '0') as nat else (c - 'a') as nat + 10
  }

  /** `n.toString(16)`: the digits of `n` in base 16, without leading zeros. */
  function ToHex(n: nat): (s: string)
    ensures s != [] && IsHex(s)
    decreases n
  {
    if n < 16 then [HexDigit(n)] else ToHex(n / 16) + [HexDigit(n % 16)]
  }

  /** The number a string of hex digits denotes. */
  function FromHex(s: string): nat
    requires IsHex(s)
    decreases |s|
  {
    if s == [] then 0 else FromHex(s[..|s| - 1]) * 16 + DigitValue(s[|s| - 1])
  }

  /** Reading back the digits of `n` gives `n`. */
  lemma {:induction false} FromHexToHex(n: nat)
    ensures FromHex(ToHex(n)) == n
    decreases n
  {
    if n >= 16 {
      FromHexToHex(n / 16);
      var s := ToHex(n);
      assert s[..|s| - 1] == ToHex(n / 16);
    }
  }

  /** `16` raised to `k`. */
  function Pow16(k: nat): (p: nat)
    ensures p >= 1
  {
    if k == 0 then 1 else 16 * Pow16(k - 1)
  }

  /** `n` has at most `k` hex digits exactly when it is below `16^k`. */
  lemma {:induction false} ToHexLength(n: nat, k: nat)
    requires k >= 1
    ensures |ToHex(n)| <= k <==> n < Pow16(k)
    decreases n
  {
    if n >= 16 {
      if k == 1 {
        assert |ToHex(n)| == |ToHex(n / 16)| + 1;
      } else {
        ToHexLength(n / 16, k - 1);
        assert n / 16 < Pow16(k - 1) <==> n < 16 * Pow16(k - 1);
      }
    } else {
      assert Pow16(k) == 16 * Pow16(k - 1);
    }
  }

  /** `s.padStart(width, fill)`: `s` with `fill` added on the left until it is
      `width` long; a string already that long is left as it is. */
  function PadStart(s: string, width: nat, fill: char): (r: string)
    ensures |r| == if |s| < width then width else |s|
    ensures forall i | 0 <= i < |s| :: r[|r| - |s| + i] == s[i]
    ensures forall i | 0 <= i < |r| - |s| :: r[i] == fill
  {
    if |s| >= width then s else Repeat(fill, width - |s|) + s
  }

  /** `n` copies of `c`. */
  function Repeat(c: char, n: nat): (r: string)
    ensures |r| == n && forall i | 0 <= i < n :: r[i] == c
  {
    if n == 0 then [] else [c] + Repeat(c, n - 1)
  }

  /** Leading zeros do not change the number a string of hex digits denotes. */
  lemma {:induction false} FromHexLeadingZeros(z: string, s: string)
    requires forall i | 0 <= i < |z| :: z[i] == '0'
    requires IsHex(s)
    ensures IsHex(z + s) && FromHex(z + s) == FromHex(s)
    decreases |s|
  {
    if s == [] {
      assert z + s == z;
      AllZeros(z);
    } else {
      assert (z + s)[..|z + s| - 1] == z + s[..|s| - 1];
      FromHexLeadingZeros(z, s[..|s| - 1]);
    }
  }

  lemma {:induction false} AllZeros(z: string)
    requires forall i | 0 <= i < |z| :: z[i] == '0'
    ensures IsHex(z) && FromHex(z) == 0
    decreases |z|
  {
    if z != [] {
      AllZeros(z[..|z| - 1]);
    }
  }

  /** `Math.floor(Date.now() / 1000)` for a non-negative clock. */
  function Seconds(nowMs: nat): nat {
    nowMs / 1000
  }

  /** `r.slice(0, 16)`. */
  function RandomPart(randomDigits: string): string {
    if |randomDigits| <= 16 then randomDigits else randomDigits[..16]
  }

  /** `16^8`, the first time that needs nine hex digits. */
  lemma Pow16Eight()
    ensures Pow16(8) == 0x1_0000_0000
  {
  }

  /** The eight-digit time field: the seconds in hex, zero-padded to eight
      digits, and longer from 2106 on. */
  function TimePart(nowMs: nat): (t: string)
    ensures IsHex(t) && |t| >= 8
    ensures |t| == 8 <==> Seconds(nowMs) < 0x1_0000_0000
  {
    var digits := ToHex(Seconds(nowMs));
    ToHexLength(Seconds(nowMs), 8);
    Pow16Eight();
    PadStart(digits, 8, '0')
  }

  /** The time field reads back as the time in seconds. */
  lemma TimePartValue(nowMs: nat)
    ensures FromHex(TimePart(nowMs)) == Seconds(nowMs)
  {
    var digits := ToHex(Seconds(nowMs));
    var t := TimePart(nowMs);
    var zeros := t[..|t| - |digits|];
    assert t == zeros + digits;
    FromHexLeadingZeros(zeros, digits);
    FromHexToHex(Seconds(nowMs));
  }

  /** The sixteen-digit random field: the first sixteen random digits,
      zero-padded on the left. */
  function RandomField(randomDigits: string): (r: string)
    ensures |r| == 16
    ensures IsHex(randomDigits) ==> IsHex(r)
  {
    PadStart(RandomPart(randomDigits), 16, '0')
  }

  /** The random field ends with the first sixteen random digits, behind
      as many `0`s as it takes to make sixteen. */
  lemma RandomFieldDigits(randomDigits: string)
    ensures var p, r := RandomPart(randomDigits), RandomField(randomDigits);
      && |p| <= 16
      && r[16 - |p|..] == p
      && forall i | 0 <= i < 16 - |p| :: r[i] == '0'
  {
    var p, r := RandomPart(randomDigits), RandomField(randomDigits);
    assert r[16 - |p|..] == p by {
      forall i | 0 <= i < |p| ensures r[16 - |p|..][i] == p[i] {
        assert r[16 - |p| + i] == p[i];
      }
    }
  }

  /** The id for the clock reading `nowMs` and the digits `randomDigits` that
      `Math.random().toString(16).slice(2)` produced. */
  function ObjectIdOf(nowMs: nat, randomDigits: string): (id: string)
    ensures |id| >= 24
    ensures |id| == 24 <==> Seconds(nowMs) < 0x1_0000_0000
    ensures IsHex(randomDigits) ==> IsHex(id)
  {
    var t, r := TimePart(nowMs), RandomField(randomDigits);
    if IsHex(randomDigits) then HexConcat(t, r); t + r else t + r
  }

  lemma HexConcat(a: string, b: string)
    requires IsHex(a) && IsHex(b)
    ensures IsHex(a + b)
  {
    forall i | 0 <= i < |a + b| ensures IsHexDigit((a + b)[i]) {
      if i < |a| {
        assert (a + b)[i] == a[i];
      } else {
        assert (a + b)[i] == b[i - |a|];
      }
    }
  }

  /** The first characters of the id read back as the time in seconds (the
      first eight until 2106), and its last sixteen are the random field. */
  lemma ObjectIdFields(nowMs: nat, randomDigits: string)
    ensures var id := ObjectIdOf(nowMs, randomDigits);
      && IsHex(id[..|id| - 16]) && FromHex(id[..|id| - 16]) == Seconds(nowMs)
      && id[|id| - 16..] == RandomField(randomDigits)
  {
    var id := ObjectIdOf(nowMs, randomDigits);
    assert id[..|id| - 16] == TimePart(nowMs);
    assert id[|id| - 16..] == RandomField(randomDigits);
    TimePartValue(nowMs);
  }
}
