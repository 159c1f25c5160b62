/** The identifier codec: external identifiers are 24-character hexadecimal strings, internal ones
    are the 96-bit numbers they spell. This is the model of bson's `ObjectId(text)` (which accepts a
    string exactly when it is 24 hexadecimal digits, in either case) and of `str(oid)` (which spells
    the number with 24 lower-case digits). */
module ObjectIds {
  import opened Wrappers
  import opened Text

  /** An internal document identifier: a 96-bit number. */
  type Oid = n: nat | n < ID_SPACE

  /** Number of hexadecimal digits in the text form of an identifier. */
  const WIDTH: nat := 24

  function Pow16(k: nat): (p: nat)
    ensures p >= 1
  {
    if k == 0 then 1 else 16 * Pow16(k - 1)
  }

  /** The number of distinct identifiers: 16^24, that is 2^96. */
  const ID_SPACE: nat := Pow16(WIDTH)

  /** The `k` base-16 digits of `n`, most significant first (`n` taken modulo 16^k). */
  function Digits(n: nat, k: nat): (ds: seq<nat>)
    ensures |ds| == k
    ensures forall i :: 0 <= i < k ==> ds[i] < 16
  {
    if k == 0 then [] else Digits(n / 16, k - 1) + [n % 16]
  }

  /** The number spelled by base-16 digits, most significant first. */
  function Value(ds: seq<nat>): nat {
    if ds == [] then 0 else Value(ds[..|ds| - 1]) * 16 + ds[|ds| - 1]
  }

  lemma {:induction false} ValueOfDigits(n: nat, k: nat)
    requires n < Pow16(k)
    ensures Value(Digits(n, k)) == n
  {
    if k > 0 {
      var ds := Digits(n, k);
      assert ds[..k - 1] == Digits(n / 16, k - 1);
      assert n / 16 < Pow16(k - 1);
      ValueOfDigits(n / 16, k - 1);
    }
  }

  lemma {:induction false} DigitsOfValue(ds: seq<nat>)
    requires forall i :: 0 <= i < |ds| ==> ds[i] < 16
    ensures Value(ds) < Pow16(|ds|)
    ensures Digits(Value(ds), |ds|) == ds
  {
    if ds != [] {
      var init, last := ds[..|ds| - 1], ds[|ds| - 1];
      DigitsOfValue(init);
      var v := Value(init);
      assert Value(ds) == v * 16 + last;
      assert (v * 16 + last) / 16 == v && (v * 16 + last) % 16 == last;
      assert ds == init + [last];
    }
  }

  predicate IsHexDigit(c: char) {
    '0' <= c <= '9' || 'a' <= c <= 'f' || 'A' <= c <= 'F'
  }

  function HexValue(c: char): (d: nat)
    requires IsHexDigit(c)
    ensures d < 16
  {
    if '0' <= c <= '9' then c as int - '0' as int
    else if 'a' <= c <= 'f' then c as int - 'a' as int + 10
    else c as int - 'A' as int + 10
  }

  /** The lower-case hexadecimal digit for `d`. */
  function HexChar(d: nat): (c: char)
    requires d < 16
    ensures IsHexDigit(c) && HexValue(c) == d && LowerChar(c) == c
  {
    if d < 10 then ('0' as int + d) as char else ('a' as int + d - 10) as char
  }

  lemma HexCharOfValue(c: char)
    requires IsHexDigit(c)
    ensures HexChar(HexValue(c)) == LowerChar(c)
  {
  }

  /** `s` is the text of an identifier: exactly 24 hexadecimal digits. */
  predicate IsWellFormed(s: string) {
    |s| == WIDTH && forall i :: 0 <= i < |s| ==> IsHexDigit(s[i])
  }

  function Nibbles(s: string): (ds: seq<nat>)
    requires forall i :: 0 <= i < |s| ==> IsHexDigit(s[i])
    ensures |ds| == |s| && forall i :: 0 <= i < |s| ==> ds[i] == HexValue(s[i])
  {
    seq(|s|, i requires 0 <= i < |s| => HexValue(s[i]))
  }

  /** `ObjectId(s)`: succeeds exactly on well-formed text, with an identifier inside the id space. */
  function Decode(s: string): (r: Option<Oid>)
    ensures r.Some? <==> IsWellFormed(s)
  {
    if IsWellFormed(s) then
      DigitsOfValue(Nibbles(s));
      Some(Value(Nibbles(s)))
    else None
  }

  /** `str(oid)`: 24 lower-case hexadecimal digits. */
  function Render(id: Oid): (s: string)
    ensures IsWellFormed(s) && Lower(s) == s
  {
    var ds := Digits(id, WIDTH);
    seq(WIDTH, i requires 0 <= i < WIDTH => HexChar(ds[i]))
  }

  /** Decoding the rendered text of an identifier gives the identifier back. */
  lemma DecodeRender(id: Oid)
    ensures Decode(Render(id)) == Some(id)
  {
    var ds := Digits(id, WIDTH);
    assert Nibbles(Render(id)) == ds;
    ValueOfDigits(id, WIDTH);
  }

  /** Rendering a decoded identifier gives back the text it came from, lower-cased. */
  lemma RenderDecode(s: string)
    requires IsWellFormed(s)
    ensures Decode(s).Some? && Render(Decode(s).value) == Lower(s)
  {
    var ns := Nibbles(s);
    DigitsOfValue(ns);
    forall i | 0 <= i < |s|
      ensures Render(Value(ns))[i] == Lower(s)[i]
    {
      HexCharOfValue(s[i]);
    }
  }

  /** Two texts decode to the same identifier only if they differ at most in the case of letters. */
  lemma DecodeInjective(s: string, t: string)
    requires Decode(s).Some? && Decode(s) == Decode(t)
    ensures Lower(s) == Lower(t)
  {
    RenderDecode(s);
    RenderDecode(t);
  }
}
