/**
 * The formatted values the generators build from random draws, shared by the
 * Python generators (backend/data_generator.py,
 * backend/services/data_generator_service.py) and the browser generator
 * (lib/data-generator.ts). Each format is a function of its random choices;
 * `RandInt` folds a raw draw into the inclusive range randint/randomInt use.
 */
module Formats {
  import opened Text

  /** randint(lo, hi) / randomInt(lo, hi) for the raw draw `raw`. */
  function RandInt(raw: nat, lo: int, hi: int): (r: int)
    requires lo <= hi
    ensures lo <= r <= hi
  {
    lo + raw % (hi - lo + 1)
  }

  /** `n` successive randint(lo, hi) calls, taking raw draws from position `from` on. */
  function DrawInts(raw: nat -> nat, from: nat, n: nat, lo: int, hi: int): (xs: seq<int>)
    requires lo <= hi
    ensures |xs| == n && forall k :: 0 <= k < n ==> lo <= xs[k] <= hi
  {
    if n == 0 then [] else DrawInts(raw, from, n - 1, lo, hi) + [RandInt(raw(from + n - 1), lo, hi)]
  }

  /** randomElement / random.choice: the element the raw draw selects. */
  function Choice<T>(raw: nat, xs: seq<T>): (r: T)
    requires |xs| > 0
    ensures r in xs
  {
    xs[raw % |xs|]
  }

  const PhonePrefixes: seq<string> := ["138", "139", "150", "151", "152", "158", "159", "186", "187", "188"]

  const BankPrefixes: seq<string> := ["6222", "6227", "6228", "9558", "6216"]

  const AreaCodes: seq<string> := ["110101", "310101", "440106", "330102", "320102"]

  lemma PowersOfTen()
    ensures Pow10(1) == 10 && Pow10(2) == 100 && Pow10(3) == 1000 && Pow10(4) == 10000
    ensures Pow10(7) == 10000000 && Pow10(8) == 100000000
  {
    assert Pow10(0) == 1;
    assert Pow10(5) == 100000;
    assert Pow10(6) == 1000000;
  }

  /** A mobile number: a listed three-digit prefix and an eight-digit number. */
  function ChinesePhone(prefix: string, n: int): (r: string)
    requires prefix in PhonePrefixes && 10000000 <= n <= 99999999
    ensures |r| == 11 && AllDigits(r) && r[..3] == prefix
  {
    PowersOfTen();
    DecimalLength(n, 8);
    prefix + NatToDecimal(n)
  }

  /** The decimal digits, one character each, joined with no separator. */
  function Digits(ds: seq<int>): (r: string)
    requires forall i :: 0 <= i < |ds| ==> 0 <= ds[i] < 10
    ensures |r| == |ds| && AllDigits(r)
    ensures forall i :: 0 <= i < |ds| ==> r[i] == DigitChar(ds[i])
  {
    if ds == [] then "" else [DigitChar(ds[0])] + Digits(ds[1..])
  }

  /** A bank card number: a listed four-digit prefix and twelve random digits. */
  function BankCard(prefix: string, ds: seq<int>): (r: string)
    requires prefix in BankPrefixes && |ds| == 12
    requires forall i :: 0 <= i < |ds| ==> 0 <= ds[i] < 10
    ensures |r| == 16 && AllDigits(r) && r[..4] == prefix
  {
    prefix + Digits(ds)
  }

  /** zfill(2) / padStart(2, "0") of a number below 100. */
  function TwoDigits(n: int): (r: string)
    requires 0 <= n < 100
    ensures |r| == 2 && AllDigits(r)
  {
    if n < 10 then "0" + NatToDecimal(n)
    else
      PowersOfTen();
      DecimalLength(n, 2);
      NatToDecimal(n)
  }

  /** An identity card number: area code, birth date, sequence and check digit, 18 digits in all. */
  function IdCard(area: string, year: int, month: int, day: int, sequence: int, check: int): (r: string)
    requires area in AreaCodes && 1970 <= year <= 2005 && 1 <= month <= 12 && 1 <= day <= 28
    requires 100 <= sequence <= 999 && 0 <= check <= 9
    ensures |r| == 18 && AllDigits(r) && r[..6] == area
  {
    PowersOfTen();
    DecimalLength(year, 4);
    DecimalLength(sequence, 3);
    var birth := NatToDecimal(year) + TwoDigits(month) + TwoDigits(day);
    var tail := NatToDecimal(sequence) + NatToDecimal(check);
    assert AllDigits(area) by { AreaCodesAreDigits(); }
    DigitsConcat(NatToDecimal(year), TwoDigits(month));
    DigitsConcat(NatToDecimal(year) + TwoDigits(month), TwoDigits(day));
    DigitsConcat(NatToDecimal(sequence), NatToDecimal(check));
    DigitsConcat(area, birth);
    DigitsConcat(area + birth, tail);
    area + birth + tail
  }

  lemma DigitsConcat(a: string, b: string)
    requires AllDigits(a) && AllDigits(b)
    ensures AllDigits(a + b)
  {
    assert forall i :: |a| <= i < |a + b| ==> (a + b)[i] == b[i - |a|];
  }

  lemma AreaCodesAreDigits()
    ensures forall i :: 0 <= i < |AreaCodes| ==> |AreaCodes[i]| == 6 && AllDigits(AreaCodes[i])
  {
  }

  /** Hexadecimal text of a byte without padding, as toString(16) prints it. */
  function ByteHex(b: int): (r: string)
    requires 0 <= b < 256
    ensures 1 <= |r| <= 2 && forall i :: 0 <= i < |r| ==> IsHexLower(r[i])
  {
    if b < 16 then [HexChar(b)] else [HexChar(b / 16), HexChar(b % 16)]
  }

  predicate IsMacGroup(g: string) {
    |g| == 2 && IsHexUpper(g[0]) && IsHexUpper(g[1])
  }

  lemma UpperHex(c: char)
    requires IsHexLower(c)
    ensures IsHexUpper(UpperChar(c))
  {
  }

  /** padStart(2, "0") of a byte's hex text is two lower-case hex digits. */
  lemma PaddedByteHex(b: int)
    requires 0 <= b < 256
    ensures var h := PadLeft(ByteHex(b), 2, '0'); |h| == 2 && IsHexLower(h[0]) && IsHexLower(h[1])
  {
    var x := ByteHex(b);
    var h := PadLeft(x, 2, '0');
    if |x| == 1 {
      assert h[1] == x[0];
    } else {
      assert h == x;
    }
  }

  /** One MAC group: two hex digits, upper case. */
  function MacGroup(b: int): (g: string)
    requires 0 <= b < 256
    ensures IsMacGroup(g)
  {
    var h := PadLeft(ByteHex(b), 2, '0');
    PaddedByteHex(b);
    var g := Upper(h);
    UpperHex(h[0]);
    UpperHex(h[1]);
    assert g[0] == UpperChar(h[0]) && g[1] == UpperChar(h[1]);
    g
  }

  function MacGroups(bytes: seq<int>): (gs: seq<string>)
    requires forall i :: 0 <= i < |bytes| ==> 0 <= bytes[i] < 256
    ensures |gs| == |bytes| && forall i :: 0 <= i < |gs| ==> IsMacGroup(gs[i])
  {
    seq(|bytes|, i requires 0 <= i < |bytes| => MacGroup(bytes[i]))
  }

  /** A MAC address: six groups joined by ':'. */
  function Mac(bytes: seq<int>): string
    requires |bytes| == 6 && forall i :: 0 <= i < |bytes| ==> 0 <= bytes[i] < 256
  {
    Join(MacGroups(bytes), ":")
  }

  /** Joining parts of one length k gives the parts' lengths plus one separator between each pair. */
  lemma {:induction false} JoinLength(parts: seq<string>, sep: string, k: nat)
    requires |parts| >= 1 && forall i :: 0 <= i < |parts| ==> |parts[i]| == k
    ensures |Join(parts, sep)| == |parts| * k + (|parts| - 1) * |sep|
  {
    if |parts| > 1 {
      JoinLength(parts[1..], sep, k);
    }
  }

  /** A MAC address is 17 characters and splits at ':' back into its six upper-case groups. */
  lemma MacShape(bytes: seq<int>)
    requires |bytes| == 6 && forall i :: 0 <= i < |bytes| ==> 0 <= bytes[i] < 256
    ensures |Mac(bytes)| == 17
    ensures Split(Mac(bytes), ':') == MacGroups(bytes)
    ensures |Split(Mac(bytes), ':')| == 6 && forall i :: 0 <= i < 6 ==> IsMacGroup(Split(Mac(bytes), ':')[i])
  {
    var gs := MacGroups(bytes);
    JoinLength(gs, ":", 2);
    assert |Join(gs, ":")| == 17;
    forall i | 0 <= i < |gs| ensures ':' !in gs[i] {
      NoColonInGroup(gs[i]);
    }
    SplitJoin(gs, ':');
  }

  lemma NoColonInGroup(g: string)
    requires IsMacGroup(g)
    ensures ':' !in g
  {
    assert g == [g[0], g[1]];
  }

  /** A random hex digit. */
  type Nibble = n: nat | n < 16

  /** `n` copies of the placeholder 'x'. */
  function Xs(n: nat): (r: string)
    ensures |r| == n && forall i :: 0 <= i < n ==> r[i] == 'x'
  {
    seq(n, _ => 'x')
  }

  /** "xxxxxxxx-xxxx-4xxx-yxxx-xxxxxxxxxxxx", written by its runs. */
  const UuidTemplate: string := Xs(8) + "-" + Xs(4) + "-4" + Xs(3) + "-y" + Xs(3) + "-" + Xs(12)

  /**
   * The template with each 'x' replaced by a random hex digit and each 'y'
   * by one of 8, 9, a, b ((r & 3) | 8); `k` numbers the replacements made so far.
   */
  function FillTemplate(t: string, nibble: nat -> Nibble, k: nat): (r: string)
    ensures |r| == |t|
    ensures forall i :: 0 <= i < |t| && t[i] != 'x' && t[i] != 'y' ==> r[i] == t[i]
    ensures forall i :: 0 <= i < |t| && t[i] == 'x' ==> IsHexLower(r[i])
    ensures forall i :: 0 <= i < |t| && t[i] == 'y' ==> r[i] in "89ab"
  {
    if t == [] then []
    else
      var c := if t[0] == 'x' then HexChar(nibble(k))
               else if t[0] == 'y' then HexChar(nibble(k) % 4 + 8)
               else t[0];
      var next := if t[0] == 'x' || t[0] == 'y' then k + 1 else k;
      [c] + FillTemplate(t[1..], nibble, next)
  }

  function Uuid(nibble: nat -> Nibble): string {
    FillTemplate(UuidTemplate, nibble, 0)
  }

  /** The version-4 layout: 36 characters, dashes at 8, 13, 18 and 23, '4' at 14, a variant digit at 19, hex elsewhere. */
  lemma UuidShape(nibble: nat -> Nibble)
    ensures |Uuid(nibble)| == 36
    ensures forall i :: i in {8, 13, 18, 23} ==> Uuid(nibble)[i] == '-'
    ensures Uuid(nibble)[14] == '4' && Uuid(nibble)[19] in "89ab"
    ensures forall i :: 0 <= i < 36 && i !in {8, 13, 14, 18, 19, 23} ==> IsHexLower(Uuid(nibble)[i])
  {
    var t := UuidTemplate;
    assert |t| == 36;
    assert t[8] == '-' && t[13] == '-' && t[18] == '-' && t[23] == '-' && t[14] == '4' && t[19] == 'y';
    forall i | 0 <= i < 36 && i !in {8, 13, 14, 18, 19, 23} ensures t[i] == 'x' {
      if i < 8 {
      } else if i < 13 {
        assert t[i] == Xs(4)[i - 9];
      } else if i < 18 {
        assert t[i] == Xs(3)[i - 15];
      } else if i < 23 {
        assert t[i] == Xs(3)[i - 20];
      } else {
        assert t[i] == Xs(12)[i - 24];
      }
    }
  }
}
