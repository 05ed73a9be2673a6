/**
 * Int32.TryParse(string, out int) with NumberStyles.Integer, and Int32.ToString:
 * optional white space (U+0009..U+000D, U+0020) around an optional sign and a run
 * of ASCII decimal digits whose value lies in the 32-bit range.
 */
module Numbers {
  import opened Wrappers

  const MinInt32: int := -0x8000_0000
  const MaxInt32: int := 0x7FFF_FFFF

  predicate IsDigit(c: char) {
    '0' <= c <= '9'
  }

  predicate AllDigits(s: string) {
    forall i :: 0 <= i < |s| ==> IsDigit(s[i])
  }

  /** Value of a run of decimal digits, most significant first. */
  function DigitsValue(s: string): nat
    requires AllDigits(s)
  {
    if |s| == 0 then 0
    else DigitsValue(s[..|s| - 1]) * 10 + (s[|s| - 1] as int - '0' as int)
  }

  /** The white space Int32.Parse skips before and after the number. */
  predicate IsNumberWhite(c: char) {
    c == ' ' || '\t' <= c <= '\r'
  }

  /** The text without its leading white space. */
  function TrimStart(s: string): string {
    if |s| > 0 && IsNumberWhite(s[0]) then TrimStart(s[1..]) else s
  }

  /** The text without its trailing white space. */
  function TrimEnd(s: string): string {
    if |s| > 0 && IsNumberWhite(s[|s| - 1]) then TrimEnd(s[..|s| - 1]) else s
  }

  /** TrimStart drops a prefix of white space and nothing else. */
  lemma {:induction false} TrimStartShape(s: string)
    ensures var r := TrimStart(s);
      && |r| <= |s| && r == s[|s| - |r|..]
      && (forall i :: 0 <= i < |s| - |r| ==> IsNumberWhite(s[i]))
      && (|r| > 0 ==> !IsNumberWhite(r[0]))
  {
    if |s| > 0 && IsNumberWhite(s[0]) {
      TrimStartShape(s[1..]);
      var r := TrimStart(s[1..]);
      assert s[1..][|s| - 1 - |r|..] == s[|s| - |r|..];
      forall i | 0 <= i < |s| - |r| ensures IsNumberWhite(s[i]) {
        if i > 0 {
          assert s[1..][i - 1] == s[i];
        }
      }
    }
  }

  /** TrimEnd drops a suffix of white space and nothing else. */
  lemma {:induction false} TrimEndShape(s: string)
    ensures var r := TrimEnd(s);
      && |r| <= |s| && r == s[..|r|]
      && (forall i :: |r| <= i < |s| ==> IsNumberWhite(s[i]))
      && (|r| > 0 ==> !IsNumberWhite(r[|r| - 1]))
  {
    if |s| > 0 && IsNumberWhite(s[|s| - 1]) {
      TrimEndShape(s[..|s| - 1]);
      var r := TrimEnd(s[..|s| - 1]);
      assert s[..|s| - 1][..|r|] == s[..|r|];
      forall i | |r| <= i < |s| ensures IsNumberWhite(s[i]) {
        if i < |s| - 1 {
          assert s[..|s| - 1][i] == s[i];
        }
      }
    }
  }

  /** An optional '+' or '-' followed by one or more digits; no bound on the value. */
  function ParseSigned(s: string): (r: Option<int>)
    ensures r.Some? ==> forall i :: 0 <= i < |s| ==> IsDigit(s[i]) || s[i] == '+' || s[i] == '-'
  {
    if |s| > 0 && (s[0] == '-' || s[0] == '+') then
      var ds := s[1..];
      if |ds| > 0 && AllDigits(ds) then
        var n: int := DigitsValue(ds);
        Some(if s[0] == '-' then -n else n)
      else None
    else if |s| > 0 && AllDigits(s) then Some(DigitsValue(s))
    else None
  }

  /** Int32.TryParse: None where .NET returns false (and sets the out value to 0). */
  function TryParseInt32(s: string): (r: Option<int>)
    ensures r.Some? ==> MinInt32 <= r.value <= MaxInt32
  {
    match ParseSigned(TrimEnd(TrimStart(s)))
    case Some(n) => if MinInt32 <= n <= MaxInt32 then Some(n) else None
    case None => None
  }

  /** Decimal digits of `n`, without leading zeros. */
  function NatToDigits(n: nat): (s: string)
    ensures |s| > 0 && AllDigits(s) && DigitsValue(s) == n
    ensures n > 0 ==> s[0] != '0'
  {
    var d := ['0' + (n % 10) as char];
    if n < 10 then d
    else
      var prefix := NatToDigits(n / 10);
      var s := prefix + d;
      assert s[..|s| - 1] == prefix;
      s
  }

  /** Int32.ToString with the invariant culture: '-' before the digits of a negative value. */
  function IntToString(i: int): (s: string)
    ensures |s| > 0 && IsDigit(s[|s| - 1])
    ensures forall k :: 0 <= k < |s| ==> IsDigit(s[k]) || (k == 0 && s[k] == '-')
  {
    if i < 0 then "-" + NatToDigits(-i) else NatToDigits(i)
  }

  /** Text without white space at either end is not changed by trimming. */
  lemma TrimNothing(s: string)
    requires |s| > 0 && !IsNumberWhite(s[0]) && !IsNumberWhite(s[|s| - 1])
    ensures TrimEnd(TrimStart(s)) == s
  {
    TrimStartShape(s);
    TrimEndShape(s);
  }

  /** The characters other than white space survive trimming. */
  lemma TrimKeeps(s: string, k: nat)
    requires k < |s| && !IsNumberWhite(s[k])
    ensures s[k] in TrimEnd(TrimStart(s))
  {
    TrimStartShape(s);
    var t := TrimStart(s);
    TrimEndShape(t);
    var off := |s| - |t|;
    assert k >= off;
    assert t[k - off] == s[k];
    var u := TrimEnd(t);
    assert k - off < |u| && u[k - off] == t[k - off];
  }

  /** Parsing reads back what ToString writes, for every integer. */
  lemma ParseSignedIntToString(i: int)
    ensures ParseSigned(IntToString(i)) == Some(i)
  {
    var s := IntToString(i);
    if i < 0 {
      assert s[1..] == NatToDigits(-i);
    }
  }

  /** Int32.TryParse(i.ToString()) gives back i for every 32-bit value. */
  lemma TryParseIntToString(i: int)
    requires MinInt32 <= i <= MaxInt32
    ensures TryParseInt32(IntToString(i)) == Some(i)
  {
    var s := IntToString(i);
    TrimNothing(s);
    ParseSignedIntToString(i);
  }

  /** Distinct integers have distinct decimal texts. */
  lemma IntToStringInjective(i: int, j: int)
    requires IntToString(i) == IntToString(j)
    ensures i == j
  {
    ParseSignedIntToString(i);
    ParseSignedIntToString(j);
  }

  /** A text holding a character that is neither white space, sign nor digit does not parse. */
  lemma NotANumber(s: string, k: nat)
    requires k < |s| && !IsNumberWhite(s[k]) && !IsDigit(s[k]) && s[k] != '+' && s[k] != '-'
    ensures TryParseInt32(s) == None
  {
    TrimKeeps(s, k);
  }
}
