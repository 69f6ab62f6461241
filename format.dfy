/**
 * The font descriptor that both font functions build with
 * `String.format("%s %d", name, size)`: the name, one space, then the size
 * in ASCII decimal. The descriptor is the key of the font cache and the
 * argument of `Font.decode`.
 */
module Format {
  import opened JavaLang

  predicate IsDigit(c: Char16) {
    ZERO <= c <= ZERO + 9
  }

  function Digit(d: int): (c: Char16)
    requires 0 <= d < 10
  {
    ZERO + d
  }

  /** The digits of `n`, most significant first, without leading zeros. */
  function NatDigits(n: nat): JString
    decreases n
  {
    if n < 10 then [Digit(n)] else NatDigits(n / 10) + [Digit(n % 10)]
  }

  /** The rendering of a natural number is a non-empty string of digits. */
  lemma {:induction false} NatDigitsAreDigits(n: nat)
    ensures |NatDigits(n)| > 0
    ensures forall i :: 0 <= i < |NatDigits(n)| ==> IsDigit(NatDigits(n)[i])
    decreases n
  {
    if n >= 10 {
      NatDigitsAreDigits(n / 10);
    }
  }

  /** A rendering of two or more digits does not start with a zero. */
  lemma {:induction false} NatDigitsNoLeadingZero(n: nat)
    ensures n >= 10 ==> NatDigits(n)[0] != ZERO
    decreases n
  {
    if n >= 100 {
      NatDigitsNoLeadingZero(n / 10);
    }
  }

  /** What `%d` renders an integer as: a minus sign for negatives, then the digits. */
  function Decimal(n: int): JString
  {
    if n < 0 then [MINUS] + NatDigits(-n) else NatDigits(n)
  }

  /** A rendering is never empty, holds no space and ends in a digit. */
  lemma DecimalShape(n: int)
    ensures |Decimal(n)| > 0 && SPACE !in Decimal(n)
    ensures IsDigit(Decimal(n)[|Decimal(n)| - 1])
  {
    var s := Decimal(n);
    NatDigitsAreDigits(if n < 0 then -n else n);
    assert forall i :: 0 <= i < |s| ==> s[i] == SPACE ==> !IsDigit(s[i]) && s[i] != MINUS;
  }

  /** The value of a non-empty string of decimal digits, or None. */
  function ParseDigits(s: JString): Option<nat>
  {
    if |s| == 0 || !IsDigit(s[|s| - 1]) then None
    else if |s| == 1 then Some(s[0] - ZERO)
    else match ParseDigits(s[..|s| - 1])
      case None => None
      case Some(v) => Some(10 * v + (s[|s| - 1] - ZERO))
  }

  /** The value of an optionally signed decimal string, or None. */
  function ParseDecimal(s: JString): Option<int>
  {
    if |s| > 0 && s[0] == MINUS then
      match ParseDigits(s[1..])
      case None => None
      case Some(v) => Some(-(v as int))
    else
      match ParseDigits(s)
      case None => None
      case Some(v) => Some(v)
  }

  lemma {:induction false} ParseNatDigits(n: nat)
    ensures ParseDigits(NatDigits(n)) == Some(n)
    decreases n
  {
    if n >= 10 {
      var s := NatDigits(n);
      assert s[..|s| - 1] == NatDigits(n / 10);
      ParseNatDigits(n / 10);
    }
  }

  /** Reading back the decimal rendering of an integer gives that integer. */
  lemma ParseDecimalRoundTrip(n: int)
    ensures ParseDecimal(Decimal(n)) == Some(n)
  {
    if n < 0 {
      assert Decimal(n)[1..] == NatDigits(-n);
      ParseNatDigits(-n);
    } else {
      NatDigitsAreDigits(n);
      ParseNatDigits(n);
    }
  }

  /** The descriptor `"%s %d"` of a font name and a point size. */
  function Descriptor(name: JString, size: int): JString
  {
    name + [SPACE] + Decimal(size)
  }

  /** The position of the last occurrence of `c` in `s`, if any. */
  function LastIndexOf(s: JString, c: Char16): (r: Option<nat>)
    ensures r.Some? ==> r.value < |s| && s[r.value] == c
    ensures forall j :: (if r.Some? then r.value + 1 else 0) <= j < |s| ==> s[j] != c
  {
    if |s| == 0 then None
    else if s[|s| - 1] == c then Some(|s| - 1)
    else LastIndexOf(s[..|s| - 1], c)
  }

  datatype FontSpec = FontSpec(name: JString, size: int)

  /**
   * How a descriptor splits back into name and size: the size is the text
   * after the last space, so a name may itself contain spaces.
   */
  function ParseDescriptor(d: JString): Option<FontSpec>
  {
    match LastIndexOf(d, SPACE)
    case None => None
    case Some(i) =>
      match ParseDecimal(d[i + 1..])
      case None => None
      case Some(n) => Some(FontSpec(d[..i], n))
  }

  lemma {:induction false} LastIndexOfAfter(p: JString, c: Char16, t: JString)
    requires c !in t
    ensures LastIndexOf(p + [c] + t, c) == Some(|p|)
    decreases |t|
  {
    var s := p + [c] + t;
    if |t| > 0 {
      assert s[..|s| - 1] == p + [c] + t[..|t| - 1];
      LastIndexOfAfter(p, c, t[..|t| - 1]);
    }
  }

  /**
   * A descriptor determines the name and size it was built from: the text
   * after its last space is the decimal rendering of the size.
   */
  lemma DescriptorRoundTrip(name: JString, size: int)
    ensures ParseDescriptor(Descriptor(name, size)) == Some(FontSpec(name, size))
  {
    var d := Descriptor(name, size);
    DecimalShape(size);
    LastIndexOfAfter(name, SPACE, Decimal(size));
    assert d[|name| + 1..] == Decimal(size);
    assert d[..|name|] == name;
    ParseDecimalRoundTrip(size);
  }

  /** The layout of a descriptor: the name, a single space, then the size's digits. */
  lemma DescriptorLayout(name: JString, size: int)
    ensures var d := Descriptor(name, size);
      |d| == |name| + 1 + |Decimal(size)| &&
      d[..|name|] == name && d[|name|] == SPACE && d[|name| + 1..] == Decimal(size) &&
      IsDigit(d[|d| - 1])
  {
    DecimalShape(size);
  }
}
