/**
 * "Use selected font": the descriptor of the font combo box's selected item
 * at the requested size, whatever the character.
 */
module FontFunctionSelected {
  import opened JavaLang
  import opened Format

  /** `%s` of the selected item: the item itself, or "null" when nothing is selected. */
  function ItemText(selected: Option<JString>): JString
  {
    match selected
    case Some(name) => name
    case None => NULL_TEXT
  }

  function GetFont(selected: Option<JString>, c: Char16, size: Int32): JString
  {
    Descriptor(ItemText(selected), size)
  }

  /**
   * The descriptor reads back as the selected name and the requested size,
   * whatever the character, and it always ends in a digit.
   */
  lemma GetFontDescribesSelection(selected: Option<JString>, c: Char16, size: Int32)
    ensures ParseDescriptor(GetFont(selected, c, size)) == Some(FontSpec(ItemText(selected), size))
    ensures var d := GetFont(selected, c, size);
      d[..|ItemText(selected)|] == ItemText(selected) && d[|ItemText(selected)|] == SPACE &&
      d[|ItemText(selected)| + 1..] == Decimal(size) && IsDigit(d[|d| - 1])
  {
    DescriptorRoundTrip(ItemText(selected), size);
    DescriptorLayout(ItemText(selected), size);
  }

  /** The character argument has no effect, and no state is involved. */
  lemma GetFontIgnoresCharacter(selected: Option<JString>, c: Char16, c': Char16, size: Int32)
    ensures GetFont(selected, c, size) == GetFont(selected, c', size)
  {
  }
}

/**
 * "Use random font": the descriptor of a font drawn from the combo box's
 * items at the requested size. The value of `SecureRandom.nextInt(count)` is
 * the parameter `draw`; Java documents it to lie in `[0, count)` and to throw
 * IllegalArgumentException when `count` is not positive.
 */
module FontFunctionRandom {
  import opened JavaLang
  import opened Format

  function GetFont(fonts: seq<JString>, draw: int, c: Char16, size: Int32): (r: Result<JString, JavaError>)
    requires |fonts| > 0 ==> 0 <= draw < |fonts|
    ensures r.Err? <==> |fonts| == 0
    ensures r.Err? ==> r.error == IllegalArgument
  {
    var count := |fonts|;
    if count <= 0 then Err(IllegalArgument)
    else Ok(Descriptor(fonts[draw], size))
  }

  /** A descriptor the function returns reads back as one of the fonts and the requested size. */
  lemma GetFontDescribesDraw(fonts: seq<JString>, draw: int, c: Char16, size: Int32)
    requires |fonts| > 0 ==> 0 <= draw < |fonts|
    ensures GetFont(fonts, draw, c, size).Ok? ==>
      fonts[draw] in fonts &&
      ParseDescriptor(GetFont(fonts, draw, c, size).value) == Some(FontSpec(fonts[draw], size))
  {
    if |fonts| > 0 {
      DescriptorRoundTrip(fonts[draw], size);
    }
  }

  /** For a given draw the character argument has no effect. */
  lemma GetFontIgnoresCharacter(fonts: seq<JString>, draw: int, c: Char16, c': Char16, size: Int32)
    requires |fonts| > 0 ==> 0 <= draw < |fonts|
    ensures GetFont(fonts, draw, c, size) == GetFont(fonts, draw, c', size)
  {
  }
}
