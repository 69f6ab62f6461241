/**
 * The main window's logic: the font list it offers, the Generate handler that
 * turns the input text into characters, filters them and composes the sigil,
 * the font cache, and the rule that Save is enabled only once a sigil exists.
 *
 * Every random value the generator consumes for one character is a field of
 * `Draws`: the font size, the `nextInt(count)` of the random font function,
 * the `nextInt()` of the Random45 rotation, the continuous rotation's angle and
 * the random spread's value. Only the fields the selected functions use matter.
 */
module MainWindow {
  import opened JavaLang
  import opened Format
  import opened Graphics
  import TextFunctionRemoveDuplicates
  import FontFunctionSelected
  import FontFunctionRandom
  import RotationFunctionRandom45

  // ---------------------------------------------------------------- font list

  /** The font family names without a single quote, in their original order. */
  function WithoutQuotes(names: seq<JString>): seq<JString>
  {
    if names == [] then []
    else
      var p := WithoutQuotes(names[..|names| - 1]);
      var name := names[|names| - 1];
      if QUOTE in name then p else p + [name]
  }

  /** The names a window offers, from the platform's font family names. */
  method GetFontList(fontNames: seq<JString>) returns (rs: seq<JString>)
    ensures rs == WithoutQuotes(fontNames)
    ensures forall n :: n in rs <==> n in fontNames && QUOTE !in n
  {
    rs := [];
    for i := 0 to |fontNames|
      invariant rs == WithoutQuotes(fontNames[..i])
    {
      var name := fontNames[i];
      assert fontNames[..i + 1][..i] == fontNames[..i];
      if QUOTE in name {
        continue;
      }
      rs := rs + [name];
    }
    assert fontNames[..|fontNames|] == fontNames;
    WithoutQuotesMembers(fontNames);
  }

  /** A name is kept exactly when it is one of the inputs and has no quote. */
  lemma {:induction false} WithoutQuotesMembers(names: seq<JString>)
    ensures forall n :: n in WithoutQuotes(names) <==> n in names && QUOTE !in n
  {
    if names != [] {
      var p := names[..|names| - 1];
      assert names == p + [names[|names| - 1]];
      WithoutQuotesMembers(p);
    }
  }

  /** Filtering commutes with concatenation, so the kept names keep their order. */
  lemma {:induction false} WithoutQuotesAppend(a: seq<JString>, b: seq<JString>)
    ensures WithoutQuotes(a + b) == WithoutQuotes(a) + WithoutQuotes(b)
    decreases |b|
  {
    if b == [] {
      assert a + b == a;
    } else {
      var b' := b[..|b| - 1];
      assert (a + b)[..|a + b| - 1] == a + b';
      WithoutQuotesAppend(a, b');
    }
  }

  // ----------------------------------------------------------- text handling

  /** The Generate handler's copy of the text: one character per UTF-16 unit. */
  method TextToChars(text: JString) returns (cs: seq<Char16>)
    ensures |cs| == |text|
    ensures forall i :: 0 <= i < |text| ==> cs[i] == text[i]
  {
    cs := [];
    for index := 0 to |text|
      invariant cs == text[..index]
    {
      cs := cs + [text[index]];
    }
  }

  /** The text functions on offer. */
  datatype TextFunction = RemoveDuplicates | Identity

  /** What the selected text function makes of the characters. */
  function Filtered(f: TextFunction, cs: seq<Char16>): seq<Char16>
  {
    match f
    case RemoveDuplicates => TextFunctionRemoveDuplicates.Dedup(cs)
    case Identity => cs
  }

  method ApplyTextFunction(f: TextFunction, cs: seq<Char16>) returns (xs: seq<Char16>)
    ensures xs == Filtered(f, cs)
    ensures |xs| == 0 <==> |cs| == 0
  {
    match f
    case RemoveDuplicates =>
      xs := TextFunctionRemoveDuplicates.Process(cs);
      if |cs| > 0 {
        assert cs[0] in xs;
      }
    case Identity =>
      xs := cs;
  }

  // ------------------------------------------------- per-character strategies

  datatype FontFunction = UseSelectedFont | UseRandomFont
  datatype RotationFunction = RandomRotation | Random45
  datatype SpreadFunction = ExactSpread | RandomSpread

  /** The random values consumed while composing one character. */
  datatype Draws = Draws(fontSize: Int32, fontIndex: int, rotation: Int32, angle: real, spread: Int32)

  /** The state of the window's selectors that a compositing pass reads. */
  datatype Settings = Settings(
    fonts: seq<JString>,
    selected: Option<JString>,
    fontFunction: FontFunction,
    rotationFunction: RotationFunction,
    spreadFunction: SpreadFunction,
    spread: Int32)

  /** Every drawn font index lies in `[0, count)` whenever `count > 0`. */
  predicate DrawsInRange(fonts: seq<JString>, draws: seq<Draws>)
  {
    forall i :: 0 <= i < |draws| ==> (|fonts| > 0 ==> 0 <= draws[i].fontIndex < |fonts|)
  }

  /** `ff.getFont(c, size)` for the selected font function. */
  function GlyphDescriptor(s: Settings, c: Char16, d: Draws): Result<JString, JavaError>
    requires |s.fonts| > 0 ==> 0 <= d.fontIndex < |s.fonts|
  {
    match s.fontFunction
    case UseSelectedFont => Ok(FontFunctionSelected.GetFont(s.selected, c, d.fontSize))
    case UseRandomFont => FontFunctionRandom.GetFont(s.fonts, d.fontIndex, c, d.fontSize)
  }

  /** `rf.getRotation(c)` for the selected rotation function. */
  function GlyphRotation(rf: RotationFunction, c: Char16, d: Draws): Angle
  {
    match rf
    case Random45 => Degrees(RotationFunctionRandom45.GetRotation(c, d.rotation))
    case RandomRotation => Radians(d.angle)
  }

  /** `sf.getSpread(spread)` for the selected spread function. */
  function GlyphSpread(sf: SpreadFunction, spread: Int32, d: Draws): Int32
  {
    match sf
    case ExactSpread => spread
    case RandomSpread => d.spread
  }

  /** Whether the font function can produce a descriptor at all. */
  predicate FontsAvailable(s: Settings)
  {
    !(s.fontFunction == UseRandomFont && |s.fonts| == 0)
  }

  /** The descriptor exists exactly when fonts are available; otherwise `nextInt(0)` throws. */
  lemma GlyphDescriptorOk(s: Settings, c: Char16, d: Draws)
    requires |s.fonts| > 0 ==> 0 <= d.fontIndex < |s.fonts|
    ensures GlyphDescriptor(s, c, d).Ok? <==> FontsAvailable(s)
    ensures GlyphDescriptor(s, c, d).Err? ==> GlyphDescriptor(s, c, d).error == IllegalArgument
  {
  }

  // ---------------------------------------------------------------- compositing

  /** What the selected functions yield for one character: its font descriptor, its rotation and its distance. */
  datatype Step = Step(descriptor: JString, rotation: Angle, distance: int)

  /** The step for one character; it fails exactly where the font function throws. */
  function StepOf(s: Settings, c: Char16, d: Draws): Result<Step, JavaError>
    requires |s.fonts| > 0 ==> 0 <= d.fontIndex < |s.fonts|
  {
    match GlyphDescriptor(s, c, d)
    case Err(e) => Err(e)
    case Ok(name) => Ok(Step(name, GlyphRotation(s.rotationFunction, c, d), GlyphSpread(s.spreadFunction, s.spread, d)))
  }

  /** The steps of the first `n` characters, in order. */
  function Steps(s: Settings, cs: seq<Char16>, draws: seq<Draws>, n: nat): (steps: seq<Step>)
    requires n <= |cs| && |draws| == |cs| && DrawsInRange(s.fonts, draws)
    requires n > 0 ==> FontsAvailable(s)
    ensures |steps| == n
  {
    if n == 0 then [] else Steps(s, cs, draws, n - 1) + [StepOf(s, cs[n - 1], draws[n - 1]).value]
  }

  /** The k-th step is the k-th character's. */
  lemma {:induction false} StepsAt(s: Settings, cs: seq<Char16>, draws: seq<Draws>, k: nat, n: nat)
    requires k < n <= |cs| && |draws| == |cs| && DrawsInRange(s.fonts, draws)
    requires FontsAvailable(s)
    ensures StepOf(s, cs[k], draws[k]).Ok?
    ensures Steps(s, cs, draws, n)[k] == StepOf(s, cs[k], draws[k]).value
    decreases n
  {
    GlyphDescriptorOk(s, cs[k], draws[k]);
    if k < n - 1 {
      StepsAt(s, cs, draws, k, n - 1);
      assert Steps(s, cs, draws, n)[k] == Steps(s, cs, draws, n - 1)[k];
    }
  }

  /** The rotations of a run of steps, in order. */
  function Rotations(steps: seq<Step>): (ops: seq<TransformOp>)
    ensures |ops| == |steps|
  {
    if steps == [] then []
    else Rotations(steps[..|steps| - 1]) + [Rotate(steps[|steps| - 1].rotation)]
  }

  /** The rotations of a prefix are a prefix of the rotations. */
  lemma {:induction false} RotationsPrefix(steps: seq<Step>, m: nat)
    requires m <= |steps|
    ensures Rotations(steps)[..m] == Rotations(steps[..m])
    decreases |steps|
  {
    if m < |steps| {
      var p := steps[..|steps| - 1];
      RotationsPrefix(p, m);
      assert p[..m] == steps[..m];
      assert Rotations(steps)[..m] == Rotations(p)[..m];
    } else {
      assert steps[..m] == steps;
    }
  }

  /** The j-th rotation is the j-th step's. */
  lemma RotationsAt(steps: seq<Step>, j: nat)
    requires j < |steps|
    ensures Rotations(steps)[j] == Rotate(steps[j].rotation)
  {
    RotationsPrefix(steps, j + 1);
    var p := steps[..j + 1];
    assert p[..|p| - 1] == steps[..j] && p[|p| - 1] == steps[j];
    assert Rotations(steps)[j] == Rotations(steps)[..j + 1][j];
  }

  /**
   * The glyph for the last of `steps`: its character at x = 0 and y = its
   * distance, in the font decoded from its descriptor, under the translation
   * to the center and all the rotations so far.
   */
  function LastGlyph(center: (int, int), c: Char16, steps: seq<Step>): Glyph
    requires |steps| > 0
  {
    var st := steps[|steps| - 1];
    Glyph([c], Some(Decode(st.descriptor)), 0, st.distance, [Translate(center.0, center.1)] + Rotations(steps))
  }

  /** The glyphs drawn for `text`, one per step. */
  function Glyphs(center: (int, int), text: seq<Char16>, steps: seq<Step>): (gs: seq<Glyph>)
    requires |text| == |steps|
    ensures |gs| == |steps|
  {
    if steps == [] then []
    else
      var n := |steps| - 1;
      Glyphs(center, text[..n], steps[..n]) + [LastGlyph(center, text[n], steps)]
  }

  /** The k-th glyph is the one drawn after the first k + 1 steps. */
  lemma {:induction false} GlyphsAt(center: (int, int), text: seq<Char16>, steps: seq<Step>, k: nat)
    requires |text| == |steps| && k < |steps|
    ensures Glyphs(center, text, steps)[k] == LastGlyph(center, text[k], steps[..k + 1])
    decreases |steps|
  {
    var n := |steps| - 1;
    if k < n {
      GlyphsAt(center, text[..n], steps[..n], k);
      assert steps[..n][..k + 1] == steps[..k + 1];
      assert Glyphs(center, text, steps)[k] == Glyphs(center, text[..n], steps[..n])[k];
    } else {
      assert steps[..k + 1] == steps;
    }
  }

  /** The drawing a pass over `text` leaves: the translation, the rotations in order, and the glyphs. */
  function Render(center: (int, int), text: seq<Char16>, steps: seq<Step>): Document
    requires |text| == |steps|
  {
    Document([Translate(center.0, center.1)] + Rotations(steps), Glyphs(center, text, steps))
  }

  /** The font descriptors of a run of steps: the keys a pass puts in the font cache. */
  function UsedKeys(steps: seq<Step>): set<JString>
  {
    if steps == [] then {} else UsedKeys(steps[..|steps| - 1]) + {steps[|steps| - 1].descriptor}
  }

  /** A key is used exactly when some step has it as its descriptor. */
  lemma {:induction false} UsedKeysMembers(steps: seq<Step>)
    ensures forall key :: key in UsedKeys(steps) <==> exists k :: 0 <= k < |steps| && steps[k].descriptor == key
    decreases |steps|
  {
    if steps != [] {
      var p := steps[..|steps| - 1];
      UsedKeysMembers(p);
      forall key | key in UsedKeys(steps)
        ensures exists k :: 0 <= k < |steps| && steps[k].descriptor == key
      {
        if key in UsedKeys(p) {
          var k :| 0 <= k < |p| && p[k].descriptor == key;
          assert steps[k] == p[k];
        } else {
          assert steps[|steps| - 1].descriptor == key;
        }
      }
      forall key, k | 0 <= k < |steps| && steps[k].descriptor == key
        ensures key in UsedKeys(steps)
      {
        if k < |p| {
          assert p[k] == steps[k];
        }
      }
    }
  }

  /** Rendering one more step appends one rotation, one glyph and one key. */
  lemma RenderSnoc(center: (int, int), text: seq<Char16>, steps: seq<Step>, c: Char16, st: Step)
    requires |text| == |steps|
    ensures Rotations(steps + [st]) == Rotations(steps) + [Rotate(st.rotation)]
    ensures Glyphs(center, text + [c], steps + [st]) ==
      Glyphs(center, text, steps) + [Glyph([c], Some(Decode(st.descriptor)), 0, st.distance,
                                           [Translate(center.0, center.1)] + Rotations(steps + [st]))]
    ensures UsedKeys(steps + [st]) == UsedKeys(steps) + {st.descriptor}
  {
    assert (steps + [st])[..|steps|] == steps;
    assert (text + [c])[..|text|] == text;
  }

  /**
   * The step of the character at `i` extends the steps before it: one more
   * rotation by the rotation function's angle, one more glyph in the font of
   * the font function's descriptor at the spread function's distance, and
   * that descriptor as one more key. The facts are stated with the prefix `t`
   * and the set `keys` in front, the exact shape of the compositing loop's
   * invariants, so that no associativity step is left to the solver there.
   */
  lemma StepsSnoc(s: Settings, center: (int, int), cs: seq<Char16>, draws: seq<Draws>, i: nat, keys: set<JString>)
    requires i < |cs| && |draws| == |cs| && DrawsInRange(s.fonts, draws)
    requires FontsAvailable(s)
    ensures GlyphDescriptor(s, cs[i], draws[i]).Ok?
    ensures var t := [Translate(center.0, center.1)];
      var steps := Steps(s, cs, draws, i);
      var next := Steps(s, cs, draws, i + 1);
      var name := GlyphDescriptor(s, cs[i], draws[i]).value;
      var rotation := Rotate(GlyphRotation(s.rotationFunction, cs[i], draws[i]));
      t + Rotations(next) == t + Rotations(steps) + [rotation] &&
      Glyphs(center, cs[..i + 1], next) ==
        Glyphs(center, cs[..i], steps) + [Glyph([cs[i]], Some(Decode(name)), 0,
                                                GlyphSpread(s.spreadFunction, s.spread, draws[i]),
                                                t + Rotations(steps) + [rotation])] &&
      keys + UsedKeys(next) == keys + UsedKeys(steps) + {name}
  {
    GlyphDescriptorOk(s, cs[i], draws[i]);
    var t := [Translate(center.0, center.1)];
    var steps := Steps(s, cs, draws, i);
    var st := StepOf(s, cs[i], draws[i]).value;
    assert Steps(s, cs, draws, i + 1) == steps + [st];
    assert cs[..i + 1] == cs[..i] + [cs[i]];
    RenderSnoc(center, cs[..i], steps, cs[i], st);
    assert t + (Rotations(steps) + [Rotate(st.rotation)]) == t + Rotations(steps) + [Rotate(st.rotation)];
  }

  /** `doc` is the sigil of `cs`: the rendering of the characters' steps. */
  ghost predicate Composed(doc: Document, cs: seq<Char16>, draws: seq<Draws>, s: Settings, center: (int, int))
  {
    |draws| == |cs| && DrawsInRange(s.fonts, draws) &&
    (|cs| > 0 ==> FontsAvailable(s)) &&
    doc == Render(center, cs, Steps(s, cs, draws, |cs|))
  }

  /**
   * In a rendering, the k-th glyph is the k-th character at x = 0 and y = the
   * k-th distance, in the font decoded from the k-th descriptor, under the
   * first k + 2 operations of the final transform, the last of them the k-th
   * rotation.
   */
  lemma RenderAt(center: (int, int), text: seq<Char16>, steps: seq<Step>, k: nat)
    requires |text| == |steps| && k < |steps|
    ensures var doc := Render(center, text, steps);
      |doc.glyphs| == |steps| && |doc.transform| == |steps| + 1 &&
      doc.glyphs[k] == Glyph([text[k]], Some(Decode(steps[k].descriptor)), 0, steps[k].distance, doc.transform[..k + 2]) &&
      doc.transform[k + 1] == Rotate(steps[k].rotation)
  {
    var doc := Render(center, text, steps);
    GlyphsAt(center, text, steps, k);
    RotationsPrefix(steps, k + 1);
    RotationsAt(steps, k);
    assert doc.transform[..k + 2] == [Translate(center.0, center.1)] + Rotations(steps)[..k + 1];
    assert steps[..k + 1][k] == steps[k];
  }

  /**
   * Each glyph of the sigil is its character itself, at x = 0 and y = the
   * spread function's distance, in the font decoded from the font function's
   * descriptor, drawn under the first k + 2 operations of the final
   * transform: the translation and k + 1 rotations, the last of them the
   * rotation function's angle for that character.
   */
  lemma ComposedGlyph(doc: Document, cs: seq<Char16>, draws: seq<Draws>, s: Settings, center: (int, int), k: nat)
    requires Composed(doc, cs, draws, s, center)
    requires k < |cs|
    ensures |doc.glyphs| == |cs| && |doc.transform| == |cs| + 1
    ensures GlyphDescriptor(s, cs[k], draws[k]).Ok?
    ensures doc.glyphs[k] == Glyph([cs[k]], Some(Decode(GlyphDescriptor(s, cs[k], draws[k]).value)), 0,
                                   GlyphSpread(s.spreadFunction, s.spread, draws[k]), doc.transform[..k + 2])
    ensures doc.transform[k + 1] == Rotate(GlyphRotation(s.rotationFunction, cs[k], draws[k]))
  {
    var steps := Steps(s, cs, draws, |cs|);
    StepsAt(s, cs, draws, k, |cs|);
    RenderAt(center, cs, steps, k);
  }

  /** Rotations accumulate: every glyph is drawn under a prefix of the final transform. */
  lemma ComposedGlyphTransforms(doc: Document, cs: seq<Char16>, draws: seq<Draws>, s: Settings,
                                center: (int, int))
    requires Composed(doc, cs, draws, s, center)
    ensures |doc.glyphs| == |cs| && |doc.transform| == |cs| + 1
    ensures forall k :: 0 <= k < |cs| ==> doc.glyphs[k].transform == doc.transform[..k + 2]
    ensures forall k :: 0 <= k < |cs| ==>
      doc.transform[k + 1] == Rotate(GlyphRotation(s.rotationFunction, cs[k], draws[k]))
  {
    forall k | 0 <= k < |cs|
      ensures doc.glyphs[k].transform == doc.transform[..k + 2]
      ensures doc.transform[k + 1] == Rotate(GlyphRotation(s.rotationFunction, cs[k], draws[k]))
    {
      ComposedGlyph(doc, cs, draws, s, center, k);
    }
  }

  /**
   * Every glyph's font descriptor reads back as the requested size and the
   * chosen name: the selected item, or the font at the drawn index.
   */
  lemma ComposedGlyphFonts(doc: Document, cs: seq<Char16>, draws: seq<Draws>, s: Settings,
                           center: (int, int), k: nat)
    requires Composed(doc, cs, draws, s, center)
    requires k < |cs|
    ensures GlyphDescriptor(s, cs[k], draws[k]).Ok?
    ensures var name := if s.fontFunction == UseSelectedFont
                        then FontFunctionSelected.ItemText(s.selected)
                        else s.fonts[draws[k].fontIndex];
      doc.glyphs[k].font == Some(Decode(GlyphDescriptor(s, cs[k], draws[k]).value)) &&
      ParseDescriptor(GlyphDescriptor(s, cs[k], draws[k]).value) == Some(FontSpec(name, draws[k].fontSize))
  {
    ComposedGlyph(doc, cs, draws, s, center, k);
    if s.fontFunction == UseSelectedFont {
      FontFunctionSelected.GetFontDescribesSelection(s.selected, cs[k], draws[k].fontSize);
    } else {
      FontFunctionRandom.GetFontDescribesDraw(s.fonts, draws[k].fontIndex, cs[k], draws[k].fontSize);
    }
  }

  /** "AAB" through "Remove duplicates" is "AB". */
  lemma RemoveDuplicatesOfAab()
    ensures Filtered(RemoveDuplicates, [0x41, 0x41, 0x42]) == [0x41, 0x42]
  {
    var cs: seq<Char16> := [0x41, 0x41, 0x42];
    assert cs[..2] == [0x41, 0x41] && cs[..2][..1] == [0x41] && cs[..2][..1][..0] == [];
    assert TextFunctionRemoveDuplicates.Dedup([0x41]) == [0x41];
    assert TextFunctionRemoveDuplicates.Dedup([0x41, 0x41]) == [0x41];
  }

  /**
   * "AB" (what "AAB" becomes) with the selected font "Serif" and the exact
   * spread 250: two glyphs, 'A' then 'B', each in "Serif <size>" at distance
   * 250, the first under one rotation and the second under two.
   */
  lemma SerifScenario(doc: Document, draws: seq<Draws>, fonts: seq<JString>,
                      rf: RotationFunction, center: (int, int))
    requires Composed(doc, [0x41, 0x42], draws,
                      Settings(fonts, Some(SERIF), UseSelectedFont, rf, ExactSpread, 250), center)
    ensures |doc.glyphs| == 2
    ensures doc.glyphs[0].text == [0x41] && doc.glyphs[1].text == [0x42]
    ensures forall k :: 0 <= k < 2 ==>
      doc.glyphs[k].y == 250 && doc.glyphs[k].x == 0 &&
      doc.glyphs[k].font == Some(Decode(Descriptor(SERIF, draws[k].fontSize)))
    ensures |doc.glyphs[0].transform| == 2 && |doc.glyphs[1].transform| == 3
  {
    var s := Settings(fonts, Some(SERIF), UseSelectedFont, rf, ExactSpread, 250);
    ComposedGlyph(doc, [0x41, 0x42], draws, s, center, 0);
    ComposedGlyph(doc, [0x41, 0x42], draws, s, center, 1);
  }

  const SERIF: JString := [0x53, 0x65, 0x72, 0x69, 0x66]

  // ---------------------------------------------------------------- outcomes

  /** How a handler ended: normally, or with an exception that escapes it. */
  datatype Outcome = Done | Failed(error: JavaError)

  // ------------------------------------------------------------------ window

  class SigiltronMainWindow {
    /** The font combo box's items. */
    const fonts: seq<JString>

    var selectedFont: Option<JString>
    var textFunction: TextFunction
    var fontFunction: FontFunction
    var rotationFunction: RotationFunction
    var spreadFunction: SpreadFunction
    var spread: Int32

    var fontCache: map<JString, Font>
    var document: Option<Document>
    var saveEnabled: bool

    /**
     * Save is enabled only when there is a document to save, and every cached
     * font is the decoding of its descriptor.
     */
    ghost predicate Valid()
      reads this`saveEnabled, this`document, this`fontCache
    {
      (saveEnabled ==> document.Some?) &&
      (forall key :: key in fontCache ==> fontCache[key] == Decode(key))
    }

    function CurrentSettings(): Settings
      reads this`selectedFont, this`fontFunction, this`rotationFunction, this`spreadFunction, this`spread
    {
      Settings(fonts, selectedFont, fontFunction, rotationFunction, spreadFunction, spread)
    }

    /**
     * A new window: the font list from the platform's names, the first one
     * selected, the default functions, spread 250, an empty cache, no
     * document and Save disabled.
     */
    constructor (fontNames: seq<JString>)
      ensures Valid()
      ensures fonts == WithoutQuotes(fontNames)
      ensures selectedFont == if |fonts| > 0 then Some(fonts[0]) else None
      ensures textFunction == Identity && fontFunction == UseRandomFont
      ensures rotationFunction == Random45 && spreadFunction == RandomSpread
      ensures spread == 250
      ensures fontCache == map[] && document == None && !saveEnabled
    {
      var names := GetFontList(fontNames);
      fonts := names;
      selectedFont := if |names| > 0 then Some(names[0]) else None;
      textFunction := Identity;
      fontFunction := UseRandomFont;
      rotationFunction := Random45;
      spreadFunction := RandomSpread;
      spread := 250;
      fontCache := map[];
      document := None;
      saveEnabled := false;
    }

    /** The user picks an item of the font combo box. */
    method SelectFont(index: nat)
      requires Valid()
      requires index < |fonts|
      modifies this`selectedFont
      ensures Valid()
      ensures selectedFont == Some(fonts[index])
    {
      selectedFont := Some(fonts[index]);
    }

    /** The user picks entries of the four function combo boxes. */
    method SelectFunctions(tf: TextFunction, ff: FontFunction, rf: RotationFunction, sf: SpreadFunction)
      requires Valid()
      modifies this`textFunction, this`fontFunction, this`rotationFunction, this`spreadFunction
      ensures Valid()
      ensures textFunction == tf && fontFunction == ff
      ensures rotationFunction == rf && spreadFunction == sf
    {
      textFunction, fontFunction, rotationFunction, spreadFunction := tf, ff, rf, sf;
    }

    /** The user enters an integer in the spread field. */
    method EnterSpread(value: Int32)
      requires Valid()
      modifies this`spread
      ensures Valid()
      ensures spread == value
    {
      spread := value;
    }

    /**
     * The font cache step: on a hit the cached font is reused and the cache is
     * unchanged; on a miss the descriptor is decoded and only its key is added.
     */
    method LookupFont(name: JString) returns (font: Font)
      requires Valid()
      modifies this`fontCache
      ensures Valid()
      ensures font == Decode(name)
      ensures name in old(fontCache) ==> font == old(fontCache)[name] && fontCache == old(fontCache)
      ensures name !in old(fontCache) ==> fontCache == old(fontCache)[name := font]
    {
      if name in fontCache {
        font := fontCache[name];
      } else {
        font := Decode(name);
      }
      fontCache := fontCache[name := font];
      assert name in old(fontCache) ==> fontCache == old(fontCache);
    }

    /**
     * One iteration of the compositing loop, for the character at `i`: get its
     * descriptor, look the font up in the cache, set it, apply the rotation
     * and draw the character at the spread. It fails, before any change,
     * exactly when the random font function meets an empty font list.
     */
    method DrawGlyph(g: Graphics2D, s: Settings, cs: seq<Char16>, draws: seq<Draws>, i: nat)
      returns (outcome: Outcome)
      requires Valid() && s == CurrentSettings()
      requires i < |cs| && |draws| == |cs| && DrawsInRange(fonts, draws)
      modifies g, this`fontCache
      ensures Valid()
      ensures outcome.Failed? <==> !FontsAvailable(s)
      ensures outcome.Failed? ==>
        outcome.error == IllegalArgument && fontCache == old(fontCache) && unchanged(g)
      ensures outcome.Done? ==> (GlyphDescriptor(s, cs[i], draws[i]).Ok? &&
        g.font == Some(Decode(GlyphDescriptor(s, cs[i], draws[i]).value)) &&
        fontCache.Keys == old(fontCache).Keys + {GlyphDescriptor(s, cs[i], draws[i]).value} &&
        g.transform == old(g.transform) + [Rotate(GlyphRotation(s.rotationFunction, cs[i], draws[i]))] &&
        g.draws == old(g.draws) + [Glyph([cs[i]], Some(Decode(GlyphDescriptor(s, cs[i], draws[i]).value)), 0,
                                         GlyphSpread(s.spreadFunction, s.spread, draws[i]), g.transform)])
    {
      var c := cs[i];
      var d := draws[i];
      var fontName := GlyphDescriptor(s, c, d);
      if fontName.Err? {
        return Failed(fontName.error);
      }
      var font := LookupFont(fontName.value);
      g.SetFont(font);
      g.Rotate(GlyphRotation(s.rotationFunction, c, d));
      g.DrawString([c], 0, GlyphSpread(s.spreadFunction, s.spread, d));
      return Done;
    }

    /**
     * The compositing loop over a fresh context translated to `center`. It
     * fails, before any change, exactly when the random font function meets
     * an empty font list; otherwise it returns the sigil of `cs`, and the cache
     * has gained the descriptors used.
     */
    method Compose(s: Settings, center: (int, int), cs: seq<Char16>, draws: seq<Draws>)
      returns (outcome: Outcome, doc: Document)
      requires Valid() && s == CurrentSettings()
      requires |draws| == |cs| && DrawsInRange(fonts, draws)
      modifies this`fontCache
      ensures Valid()
      ensures outcome.Failed? <==> !FontsAvailable(s) && |cs| > 0
      ensures outcome.Failed? ==> outcome.error == IllegalArgument && fontCache == old(fontCache)
      ensures outcome.Done? ==> (Composed(doc, cs, draws, s, center) &&
        fontCache.Keys == old(fontCache).Keys + UsedKeys(Steps(s, cs, draws, |cs|)))
    {
      var g := new Graphics2D();
      g.Translate(center.0, center.1);
      doc := g.Root();

      var i := 0;
      while i < |cs|
        invariant 0 <= i <= |cs|
        invariant Valid()
        invariant i > 0 ==> FontsAvailable(s)
        invariant i == 0 ==> fontCache == old(fontCache)
        invariant g.transform == [Translate(center.0, center.1)] + Rotations(Steps(s, cs, draws, i))
        invariant g.draws == Glyphs(center, cs[..i], Steps(s, cs, draws, i))
        invariant fontCache.Keys == old(fontCache).Keys + UsedKeys(Steps(s, cs, draws, i))
      {
        outcome := DrawGlyph(g, s, cs, draws, i);
        if outcome.Failed? {
          return;
        }
        StepsSnoc(s, center, cs, draws, i, old(fontCache).Keys);
        i := i + 1;
      }
      assert cs[..|cs|] == cs;
      doc := g.Root();
      return Done, doc;
    }

    /**
     * One compositing pass, `generateImage`: the context is translated to the
     * center of the drawing area, and on success its drawing becomes the
     * document. A failure changes nothing.
     */
    method GenerateImage(cs: seq<Char16>, draws: seq<Draws>, width: nat, height: nat) returns (outcome: Outcome)
      requires Valid()
      requires |draws| == |cs| && DrawsInRange(fonts, draws)
      modifies this`fontCache, this`document
      ensures Valid()
      ensures outcome.Failed? <==> fontFunction == UseRandomFont && |fonts| == 0 && |cs| > 0
      ensures outcome.Failed? ==>
        outcome.error == IllegalArgument && fontCache == old(fontCache) && document == old(document)
      ensures outcome.Done? ==> (document.Some? &&
        Composed(document.value, cs, draws, CurrentSettings(), (width / 2, height / 2)) &&
        fontCache.Keys == old(fontCache).Keys + UsedKeys(Steps(CurrentSettings(), cs, draws, |cs|)))
      ensures forall key :: key in old(fontCache) ==> key in fontCache && fontCache[key] == old(fontCache)[key]
    {
      var doc;
      outcome, doc := Compose(CurrentSettings(), (width / 2, height / 2), cs, draws);
      if outcome.Done? {
        document := Some(doc);
      }
    }

    /**
     * The Generate button: copy the text into characters, filter them with
     * the selected text function, compose, and enable Save once composing
     * has returned. An exception leaves the window as it was.
     */
    method Generate(text: JString, draws: seq<Draws>, width: nat, height: nat) returns (outcome: Outcome)
      requires Valid()
      requires |draws| == |Filtered(textFunction, text)| && DrawsInRange(fonts, draws)
      modifies this`fontCache, this`document, this`saveEnabled
      ensures Valid()
      ensures saveEnabled == (old(saveEnabled) || outcome.Done?)
      ensures outcome.Failed? <==> fontFunction == UseRandomFont && |fonts| == 0 && |text| > 0
      ensures outcome.Failed? ==>
        outcome.error == IllegalArgument && fontCache == old(fontCache) && document == old(document) && saveEnabled == old(saveEnabled)
      ensures outcome.Done? ==> (saveEnabled && document.Some? &&
        Composed(document.value, Filtered(textFunction, text), draws, CurrentSettings(), (width / 2, height / 2)) &&
        fontCache.Keys == old(fontCache).Keys + UsedKeys(Steps(CurrentSettings(), Filtered(textFunction, text), draws, |draws|)))
      ensures forall key :: key in old(fontCache) ==> key in fontCache && fontCache[key] == old(fontCache)[key]
    {
      var cs := TextToChars(text);
      assert cs == text;
      var filtered := ApplyTextFunction(textFunction, cs);
      outcome := GenerateImage(filtered, draws, width, height);
      if outcome.Done? {
        saveEnabled := true;
      }
    }

    /** The Save button, which can be pressed only while enabled, hands over the live document. */
    method Save() returns (doc: Document)
      requires Valid() && saveEnabled
      ensures document == Some(doc)
    {
      doc := document.value;
    }
  }
}
