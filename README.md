# Sigiltron, modelled in Dafny

Sigiltron draws "sigils". The user types an intent. A text function filters
its characters. Then each remaining character is drawn at the center of a
canvas, in a font chosen by a font function, rotated by a rotation function
and pushed outward by a spread function. The rotations accumulate, so each
glyph is drawn under every rotation so far. This project models that core
and proves its properties:

- `TextFunctionRemoveDuplicates` (remove_duplicates.dfy): the
  "Remove duplicates" text function. The seen-set loop is proved equal to a
  reference definition. Lemmas cover membership, uniqueness, first-occurrence
  order, length and idempotence.
- `Format` (format.dfy): the `"%s %d"` font descriptor that both font
  functions build, and its round trip. The size is the text after the
  descriptor's last space.
- `FontFunctionSelected` and `FontFunctionRandom` (font_functions.dfy): the
  two font functions. The random index drawn by `nextInt(count)` is a
  parameter. With no fonts the call throws IllegalArgumentException.
- `RotationFunctionRandom45` (rotation_random45.dfy): the integer part of
  "Random 45° increments", in explicit 32-bit wrap-around arithmetic. The
  result is exactly the multiples of 8. It is not always a multiple of 45.
- `ErrorBox` (error_box.dfy): the 120-unit message truncation of the error
  dialog.
- `Graphics` (graphics.dfy): the graphics context as a class. It records the
  transform operations applied and the strings drawn.
- `MainWindow` (main_window.dfy):
  - the font-name filter;
  - the Generate handler's text-to-characters loop;
  - the compositing loop of `generateImage`, with its font cache;
  - the window state that ties Save to the existing document.

  The compositing loop is proved against a value-level specification. Each
  character yields a `Step` (descriptor, rotation, distance). `Render` turns
  the steps into the expected document, and `UsedKeys` gives the cache keys
  the steps add.
- `JavaLang` (java_lang.dfy): Java `char` as a UTF-16 code unit, `int` and
  its wrap-around, null, and the two exceptions that can occur.

Every random value a pass consumes is an input, one `Draws` record per
character:
- the font size;
- the `nextInt(count)` index;
- the `nextInt()` of Random45;
- the continuous rotation angle;
- the random spread.

`Font.decode` is modelled by `Graphics.Decode`, which keeps the descriptor it
was given. The model's strings and lists are immutable values. So "the input
list is not modified" and "the font list is not modified" hold by
construction.

## Model

| member | source | states |
|---|---|---|
| JavaLang.Wrap32 | src/main/java/com/io7m/sigiltron/SigilRotationFunctionRandom45.java:53-54 | the Java `int` an exact product is stored as: its low 32 bits in two's complement; `Wrap32Congruent` and `Wrap32Unique` state that it is the unique `int` congruent to the product modulo 2^32 |
| JavaLang.Wrap32Congruent | src/main/java/com/io7m/sigiltron/SigilRotationFunctionRandom45.java:53-54 | a Java `int` product differs from the exact product by a whole multiple of 2^32 |
| JavaLang.Wrap32Unique | src/main/java/com/io7m/sigiltron/SigilRotationFunctionRandom45.java:53-54 | the stored `int` is the only value in the `int` range congruent to the exact product modulo 2^32 |
| TextFunctionRemoveDuplicates.Dedup | src/main/java/com/io7m/sigiltron/SigilTextFunctionRemoveDuplicates.java:46-52 | reference definition: a character is kept exactly when it does not occur earlier; its properties are the Dedup lemmas below |
| TextFunctionRemoveDuplicates.Process | src/main/java/com/io7m/sigiltron/SigilTextFunctionRemoveDuplicates.java:40-55 | the seen-set loop returns the reference deduplication of its input; the result has no duplicates, and it holds exactly the characters of the input; loop invariant: the seen-set is the set of the prefix and the output is the dedup of that prefix |
| TextFunctionRemoveDuplicates.FirstIndex | src/main/java/com/io7m/sigiltron/SigilTextFunctionRemoveDuplicates.java:48-51 | the position returned holds the character, and the character does not occur before it |
| TextFunctionRemoveDuplicates.DedupElements | src/main/java/com/io7m/sigiltron/SigilTextFunctionRemoveDuplicates.java:46-52 | a character is in the output if and only if it is in the input: none is lost and none is introduced |
| TextFunctionRemoveDuplicates.DedupNoDuplicates | src/main/java/com/io7m/sigiltron/SigilTextFunctionRemoveDuplicates.java:48-51 | no character occurs twice in the output |
| TextFunctionRemoveDuplicates.DedupOccursOnce | src/main/java/com/io7m/sigiltron/SigilTextFunctionRemoveDuplicates.java:48-51 | each character of the input occurs in the output exactly once, and any other character never |
| TextFunctionRemoveDuplicates.NoDuplicatesSnoc | src/main/java/com/io7m/sigiltron/SigilTextFunctionRemoveDuplicates.java:48-51 | appending a character keeps a list duplicate-free if and only if the list was duplicate-free and did not contain it |
| TextFunctionRemoveDuplicates.DedupLength | src/main/java/com/io7m/sigiltron/SigilTextFunctionRemoveDuplicates.java:46-52 | the output is never longer than the input; the lengths are equal exactly when the input has no duplicates, and then the output is the input |
| TextFunctionRemoveDuplicates.DedupIdempotent | src/main/java/com/io7m/sigiltron/SigilTextFunctionRemoveDuplicates.java:40-55 | processing the output again gives the same output |
| TextFunctionRemoveDuplicates.FirstIndexSnoc | src/main/java/com/io7m/sigiltron/SigilTextFunctionRemoveDuplicates.java:46-52 | appending to the input does not move the first occurrence of a character already present |
| TextFunctionRemoveDuplicates.DedupKeepsFirstOccurrenceOrder | src/main/java/com/io7m/sigiltron/SigilTextFunctionRemoveDuplicates.java:46-52 | the output keeps first occurrences in their input order: of two output characters, the earlier one first occurs earlier in the input |
| Format.Decimal | src/main/java/com/io7m/sigiltron/SigilFontFunctionSelected.java:48 | `%d` of an `int`: a minus sign for negatives, then the digits without leading zeros; `DecimalShape`, `NatDigitsNoLeadingZero` and `ParseDecimalRoundTrip` state its properties |
| Format.Descriptor | src/main/java/com/io7m/sigiltron/SigilFontFunctionSelected.java:48 | `String.format("%s %d", name, size)`; `DescriptorLayout` and `DescriptorRoundTrip` state what it is |
| Format.NatDigitsAreDigits | src/main/java/com/io7m/sigiltron/SigilFontFunctionSelected.java:48 | the `%d` rendering of a natural number is a non-empty string of ASCII digits |
| Format.NatDigitsNoLeadingZero | src/main/java/com/io7m/sigiltron/SigilFontFunctionSelected.java:48 | the `%d` rendering of a number of two or more digits does not start with a zero, so it is Java's exact form |
| Format.DecimalShape | src/main/java/com/io7m/sigiltron/SigilFontFunctionSelected.java:48 | the `%d` rendering of any `int` is non-empty, contains no space and ends in a digit |
| Format.ParseNatDigits | src/main/java/com/io7m/sigiltron/SigilFontFunctionSelected.java:48 | reading the digits of a natural number back gives that number |
| Format.ParseDecimalRoundTrip | src/main/java/com/io7m/sigiltron/SigilFontFunctionSelected.java:48 | reading the `%d` rendering of an integer back gives that integer, for negatives too |
| Format.LastIndexOf | src/main/java/com/io7m/sigiltron/SigilFontFunctionSelected.java:48 | a position found holds the character, and no later position does; None means the character does not occur |
| Format.LastIndexOfAfter | src/main/java/com/io7m/sigiltron/SigilFontFunctionSelected.java:48 | in `p + [c] + t` with `c` not in `t`, the last `c` is at position `|p|` |
| Format.DescriptorRoundTrip | src/main/java/com/io7m/sigiltron/SigilFontFunctionSelected.java:48 | splitting a descriptor at its last space gives back exactly the name and the size it was built from, even when the name contains spaces |
| Format.DescriptorLayout | src/main/java/com/io7m/sigiltron/SigilFontFunctionSelected.java:48 | a descriptor is the name, then a single space, then the decimal rendering of the size, and it ends in a digit |
| FontFunctionSelected.ItemText | src/main/java/com/io7m/sigiltron/SigilFontFunctionSelected.java:48 | `%s` of `getSelectedItem()`: the item itself, or "null" when nothing is selected; `GetFontDescribesSelection` states that the descriptor reads back as this text |
| FontFunctionSelected.GetFont | src/main/java/com/io7m/sigiltron/SigilFontFunctionSelected.java:44-51 | the descriptor of the selected item at the requested size; its properties are the next two lemmas |
| FontFunctionSelected.GetFontDescribesSelection | src/main/java/com/io7m/sigiltron/SigilFontFunctionSelected.java:44-51 | the result is the selected item's text (or "null"), a single space and the decimal size; it reads back as that name and size |
| FontFunctionSelected.GetFontIgnoresCharacter | src/main/java/com/io7m/sigiltron/SigilFontFunctionSelected.java:44-51 | any two characters give the same descriptor for the same selection and size |
| FontFunctionRandom.GetFont | src/main/java/com/io7m/sigiltron/SigilFontFunctionRandom.java:47-56 | the call fails exactly when the font list is empty, and then with IllegalArgumentException from `nextInt(0)` |
| FontFunctionRandom.GetFontDescribesDraw | src/main/java/com/io7m/sigiltron/SigilFontFunctionRandom.java:51-53 | for a drawn index in `[0, count)`, the chosen name is an element of the list, and the descriptor reads back as that name and the requested size |
| FontFunctionRandom.GetFontIgnoresCharacter | src/main/java/com/io7m/sigiltron/SigilFontFunctionRandom.java:47-56 | for a given drawn index, the character has no effect on the result |
| RotationFunctionRandom45.GetRotation | src/main/java/com/io7m/sigiltron/SigilRotationFunctionRandom45.java:53-54 | `r = x * 8` and `d = r * 45`, each wrapped to a Java `int`; its closed form and range are the lemmas below |
| RotationFunctionRandom45.RotationIsWrapped360 | src/main/java/com/io7m/sigiltron/SigilRotationFunctionRandom45.java:53-54 | `d = (x * 8) * 45` in Java `int` arithmetic equals `360 * x` wrapped to 32 bits; wrapping `r` in between changes nothing |
| RotationFunctionRandom45.RotationMultipleOf8 | src/main/java/com/io7m/sigiltron/SigilRotationFunctionRandom45.java:53-54 | `d` is always an `int` divisible by 8 |
| RotationFunctionRandom45.RotationExactWhenSmall | src/main/java/com/io7m/sigiltron/SigilRotationFunctionRandom45.java:53-54 | for `|x| <= 5965232` nothing wraps, so `d == 360 * x`, a whole number of turns |
| RotationFunctionRandom45.RotationNotMultipleOf45 | src/main/java/com/io7m/sigiltron/SigilRotationFunctionRandom45.java:53-54 | for x = 5965233 the result is -2147483416, which is 14 modulo 45 and 104 modulo 360: the result is not always a multiple of 45 |
| RotationFunctionRandom45.RotationRange | src/main/java/com/io7m/sigiltron/SigilRotationFunctionRandom45.java:53-54 | an `int` is a possible result if and only if it is a multiple of 8 |
| RotationFunctionRandom45.RotationIgnoresCharacter | src/main/java/com/io7m/sigiltron/SigilRotationFunctionRandom45.java:49-57 | the character argument has no effect on the result |
| ErrorBox.Truncate | src/main/java/com/io7m/sigiltron/SigilErrorBox.java:67-73 | every result has at most 122 units and starts with the message's first min(length, 119) units; a message of at most 119 units is unchanged |
| ErrorBox.TruncatedLabel | src/main/java/com/io7m/sigiltron/SigilErrorBox.java:67-73 | a null message throws NullPointerException at `length()`; any other message is truncated |
| ErrorBox.TruncateShortUnchanged | src/main/java/com/io7m/sigiltron/SigilErrorBox.java:67-73 | a message of at most 120 units is shown unchanged |
| ErrorBox.TruncateLong | src/main/java/com/io7m/sigiltron/SigilErrorBox.java:69-70 | a longer message becomes its first 119 units followed by "...", 122 units in all |
| ErrorBox.TruncateIdempotent | src/main/java/com/io7m/sigiltron/SigilErrorBox.java:67-73 | truncating an already truncated message gives the same string |
| Graphics.Decode | src/main/java/com/io7m/sigiltron/SigiltronMainWindow.java:268 | `Font.decode`: the font keeps its descriptor, so equal descriptors give equal fonts |
| Graphics.Graphics2D.constructor | src/main/java/com/io7m/sigiltron/SigiltronMainWindow.java:250-255 | a new context has no transform operations, no font and no drawn strings |
| Graphics.Graphics2D.Translate | src/main/java/com/io7m/sigiltron/SigiltronMainWindow.java:256 | `translate` appends one translation to the transform, and nothing else changes |
| Graphics.Graphics2D.Rotate | src/main/java/com/io7m/sigiltron/SigiltronMainWindow.java:273 | `rotate` appends one rotation to the transform, and nothing else changes |
| Graphics.Graphics2D.SetFont | src/main/java/com/io7m/sigiltron/SigiltronMainWindow.java:272 | `setFont` makes the font current |
| Graphics.Graphics2D.DrawString | src/main/java/com/io7m/sigiltron/SigiltronMainWindow.java:274 | `drawString` records one string at (x, y) with the current font and transform |
| Graphics.Graphics2D.Root | src/main/java/com/io7m/sigiltron/SigiltronMainWindow.java:277-278 | `getRoot`: the drawing so far, its transform operations and its glyphs |
| MainWindow.GetFontList | src/main/java/com/io7m/sigiltron/SigiltronMainWindow.java:62-81 | the loop keeps exactly the names without a `'`, in their original order |
| MainWindow.WithoutQuotesMembers | src/main/java/com/io7m/sigiltron/SigiltronMainWindow.java:70-78 | a name is offered if and only if the platform lists it and it has no `'` |
| MainWindow.WithoutQuotesAppend | src/main/java/com/io7m/sigiltron/SigiltronMainWindow.java:70-78 | the filter commutes with concatenation, so the names kept keep their relative order |
| MainWindow.TextToChars | src/main/java/com/io7m/sigiltron/SigiltronMainWindow.java:189-194 | one character per UTF-16 unit of the text, with `cs[i] == text[i]` |
| MainWindow.Filtered | src/main/java/com/io7m/sigiltron/SigiltronMainWindow.java:197-210 | `f.process(cs)` for the selected text function: remove duplicates, or identity; `ApplyTextFunction` and `TextFunctionRemoveDuplicates.Process` state what it yields |
| MainWindow.ApplyTextFunction | src/main/java/com/io7m/sigiltron/SigiltronMainWindow.java:197-210 | the selected text function's result, which is empty exactly when its input is |
| MainWindow.GlyphDescriptor | src/main/java/com/io7m/sigiltron/SigiltronMainWindow.java:262 | `ff.getFont(c, size)` for the selected font function; `GlyphDescriptorOk` states when it exists |
| MainWindow.GlyphRotation | src/main/java/com/io7m/sigiltron/SigiltronMainWindow.java:273 | `rf.getRotation(c)`: Random45's degrees, or the continuous function's drawn angle |
| MainWindow.GlyphSpread | src/main/java/com/io7m/sigiltron/SigiltronMainWindow.java:274 | `sf.getSpread(spread)`: the base spread for the exact function, the drawn value for the random one |
| MainWindow.GlyphDescriptorOk | src/main/java/com/io7m/sigiltron/SigiltronMainWindow.java:262 | `ff.getFont` yields a descriptor unless the random font function meets an empty list; then it throws IllegalArgumentException |
| MainWindow.Steps | src/main/java/com/io7m/sigiltron/SigiltronMainWindow.java:258-275 | one step per character composed |
| MainWindow.StepsAt | src/main/java/com/io7m/sigiltron/SigiltronMainWindow.java:261-274 | the k-th step is the font, rotation and spread functions' results for the k-th character and its draws |
| MainWindow.Rotations | src/main/java/com/io7m/sigiltron/SigiltronMainWindow.java:273 | one rotation per step |
| MainWindow.RotationsPrefix | src/main/java/com/io7m/sigiltron/SigiltronMainWindow.java:273 | the rotations of the first m steps are the first m rotations |
| MainWindow.RotationsAt | src/main/java/com/io7m/sigiltron/SigiltronMainWindow.java:273 | the j-th rotation is the j-th step's angle |
| MainWindow.Glyphs | src/main/java/com/io7m/sigiltron/SigiltronMainWindow.java:274 | one glyph per step |
| MainWindow.GlyphsAt | src/main/java/com/io7m/sigiltron/SigiltronMainWindow.java:272-274 | the k-th glyph is drawn after the first k + 1 steps: under the translation and their rotations, in the k-th step's font and at its distance |
| MainWindow.UsedKeysMembers | src/main/java/com/io7m/sigiltron/SigiltronMainWindow.java:265-270 | a descriptor is a key added by the pass if and only if some step has it |
| MainWindow.RenderSnoc | src/main/java/com/io7m/sigiltron/SigiltronMainWindow.java:258-275 | one more step adds exactly one rotation, one glyph under the extended transform and one cache key |
| MainWindow.StepsSnoc | src/main/java/com/io7m/sigiltron/SigiltronMainWindow.java:261-274 | the character at i extends the rendering: a rotation by its angle, a glyph in its descriptor's font at its spread, and its descriptor as a key |
| MainWindow.RenderAt | src/main/java/com/io7m/sigiltron/SigiltronMainWindow.java:255-256 | in a rendering, the k-th glyph is drawn under the first k + 2 transform operations, and operation k + 1 is the k-th rotation |
| MainWindow.ComposedGlyph | src/main/java/com/io7m/sigiltron/SigiltronMainWindow.java:258-275 | in a composed sigil, glyph k is character k at x = 0 and y = the spread function's result, in the font of the font function's descriptor, under the translation and the first k + 1 rotations |
| MainWindow.ComposedGlyphTransforms | src/main/java/com/io7m/sigiltron/SigiltronMainWindow.java:255-256 | rotations accumulate: every glyph is drawn under a prefix of the final transform, and that prefix ends with its own character's rotation |
| MainWindow.ComposedGlyphFonts | src/main/java/com/io7m/sigiltron/SigiltronMainWindow.java:261-272 | every glyph's font descriptor reads back as the drawn size and the chosen name: the selected item, or the font at the drawn index |
| MainWindow.RemoveDuplicatesOfAab | src/main/java/com/io7m/sigiltron/SigilTextFunctionRemoveDuplicates.java:46-52 | "AAB" through "Remove duplicates" is "AB" |
| MainWindow.SerifScenario | src/main/java/com/io7m/sigiltron/SigiltronMainWindow.java:258-275 | "AB" with the selected font "Serif" and the exact spread 250 gives two glyphs, 'A' then 'B', each in "Serif size" at y = 250, under one and then two rotations |
| MainWindow.SigiltronMainWindow.constructor | src/main/java/com/io7m/sigiltron/SigiltronMainWindow.java:97-156 | the filtered font list with its first item selected, Identity, random font, Random45, random spread, spread 250, an empty cache, no document, Save disabled |
| MainWindow.SigiltronMainWindow.SelectFont | src/main/java/com/io7m/sigiltron/SigiltronMainWindow.java:120-123 | the chosen item of the font combo box becomes the selection |
| MainWindow.SigiltronMainWindow.SelectFunctions | src/main/java/com/io7m/sigiltron/SigiltronMainWindow.java:112-153 | the chosen entries of the four function combo boxes become the selected functions |
| MainWindow.SigiltronMainWindow.EnterSpread | src/main/java/com/io7m/sigiltron/SigiltronMainWindow.java:143-144 | the entered integer becomes the base spread |
| MainWindow.SigiltronMainWindow.LookupFont | src/main/java/com/io7m/sigiltron/SigiltronMainWindow.java:264-270 | on a hit the cached font is returned and the cache is unchanged; on a miss the decoded font is returned and only its key is added |
| MainWindow.SigiltronMainWindow.DrawGlyph | src/main/java/com/io7m/sigiltron/SigiltronMainWindow.java:261-274 | one iteration adds the descriptor's key, makes the decoded font current, and adds one rotation and one glyph in that font at the spread; with no fonts for the random font function it throws before any change |
| MainWindow.SigiltronMainWindow.Compose | src/main/java/com/io7m/sigiltron/SigiltronMainWindow.java:250-278 | the loop fails exactly when the random font function meets an empty font list and the text is non-empty, and then changes nothing; otherwise the result is the rendering of the characters' steps, and the cache gains exactly their descriptors |
| MainWindow.SigiltronMainWindow.GenerateImage | src/main/java/com/io7m/sigiltron/SigiltronMainWindow.java:237-282 | composes around (width / 2, height / 2) and stores the drawing as the document; cached entries keep their fonts; a failure leaves cache and document as they were |
| MainWindow.SigiltronMainWindow.Generate | src/main/java/com/io7m/sigiltron/SigiltronMainWindow.java:185-213 | filters the text with the selected text function, composes, and enables Save only once `generateImage` returns; then a document exists and the cache has gained exactly the descriptors used; cached entries keep their fonts; it fails, with IllegalArgumentException escaping the handler, exactly when the random font function meets an empty font list and the text is non-empty, and a failure changes nothing |
| MainWindow.SigiltronMainWindow.Save | src/main/java/com/io7m/sigiltron/SigiltronMainWindow.java:157-181 | Save is enabled only with a document, which it hands over |

`SigiltronMainWindow.Valid()` is kept by every window method. It says that
Save enabled implies a document exists, and that every cached font is the
decoding of its key.

## Left out

- Swing: the frame, combo boxes, layout, the canvas, dialogs and the file chooser. The user's choices are the parameters of `SelectFont`, `SelectFunctions` and `EnterSpread`.
- Batik: SVG document creation, `SVGGraphics2D` rendering, the SVG DOM tree that `getRoot` builds (`Root` keeps only the recorded drawing), and streaming the file in Save. These are foreign library calls and I/O. The graphics context keeps only its transform operations, its font and the strings drawn.
- MainWindow.SigiltronMainWindow.Save: the file chooser, its cancel branch and the writing of the file are not modelled. The method only hands over the document.
- Floating point: `(int)(Math.random() * 100 + 100)` for the font size, `Math.toRadians`, and the numeric composition of affine transforms. The size is an arbitrary `int` input, and a Random45 angle is recorded in degrees.
- Randomness: the draws of `SecureRandom` and `Math.random` are inputs. The only constraint is the documented range of `nextInt(count)`.
- MainWindow.GlyphRotation: the continuous random rotation function is not part of this model; its angle for a character is taken as drawn.
- MainWindow.GlyphSpread: the spread functions are not part of this model. The exact spread function is taken to return its argument, and the random spread function's result is taken as drawn.
- MainWindow.Filtered: the Identity text function is not part of this model; it is taken to return its input.
- Font resolution: how `Font.decode` turns a descriptor into a family, style and size is left out. `Decode` keeps the descriptor, so equal descriptors give equal fonts.
- `WeakHashMap` eviction by the garbage collector: the cache is a plain map.
- Locale: `String.format` is taken to render ASCII digits.
- The "45° increments" intent of the Random45 label is not modelled. The arithmetic does not guarantee it; `RotationNotMultipleOf45` exhibits it.
- Logging, stack-trace text and the `invokeLater` variants of the error box. These are UI and logging side effects.
- Characters are UTF-16 code units. Surrogate pairs get no special handling, as in the source.
- The cast of the spread field's value to `Integer` is taken to succeed. The field's value is an integer set by `EnterSpread`.
- Java assertions (`assert ... != null`) are not modelled. A null the model cannot produce would be needed to trip them.
