/**
 * The vector graphics context the sigil is drawn into, reduced to what the
 * generator does with it: the transform operations applied in order, the
 * current font, and the strings drawn, each with the font and the transform
 * in force when it was drawn. Rendering, the numeric composition of affine
 * transforms and the SVG document tree belong to the graphics library.
 */
module Graphics {
  import opened JavaLang

  /**
   * A resolved font. How `Font.decode` parses a descriptor into a family,
   * style and size is the platform's business; the model keeps the
   * descriptor a font was decoded from, so equal descriptors give equal fonts.
   */
  datatype Font = Decoded(descriptor: JString)

  /** `Font.decode`. */
  function Decode(descriptor: JString): Font
  {
    Decoded(descriptor)
  }

  /**
   * The angle handed to `rotate`. The Random45 function passes
   * `Math.toRadians(d)` of an integer `d`, recorded here as `d`; the continuous
   * random function's angle is recorded as drawn.
   */
  datatype Angle = Degrees(degrees: int) | Radians(radians: real)

  datatype TransformOp = Translate(dx: int, dy: int) | Rotate(angle: Angle)

  datatype Glyph = Glyph(text: JString, font: Option<Font>, x: int, y: int, transform: seq<TransformOp>)

  /** The finished drawing: the final transform and the glyphs in drawing order. */
  datatype Document = Document(transform: seq<TransformOp>, glyphs: seq<Glyph>)

  class Graphics2D {
    var transform: seq<TransformOp>
    var font: Option<Font>
    var draws: seq<Glyph>

    /** A fresh context over an empty document, with the identity transform. */
    constructor ()
      ensures transform == [] && font == None && draws == []
    {
      transform := [];
      font := None;
      draws := [];
    }

    method Translate(dx: int, dy: int)
      modifies this`transform
      ensures transform == old(transform) + [TransformOp.Translate(dx, dy)]
    {
      transform := transform + [TransformOp.Translate(dx, dy)];
    }

    method Rotate(angle: Angle)
      modifies this`transform
      ensures transform == old(transform) + [TransformOp.Rotate(angle)]
    {
      transform := transform + [TransformOp.Rotate(angle)];
    }

    method SetFont(f: Font)
      modifies this`font
      ensures font == Some(f)
    {
      font := Some(f);
    }

    /** Records one string drawn at (x, y) under the current font and transform. */
    method DrawString(text: JString, x: int, y: int)
      modifies this`draws
      ensures draws == old(draws) + [Glyph(text, font, x, y, transform)]
    {
      draws := draws + [Glyph(text, font, x, y, transform)];
    }

    /** The drawing built so far, as `getRoot` attaches it to the document. */
    function Root(): Document
      reads this
    {
      Document(transform, draws)
    }
  }
}
