/** Font identities, text attributes and the font values the two caches hold. */
module Fonts {

  /** The cache key: the identity of an OpenPDF BaseFont. */
  type FontId = nat

  /** What a font library built from a font file; its contents are not modelled. */
  type FontFace = nat

  /** The java.awt.font.TextAttribute keys LayoutProcessor sets. */
  datatype TextAttribute = Kerning | Ligatures | RunDirection

  /** The attribute values it stores: KERNING_ON, LIGATURES_ON,
      RUN_DIRECTION_LTR and RUN_DIRECTION_RTL. */
  datatype AttrValue = KerningOn | LigaturesOn | RunDirectionLtr | RunDirectionRtl

  type Attributes = map<TextAttribute, AttrValue>

  /** A java.awt.Font: a face, a point size and the attributes it was derived with. */
  datatype AwtFont = AwtFont(face: FontFace, size: real, attributes: Attributes)

  /** An FOP MultiByteFont; LayoutProcessor never gives it attributes. */
  datatype FopFont = FopFont(face: FontFace)

  /** Font.createFont yields a font of size 1 with no attributes. */
  function CreatedAwtFont(face: FontFace): (f: AwtFont)
    ensures f.face == face && f.attributes == map[]
  {
    AwtFont(face, 1.0, map[])
  }

  /** Font.deriveFont(Map): the given attributes replace or join the font's own. */
  function DeriveWithAttributes(f: AwtFont, attrs: Attributes): (g: AwtFont)
    ensures g.face == f.face && g.size == f.size
    ensures g.attributes.Keys == f.attributes.Keys + attrs.Keys
    ensures forall a :: a in attrs ==> g.attributes[a] == attrs[a]
    ensures forall a :: a in f.attributes && a !in attrs ==> g.attributes[a] == f.attributes[a]
  {
    AwtFont(f.face, f.size, f.attributes + attrs)
  }

  /** Font.deriveFont(float): same face and attributes at another size. */
  function DeriveWithSize(f: AwtFont, size: real): (g: AwtFont)
    ensures g.face == f.face && g.attributes == f.attributes && g.size == size
  {
    AwtFont(f.face, size, f.attributes)
  }
}
