/**
 * The part of an AcTiV annotation file that the scripts read or write: the
 * root element's children are `<frame>` elements, each with an attribute map
 * and `<rectangle>` children that carry only attributes.
 */
module XmlTree {

  /** The attributes of one element, by name, as the strings the XML holds. */
  type Attributes = map<string, string>

  /** A `<frame>` element: its attributes and its `<rectangle>` children's attributes, in document order. */
  datatype Frame = Frame(attrib: Attributes, rectangles: seq<Attributes>)
}
