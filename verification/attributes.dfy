/** The value of a project attribute as the engine reports it: one string or an
    ordered list of strings (`AttributeValue` in src/binding.rs). It sits in a
    module of its own because both the binding and the error taxonomy use it. */
module Attributes {

  datatype AttributeValue = Single(text: string) | List(items: seq<string>)

  /** The `Display` of an attribute value: the name of its shape only, never its
      contents. */
  function Display(v: AttributeValue): (r: string)
    ensures r == "Single" <==> v.Single?
    ensures r == "List" <==> v.List?
  {
    match v
    case Single(_) => "Single"
    case List(_) => "List"
  }

  /** Two values display alike exactly when they have the same shape. */
  lemma DisplayIsShapeOnly(v: AttributeValue, w: AttributeValue)
    ensures Display(v) == Display(w) <==> v.Single? == w.Single?
  {
  }
}
