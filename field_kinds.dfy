/** The nine field kinds of the palette and the type tags that name them. */
module FieldKinds {

  datatype Kind = Text | Email | Date | Time | File | Select | Checkbox | Radio | Acceptance

  /** The `type` string a field of this kind carries. */
  function TypeName(k: Kind): string
  {
    match k
    case Text => "text"
    case Email => "email"
    case Date => "date"
    case Time => "time"
    case File => "file"
    case Select => "select"
    case Checkbox => "checkbox"
    case Radio => "radio"
    case Acceptance => "acceptance"
  }

  /** No two kinds share a type string, so a field's `type` names its kind. */
  lemma TypeNameInjective(k1: Kind, k2: Kind)
    ensures TypeName(k1) == TypeName(k2) ==> k1 == k2
  {
  }
}
