/** The variants of the Badge component that both the question card and the
    analytics dashboard choose between. */
module Badge {

  datatype Variant = Default | Secondary | Outline | Destructive | Success
  {
    /** The variant name as the Badge component receives it. */
    function Name(): string
    {
      match this
      case Default => "default"
      case Secondary => "secondary"
      case Outline => "outline"
      case Destructive => "destructive"
      case Success => "success"
    }
  }

  /** Each variant has its own name. */
  lemma NameInjective(v: Variant, w: Variant)
    ensures v.Name() == w.Name() <==> v == w
  {
  }
}
