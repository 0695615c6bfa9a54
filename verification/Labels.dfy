/** The label that marks a route while a canary is running. */
module Labels {
  import opened Gateway

  const DEFAULT_KEY := "rollouts.argoproj.io/gatewayapi-canary"
  const DEFAULT_VALUE := "in-progress"

  datatype LabelConfig = LabelConfig(disabled: bool, key: string, value: string)
  {
    /** The key is never empty, so the guard of the code against an empty key never fires. */
    function Key(): (key: string)
      ensures key != ""
    {
      if this.key != "" then this.key else DEFAULT_KEY
    }

    function Value(): string {
      if value != "" then value else DEFAULT_VALUE
    }
  }

  type LabelMap = Option<map<string, string>>

  /** The value of a label; a nil map has no labels. */
  function Lookup(labels: LabelMap, key: string): Option<string> {
    if labels.Some? && key in labels.value then Some(labels.value[key]) else None
  }

  /** The labels after a weight has been set. */
  function Marked(c: LabelConfig, weight: Int32, labels: LabelMap): LabelMap {
    if c.disabled || (weight == 0 && labels.None?) then labels
    else if weight == 0 then Some(labels.value - {c.Key()})
    else Some((if labels.Some? then labels.value else map[])[c.Key() := c.Value()])
  }

  /** A configured key or value is used as it is; without one the default is. */
  lemma {:induction false} ConfiguredLabel(c: LabelConfig)
    ensures c.key != "" ==> c.Key() == c.key
    ensures c.key == "" ==> c.Key() == "rollouts.argoproj.io/gatewayapi-canary"
    ensures c.value != "" ==> c.Value() == c.value
    ensures c.value == "" ==> c.Value() == "in-progress"
  {
  }

  /** The label is there, with its value, exactly when the weight is not zero; no other label changes. */
  lemma {:induction false} MarkedMeaning(c: LabelConfig, weight: Int32, labels: LabelMap, key: string)
    ensures Lookup(Marked(c, weight, labels), key) ==
            if c.disabled || key != c.Key() then Lookup(labels, key)
            else if weight == 0 then None else Some(c.Value())
  {
  }
}
