/** JavaScript values as the lead-capture code sees them: a property that may
    be missing, JS truthiness of a string, the `x || d` fallback and the
    `param = d` default parameter, which differ on the empty string. */
module JsValue {

  /** A possibly missing value; `None` stands for `undefined`. */
  datatype Option<+T> = None | Some(value: T)

  /** JS truthiness of a string-valued property: present and non-empty. */
  predicate Truthy(x: Option<string>) {
    x.Some? && x.value != ""
  }

  /** `x || d`: the value itself when truthy, the fallback otherwise. */
  function Or(x: Option<string>, d: string): (r: string)
    ensures Truthy(x) ==> r == x.value
    ensures !Truthy(x) ==> r == d
  {
    match x
    case Some(v) => if v != "" then v else d
    case None => d
  }

  /** A default parameter `p = d`: applies only when the argument is
      `undefined`, so an explicit empty string is kept. */
  function WithDefault(x: Option<string>, d: string): (r: string)
    ensures x.Some? ==> r == x.value
    ensures x.None? ==> r == d
  {
    match x
    case Some(v) => v
    case None => d
  }

  /** The two defaulting forms only disagree on a present empty string. */
  lemma OrVersusDefault(x: Option<string>, d: string)
    ensures Or(x, d) != WithDefault(x, d) <==> x == Some("") && d != ""
  {
  }
}
