/**
 * The validation rules the Team and Profile forms register with the form
 * library: `required` with a message, and the e-mail `pattern`. A field's
 * value is `None` while it has never been set (after a reset) and the
 * text typed or set into it otherwise.
 */
module FormRules {
  import opened Wrappers
  import Text

  /** `required`: the field holds a non-empty value. */
  predicate Filled(v: Option<string>) {
    v.Some? && v.value != ""
  }

  /** The name field: required, with the message "Name is required". */
  function NameError(v: Option<string>): (e: Option<string>)
    ensures e.None? <==> Filled(v)
    ensures e.Some? ==> e.value == "Name is required"
  {
    if Filled(v) then None else Some("Name is required")
  }

  /** Any other required field, such as the password when adding a user. */
  function RequiredError(v: Option<string>, message: string): (e: Option<string>)
    ensures e.None? <==> Filled(v)
    ensures e.Some? ==> e.value == message
  {
    if Filled(v) then None else Some(message)
  }

  /**
   * The e-mail field: required first, then `^\S+@\S+\.\S+$`; the message of
   * the first rule that fails. An accepted value has the pattern's shape.
   */
  function EmailError(v: Option<string>): (e: Option<string>)
    ensures e.None? <==> Filled(v) && Text.EmailShape(v.value)
    ensures !Filled(v) ==> e == Some("Email is required")
    ensures Filled(v) && !Text.EmailShape(v.value) ==> e == Some("Invalid email format")
  {
    if !Filled(v) then Some("Email is required")
    else
      Text.EmailPatternMeansShape(v.value);
      if !Text.MatchesEmailPattern(v.value) then Some("Invalid email format") else None
  }

  /** The messages of the failing fields, in the order the fields appear. */
  function Messages(es: seq<Option<string>>): (ms: seq<string>)
    ensures |ms| <= |es|
    ensures |es| == 1 ==> ms == (if es[0].Some? then [es[0].value] else [])
    ensures ms == [] <==> forall i :: 0 <= i < |es| ==> es[i].None?
    ensures forall i :: 0 <= i < |es| && es[i].Some? ==> es[i].value in ms
    ensures forall m :: m in ms ==> exists i :: 0 <= i < |es| && es[i] == Some(m)
  {
    if es == [] then []
    else
      var rest := Messages(es[1..]);
      assert forall i :: 1 <= i < |es| ==> es[i] == es[1..][i - 1];
      if es[0].Some? then [es[0].value] + rest else rest
  }

  /**
   * Messages are collected field by field: those of two runs of fields are
   * the first run's followed by the second's. With the one-field case of
   * `Messages`, this fixes both the order and the number of the messages.
   */
  lemma {:induction false} MessagesAppend(a: seq<Option<string>>, b: seq<Option<string>>)
    ensures Messages(a + b) == Messages(a) + Messages(b)
    decreases |a|
  {
    if a == [] {
      assert a + b == b;
    } else {
      assert (a + b)[0] == a[0] && (a + b)[1..] == a[1..] + b;
      MessagesAppend(a[1..], b);
    }
  }
}
